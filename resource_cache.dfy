/**
 * The memoising resource loader (anim/resources/ResourceCache.java). load reads a resource through
 * loadFromStream the first time it is asked for and answers from the cache ever after; get only
 * looks at the cache. The class path and the subclass's decoder are outside the model: `streams`
 * says, for every resource found on the class path, what loadFromStream makes of it.
 */
module ResourceCaches {
  import opened Outcomes

  /** What loadFromStream makes of a resource's stream: a value, or an IOException. */
  datatype Decoded<T> = Decoded(value: T) | Unreadable

  /**
   * NotFound: getResourceAsStream found nothing, and requireNonNull throws a NullPointerException
   * naming the resource. ReadFailed: loadFromStream threw an IOException.
   */
  datatype ResourceFailure = NotFound(resource: string) | ReadFailed(resource: string)

  /** The message of the NullPointerException for a missing resource. */
  function NotFoundMessage(resource: string): (m: string)
    ensures |m| == |resource| + 21
    ensures m[..10] == "Resource `" && m[10..10 + |resource|] == resource && m[10 + |resource|..] == "` not found"
  {
    "Resource `" + resource + "` not found"
  }

  /** How loading a resource that is not cached yet fails, if it does. */
  function LoadFailure<T>(streams: map<string, Decoded<T>>, resource: string): (f: Option<ResourceFailure>)
    ensures f == Some(NotFound(resource)) <==> resource !in streams
    ensures f == Some(ReadFailed(resource)) <==> resource in streams && streams[resource].Unreadable?
    ensures f.None? <==> resource in streams && streams[resource].Decoded?
  {
    if resource !in streams then Some(NotFound(resource))
    else if streams[resource].Unreadable? then Some(ReadFailed(resource))
    else None
  }

  /** The position of the first resource in the list that cannot be loaded. */
  function FirstFailure<T>(streams: map<string, Decoded<T>>, resources: seq<string>): (r: Option<nat>)
    ensures r.None? <==> forall i :: 0 <= i < |resources| ==> LoadFailure(streams, resources[i]).None?
    ensures r.Some? ==> r.value < |resources| && LoadFailure(streams, resources[r.value]).Some? &&
                        forall i :: 0 <= i < r.value ==> LoadFailure(streams, resources[i]).None?
  {
    if resources == [] then None
    else if LoadFailure(streams, resources[0]).Some? then Some(0)
    else match FirstFailure(streams, resources[1..])
      case None => None
      case Some(i) => Some(i + 1)
  }

  /** The resources in the order of their first occurrence, each once. */
  function FirstOccurrences(resources: seq<string>): (r: seq<string>)
    ensures forall s :: s in r <==> s in resources
    ensures forall i, j :: 0 <= i < j < |r| ==> r[i] != r[j]
  {
    if resources == [] then []
    else
      var start := FirstOccurrences(resources[..|resources| - 1]);
      var last := resources[|resources| - 1];
      assert forall s :: s in resources <==> s in resources[..|resources| - 1] || s == last;
      if last in start then start else start + [last]
  }

  /** One more resource: it joins the end unless it was already there. */
  lemma FirstOccurrencesStep(resources: seq<string>, i: nat)
    requires i < |resources|
    ensures FirstOccurrences(resources[..i + 1]) ==
              if resources[i] in resources[..i] then FirstOccurrences(resources[..i])
              else FirstOccurrences(resources[..i]) + [resources[i]]
  {
    assert resources[..i + 1][..i] == resources[..i];
    assert resources[..i + 1] == resources[..i] + [resources[i]];
  }

  class ResourceCache<T> {
    /** What the class path and loadFromStream yield for each resource; resources not in it are missing. */
    const streams: map<string, Decoded<T>>
    var cache: map<string, T>
    /** The resources loadFromStream decoded, in order. */
    var loaded: seq<string>

    /** Every cached value is what the resource's stream decoded to, decoded exactly once. */
    ghost predicate Valid()
      reads this
    {
      (forall r :: r in cache <==> r in loaded) &&
      (forall i, j :: 0 <= i < j < |loaded| ==> loaded[i] != loaded[j]) &&
      forall r :: r in cache ==> r in streams && streams[r] == Decoded(cache[r])
    }

    /** The cache before the constructor's loop: empty. */
    constructor Empty(streams: map<string, Decoded<T>>)
      ensures Valid() && this.streams == streams && cache == map[] && loaded == []
    {
      this.streams := streams;
      cache := map[];
      loaded := [];
    }

    /**
     * load: a cached resource is answered from the cache. Otherwise a missing resource or an
     * unreadable stream fails and stores nothing, and a readable one is decoded, stored and returned.
     */
    method Load(resource: string) returns (r: Result<T, ResourceFailure>)
      requires Valid()
      modifies this
      ensures Valid()
      ensures resource in old(cache) ==> r == Ok(old(cache)[resource]) && cache == old(cache) && loaded == old(loaded)
      ensures resource !in old(cache) && LoadFailure(streams, resource).Some? ==>
                r == Err(LoadFailure(streams, resource).value) && cache == old(cache) && loaded == old(loaded)
      ensures resource !in old(cache) && LoadFailure(streams, resource).None? ==>
                r == Ok(streams[resource].value) && cache == old(cache)[resource := streams[resource].value] &&
                loaded == old(loaded) + [resource]
      ensures forall k :: k in old(cache) ==> k in cache && cache[k] == old(cache)[k]
    {
      if resource !in cache {
        if resource !in streams {
          return Err(NotFound(resource));
        }
        match streams[resource]
        case Unreadable =>
          return Err(ReadFailed(resource));
        case Decoded(v) =>
          cache := cache[resource := v];
          loaded := loaded + [resource];
      }
      return Ok(cache[resource]);
    }

    /** get: the cached value, or null; it never loads. */
    function Get(resource: string): (r: Option<T>)
      reads this
      ensures r.Some? <==> resource in cache
      ensures r.Some? ==> r.value == cache[resource]
    {
      if resource in cache then Some(cache[resource]) else None
    }
  }

  /**
   * The constructor: load for each listed resource, in order. The first resource that cannot be
   * loaded makes the constructor throw; otherwise every listed resource is cached, decoded once, in
   * the order of its first mention.
   */
  method Create<T>(streams: map<string, Decoded<T>>, resources: seq<string>) returns (r: Result<ResourceCache<T>, ResourceFailure>)
    ensures r.Err? <==> FirstFailure(streams, resources).Some?
    ensures r.Err? ==> Some(r.error) == LoadFailure(streams, resources[FirstFailure(streams, resources).value])
    ensures r.Ok? ==> fresh(r.value) && r.value.Valid() && r.value.streams == streams &&
                      (forall s :: s in r.value.cache <==> s in resources) &&
                      r.value.loaded == FirstOccurrences(resources)
  {
    var c := new ResourceCache.Empty(streams);
    var i := 0;
    while i < |resources|
      invariant 0 <= i <= |resources|
      invariant c.Valid() && c.streams == streams && fresh(c)
      invariant forall j :: 0 <= j < i ==> LoadFailure(streams, resources[j]).None?
      invariant c.loaded == FirstOccurrences(resources[..i])
    {
      var l := LoadNext(c, resources, i);
      if l.Err? {
        FirstFailureAt(streams, resources, i);
        return Err(l.error);
      }
      i := i + 1;
    }
    assert resources[..i] == resources;
    CachedExactlyListed(c, resources);
    return Ok(c);
  }

  /** One turn of the constructor's loop: load the i-th listed resource. */
  method LoadNext<T>(c: ResourceCache<T>, resources: seq<string>, i: nat) returns (l: Result<T, ResourceFailure>)
    requires c.Valid() && i < |resources| && c.loaded == FirstOccurrences(resources[..i])
    modifies c
    ensures c.Valid()
    ensures l.Err? ==> Some(l.error) == LoadFailure(c.streams, resources[i])
    ensures l.Ok? ==> LoadFailure(c.streams, resources[i]).None? && c.loaded == FirstOccurrences(resources[..i + 1])
  {
    l := c.Load(resources[i]);
    FirstOccurrencesStep(resources, i);
  }

  /** A failing resource preceded only by loadable ones is the first failure. */
  lemma FirstFailureAt<T>(streams: map<string, Decoded<T>>, resources: seq<string>, i: nat)
    requires i < |resources| && LoadFailure(streams, resources[i]).Some?
    requires forall j :: 0 <= j < i ==> LoadFailure(streams, resources[j]).None?
    ensures FirstFailure(streams, resources) == Some(i)
  {
  }

  /** A cache that loaded the list's resources in order of first mention holds exactly the listed resources. */
  lemma CachedExactlyListed<T>(c: ResourceCache<T>, resources: seq<string>)
    requires c.Valid() && c.loaded == FirstOccurrences(resources)
    ensures forall s :: s in c.cache <==> s in resources
  {
  }

  /** A second load of a resource answers from the cache: the stream is decoded once. */
  method LoadTwiceDecodesOnce<T>(c: ResourceCache<T>, resource: string) returns (first: Result<T, ResourceFailure>, second: Result<T, ResourceFailure>)
    requires c.Valid() && resource !in c.cache
    modifies c
    ensures first == second
    ensures first.Ok? ==> c.loaded == old(c.loaded) + [resource]
    ensures first.Err? ==> c.loaded == old(c.loaded) && c.Get(resource).None?
  {
    first := c.Load(resource);
    second := c.Load(resource);
  }
}
