/** Java's List operations on values that the models share: indexOf and remove(Object). */
module Lists {
  import opened Outcomes

  /** indexOf: the first position holding e. */
  function IndexOf<T(==)>(s: seq<T>, e: T): (r: Option<nat>)
    ensures r.None? <==> e !in s
    ensures r.Some? ==> r.value < |s| && s[r.value] == e && e !in s[..r.value]
  {
    if s == [] then None
    else if s[0] == e then Some(0)
    else match IndexOf(s[1..], e)
      case None => None
      case Some(k) => assert s[..k + 1] == [s[0]] + s[1..][..k]; Some(k + 1)
  }

  /** remove(Object): the list without its first e; unchanged when e is absent. */
  function RemoveFirst<T(==)>(s: seq<T>, e: T): seq<T>
  {
    match IndexOf(s, e)
    case None => s
    case Some(k) => s[..k] + s[k + 1..]
  }

  /** e occurs at most once. */
  predicate AtMostOnce<T(==)>(s: seq<T>, e: T)
  {
    match IndexOf(s, e)
    case None => true
    case Some(k) => e !in s[k + 1..]
  }

  /** remove(Object) takes away exactly one e when there is one, and nothing else. */
  lemma RemoveFirstRemovesOne<T>(s: seq<T>, e: T)
    ensures multiset(RemoveFirst(s, e)) == multiset(s) - multiset{e}
    ensures |RemoveFirst(s, e)| == |s| - (if e in s then 1 else 0)
  {
    match IndexOf(s, e)
    case None =>
    case Some(k) =>
      assert s == s[..k] + [e] + s[k + 1..];
      assert multiset(s) == multiset(s[..k]) + multiset{e} + multiset(s[k + 1..]);
  }

  /** Removing the first occurrence of an element that occurs at most once leaves none. */
  lemma RemoveFirstOfSingle<T>(s: seq<T>, e: T)
    requires AtMostOnce(s, e)
    ensures e !in RemoveFirst(s, e)
  {
  }

  /** add(Object) of an element the list does not hold yet makes it occur exactly once, at the end. */
  lemma AppendedOnce<T>(s: seq<T>, e: T)
    requires e !in s
    ensures IndexOf(s + [e], e) == Some(|s|) && AtMostOnce(s + [e], e)
  {
    var t := s + [e];
    assert t[|s|] == e;
    assert t[..|s|] == s;
  }
}
