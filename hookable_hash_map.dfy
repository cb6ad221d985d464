/**
 * A hash map that runs hooks on its updates (HookableHashMap.java). put, putIfAbsent and putAll hand
 * every entry to every put hook, in registration order, before they change the map; remove changes
 * the map first and then hands the removed entry to every remove hook. The hooks are code of the
 * caller: the model identifies each by a handle and records every run of a hook, in order.
 */
module HookableMaps {
  import opened Outcomes

  datatype HookKind = PutHook | RemoveHook

  /** One run of a hook: which hook ran and the entry it was handed. */
  datatype HookCall<K, V, H> = HookCall(kind: HookKind, hook: H, key: K, value: V)

  /** What remove throws: Map.entry rejects the null that remove returns for an absent key. */
  datatype MapFailure = NullEntryValue

  /** hooks.forEach(hook -> hook.accept(this, Map.entry(key, value))): each hook once, in order. */
  function Calls<K, V, H>(kind: HookKind, hooks: seq<H>, key: K, value: V): (r: seq<HookCall<K, V, H>>)
    ensures |r| == |hooks|
  {
    if hooks == [] then [] else [HookCall(kind, hooks[0], key, value)] + Calls(kind, hooks[1..], key, value)
  }

  /** Run j hands the entry to hook j. */
  lemma {:induction false} CallsAt<K, V, H>(kind: HookKind, hooks: seq<H>, key: K, value: V, j: nat)
    requires j < |hooks|
    ensures Calls(kind, hooks, key, value)[j] == HookCall(kind, hooks[j], key, value)
    decreases |hooks|
  {
    if j > 0 {
      CallsAt(kind, hooks[1..], key, value, j - 1);
    }
  }

  /** One more hook at the end of the list runs last. */
  lemma {:induction false} CallsAppend<K, V, H>(kind: HookKind, hooks: seq<H>, h: H, key: K, value: V)
    ensures Calls(kind, hooks + [h], key, value) == Calls(kind, hooks, key, value) + [HookCall(kind, h, key, value)]
    decreases |hooks|
  {
    if hooks != [] {
      assert (hooks + [h])[1..] == hooks[1..] + [h];
      CallsAppend(kind, hooks[1..], h, key, value);
    }
  }

  /** The hook runs of putAll: all put hooks for the first entry, then all for the second, and so on. */
  function PutAllCalls<K, V, H>(entries: seq<(K, V)>, hooks: seq<H>): (r: seq<HookCall<K, V, H>>)
    ensures |r| == |entries| * |hooks|
  {
    if entries == [] then []
    else
      var last := entries[|entries| - 1];
      var start := PutAllCalls(entries[..|entries| - 1], hooks);
      assert |start| + |hooks| == |entries| * |hooks| by {
        assert |start| == (|entries| - 1) * |hooks|;
      }
      start + Calls(PutHook, hooks, last.0, last.1)
  }

  /** Offset j of block i lies inside the first m + 1 blocks of n, and inside the first m unless i is the last. */
  lemma BlockOffset(i: nat, j: nat, m: nat, n: nat)
    requires i <= m && j < n
    ensures i * n + j < (m + 1) * n
    ensures i < m ==> i * n + j < m * n
    ensures i == m ==> i * n + j == m * n + j
  {
    assert i * n + j < i * n + n == (i + 1) * n;
    assert (i + 1) * n <= (m + 1) * n;
    if i < m {
      assert (i + 1) * n <= m * n;
    }
  }

  /** Run j of the block for entry i sits at i * |hooks| + j and hands entry i to hook j. */
  lemma {:induction false} PutAllCallsLayout<K, V, H>(entries: seq<(K, V)>, hooks: seq<H>, i: nat, j: nat)
    requires i < |entries| && j < |hooks|
    ensures i * |hooks| + j < |PutAllCalls(entries, hooks)|
    ensures PutAllCalls(entries, hooks)[i * |hooks| + j] == HookCall(PutHook, hooks[j], entries[i].0, entries[i].1)
    decreases |entries|
  {
    var m := |entries| - 1;
    var start := PutAllCalls(entries[..m], hooks);
    assert |start| == m * |hooks|;
    BlockOffset(i, j, m, |hooks|);
    if i < m {
      PutAllCallsLayout(entries[..m], hooks, i, j);
      assert entries[..m][i] == entries[i];
      assert i * |hooks| + j < |start|;
    } else {
      assert i * |hooks| + j == |start| + j;
      CallsAt(PutHook, hooks, entries[m].0, entries[m].1, j);
    }
  }

  /** One more entry adds its block of runs at the end. */
  lemma PutAllCallsSnoc<K, V, H>(entries: seq<(K, V)>, e: (K, V), hooks: seq<H>)
    ensures PutAllCalls(entries + [e], hooks) == PutAllCalls(entries, hooks) + Calls(PutHook, hooks, e.0, e.1)
  {
    assert (entries + [e])[..|entries|] == entries;
  }

  /** HashMap.putAll: the entries go in in order, so the last entry of a key decides its value. */
  function Inserted<K, V>(contents: map<K, V>, entries: seq<(K, V)>): (r: map<K, V>)
    ensures forall k :: k in contents ==> k in r
    ensures forall i :: 0 <= i < |entries| ==> entries[i].0 in r
  {
    if entries == [] then contents
    else
      var last := entries[|entries| - 1];
      var start := Inserted(contents, entries[..|entries| - 1]);
      assert forall i :: 0 <= i < |entries| - 1 ==> entries[i] == entries[..|entries| - 1][i];
      start[last.0 := last.1]
  }

  /** A key that no entry names keeps whatever it had. */
  lemma {:induction false} InsertedUntouched<K, V>(contents: map<K, V>, entries: seq<(K, V)>, k: K)
    requires forall i :: 0 <= i < |entries| ==> entries[i].0 != k
    ensures k in Inserted(contents, entries) <==> k in contents
    ensures k in contents ==> Inserted(contents, entries)[k] == contents[k]
    decreases |entries|
  {
    if entries != [] {
      var m := |entries| - 1;
      var start := entries[..m];
      assert forall i :: 0 <= i < m ==> start[i] == entries[i];
      InsertedUntouched(contents, start, k);
    }
  }

  /** The last entry that names a key decides its value. */
  lemma {:induction false} InsertedLastWins<K, V>(contents: map<K, V>, entries: seq<(K, V)>, i: nat)
    requires i < |entries|
    requires forall j :: i < j < |entries| ==> entries[j].0 != entries[i].0
    ensures entries[i].0 in Inserted(contents, entries)
    ensures Inserted(contents, entries)[entries[i].0] == entries[i].1
    decreases |entries|
  {
    var m := |entries| - 1;
    var start := entries[..m];
    if i < m {
      assert start[i] == entries[i];
      assert forall j :: i < j < m ==> start[j] == entries[j];
      InsertedLastWins(contents, start, i);
    }
  }

  /** The forEach over a hook list with one entry: the runs it adds to those in `done`. */
  method RunHooks<K, V, H>(done: seq<HookCall<K, V, H>>, kind: HookKind, hooks: seq<H>, key: K, value: V)
    returns (r: seq<HookCall<K, V, H>>)
    ensures r == done + Calls(kind, hooks, key, value)
  {
    r := done;
    var i := 0;
    while i < |hooks|
      invariant 0 <= i <= |hooks|
      invariant r == done + Calls(kind, hooks[..i], key, value)
    {
      CallsAppend(kind, hooks[..i], hooks[i], key, value);
      assert hooks[..i + 1] == hooks[..i] + [hooks[i]];
      r := r + [HookCall(kind, hooks[i], key, value)];
      i := i + 1;
    }
    assert hooks[..i] == hooks;
  }

  /** Each entry in turn handed to every hook: the runs putAll adds to those in `done`. */
  method RunPutAllHooks<K, V, H>(done: seq<HookCall<K, V, H>>, hooks: seq<H>, entries: seq<(K, V)>)
    returns (r: seq<HookCall<K, V, H>>)
    ensures r == done + PutAllCalls(entries, hooks)
  {
    r := done;
    var i := 0;
    while i < |entries|
      invariant 0 <= i <= |entries|
      invariant r == done + PutAllCalls(entries[..i], hooks)
    {
      r := RunHooks(r, PutHook, hooks, entries[i].0, entries[i].1);
      assert entries[..i + 1] == entries[..i] + [entries[i]];
      PutAllCallsSnoc(entries[..i], entries[i], hooks);
      i := i + 1;
    }
    assert entries[..i] == entries;
  }

  class HookableHashMap<K(==), V, H> {
    var contents: map<K, V>
    var putHooks: seq<H>
    var removeHooks: seq<H>
    /** Every run of a hook so far, in order. */
    var calls: seq<HookCall<K, V, H>>

    /** The private constructor: an empty map without hooks. */
    constructor ()
      ensures contents == map[] && putHooks == [] && removeHooks == [] && calls == []
    {
      contents := map[];
      putHooks := [];
      removeHooks := [];
      calls := [];
    }

    /** addPutHook: the hook runs after those added before it. */
    method AddPutHook(hook: H)
      modifies this
      ensures putHooks == old(putHooks) + [hook]
      ensures contents == old(contents) && removeHooks == old(removeHooks) && calls == old(calls)
    {
      putHooks := putHooks + [hook];
    }

    /** addRemoveHook: the hook runs after those added before it. */
    method AddRemoveHook(hook: H)
      modifies this
      ensures removeHooks == old(removeHooks) + [hook]
      ensures contents == old(contents) && putHooks == old(putHooks) && calls == old(calls)
    {
      removeHooks := removeHooks + [hook];
    }

    /** put: every put hook sees the entry, then the map takes it; the previous value is returned. */
    method Put(key: K, value: V) returns (previous: Option<V>)
      modifies this
      ensures calls == old(calls) + Calls(PutHook, putHooks, key, value)
      ensures previous == if key in old(contents) then Some(old(contents)[key]) else None
      ensures contents == old(contents)[key := value]
      ensures putHooks == old(putHooks) && removeHooks == old(removeHooks)
    {
      calls := RunHooks(calls, PutHook, putHooks, key, value);
      previous := if key in contents then Some(contents[key]) else None;
      contents := contents[key := value];
    }

    /** putIfAbsent: the put hooks run even when the key is present, and a present key keeps its value. */
    method PutIfAbsent(key: K, value: V) returns (previous: Option<V>)
      modifies this
      ensures calls == old(calls) + Calls(PutHook, putHooks, key, value)
      ensures previous == if key in old(contents) then Some(old(contents)[key]) else None
      ensures contents == if key in old(contents) then old(contents) else old(contents)[key := value]
      ensures putHooks == old(putHooks) && removeHooks == old(removeHooks)
    {
      calls := RunHooks(calls, PutHook, putHooks, key, value);
      previous := if key in contents then Some(contents[key]) else None;
      if key !in contents {
        contents := contents[key := value];
      }
    }

    /**
     * putAll: the hooks run for every entry of the given map, in its iteration order (the sequence
     * `entries`), before any entry goes in.
     */
    method PutAll(entries: seq<(K, V)>)
      modifies this
      ensures calls == old(calls) + PutAllCalls(entries, putHooks)
      ensures contents == Inserted(old(contents), entries)
      ensures putHooks == old(putHooks) && removeHooks == old(removeHooks)
    {
      calls := RunPutAllHooks(calls, putHooks, entries);
      contents := Inserted(contents, entries);
    }

    /**
     * remove: the key goes first; then every remove hook sees the key and the removed value. For an
     * absent key that value is null, which Map.entry rejects as soon as there is a remove hook.
     */
    method Remove(key: K) returns (r: Result<Option<V>, MapFailure>)
      modifies this
      ensures contents == old(contents) - {key}
      ensures key in old(contents) ==>
                r == Ok(Some(old(contents)[key])) &&
                calls == old(calls) + Calls(RemoveHook, removeHooks, key, old(contents)[key])
      ensures key !in old(contents) ==> contents == old(contents) && calls == old(calls)
      ensures key !in old(contents) ==> r == if removeHooks == [] then Ok(None) else Err(NullEntryValue)
      ensures putHooks == old(putHooks) && removeHooks == old(removeHooks)
    {
      var result := if key in contents then Some(contents[key]) else None;
      contents := contents - {key};
      if result.None? {
        if removeHooks != [] {
          return Err(NullEntryValue);
        }
        return Ok(None);
      }
      calls := RunHooks(calls, RemoveHook, removeHooks, key, result.value);
      return Ok(result);
    }

    /** get: the value stored under the key, or null. */
    function Get(key: K): (r: Option<V>)
      reads this
      ensures r.Some? <==> key in contents
      ensures r.Some? ==> r.value == contents[key]
    {
      if key in contents then Some(contents[key]) else None
    }
  }

  /** Builder: holds the one map it hands out and adds the hooks to it. */
  class Builder<K(==), V, H> {
    const built: HookableHashMap<K, V, H>

    constructor ()
      ensures fresh(built) && built.contents == map[] && built.putHooks == [] && built.removeHooks == [] && built.calls == []
    {
      built := new HookableHashMap();
    }

    method AddPutHook(hook: H) returns (b: Builder<K, V, H>)
      modifies built
      ensures b == this
      ensures built.putHooks == old(built.putHooks) + [hook]
      ensures built.contents == old(built.contents) && built.removeHooks == old(built.removeHooks) && built.calls == old(built.calls)
    {
      built.AddPutHook(hook);
      return this;
    }

    method AddRemoveHook(hook: H) returns (b: Builder<K, V, H>)
      modifies built
      ensures b == this
      ensures built.removeHooks == old(built.removeHooks) + [hook]
      ensures built.contents == old(built.contents) && built.putHooks == old(built.putHooks) && built.calls == old(built.calls)
    {
      built.AddRemoveHook(hook);
      return this;
    }

    /** build: the builder's own map, not a copy. */
    method Build() returns (m: HookableHashMap<K, V, H>)
      ensures m == built
    {
      return built;
    }
  }

  /**
   * Building twice yields one and the same map, and a hook added after the first build still
   * reaches the map that build returned.
   */
  method BuildTwice<K(==), V, H>(first: H, second: H) returns (m1: HookableHashMap<K, V, H>, m2: HookableHashMap<K, V, H>)
    ensures m1 == m2 && m1.putHooks == [first, second] && m1.calls == []
  {
    var b := new Builder<K, V, H>();
    var b1 := b.AddPutHook(first);
    m1 := b1.Build();
    var b2 := b.AddPutHook(second);
    m2 := b2.Build();
  }
}
