/** packages/runtime/src/sandbox-store.ts: the cache of sandboxes, one per (owner, sha),
    with a soft cap and least-recently-used eviction.

    Every entry ever made is kept in `entries`, so its index is its identity. `cache` is the
    insertion-ordered map, oldest first, as a list of identities. Signals that the source
    receives through promises and callbacks (build settled, run started or ended, worker
    terminated, store disposal reaching one entry) are steps that may come in any order. */
module SandboxStore {
  import opened Basics

  datatype Key = Key(text: string)

  /** `sandbox` is null in `Building` and `Failed`. */
  datatype Phase = Building | Failed | Ready(active: bool, dead: bool)

  /** `disposals` counts the store's calls of `dispose()` on the sandbox. */
  datatype Entry = Entry(key: Key, phase: Phase, runCount: nat, disposals: nat)

  /** `leaving`: the snapshot taken by the store's own `dispose`, not yet disposed of. */
  datatype State = State(entries: seq<Entry>, cache: seq<nat>, leaving: seq<nat>)

  const Empty := State([], [], [])

  datatype Act =
    | Get(key: Key)
    | BuildOk(id: nat)
    | BuildFail(id: nat)
    | Active(id: nat, on: bool)
    | Terminated(id: nat)
    | DisposeStore
    | DisposeLeaving(id: nat)

  // ---------------------------------------------------------------------------
  // Keys
  // ---------------------------------------------------------------------------

  function StoreKey(owner: string, sha: string): Key { Key(owner + "/" + sha) }

  /** Shas are hexadecimal: without a '/' in them a key names one (owner, sha). */
  lemma {:induction false} StoreKeyNamesOne(o1: string, s1: string, o2: string, s2: string)
    requires '/' !in s1 && '/' !in s2
    ensures StoreKey(o1, s1) == StoreKey(o2, s2) <==> o1 == o2 && s1 == s2
  {
    var k1, k2 := o1 + "/" + s1, o2 + "/" + s2;
    if k1 == k2 {
      KeyPartsAlign(o1, s1, o2, s2);
      KeyPartsAlign(o2, s2, o1, s1);
      assert o1 == k1[..|o1|] && o2 == k2[..|o2|];
      assert s1 == k1[|o1| + 1..] && s2 == k2[|o2| + 1..];
    }
  }

  lemma {:induction false} KeyPartsAlign(o1: string, s1: string, o2: string, s2: string)
    requires '/' !in s1 && o1 + "/" + s1 == o2 + "/" + s2
    ensures |o2| <= |o1|
  {
    var k1, k2 := o1 + "/" + s1, o2 + "/" + s2;
    assert k2[|o2|] == '/';
    forall p | |o1| < p < |k1| ensures k1[p] != '/' { assert k1[p] == s1[p - |o1| - 1]; }
  }

  // ---------------------------------------------------------------------------
  // Steps
  // ---------------------------------------------------------------------------

  /** Position in the cache of the entry with this key, or -1. */
  function Find(entries: seq<Entry>, cache: seq<nat>, key: Key, n: nat): (i: int)
    requires n <= |cache|
    ensures -1 <= i < n
    ensures i >= 0 ==> cache[i] < |entries| && entries[cache[i]].key == key
    ensures i < 0 ==> forall k :: 0 <= k < n && cache[k] < |entries| ==> entries[cache[k]].key != key
  {
    if n == 0 then -1
    else if cache[n - 1] < |entries| && entries[cache[n - 1]].key == key then n - 1
    else Find(entries, cache, key, n - 1)
  }

  predicate Evictable(entries: seq<Entry>, id: nat) {
    id < |entries| && entries[id].phase.Ready? && !entries[id].phase.active
  }

  /** The sweep's victims among the `n` oldest entries when `over` have to go. */
  function Victims(entries: seq<Entry>, cache: seq<nat>, over: nat, n: nat): (v: seq<nat>)
    requires n <= |cache|
    ensures |v| <= over && |v| <= n
  {
    if n == 0 then []
    else
      var v := Victims(entries, cache, over, n - 1);
      if |v| < over && Evictable(entries, cache[n - 1]) then v + [cache[n - 1]] else v
  }

  /** The first `n` entries without those in `gone`, order kept. */
  function Without(cache: seq<nat>, gone: seq<nat>, n: nat): (r: seq<nat>)
    requires n <= |cache|
  {
    if n == 0 then []
    else if cache[n - 1] in gone then Without(cache, gone, n - 1)
    else Without(cache, gone, n - 1) + [cache[n - 1]]
  }

  function Disposed(entries: seq<Entry>, gone: seq<nat>): (r: seq<Entry>)
    ensures |r| == |entries|
    ensures forall i :: 0 <= i < |entries| ==> r[i] == if i in gone then entries[i].(disposals := entries[i].disposals + 1) else entries[i]
  {
    seq(|entries|, i requires 0 <= i < |entries| => if i in gone then entries[i].(disposals := entries[i].disposals + 1) else entries[i])
  }

  function Over(cache: seq<nat>, maxCount: nat): nat { if |cache| <= maxCount then 0 else |cache| - maxCount }

  function Sweep(s: State, maxCount: nat): State {
    var v := Victims(s.entries, s.cache, Over(s.cache, maxCount), |s.cache|);
    s.(entries := Disposed(s.entries, v), cache := Without(s.cache, v, |s.cache|))
  }

  /** Drop `id` if the map still points to it under its key. */
  function Uncache(s: State, id: nat): State
    requires id < |s.entries|
  {
    var i := Find(s.entries, s.cache, s.entries[id].key, |s.cache|);
    if i >= 0 && s.cache[i] == id then s.(cache := RemoveAt(s.cache, i)) else s
  }

  function Touch(s: State, i: nat): State
    requires i < |s.cache| && s.cache[i] < |s.entries|
  {
    var id := s.cache[i];
    s.(cache := RemoveAt(s.cache, i) + [id], entries := s.entries[id := s.entries[id].(runCount := s.entries[id].runCount + 1)])
  }

  function Insert(s: State, key: Key): State {
    s.(entries := s.entries + [Entry(key, Building, 1, 0)], cache := s.cache + [|s.entries|])
  }

  function SetPhase(s: State, id: nat, p: Phase): State
    requires id < |s.entries|
  {
    s.(entries := s.entries[id := s.entries[id].(phase := p)])
  }

  /** Position of `id` in the snapshot, or -1. */
  function LeavingAt(s: State, id: nat, n: nat): (i: int)
    requires n <= |s.leaving|
    ensures -1 <= i < n && (i >= 0 ==> s.leaving[i] == id) && (i < 0 ==> id !in s.leaving[..n])
  {
    if n == 0 then -1
    else if s.leaving[n - 1] == id then n - 1
    else
      assert s.leaving[..n] == s.leaving[..n - 1] + [s.leaving[n - 1]];
      LeavingAt(s, id, n - 1)
  }

  function Step(s: State, a: Act, maxCount: nat): State {
    match a
    case Get(key) =>
      var i := Find(s.entries, s.cache, key, |s.cache|);
      if i >= 0 then Touch(s, i) else Sweep(Insert(s, key), maxCount)
    case BuildOk(id) =>
      if id < |s.entries| && s.entries[id].phase == Building then SetPhase(s, id, Ready(false, false)) else s
    case BuildFail(id) =>
      if id < |s.entries| && s.entries[id].phase == Building then Uncache(SetPhase(s, id, Failed), id) else s
    case Active(id, on) =>
      if id < |s.entries| && s.entries[id].phase.Ready? && !s.entries[id].phase.dead then SetPhase(s, id, Ready(on, false)) else s
    case Terminated(id) =>
      if id < |s.entries| && s.entries[id].phase.Ready? && !s.entries[id].phase.dead
        then Uncache(SetPhase(s, id, Ready(false, true)), id) else s
    case DisposeStore =>
      s.(cache := [], leaving := s.leaving + s.cache)
    case DisposeLeaving(id) =>
      var i := LeavingAt(s, id, |s.leaving|);
      if i < 0 || id >= |s.entries| || s.entries[id].phase == Building then s
      else
        var rest := s.(leaving := RemoveAt(s.leaving, i));
        if s.entries[id].phase == Failed then rest else rest.(entries := Disposed(s.entries, [id]))
  }

  function Run(acts: seq<Act>, maxCount: nat): State {
    if acts == [] then Empty else Step(Run(acts[..|acts| - 1], maxCount), acts[|acts| - 1], maxCount)
  }

  // ---------------------------------------------------------------------------
  // What a sweep does, without saying how
  // ---------------------------------------------------------------------------

  /** Built, and without a run in flight. */
  predicate Idle(entries: seq<Entry>, id: nat) {
    id < |entries| && match entries[id].phase { case Ready(active, _) => !active case Building => false case Failed => false }
  }

  /** Entries that a sweep may not touch: still building, or with a run in flight. */
  function BusyCount(entries: seq<Entry>, cache: seq<nat>, n: nat): (c: nat)
    requires n <= |cache|
    ensures c <= n
  {
    if n == 0 then 0 else BusyCount(entries, cache, n - 1) + if Idle(entries, cache[n - 1]) then 0 else 1
  }

  function Max(a: nat, b: nat): nat { if a >= b then a else b }
  function Min(a: nat, b: nat): nat { if a <= b then a else b }

  lemma {:induction false} VictimsCount(entries: seq<Entry>, cache: seq<nat>, over: nat, n: nat)
    requires n <= |cache|
    ensures |Victims(entries, cache, over, n)| == Min(over, n - BusyCount(entries, cache, n))
  {
    if n > 0 { VictimsCount(entries, cache, over, n - 1); }
  }

  lemma {:induction false} VictimsFrom(entries: seq<Entry>, cache: seq<nat>, over: nat, n: nat, id: nat)
    requires n <= |cache|
    ensures id in Victims(entries, cache, over, n) ==> Evictable(entries, id) && id in cache[..n]
  {
    if n > 0 {
      VictimsFrom(entries, cache, over, n - 1, id);
      assert cache[..n] == cache[..n - 1] + [cache[n - 1]];
    }
  }

  /** An idle entry that stays is younger than every victim. */
  lemma {:induction false} OldestGoFirst(entries: seq<Entry>, cache: seq<nat>, over: nat, n: nat, i: nat, j: nat)
    requires Distinct(cache) && i < j < n <= |cache|
    requires Evictable(entries, cache[i]) && cache[j] in Victims(entries, cache, over, n)
    ensures cache[i] in Victims(entries, cache, over, n)
  {
    if j < n - 1 {
      OldestGoFirst(entries, cache, over, n - 1, i, j);
    } else {
      VictimsFrom(entries, cache, over, n - 1, cache[j]);
      AllIdleIfRoom(entries, cache, over, n - 1, i);
    }
  }

  lemma {:induction false} AllIdleIfRoom(entries: seq<Entry>, cache: seq<nat>, over: nat, n: nat, i: nat)
    requires i < n <= |cache| && Evictable(entries, cache[i]) && |Victims(entries, cache, over, n)| < over
    ensures cache[i] in Victims(entries, cache, over, n)
  {
    if i < n - 1 { AllIdleIfRoom(entries, cache, over, n - 1, i); }
  }

  lemma {:induction false} WithoutMeaning(cache: seq<nat>, gone: seq<nat>, n: nat, id: nat)
    requires n <= |cache|
    ensures id in Without(cache, gone, n) <==> id in cache[..n] && id !in gone
  {
    if n > 0 {
      WithoutMeaning(cache, gone, n - 1, id);
      assert cache[..n] == cache[..n - 1] + [cache[n - 1]];
    }
  }

  lemma {:induction false} VictimChosenOnTurn(entries: seq<Entry>, cache: seq<nat>, over: nat, n: nat, m: nat, k: nat)
    requires Distinct(cache) && k < n <= m <= |cache|
    ensures cache[k] in Victims(entries, cache, over, m) <==> cache[k] in Victims(entries, cache, over, n)
  {
    if n < m { VictimChosenOnTurn(entries, cache, over, n, m - 1, k); }
  }

  lemma {:induction false} WithoutCount(entries: seq<Entry>, cache: seq<nat>, over: nat, n: nat)
    requires Distinct(cache) && n <= |cache|
    ensures |Without(cache, Victims(entries, cache, over, |cache|), n)| == n - |Victims(entries, cache, over, n)|
  {
    if n > 0 {
      WithoutCount(entries, cache, over, n - 1);
      VictimChosenOnTurn(entries, cache, over, n, |cache|, n - 1);
      VictimsFrom(entries, cache, over, n - 1, cache[n - 1]);
    }
  }

  lemma {:induction false} SweepFacts(s: State, maxCount: nat)
    requires Distinct(s.cache)
    ensures |Sweep(s, maxCount).cache| == if |s.cache| <= maxCount then |s.cache|
      else Max(maxCount, BusyCount(s.entries, s.cache, |s.cache|))
    ensures forall id :: id in s.cache && id !in Sweep(s, maxCount).cache ==> Evictable(s.entries, id)
    ensures forall i, j ::
      0 <= i < j < |s.cache| && s.cache[j] !in Sweep(s, maxCount).cache && Evictable(s.entries, s.cache[i]) ==>
        s.cache[i] !in Sweep(s, maxCount).cache
  {
    var c, over := s.cache, Over(s.cache, maxCount);
    var v := Victims(s.entries, c, over, |c|);
    VictimsCount(s.entries, c, over, |c|);
    WithoutCount(s.entries, c, over, |c|);
    assert c[..|c|] == c;
    forall id ensures id in Sweep(s, maxCount).cache <==> id in c && id !in v { WithoutMeaning(c, v, |c|, id); }
    forall id { VictimsFrom(s.entries, c, over, |c|, id); }
    forall i, j | 0 <= i < j < |c| && c[j] in v && Evictable(s.entries, c[i]) ensures c[i] in v {
      OldestGoFirst(s.entries, c, over, |c|, i, j);
    }
  }

  /** After a sweep the size is the cap, or the number of busy entries if that is more;
      only idle entries go, and an idle entry that stays is younger than all of them. */
  lemma {:induction false} SweepExact(s: State, maxCount: nat)
    requires Distinct(s.cache)
    ensures |Sweep(s, maxCount).cache| == if |s.cache| <= maxCount then |s.cache|
      else Max(maxCount, BusyCount(s.entries, s.cache, |s.cache|))
    ensures forall id :: id in s.cache && id !in Sweep(s, maxCount).cache ==> Idle(s.entries, id)
    ensures forall i, j ::
      0 <= i < j < |s.cache| && s.cache[j] !in Sweep(s, maxCount).cache && Idle(s.entries, s.cache[i]) ==>
        s.cache[i] !in Sweep(s, maxCount).cache
  {
    SweepFacts(s, maxCount);
    IdleIsEvictable(s.entries);
  }

  lemma {:induction false} IdleIsEvictable(entries: seq<Entry>)
    ensures forall id: nat :: Idle(entries, id) <==> Evictable(entries, id)
  {
  }

  // ---------------------------------------------------------------------------
  // Invariant over every history
  // ---------------------------------------------------------------------------

  ghost predicate CacheOk(s: State) {
    && Distinct(s.cache)
    && (forall i :: 0 <= i < |s.cache| ==> s.cache[i] < |s.entries|)
    && (forall i, j :: 0 <= i < j < |s.cache| ==> s.entries[s.cache[i]].key != s.entries[s.cache[j]].key)
  }

  ghost predicate EntryOk(s: State, id: nat)
    requires id < |s.entries|
  {
    var e := s.entries[id];
    && e.disposals <= 1
    && (e.disposals == 1 ==> id !in s.cache && id !in s.leaving && e.phase.Ready?)
    && (id in s.cache ==> id !in s.leaving && e.phase != Failed && !(e.phase.Ready? && e.phase.dead))
    && (e.phase == Building ==> id in s.cache || id in s.leaving)
    && (e.phase.Ready? && !e.phase.dead ==> id in s.cache || id in s.leaving || e.disposals == 1)
  }

  ghost predicate Inv(s: State) {
    && CacheOk(s) && Distinct(s.leaving)
    && (forall i :: 0 <= i < |s.leaving| ==> s.leaving[i] < |s.entries|)
    && forall id: nat :: id < |s.entries| ==> EntryOk(s, id)
  }

  /** Removing one position drops exactly that entry. */
  lemma {:induction false} RemovedAt(c: seq<nat>, i: nat, id: nat)
    requires Distinct(c) && i < |c|
    ensures id in RemoveAt(c, i) <==> id in c && id != c[i]
  {
    assert c == c[..i] + [c[i]] + c[i + 1..];
  }

  /** The key of a cached entry leads to that entry. */
  lemma {:induction false} FindsOwn(s: State, k: nat)
    requires CacheOk(s) && k < |s.cache|
    ensures Find(s.entries, s.cache, s.entries[s.cache[k]].key, |s.cache|) == k
  {
    var i := Find(s.entries, s.cache, s.entries[s.cache[k]].key, |s.cache|);
    if i >= 0 { assert s.entries[s.cache[i]].key == s.entries[s.cache[k]].key; }
  }

  /** A termination or failed build drops its own entry, never a newer one of the same key. */
  lemma {:induction false} UncacheDropsOwn(s: State, id: nat)
    requires CacheOk(s) && id < |s.entries|
    ensures Uncache(s, id) == s.(cache := Without(s.cache, [id], |s.cache|))
    ensures CacheOk(Uncache(s, id))
  {
    assert Uncache(s, id).cache == Without(s.cache, [id], |s.cache|) by {
      if k :| 0 <= k < |s.cache| && s.cache[k] == id {
        FindsOwn(s, k);
        WithoutOne(s.cache, id, k, |s.cache|);
        assert s.cache[k + 1..|s.cache|] == s.cache[k + 1..];
      } else {
        WithoutNone(s.cache, id, |s.cache|);
        assert s.cache[..|s.cache|] == s.cache;
      }
    }
    SubCacheOk(s, [id]);
  }

  lemma {:induction false} WithoutNone(c: seq<nat>, id: nat, n: nat)
    requires n <= |c| && forall k :: 0 <= k < n ==> c[k] != id
    ensures Without(c, [id], n) == c[..n]
  {
    if n > 0 {
      WithoutNone(c, id, n - 1);
      assert c[..n] == c[..n - 1] + [c[n - 1]];
    }
  }

  lemma {:induction false} WithoutOne(c: seq<nat>, id: nat, i: nat, n: nat)
    requires Distinct(c) && i < n <= |c| && c[i] == id
    ensures Without(c, [id], n) == c[..i] + c[i + 1..n]
  {
    if i == n - 1 {
      WithoutNone(c, id, n - 1);
    } else {
      WithoutOne(c, id, i, n - 1);
      assert c[i + 1..n] == c[i + 1..n - 1] + [c[n - 1]];
    }
  }

  /** Survivors keep their order. */
  lemma {:induction false} SurvivorAt(c: seq<nat>, gone: seq<nat>, n: nat, p: nat) returns (i: nat)
    requires n <= |c| && p < |Without(c, gone, n)|
    ensures i < n && c[i] == Without(c, gone, n)[p]
  {
    if p < |Without(c, gone, n - 1)| { i := SurvivorAt(c, gone, n - 1, p); } else { i := n - 1; }
  }

  lemma {:induction false} SurvivorsInOrder(c: seq<nat>, gone: seq<nat>, n: nat, p: nat, q: nat) returns (i: nat, j: nat)
    requires n <= |c| && p < q < |Without(c, gone, n)|
    ensures i < j < n && c[i] == Without(c, gone, n)[p] && c[j] == Without(c, gone, n)[q]
  {
    if q < |Without(c, gone, n - 1)| {
      i, j := SurvivorsInOrder(c, gone, n - 1, p, q);
    } else {
      i := SurvivorAt(c, gone, n - 1, p);
      j := n - 1;
    }
  }

  lemma {:induction false} SubCacheOk(s: State, gone: seq<nat>)
    requires CacheOk(s)
    ensures CacheOk(s.(cache := Without(s.cache, gone, |s.cache|)))
  {
    var w := Without(s.cache, gone, |s.cache|);
    forall p | 0 <= p < |w| ensures w[p] < |s.entries| { var i := SurvivorAt(s.cache, gone, |s.cache|, p); }
    forall p, q | 0 <= p < q < |w| ensures w[p] != w[q] && s.entries[w[p]].key != s.entries[w[q]].key {
      var i, j := SurvivorsInOrder(s.cache, gone, |s.cache|, p, q);
    }
  }

  lemma {:induction false} UncacheKeepsInv(s: State, id: nat)
    requires CacheOk(s) && Distinct(s.leaving) && id < |s.entries|
    requires forall i :: 0 <= i < |s.leaving| ==> s.leaving[i] < |s.entries|
    requires forall k: nat :: k < |s.entries| && k != id ==> EntryOk(s, k)
    requires EntryOk(s.(cache := []), id)
    ensures Inv(Uncache(s, id))
  {
    UncacheDropsOwn(s, id);
    var t := Uncache(s, id);
    assert s.cache[..|s.cache|] == s.cache;
    forall k: nat | k < |s.entries| ensures EntryOk(t, k) {
      WithoutMeaning(s.cache, [id], |s.cache|, k);
      assert k != id ==> EntryOk(s, k);
    }
  }

  lemma {:induction false} SweepKeepsInv(s: State, maxCount: nat)
    requires Inv(s)
    ensures Inv(Sweep(s, maxCount))
  {
    var c, t := s.cache, Sweep(s, maxCount);
    var over := Over(c, maxCount);
    var v := Victims(s.entries, c, over, |c|);
    SubCacheOk(s, v);
    assert c[..|c|] == c;
    forall k: nat | k < |s.entries| ensures EntryOk(t, k) {
      assert EntryOk(s, k);
      WithoutMeaning(c, v, |c|, k);
      VictimsFrom(s.entries, c, over, |c|, k);
    }
  }

  lemma {:induction false} InsertKeepsInv(s: State, key: Key)
    requires Inv(s) && Find(s.entries, s.cache, key, |s.cache|) < 0
    ensures Inv(Insert(s, key))
  {
    var t := Insert(s, key);
    forall k: nat | k < |t.entries| ensures EntryOk(t, k) { if k < |s.entries| { assert EntryOk(s, k); } }
  }

  lemma {:induction false} TouchKeepsInv(s: State, i: nat)
    requires Inv(s) && i < |s.cache|
    ensures Inv(Touch(s, i))
  {
    var t := Touch(s, i);
    forall k: nat | k < |t.entries| ensures EntryOk(t, k) {
      assert EntryOk(s, k);
      RemovedAt(s.cache, i, k);
    }
  }

  lemma {:induction false} SettleKeepsInv(s: State, a: Act, maxCount: nat)
    requires Inv(s) && (a.BuildOk? || a.BuildFail? || a.Active? || a.Terminated?)
    ensures Inv(Step(s, a, maxCount))
  {
    var id := a.id;
    if Step(s, a, maxCount) != s {
      assert EntryOk(s, id);
      var p := match a
        case BuildOk(_) => Ready(false, false)
        case BuildFail(_) => Failed
        case Active(_, on) => Ready(on, false)
        case _ => Ready(false, true);
      var t := SetPhase(s, id, p);
      forall k: nat | k < |t.entries| && k != id ensures EntryOk(t, k) { assert EntryOk(s, k); }
      if a.BuildFail? || a.Terminated? { UncacheKeepsInv(t, id); } else { assert EntryOk(t, id); }
    }
  }

  lemma {:induction false} SnapshotKeepsInv(s: State, maxCount: nat)
    requires Inv(s)
    ensures Inv(Step(s, DisposeStore, maxCount))
  {
    var t := Step(s, DisposeStore, maxCount);
    forall i, j | 0 <= i < j < |t.leaving| ensures t.leaving[i] != t.leaving[j] {
      if i < |s.leaving| <= j { assert EntryOk(s, s.leaving[i]); assert t.leaving[j] in s.cache; }
    }
    forall k: nat | k < |t.entries| ensures EntryOk(t, k) { assert EntryOk(s, k); }
  }

  lemma {:induction false} LeavingKeepsInv(s: State, id: nat, maxCount: nat)
    requires Inv(s)
    ensures Inv(Step(s, DisposeLeaving(id), maxCount))
  {
    var t := Step(s, DisposeLeaving(id), maxCount);
    if t != s {
      var i := LeavingAt(s, id, |s.leaving|);
      forall k: nat | k < |t.entries| ensures EntryOk(t, k) {
        assert EntryOk(s, k);
        RemovedAt(s.leaving, i, k);
      }
    }
  }

  lemma {:induction false} StepKeepsInv(s: State, a: Act, maxCount: nat)
    requires Inv(s)
    ensures Inv(Step(s, a, maxCount))
  {
    match a {
      case Get(key) =>
        var i := Find(s.entries, s.cache, key, |s.cache|);
        if i >= 0 {
          TouchKeepsInv(s, i);
        } else {
          InsertKeepsInv(s, key);
          SweepKeepsInv(Insert(s, key), maxCount);
        }
      case DisposeStore => SnapshotKeepsInv(s, maxCount);
      case DisposeLeaving(id) => LeavingKeepsInv(s, id, maxCount);
      case _ => SettleKeepsInv(s, a, maxCount);
    }
  }

  lemma {:induction false} RunKeepsInv(acts: seq<Act>, maxCount: nat)
    ensures Inv(Run(acts, maxCount))
  {
    if acts != [] {
      var n := |acts| - 1;
      RunKeepsInv(acts[..n], maxCount);
      StepKeepsInv(Run(acts[..n], maxCount), acts[n], maxCount);
    }
  }

  // ---------------------------------------------------------------------------
  // Recency
  // ---------------------------------------------------------------------------

  /** When `key` was last requested: one more than the position of that request, 0 for never. */
  function LastGet(acts: seq<Act>, key: Key): (n: nat)
    ensures n <= |acts|
  {
    if acts == [] then 0
    else if acts[|acts| - 1] == Get(key) then |acts|
    else LastGet(acts[..|acts| - 1], key)
  }

  function KeyAt(s: State, i: nat): Key
    requires CacheOk(s) && i < |s.cache|
  {
    s.entries[s.cache[i]].key
  }

  /** The cache is in the order of the last requests. */
  ghost predicate ByRecency(acts: seq<Act>, s: State) {
    CacheOk(s) && forall i, j :: 0 <= i < j < |s.cache| ==> LastGet(acts, KeyAt(s, i)) < LastGet(acts, KeyAt(s, j))
  }

  lemma {:induction false} SubByRecency(acts: seq<Act>, s: State, t: State, gone: seq<nat>)
    requires ByRecency(acts, s) && CacheOk(t) && t.cache == Without(s.cache, gone, |s.cache|)
    requires |t.entries| == |s.entries| && forall k :: 0 <= k < |s.entries| ==> t.entries[k].key == s.entries[k].key
    ensures ByRecency(acts, t)
  {
    forall p, q | 0 <= p < q < |t.cache| ensures LastGet(acts, KeyAt(t, p)) < LastGet(acts, KeyAt(t, q)) {
      var i, j := SurvivorsInOrder(s.cache, gone, |s.cache|, p, q);
      assert KeyAt(t, p) == KeyAt(s, i) && KeyAt(t, q) == KeyAt(s, j);
    }
  }

  /** A request makes its key the most recent one and no other key any more recent. */
  lemma {:induction false} RequestLast(acts: seq<Act>, a: Act, key: Key)
    ensures LastGet(acts + [a], key) == if a == Get(key) then |acts| + 1 else LastGet(acts, key)
  {
    assert (acts + [a])[..|acts|] == acts;
  }

  lemma {:induction false} TouchByRecency(acts: seq<Act>, s: State, i: nat)
    requires Inv(s) && ByRecency(acts, s) && i < |s.cache|
    ensures ByRecency(acts + [Get(KeyAt(s, i))], Touch(s, i))
  {
    var t, now := Touch(s, i), acts + [Get(KeyAt(s, i))];
    TouchKeepsInv(s, i);
    forall p, q | 0 <= p < q < |t.cache| ensures LastGet(now, KeyAt(t, p)) < LastGet(now, KeyAt(t, q)) {
      var p' := if p < i then p else p + 1;
      assert KeyAt(t, p) == KeyAt(s, p');
      RequestLast(acts, Get(KeyAt(s, i)), KeyAt(t, p));
      RequestLast(acts, Get(KeyAt(s, i)), KeyAt(t, q));
      if q < |t.cache| - 1 {
        var q' := if q < i then q else q + 1;
        assert KeyAt(t, q) == KeyAt(s, q') && LastGet(acts, KeyAt(s, p')) < LastGet(acts, KeyAt(s, q'));
      }
    }
  }

  lemma {:induction false} InsertByRecency(acts: seq<Act>, s: State, key: Key)
    requires Inv(s) && ByRecency(acts, s) && Find(s.entries, s.cache, key, |s.cache|) < 0
    ensures ByRecency(acts + [Get(key)], Insert(s, key))
  {
    var t, now := Insert(s, key), acts + [Get(key)];
    InsertKeepsInv(s, key);
    forall p, q | 0 <= p < q < |t.cache| ensures LastGet(now, KeyAt(t, p)) < LastGet(now, KeyAt(t, q)) {
      assert KeyAt(t, p) == KeyAt(s, p);
      RequestLast(acts, Get(key), KeyAt(t, p));
      RequestLast(acts, Get(key), KeyAt(t, q));
      if q < |s.cache| { assert LastGet(acts, KeyAt(s, p)) < LastGet(acts, KeyAt(s, q)); }
    }
  }

  lemma {:induction false} WithoutNothing(c: seq<nat>, n: nat)
    requires n <= |c|
    ensures Without(c, [], n) == c[..n] && Without(c, c, n) == []
  {
    if n > 0 {
      WithoutNothing(c, n - 1);
      assert c[..n] == c[..n - 1] + [c[n - 1]];
    }
  }

  predicate Signals(s: State, a: Act) {
    match a
    case BuildFail(id) => id < |s.entries| && s.entries[id].phase == Building
    case Terminated(id) => id < |s.entries| && s.entries[id].phase.Ready? && !s.entries[id].phase.dead
    case _ => false
  }

  /** What leaves the cache between requests. */
  function GoneBy(s: State, a: Act): seq<nat> {
    if a.DisposeStore? then s.cache else if Signals(s, a) then [a.id] else []
  }

  lemma {:induction false} QuietOnlyDrops(s: State, a: Act, maxCount: nat)
    requires CacheOk(s) && !a.Get?
    ensures Step(s, a, maxCount).cache == Without(s.cache, GoneBy(s, a), |s.cache|)
  {
    if Signals(s, a) {
      DropsOwn(s, a.id, if a.BuildFail? then Failed else Ready(false, true));
    } else {
      WithoutNothing(s.cache, |s.cache|);
      assert s.cache[..|s.cache|] == s.cache;
    }
  }

  lemma {:induction false} QuietKeepsKeys(s: State, a: Act, maxCount: nat)
    requires !a.Get?
    ensures var t := Step(s, a, maxCount);
      |t.entries| == |s.entries| && forall k :: 0 <= k < |s.entries| ==> t.entries[k].key == s.entries[k].key
  {
    match a
    case BuildFail(id) => if Signals(s, a) { KeysKept(s, id, Failed); }
    case Terminated(id) => if Signals(s, a) { KeysKept(s, id, Ready(false, true)); }
    case _ =>
  }

  lemma {:induction false} KeysKept(s: State, id: nat, p: Phase)
    requires id < |s.entries|
    ensures var t := Uncache(SetPhase(s, id, p), id);
      |t.entries| == |s.entries| && forall k :: 0 <= k < |s.entries| ==> t.entries[k].key == s.entries[k].key
  {
  }

  lemma {:induction false} PhaseKeepsCacheOk(s: State, id: nat, p: Phase)
    requires CacheOk(s) && id < |s.entries|
    ensures CacheOk(SetPhase(s, id, p))
  {
  }

  lemma {:induction false} DropsOwn(s: State, id: nat, p: Phase)
    requires CacheOk(s) && id < |s.entries|
    ensures Uncache(SetPhase(s, id, p), id).cache == Without(s.cache, [id], |s.cache|)
  {
    UncacheDropsOwn(SetPhase(s, id, p), id);
  }

  lemma {:induction false} QuietByRecency(acts: seq<Act>, s: State, a: Act, maxCount: nat)
    requires Inv(s) && ByRecency(acts, s) && !a.Get?
    ensures ByRecency(acts + [a], Step(s, a, maxCount))
  {
    var t := Step(s, a, maxCount);
    assert Inv(t) by { StepKeepsInv(s, a, maxCount); }
    QuietOnlyDrops(s, a, maxCount);
    QuietKeepsKeys(s, a, maxCount);
    SubByRecency(acts, s, t, GoneBy(s, a));
    SameRecency(acts, t, a);
  }

  lemma {:induction false} SameRecency(acts: seq<Act>, t: State, a: Act)
    requires ByRecency(acts, t) && !a.Get?
    ensures ByRecency(acts + [a], t)
  {
    forall i | 0 <= i < |t.cache| ensures LastGet(acts + [a], KeyAt(t, i)) == LastGet(acts, KeyAt(t, i)) {
      RequestLast(acts, a, KeyAt(t, i));
    }
  }

  lemma {:induction false} RunByRecency(acts: seq<Act>, maxCount: nat)
    ensures ByRecency(acts, Run(acts, maxCount))
  {
    if acts != [] {
      var n := |acts| - 1;
      var before, a := acts[..n], acts[n];
      var s := Run(before, maxCount);
      RunByRecency(before, maxCount);
      RunKeepsInv(before, maxCount);
      assert acts == before + [a];
      if a.Get? {
        GetByRecency(before, s, a.key, maxCount);
      } else {
        QuietByRecency(before, s, a, maxCount);
      }
    }
  }

  lemma {:induction false} GetByRecency(acts: seq<Act>, s: State, key: Key, maxCount: nat)
    requires Inv(s) && ByRecency(acts, s)
    ensures ByRecency(acts + [Get(key)], Step(s, Get(key), maxCount))
  {
    var i := Find(s.entries, s.cache, key, |s.cache|);
    if i >= 0 {
      TouchByRecency(acts, s, i);
    } else {
      var u := Insert(s, key);
      InsertKeepsInv(s, key);
      InsertByRecency(acts, s, key);
      SweepKeepsInv(u, maxCount);
      SubByRecency(acts + [Get(key)], u, Sweep(u, maxCount), Victims(u.entries, u.cache, Over(u.cache, maxCount), |u.cache|));
    }
  }

  // ---------------------------------------------------------------------------
  // Main results
  // ---------------------------------------------------------------------------

  predicate Cached(s: State, key: Key) { Find(s.entries, s.cache, key, |s.cache|) >= 0 }

  /** At any moment of any history: one entry per key, in order of last request. */
  lemma {:induction false} CacheInRequestOrder(acts: seq<Act>, maxCount: nat, i: nat, j: nat)
    requires i < j < |Run(acts, maxCount).cache|
    ensures var s := Run(acts, maxCount); s.cache[j] < |s.entries| && s.cache[i] < |s.entries|
    ensures var s := Run(acts, maxCount); var a, b := s.entries[s.cache[i]].key, s.entries[s.cache[j]].key;
      a != b && LastGet(acts, a) < LastGet(acts, b)
  {
    RunByRecency(acts, maxCount);
    var s := Run(acts, maxCount);
    assert KeyAt(s, i) == s.entries[s.cache[i]].key && KeyAt(s, j) == s.entries[s.cache[j]].key;
  }

  /** A request for an uncached key, after any history. With the new entry counted, the cache
      shrinks to the cap or to its busy entries, whichever is more; what leaves was idle and
      was requested longer ago than every idle entry that stays; the rest keeps its order,
      and the new entry is in. */
  lemma {:induction false} MissEvictsOldestIdle(acts: seq<Act>, maxCount: nat, key: Key)
    requires !Cached(Run(acts, maxCount), key)
    ensures var u, t := Insert(Run(acts, maxCount), key), Run(acts + [Get(key)], maxCount);
      && |t.cache| == (if |u.cache| <= maxCount then |u.cache| else Max(maxCount, BusyCount(u.entries, u.cache, |u.cache|)))
      && (exists gone :: t.cache == Without(u.cache, gone, |u.cache|))
      && |u.entries| - 1 in t.cache && Inv(u)
      && (forall id :: id in u.cache && id !in t.cache ==> Idle(u.entries, id))
      && (forall v, k :: v in u.cache && v !in t.cache && k in t.cache && Idle(u.entries, k) ==>
        LastGet(acts, u.entries[v].key) < LastGet(acts, u.entries[k].key))
  {
    var s := Run(acts, maxCount);
    var u := Insert(s, key);
    var t := Sweep(u, maxCount);
    assert (acts + [Get(key)])[..|acts|] == acts && Run(acts + [Get(key)], maxCount) == t;
    assert Inv(s) && Inv(u) by { RunKeepsInv(acts, maxCount); InsertKeepsInv(s, key); }
    SweepExact(u, maxCount);
    RunByRecency(acts, maxCount);
    var gone := Victims(u.entries, u.cache, Over(u.cache, maxCount), |u.cache|);
    assert t.cache == Without(u.cache, gone, |u.cache|);
    var n := |u.entries| - 1;
    assert u.cache[|u.cache| - 1] == n && !Evictable(u.entries, n);
    IdleIsEvictable(u.entries);
    forall v, k | v in u.cache && v !in t.cache && k in t.cache && Evictable(u.entries, k)
      ensures LastGet(acts, u.entries[v].key) < LastGet(acts, u.entries[k].key)
    {
      WithoutMeaning(u.cache, gone, |u.cache|, k);
      VictimOlder(acts, s, u, t, v, k);
    }
  }

  lemma {:induction false} VictimOlder(acts: seq<Act>, s: State, u: State, t: State, v: nat, k: nat)
    requires ByRecency(acts, s) && |u.entries| == |s.entries| + 1 && u.cache == s.cache + [|s.entries|]
      && u.entries[..|s.entries|] == s.entries
    requires v in u.cache && v !in t.cache && k in u.cache && k in t.cache && Evictable(u.entries, k) && Evictable(u.entries, v)
    requires !Evictable(u.entries, |s.entries|)
    requires forall i, j :: 0 <= i < j < |u.cache| && u.cache[j] !in t.cache && Evictable(u.entries, u.cache[i]) ==> u.cache[i] !in t.cache
    ensures LastGet(acts, u.entries[v].key) < LastGet(acts, u.entries[k].key)
  {
    var i :| 0 <= i < |u.cache| && u.cache[i] == v;
    var j :| 0 <= j < |u.cache| && u.cache[j] == k;
    assert i < j < |s.cache|;
    assert KeyAt(s, i) == u.entries[v].key && KeyAt(s, j) == u.entries[k].key;
  }

  /** A late termination or failed build removes its own entry from the cache, if it is
      still there, and nothing else: in particular not a newer entry of the same key. */
  lemma {:induction false} StaleSignalKeepsNewer(acts: seq<Act>, maxCount: nat, a: Act)
    requires a.BuildFail? || a.Terminated?
    ensures var s, t := Run(acts, maxCount), Run(acts + [a], maxCount); t.cache == s.cache || t.cache == Without(s.cache, [a.id], |s.cache|)
  {
    var s := Run(acts, maxCount);
    assert (acts + [a])[..|acts|] == acts && Run(acts + [a], maxCount) == Step(s, a, maxCount);
    RunKeepsInv(acts, maxCount);
    if Step(s, a, maxCount) != s { DropsOwn(s, a.id, if a.BuildFail? then Failed else Ready(false, true)); }
  }

  /** No sandbox is disposed of twice, none while it can still be handed out, and none is
      forgotten: a live one is cached, waiting in the shutdown snapshot, or disposed of. */
  lemma {:induction false} DisposedOnceNeverLost(acts: seq<Act>, maxCount: nat, id: nat)
    requires id < |Run(acts, maxCount).entries|
    ensures var s := Run(acts, maxCount); var e := s.entries[id];
      && e.disposals <= 1
      && (e.disposals == 1 ==> e.phase.Ready? && id !in s.cache && id !in s.leaving)
      && (e.phase.Ready? && !e.phase.dead ==> id in s.cache || id in s.leaving || e.disposals == 1)
      && (e.phase == Building ==> id in s.cache || id in s.leaving)
  {
    RunKeepsInv(acts, maxCount);
    assert EntryOk(Run(acts, maxCount), id);
  }

  // ---------------------------------------------------------------------------
  // Which sandbox a request sweeps away, handed out or not
  // ---------------------------------------------------------------------------

  /** The entry at position `i` is idle, and the entries requested after it and the busy ones
      requested before it fill the cache by themselves. */
  predicate Due(u: State, maxCount: nat, i: nat)
    requires i < |u.cache|
  {
    Idle(u.entries, u.cache[i]) && |u.cache| - 1 - i + BusyCount(u.entries, u.cache, i) >= maxCount
  }

  ghost predicate DueEntry(u: State, maxCount: nat, id: nat) {
    exists i: nat :: i < |u.cache| && u.cache[i] == id && Due(u, maxCount, i)
  }

  lemma {:induction false} ChosenIffDue(u: State, maxCount: nat, i: nat)
    requires Distinct(u.cache) && i < |u.cache|
    ensures u.cache[i] in Victims(u.entries, u.cache, Over(u.cache, maxCount), |u.cache|) <==> Due(u, maxCount, i)
  {
    var over := Over(u.cache, maxCount);
    VictimChosenOnTurn(u.entries, u.cache, over, i + 1, |u.cache|, i);
    VictimsFrom(u.entries, u.cache, over, i, u.cache[i]);
    VictimsCount(u.entries, u.cache, over, i);
  }

  lemma {:induction false} VictimIffDue(u: State, maxCount: nat, id: nat)
    requires Distinct(u.cache)
    ensures id in Victims(u.entries, u.cache, Over(u.cache, maxCount), |u.cache|) <==> DueEntry(u, maxCount, id)
  {
    VictimsFrom(u.entries, u.cache, Over(u.cache, maxCount), |u.cache|, id);
    assert u.cache[..|u.cache|] == u.cache;
    if i: nat :| i < |u.cache| && u.cache[i] == id { ChosenIffDue(u, maxCount, i); }
  }

  // ---------------------------------------------------------------------------
  // Idle or not, read off the acts
  // ---------------------------------------------------------------------------

  /** What the acts say of entry `id`: made by a request that found nothing, built or failed
      once, then with or without a run, until its worker terminates. */
  ghost function Life(acts: seq<Act>, maxCount: nat, id: nat): Option<Phase> {
    if acts == [] then None
    else
      var before, a := acts[..|acts| - 1], acts[|acts| - 1];
      match Life(before, maxCount, id)
      case None => if id == |Run(before, maxCount).entries| < |Run(acts, maxCount).entries| then Some(Building) else None
      case Some(phase) => Some(NextPhase(phase, a, id))
  }

  function NextPhase(phase: Phase, a: Act, id: nat): Phase {
    match phase
    case Building => if a == BuildOk(id) then Ready(false, false) else if a == BuildFail(id) then Failed else Building
    case Failed => Failed
    case Ready(_, dead) =>
      if dead then phase
      else if a == Terminated(id) then Ready(false, true)
      else if a.Active? && a.id == id then Ready(a.on, false)
      else phase
  }

  lemma {:induction false} PhaseStep(s: State, a: Act, maxCount: nat, id: nat)
    ensures |s.entries| <= |Step(s, a, maxCount).entries| <= |s.entries| + 1
    ensures |s.entries| < |Step(s, a, maxCount).entries| ==> Step(s, a, maxCount).entries[|s.entries|].phase == Building
    ensures id < |s.entries| ==> Step(s, a, maxCount).entries[id].phase == NextPhase(s.entries[id].phase, a, id)
  {
    match a
    case Get(key) => GetPhase(s, key, maxCount, id);
    case Terminated(k) => TerminatedPhase(s, k, maxCount, id);
    case BuildFail(k) => FailedPhase(s, k, maxCount, id);
    case _ =>
  }

  lemma {:induction false} GetPhase(s: State, key: Key, maxCount: nat, id: nat)
    ensures var t := Step(s, Get(key), maxCount); |s.entries| <= |t.entries| <= |s.entries| + 1
    ensures var t := Step(s, Get(key), maxCount); |s.entries| < |t.entries| ==> t.entries[|s.entries|].phase == Building
    ensures id < |s.entries| ==> Step(s, Get(key), maxCount).entries[id].phase == s.entries[id].phase
  {
  }

  lemma {:induction false} TerminatedPhase(s: State, k: nat, maxCount: nat, id: nat)
    ensures |Step(s, Terminated(k), maxCount).entries| == |s.entries|
    ensures id < |s.entries| ==> Step(s, Terminated(k), maxCount).entries[id].phase == NextPhase(s.entries[id].phase, Terminated(k), id)
  {
  }

  lemma {:induction false} FailedPhase(s: State, k: nat, maxCount: nat, id: nat)
    ensures |Step(s, BuildFail(k), maxCount).entries| == |s.entries|
    ensures id < |s.entries| ==> Step(s, BuildFail(k), maxCount).entries[id].phase == NextPhase(s.entries[id].phase, BuildFail(k), id)
  {
  }

  /** The phase of every entry is what the acts say. */
  lemma {:induction false} PhaseMeansActs(acts: seq<Act>, maxCount: nat, id: nat)
    ensures var s := Run(acts, maxCount); Life(acts, maxCount, id) == if id < |s.entries| then Some(s.entries[id].phase) else None
  {
    if acts != [] {
      var before := acts[..|acts| - 1];
      PhaseMeansActs(before, maxCount, id);
      PhaseStep(Run(before, maxCount), acts[|acts| - 1], maxCount, id);
    }
  }

  /** From the act that marks a run in flight on it until one that ends the run or the
      worker, no request sweeps the sandbox away. */
  lemma {:induction false} ActiveNeverSwept(acts: seq<Act>, maxCount: nat, id: nat, n: nat, key: Key)
    requires n < |acts| && acts[n] == Active(id, true)
    requires var l := Life(acts[..n], maxCount, id); l.Some? && l.value.Ready? && !l.value.dead
    requires forall k :: n < k < |acts| ==> acts[k] != Active(id, false) && acts[k] != Terminated(id)
    ensures Life(acts, maxCount, id) == Some(Ready(true, false))
    ensures !Sweeps(Run(acts, maxCount), Get(key), maxCount, id)
    ensures var t := Run(acts + [Get(key)], maxCount); DisposalsOf(t, id) == DisposalsOf(Run(acts, maxCount), id)
  {
    RunningStays(acts, maxCount, id, n);
    PhaseMeansActs(acts, maxCount, id);
    RunKeepsInv(acts, maxCount);
    RunSnoc(acts, Get(key), maxCount);
    var s := Run(acts, maxCount);
    if !Cached(s, key) { MissDisposes(s, key, maxCount, id); }
  }

  lemma {:induction false} RunningStays(acts: seq<Act>, maxCount: nat, id: nat, n: nat)
    requires n < |acts| && acts[n] == Active(id, true)
    requires var l := Life(acts[..n], maxCount, id); l.Some? && l.value.Ready? && !l.value.dead
    requires forall k :: n < k < |acts| ==> acts[k] != Active(id, false) && acts[k] != Terminated(id)
    ensures Life(acts, maxCount, id) == Some(Ready(true, false))
  {
    var m := |acts| - 1;
    if n < m {
      assert acts[..m][..n] == acts[..n];
      RunningStays(acts[..m], maxCount, id, n);
    }
  }

  function DisposalsOf(s: State, id: nat): nat { if id < |s.entries| then s.entries[id].disposals else 0 }

  /** The request for `key` finds nothing and sweeps `id` away. */
  ghost predicate Sweeps(s: State, a: Act, maxCount: nat, id: nat) {
    a.Get? && !Cached(s, a.key) && DueEntry(Insert(s, a.key), maxCount, id)
  }

  ghost predicate SweptAt(acts: seq<Act>, maxCount: nat, n: nat, id: nat) {
    n < |acts| && Sweeps(Run(acts[..n], maxCount), acts[n], maxCount, id)
  }

  ghost predicate EverSwept(acts: seq<Act>, maxCount: nat, id: nat) { exists n: nat :: SweptAt(acts, maxCount, n, id) }

  lemma {:induction false} MissDisposes(s: State, key: Key, maxCount: nat, id: nat)
    requires Inv(s) && !Cached(s, key)
    ensures var t := Step(s, Get(key), maxCount); var due := DueEntry(Insert(s, key), maxCount, id);
      && DisposalsOf(t, id) == DisposalsOf(s, id) + (if due then 1 else 0)
      && t.leaving == s.leaving
      && (due <==> id in s.cache && id !in t.cache)
  {
    var u := Insert(s, key);
    InsertKeepsInv(s, key);
    VictimIffDue(u, maxCount, id);
    var v := Victims(u.entries, u.cache, Over(u.cache, maxCount), |u.cache|);
    assert u.cache[..|u.cache|] == u.cache && !Evictable(u.entries, |s.entries|);
    VictimsFrom(u.entries, u.cache, Over(u.cache, maxCount), |u.cache|, id);
    WithoutMeaning(u.cache, v, |u.cache|, id);
  }

  lemma {:induction false} QuietDisposes(s: State, a: Act, maxCount: nat, id: nat)
    requires s.leaving == [] && a != DisposeStore && !(a.Get? && !Cached(s, a.key))
    ensures var t := Step(s, a, maxCount); DisposalsOf(t, id) == DisposalsOf(s, id) && t.leaving == []
  {
  }

  ghost predicate StoreKept(acts: seq<Act>) { forall k :: 0 <= k < |acts| ==> acts[k] != DisposeStore }

  /** Before the store's own shutdown a sandbox is disposed of exactly when some request
      found it due. Having been handed out does not count: only a run in flight does. */
  lemma {:induction false} DisposedIffDue(acts: seq<Act>, maxCount: nat, id: nat)
    requires StoreKept(acts)
    ensures Run(acts, maxCount).leaving == []
    ensures DisposalsOf(Run(acts, maxCount), id) == 1 <==> EverSwept(acts, maxCount, id)
  {
    if acts != [] {
      var n := |acts| - 1;
      var s, a := Run(acts[..n], maxCount), acts[n];
      DisposedIffDue(acts[..n], maxCount, id);
      DisposalStep(s, a, maxCount, id, acts[..n]);
      EarlierSweeps(acts, maxCount, id);
    }
  }

  lemma {:induction false} DisposalStep(s: State, a: Act, maxCount: nat, id: nat, before: seq<Act>)
    requires s == Run(before, maxCount) && s.leaving == [] && a != DisposeStore
    ensures var t := Step(s, a, maxCount);
      && t.leaving == []
      && (DisposalsOf(t, id) == 1 <==> DisposalsOf(s, id) == 1 || Sweeps(s, a, maxCount, id))
  {
    RunKeepsInv(before, maxCount);
    if a.Get? && !Cached(s, a.key) {
      MissDisposes(s, a.key, maxCount, id);
      if id < |s.entries| { assert EntryOk(s, id); }
    } else {
      QuietDisposes(s, a, maxCount, id);
    }
  }

  lemma {:induction false} SweptBefore(acts: seq<Act>, maxCount: nat, n: nat, id: nat)
    requires n < |acts| - 1
    ensures SweptAt(acts, maxCount, n, id) <==> SweptAt(acts[..|acts| - 1], maxCount, n, id)
  {
    assert acts[..|acts| - 1][..n] == acts[..n];
  }

  lemma {:induction false} EarlierSweeps(acts: seq<Act>, maxCount: nat, id: nat)
    requires acts != []
    ensures EverSwept(acts, maxCount, id) <==>
      EverSwept(acts[..|acts| - 1], maxCount, id) || SweptAt(acts, maxCount, |acts| - 1, id)
  {
    if EverSwept(acts[..|acts| - 1], maxCount, id) { SweptStays(acts, maxCount, id); }
    if n: nat :| SweptAt(acts, maxCount, n, id) && n != |acts| - 1 { SweptEarlier(acts, maxCount, n, id); }
  }

  lemma {:induction false} SweptStays(acts: seq<Act>, maxCount: nat, id: nat)
    requires acts != [] && EverSwept(acts[..|acts| - 1], maxCount, id)
    ensures EverSwept(acts, maxCount, id)
  {
    var n: nat :| SweptAt(acts[..|acts| - 1], maxCount, n, id);
    SweptBefore(acts, maxCount, n, id);
  }

  lemma {:induction false} SweptEarlier(acts: seq<Act>, maxCount: nat, n: nat, id: nat)
    requires SweptAt(acts, maxCount, n, id) && n != |acts| - 1
    ensures EverSwept(acts[..|acts| - 1], maxCount, id)
  {
    SweptBefore(acts, maxCount, n, id);
  }

  /** After any history a request for an uncached key drops and disposes of the entry at
      position `i` exactly when that entry is due. */
  lemma {:induction false} SweptIff(acts: seq<Act>, maxCount: nat, key: Key, i: nat)
    requires !Cached(Run(acts, maxCount), key) && i < |Run(acts, maxCount).cache|
    ensures var s, t := Run(acts, maxCount), Run(acts + [Get(key)], maxCount); var id := s.cache[i];
      var swept := Due(Insert(s, key), maxCount, i);
      && (id !in t.cache <==> swept)
      && DisposalsOf(t, id) == DisposalsOf(s, id) + if swept then 1 else 0
  {
    var s := Run(acts, maxCount);
    RunKeepsInv(acts, maxCount);
    RunSnoc(acts, Get(key), maxCount);
    MissDisposes(s, key, maxCount, s.cache[i]);
    InsertKeepsInv(s, key);
    ChosenIffDue(Insert(s, key), maxCount, i);
    VictimIffDue(Insert(s, key), maxCount, s.cache[i]);
    assert Insert(s, key).cache[i] == s.cache[i];
  }

  lemma {:induction false} RunSnoc(acts: seq<Act>, a: Act, maxCount: nat)
    ensures Run(acts + [a], maxCount) == Step(Run(acts, maxCount), a, maxCount)
  {
    assert (acts + [a])[..|acts|] == acts;
  }

  /** It does happen: with a cap of one, the sandbox that a first request was given is
      disposed of by a second request for another key, before any run on it has started. */
  lemma {:induction false} HandedOutThenSwept(a: Key, b: Key)
    requires a != b
    ensures Run([Get(a)] + [BuildOk(0)], 1) == State([Entry(a, Ready(false, false), 1, 0)], [0], [])
    ensures var s := Run([Get(a)] + [BuildOk(0)] + [Get(b)], 1);
      s.entries[..1] == [Entry(a, Ready(false, false), 1, 1)] && s.cache == [1]
  {
    ThreeActs(Get(a), BuildOk(0), Get(b), 1);
    FirstBuilt(a, Empty);
    SecondSweeps(a, b);
  }

  lemma {:induction false} ThreeActs(x: Act, y: Act, z: Act, maxCount: nat)
    ensures Run([x] + [y], maxCount) == Step(Step(Empty, x, maxCount), y, maxCount)
    ensures Run([x] + [y] + [z], maxCount) == Step(Run([x] + [y], maxCount), z, maxCount)
  {
    RunSnoc([], x, maxCount);
    assert [] + [x] == [x];
    RunSnoc([x], y, maxCount);
    RunSnoc([x] + [y], z, maxCount);
  }

  lemma {:induction false} FirstBuilt(a: Key, s: State)
    requires s.entries == [] && s.cache == [] && s.leaving == []
    ensures Step(Step(s, Get(a), 1), BuildOk(0), 1) == State([Entry(a, Ready(false, false), 1, 0)], [0], [])
  {
    FirstMade(a, s);
    Built(a, State([Entry(a, Building, 1, 0)], [0], []));
  }

  lemma {:induction false} FirstMade(a: Key, s: State)
    requires s.entries == [] && s.cache == [] && s.leaving == []
    ensures Step(s, Get(a), 1) == State([Entry(a, Building, 1, 0)], [0], [])
  {
    var u := Insert(s, a);
    assert u.entries == [Entry(a, Building, 1, 0)] && u.cache == [0];
    StartRemoving(u.entries, u.cache);
    assert Sweep(u, 1) == u;
  }

  lemma {:induction false} Built(a: Key, s: State)
    requires s == State([Entry(a, Building, 1, 0)], [0], [])
    ensures Step(s, BuildOk(0), 1) == State([Entry(a, Ready(false, false), 1, 0)], [0], [])
  {
  }

  lemma {:induction false} SecondSweeps(a: Key, b: Key)
    requires a != b
    ensures var t := Step(State([Entry(a, Ready(false, false), 1, 0)], [0], []), Get(b), 1);
      t.entries[..1] == [Entry(a, Ready(false, false), 1, 1)] && t.cache == [1]
  {
    var s := State([Entry(a, Ready(false, false), 1, 0)], [0], []);
    var u := Insert(s, b);
    assert u.cache == [0, 1];
    assert Victims(u.entries, u.cache, 1, 0) == [] && Victims(u.entries, u.cache, 1, 1) == [0];
    assert Victims(u.entries, u.cache, 1, 2) == [0];
    assert Without(u.cache, [0], 0) == [] && Without(u.cache, [0], 1) == [] && Without(u.cache, [0], 2) == [1];
  }

  /** A request for an uncached key begins to build one new sandbox for it, which is cached as
      the most recent one. */
  lemma {:induction false} MissBuilds(acts: seq<Act>, maxCount: nat, key: Key)
    requires !Cached(Run(acts, maxCount), key)
    ensures var s, t := Run(acts, maxCount), Run(acts + [Get(key)], maxCount);
      var n := |s.entries|;
      && |t.entries| == n + 1 && t.entries[n].key == key && t.entries[n].phase == Building && t.entries[n].disposals == 0
      && t.cache != [] && t.cache[|t.cache| - 1] == n
  {
    var s := Run(acts, maxCount);
    RunSnoc(acts, Get(key), maxCount);
    NewestStays(s, key, maxCount);
  }

  lemma {:induction false} NewestStays(s: State, key: Key, maxCount: nat)
    requires !Cached(s, key)
    ensures var t := Step(s, Get(key), maxCount); var n := |s.entries|;
      && |t.entries| == n + 1 && t.entries[n].key == key && t.entries[n].phase == Building && t.entries[n].disposals == 0
      && t.cache != [] && t.cache[|t.cache| - 1] == n
  {
    var u := Insert(s, key);
    var over := Over(u.cache, maxCount);
    VictimsFrom(u.entries, u.cache, over, |u.cache|, |s.entries|);
  }

  /** A request for a cached key hands out the entry there is, as the most recent one. */
  lemma {:induction false} HitHandsOut(acts: seq<Act>, maxCount: nat, key: Key)
    requires Cached(Run(acts, maxCount), key)
    ensures var s, t := Run(acts, maxCount), Run(acts + [Get(key)], maxCount);
      && multiset(t.cache) == multiset(s.cache) && |t.entries| == |s.entries|
      && t.cache != [] && t.cache[|t.cache| - 1] < |s.entries| && s.entries[t.cache[|t.cache| - 1]].key == key
      && (forall id :: 0 <= id < |s.entries| ==>
            t.entries[id].phase == s.entries[id].phase && t.entries[id].disposals == s.entries[id].disposals)
  {
    var s := Run(acts, maxCount);
    RunSnoc(acts, Get(key), maxCount);
    MovedToEnd(s.cache, Find(s.entries, s.cache, key, |s.cache|));
  }

  lemma {:induction false} MovedToEnd(c: seq<nat>, i: nat)
    requires i < |c|
    ensures multiset(RemoveAt(c, i) + [c[i]]) == multiset(c)
  {
    assert c == c[..i] + [c[i]] + c[i + 1..];
  }

  /** Disposal of the store leaves nothing to be handed out: every cached sandbox is taken
      along, and when its turn comes it is disposed of, once it is built. */
  lemma {:induction false} StoreDisposalReachesAll(acts: seq<Act>, maxCount: nat, id: nat)
    ensures var s, t := Run(acts, maxCount), Run(acts + [DisposeStore], maxCount);
      t.cache == [] && (id in t.leaving <==> id in s.cache || id in s.leaving)
    ensures var s, t := Run(acts, maxCount), Run(acts + [DisposeLeaving(id)], maxCount);
      id in s.leaving && id < |s.entries| ==>
        && (s.entries[id].phase.Building? ==> t == s)
        && (!s.entries[id].phase.Building? ==> id !in t.leaving && |t.entries| == |s.entries|)
        && (s.entries[id].phase.Ready? ==> t.entries[id].disposals == 1)
  {
    var s := Run(acts, maxCount);
    RunSnoc(acts, DisposeStore, maxCount);
    RunSnoc(acts, DisposeLeaving(id), maxCount);
    RunKeepsInv(acts, maxCount);
    if id in s.leaving && id < |s.entries| {
      assert EntryOk(s, id);
      assert s.leaving[..|s.leaving|] == s.leaving;
      RemovedAt(s.leaving, LeavingAt(s, id, |s.leaving|), id);
    }
  }

  // ---------------------------------------------------------------------------
  // The store object
  // ---------------------------------------------------------------------------

  lemma {:induction false} WithoutTwice(c: seq<nat>, v: seq<nat>, id: nat, n: nat)
    requires n <= |c|
    ensures var w := Without(c, v, n); Without(w, [id], |w|) == Without(c, v + [id], n)
  {
    if n > 0 {
      WithoutTwice(c, v, id, n - 1);
      if c[n - 1] !in v {
        var w := Without(c, v, n - 1);
        WithoutExtends(w, [c[n - 1]], [id], |w|);
      }
    }
  }

  lemma {:induction false} WithoutExtends(c: seq<nat>, more: seq<nat>, gone: seq<nat>, n: nat)
    requires n <= |c|
    ensures Without(c + more, gone, n) == Without(c, gone, n)
  {
    if n > 0 { WithoutExtends(c, more, gone, n - 1); }
  }

  lemma {:induction false} StartRemoving(entries: seq<Entry>, cache: seq<nat>)
    ensures Disposed(entries, []) == entries && Without(cache, [], |cache|) == cache
  {
    WithoutNothing(cache, |cache|);
    assert cache[..|cache|] == cache;
  }

  function EvictOne(s: State, id: nat): State
    requires id < |s.entries|
  {
    s.(cache := Without(s.cache, [id], |s.cache|), entries := WithDisposal(s.entries, id))
  }

  function WithDisposal(entries: seq<Entry>, id: nat): (r: seq<Entry>)
    requires id < |entries|
    ensures |r| == |entries| && forall k :: 0 <= k < |entries| ==> r[k].key == entries[k].key
  {
    entries[id := entries[id].(disposals := entries[id].disposals + 1)]
  }

  /** Deleting by key and then disposing is removing that entry. */
  lemma {:induction false} EvictByKey(s: State, id: nat)
    requires CacheOk(s) && id < |s.entries|
    ensures EvictOne(s, id) == Uncache(s, id).(entries := WithDisposal(s.entries, id))
  {
    UncacheDropsOwn(s, id);
  }

  lemma {:induction false} EvictKeepsCacheOk(s: State, id: nat)
    requires CacheOk(s) && id < |s.entries|
    ensures CacheOk(EvictOne(s, id))
  {
    var t := s.(cache := Without(s.cache, [id], |s.cache|));
    assert CacheOk(t) by { SubCacheOk(s, [id]); }
    SameKeysCacheOk(t, WithDisposal(s.entries, id));
  }

  lemma {:induction false} SameKeysCacheOk(s: State, entries: seq<Entry>)
    requires CacheOk(s) && |entries| == |s.entries| && forall k :: 0 <= k < |entries| ==> entries[k].key == s.entries[k].key
    ensures CacheOk(s.(entries := entries))
  {
  }

  /** Removing and disposing of the first `n` victims one after the other. */
  function EvictFirst(s: State, v: seq<nat>, n: nat): (t: State)
    requires n <= |v| && forall i :: 0 <= i < |v| ==> v[i] < |s.entries|
    ensures |t.entries| == |s.entries|
  {
    if n == 0 then s else EvictOne(EvictFirst(s, v, n - 1), v[n - 1])
  }

  lemma {:induction false} EvictFirstCache(s: State, v: seq<nat>, n: nat)
    requires n <= |v| && forall i :: 0 <= i < |v| ==> v[i] < |s.entries|
    ensures EvictFirst(s, v, n).cache == Without(s.cache, v[..n], |s.cache|) && EvictFirst(s, v, n).leaving == s.leaving
  {
    if n == 0 {
      StartRemoving(s.entries, s.cache);
    } else {
      EvictFirstCache(s, v, n - 1);
      assert v[..n] == v[..n - 1] + [v[n - 1]];
      WithoutTwice(s.cache, v[..n - 1], v[n - 1], |s.cache|);
    }
  }

  lemma {:induction false} EvictFirstEntry(s: State, v: seq<nat>, n: nat, k: nat)
    requires n <= |v| && Distinct(v) && (forall i :: 0 <= i < |v| ==> v[i] < |s.entries|) && k < |s.entries|
    ensures EvictFirst(s, v, n).entries[k] == if k in v[..n] then s.entries[k].(disposals := s.entries[k].disposals + 1) else s.entries[k]
  {
    if n > 0 {
      EvictFirstEntry(s, v, n - 1, k);
      assert v[..n] == v[..n - 1] + [v[n - 1]];
      assert v[n - 1] !in v[..n - 1];
    }
  }

  lemma {:induction false} EvictAllIs(s: State, v: seq<nat>)
    requires Distinct(v) && forall i :: 0 <= i < |v| ==> v[i] < |s.entries|
    ensures EvictFirst(s, v, |v|) == s.(entries := Disposed(s.entries, v), cache := Without(s.cache, v, |s.cache|))
  {
    assert v[..|v|] == v;
    EvictFirstCache(s, v, |v|);
    var t := EvictFirst(s, v, |v|);
    forall k | 0 <= k < |s.entries| ensures t.entries[k] == Disposed(s.entries, v)[k] { EvictFirstEntry(s, v, |v|, k); }
  }

  lemma {:induction false} VictimsDistinct(entries: seq<Entry>, cache: seq<nat>, over: nat, n: nat)
    requires Distinct(cache) && n <= |cache|
    ensures Distinct(Victims(entries, cache, over, n))
  {
    if n > 0 {
      VictimsDistinct(entries, cache, over, n - 1);
      VictimsFrom(entries, cache, over, n - 1, cache[n - 1]);
    }
  }

  class Store {
    const maxCount: nat
    var entries: seq<Entry>
    var cache: seq<nat>
    var leaving: seq<nat>

    function Abs(): State reads this { State(entries, cache, leaving) }

    constructor (cap: nat)
      ensures Abs() == Empty && maxCount == cap
    {
      maxCount, entries, cache, leaving := cap, [], [], [];
    }

    /** Hands out the entry of `key`, building one when there is none. */
    method GetSandbox(key: Key) returns (id: nat)
      requires Inv(Abs())
      modifies this
      ensures Abs() == Step(old(Abs()), Get(key), maxCount)
      ensures id < |entries| && entries[id].key == key && id == if Cached(old(Abs()), key)
        then old(cache[Find(entries, cache, key, |cache|)]) else old(|entries|)
    {
      var i := Find(entries, cache, key, |cache|);
      if i >= 0 {
        id := cache[i];
        cache := RemoveAt(cache, i) + [id];
        entries := entries[id := entries[id].(runCount := entries[id].runCount + 1)];
      } else {
        id := |entries|;
        InsertKeepsInv(Abs(), key);
        entries := entries + [Entry(key, Building, 1, 0)];
        cache := cache + [id];
        SweepCache();
      }
    }

    /** Collects the victims oldest first, then removes and disposes of each. */
    method SweepCache()
      requires Inv(Abs())
      modifies this
      ensures Abs() == Sweep(old(Abs()), maxCount)
    {
      if |cache| <= maxCount {
        NothingToSweep(Abs(), maxCount);
        return;
      }
      var victims := CollectVictims();
      VictimsDistinct(entries, cache, Over(cache, maxCount), |cache|);
      RemoveVictims(victims);
    }

    method CollectVictims() returns (victims: seq<nat>)
      requires Inv(Abs()) && |cache| > maxCount
      ensures victims == Victims(entries, cache, Over(cache, maxCount), |cache|)
      ensures forall i :: 0 <= i < |victims| ==> victims[i] < |entries|
    {
      victims := [];
      var remaining, k := |cache|, 0;
      while k < |cache| && remaining > maxCount
        invariant k <= |cache| && remaining == |cache| - |victims|
        invariant victims == Victims(entries, cache, Over(cache, maxCount), k)
        invariant forall i :: 0 <= i < |victims| ==> victims[i] < |entries|
      {
        var e := entries[cache[k]];
        if e.phase.Ready? && !e.phase.active {
          victims := victims + [cache[k]];
          remaining := remaining - 1;
        }
        k := k + 1;
      }
      EnoughVictims(entries, cache, Over(cache, maxCount), k, |cache|);
    }

    method RemoveVictims(victims: seq<nat>)
      requires CacheOk(Abs()) && Distinct(victims) && forall i :: 0 <= i < |victims| ==> victims[i] < |entries|
      modifies this
      ensures entries == Disposed(old(entries), victims) && cache == Without(old(cache), victims, old(|cache|)) && leaving == old(leaving)
    {
      for i := 0 to |victims|
        invariant CacheOk(Abs()) && Abs() == EvictFirst(old(Abs()), victims, i)
      {
        Evict(victims[i]);
      }
      EvictAllIs(old(Abs()), victims);
    }

    method Evict(id: nat)
      requires CacheOk(Abs()) && id < |entries|
      modifies this
      ensures CacheOk(Abs()) && Abs() == EvictOne(old(Abs()), id)
    {
      EvictByKey(Abs(), id);
      EvictKeepsCacheOk(Abs(), id);
      Forget(id);
      entries := entries[id := entries[id].(disposals := entries[id].disposals + 1)];
    }

    /** `cache.delete(key)`, guarded by the identity of the entry. */
    method Forget(id: nat)
      requires CacheOk(Abs()) && id < |entries|
      modifies this`cache
      ensures Abs() == Uncache(old(Abs()), id)
      ensures CacheOk(Abs()) && cache == Without(old(cache), [id], old(|cache|))
    {
      UncacheDropsOwn(Abs(), id);
      var i := Find(entries, cache, entries[id].key, |cache|);
      if i >= 0 && cache[i] == id { cache := RemoveAt(cache, i); }
    }

    method OnBuildFailed(id: nat)
      requires Inv(Abs()) && id < |entries| && entries[id].phase == Building
      modifies this
      ensures Abs() == Step(old(Abs()), BuildFail(id), maxCount)
    {
      PhaseKeepsCacheOk(Abs(), id, Failed);
      entries := entries[id := entries[id].(phase := Failed)];
      Forget(id);
    }

    method OnTerminated(id: nat)
      requires Inv(Abs()) && id < |entries| && entries[id].phase.Ready? && !entries[id].phase.dead
      modifies this
      ensures Abs() == Step(old(Abs()), Terminated(id), maxCount)
    {
      PhaseKeepsCacheOk(Abs(), id, Ready(false, true));
      entries := entries[id := entries[id].(phase := Ready(false, true))];
      Forget(id);
    }

    /** Shutdown empties the cache before it waits for any build. */
    method TakeSnapshot()
      modifies this
      ensures Abs() == Step(old(Abs()), DisposeStore, maxCount)
    {
      leaving := leaving + cache;
      cache := [];
    }
  }

  lemma {:induction false} EnoughVictims(entries: seq<Entry>, cache: seq<nat>, over: nat, k: nat, n: nat)
    requires k <= n <= |cache| && (k == n || |Victims(entries, cache, over, k)| >= over)
    ensures Victims(entries, cache, over, n) == Victims(entries, cache, over, k)
  {
    if k < n { EnoughVictims(entries, cache, over, k, n - 1); }
  }

  lemma {:induction false} NothingToSweep(s: State, maxCount: nat)
    requires |s.cache| <= maxCount
    ensures Sweep(s, maxCount) == s
  {
    EnoughVictims(s.entries, s.cache, 0, 0, |s.cache|);
    StartRemoving(s.entries, s.cache);
  }
}
