/** packages/runtime/src/triggers/cron.ts: one timer per cron entry, re-armed after each
    wake. Entries are kept for ever in `entries`, so an index is an identity; `armed` is what
    the event loop will still call, whether or not an entry still refers to it. */
module Cron {
  import opened Basics

  /** Timers longer than a day are cut and re-armed on waking. */
  const MaxTimeoutMs: int := 86_400_000

  function Clamp(delay: int): int { if delay <= MaxTimeoutMs then delay else MaxTimeoutMs }

  // ---------------------------------------------------------------------------
  // One entry with exact timers
  // ---------------------------------------------------------------------------

  /** `next(t)` is the first scheduled instant strictly after `t`. */
  ghost predicate IsSchedule(next: int -> int) {
    (forall t: int :: next(t) > t) && forall t: int, u: int :: t <= u < next(t) ==> next(u) == next(t)
  }

  function NextDelay(next: int -> int, now: int): int { if next(now) - now >= 1 then next(now) - now else 1 }

  /** The instants at which timers go off, from arming at `now` up to the one that fires. */
  ghost function Wakes(next: int -> int, now: int): seq<int>
    requires IsSchedule(next)
    decreases next(now) - now
  {
    var delay := NextDelay(next, now);
    var at := now + Clamp(delay);
    if Clamp(delay) < delay then [at] + Wakes(next, at) else [at]
  }

  /** However far away the instant is, the chain of clamped wakes ends exactly on it, and every
      wake before it is a full day after the one before and does not fire. */
  lemma {:induction false} FiresExactlyOnSchedule(next: int -> int, now: int)
    requires IsSchedule(next)
    ensures var w := Wakes(next, now); w != [] && w[|w| - 1] == next(now)
    ensures var w := Wakes(next, now); forall i :: 0 <= i < |w| - 1 ==> w[i] == now + (i + 1) * MaxTimeoutMs < next(now)
    decreases next(now) - now
  {
    var delay := NextDelay(next, now);
    var at := now + Clamp(delay);
    if Clamp(delay) < delay {
      FiresExactlyOnSchedule(next, at);
      var w, u := Wakes(next, now), Wakes(next, at);
      forall i | 0 <= i < |w| - 1 ensures w[i] == now + (i + 1) * MaxTimeoutMs < next(now) {
        if i > 0 { assert w[i] == u[i - 1]; }
      }
    }
  }

  /** Fires when the dispatch started at each firing takes the given time. */
  ghost function Fires(next: int -> int, now: int, took: seq<nat>): seq<int>
    requires IsSchedule(next)
    decreases |took|
  {
    var w := Wakes(next, now);
    FiresExactlyOnSchedule(next, now);
    var at := w[|w| - 1];
    if took == [] then [at] else [at] + Fires(next, at + took[0], took[1..])
  }

  /** Every firing is on a scheduled instant, none fires twice, and the only instants left out
      are those that pass while the previous dispatch is still running. */
  lemma {:induction false} FiringsFollowSchedule(next: int -> int, now: int, took: seq<nat>)
    requires IsSchedule(next)
    ensures var f := Fires(next, now, took);
      |f| == |took| + 1 && f[0] == next(now) && forall i :: 0 <= i < |took| ==> f[i] < f[i + 1] == next(f[i] + took[i])
    decreases |took|
  {
    FiresExactlyOnSchedule(next, now);
    if took != [] {
      var f := Fires(next, now, took);
      FiringsFollowSchedule(next, next(now) + took[0], took[1..]);
      forall i | 0 <= i < |took| ensures f[i] < f[i + 1] == next(f[i] + took[i]) {
        if i > 0 { assert f[i] == f[1..][i - 1] && took[i] == took[1..][i - 1]; }
      }
    }
  }

  // ---------------------------------------------------------------------------
  // All entries, all interleavings
  // ---------------------------------------------------------------------------

  datatype Entry = Entry(pair: string, key: string, timer: Option<nat>, stuck: bool)
  datatype Timer = Timer(entry: nat, due: int, clamped: bool)

  /** `firing`: entries whose dispatch is being awaited. */
  datatype State = State(entries: seq<Entry>, pairs: map<string, map<string, nat>>, armed: map<nat, Timer>, next: nat, firing: set<nat>)

  const Empty := State([], map[], map[], 0, {})

  /** A delay is whatever the schedule and the clock give; None where the parser throws. */
  datatype Spec = Spec(key: string, delay: Option<nat>)

  datatype Act =
    | Wake(timer: nat, now: int, delay: Option<nat>)
    | Dispatched(entry: nat, now: int, delay: Option<nat>)
    | Reconfigure(pair: string, specs: seq<Spec>, now: int)
    | Stop

  function SetTimer(s: State, id: nat, t: Option<nat>): State
    requires id < |s.entries|
  {
    s.(entries := s.entries[id := s.entries[id].(timer := t)])
  }

  function Arm(s: State, id: nat, now: int, delay: Option<nat>): State
    requires id < |s.entries|
  {
    if delay.None? then s.(entries := s.entries[id := s.entries[id].(stuck := true)])
    else
      var d := if delay.value >= 1 then delay.value else 1;
      SetTimer(s, id, Some(s.next)).(armed := s.armed[s.next := Timer(id, now + Clamp(d), Clamp(d) < d)], next := s.next + 1)
  }

  predicate Current(s: State, id: nat) {
    id < |s.entries| && s.entries[id].pair in s.pairs && s.entries[id].key in s.pairs[s.entries[id].pair]
    && s.pairs[s.entries[id].pair][s.entries[id].key] == id
  }

  /** Clear the timers of the given entries. */
  function Cancel(s: State, ids: set<nat>): (r: State)
    ensures |r.entries| == |s.entries|
    ensures forall i :: 0 <= i < |s.entries| ==> r.entries[i] == if i in ids then s.entries[i].(timer := None) else s.entries[i]
  {
    s.(entries := seq(|s.entries|, i requires 0 <= i < |s.entries| => if i in ids then s.entries[i].(timer := None) else s.entries[i]),
       armed := s.armed - CancelledTimers(s, ids))
  }

  function CancelledTimers(s: State, ids: set<nat>): set<nat> {
    set i | i in ids && i < |s.entries| && s.entries[i].timer.Some? :: s.entries[i].timer.value
  }

  function IdsOf(s: State, pair: string): set<nat> { if pair in s.pairs then s.pairs[pair].Values else {} }

  function AllIds(s: State): set<nat> { set p, k | p in s.pairs && k in s.pairs[p] :: s.pairs[p][k] }

  /** A new entry, not armed yet. */
  function Make(s: State, pair: string, spec: Spec): State
    requires pair in s.pairs
  {
    var id := |s.entries|;
    var mine: map<string, nat> := s.pairs[pair][spec.key := id];
    s.(entries := s.entries + [Entry(pair, spec.key, None, false)], pairs := s.pairs[pair := mine])
  }

  function Add(s: State, pair: string, spec: Spec, now: int): State
    requires pair in s.pairs
  {
    Arm(Make(s, pair, spec), |s.entries|, now, spec.delay)
  }

  function AddAll(s: State, pair: string, specs: seq<Spec>, now: int): (r: State)
    requires pair in s.pairs
    ensures pair in r.pairs
  {
    if specs == [] then s else Add(AddAll(s, pair, specs[..|specs| - 1], now), pair, specs[|specs| - 1], now)
  }

  /** What `reconfigure` has done before it adds the new entries. */
  function Cleared(s: State, pair: string): State { Cancel(s, IdsOf(s, pair)).(pairs := s.pairs - {pair}) }

  function Step(s: State, a: Act): State {
    match a
    case Wake(t, now, delay) =>
      if t !in s.armed || s.armed[t].entry >= |s.entries| then s
      else
        var id := s.armed[t].entry;
        var woken := SetTimer(s, id, None).(armed := s.armed - {t});
        if s.armed[t].clamped then Arm(woken, id, now, delay) else woken.(firing := s.firing + {id})
    case Dispatched(id, now, delay) =>
      if id !in s.firing then s
      else
        var back := s.(firing := s.firing - {id});
        if Current(s, id) then Arm(back, id, now, delay) else back
    case Reconfigure(pair, specs, now) =>
      var c := Cleared(s, pair);
      if specs == [] then c else AddAll(c.(pairs := c.pairs[pair := map[]]), pair, specs, now)
    case Stop => Cancel(s, AllIds(s)).(pairs := map[])
  }

  function Run(acts: seq<Act>): State {
    if acts == [] then Empty else Step(Run(acts[..|acts| - 1]), acts[|acts| - 1])
  }

  // ---------------------------------------------------------------------------
  // Invariant
  // ---------------------------------------------------------------------------

  ghost predicate TimersOwned(s: State) {
    && (forall t :: t in s.armed ==> t < s.next && s.armed[t].entry < |s.entries| && s.entries[s.armed[t].entry].timer == Some(t))
    && (forall id: nat :: id < |s.entries| && s.entries[id].timer.Some? ==>
      s.entries[id].timer.value in s.armed && s.armed[s.entries[id].timer.value].entry == id)
  }

  ghost predicate MapsOk(s: State) {
    forall p, k :: p in s.pairs && k in s.pairs[p] ==>
      s.pairs[p][k] < |s.entries| && s.entries[s.pairs[p][k]].pair == p && s.entries[s.pairs[p][k]].key == k
  }

  ghost predicate TimersCurrent(s: State) {
    forall t :: t in s.armed ==> Current(s, s.armed[t].entry)
  }

  ghost predicate FiringOk(s: State) {
    forall id :: id in s.firing ==> id < |s.entries| && s.entries[id].timer.None?
  }

  /** A current entry is never forgotten: it has a timer, is dispatching, or its schedule failed. */
  ghost predicate NoneForgotten(s: State) {
    forall id: nat :: Current(s, id) ==> s.entries[id].timer.Some? || id in s.firing || s.entries[id].stuck
  }

  ghost predicate Base(s: State) { TimersOwned(s) && MapsOk(s) && FiringOk(s) && NoneForgotten(s) }

  ghost predicate Inv(s: State) { Base(s) && TimersCurrent(s) }

  /** The entries other than `id` are in order, and `id` has no timer yet. */
  ghost predicate BaseBut(s: State, id: nat) {
    && TimersOwned(s) && MapsOk(s) && FiringOk(s) && id < |s.entries| && s.entries[id].timer.None? && id !in s.firing
    && forall k: nat :: k != id && Current(s, k) ==> s.entries[k].timer.Some? || k in s.firing || s.entries[k].stuck
  }

  lemma {:induction false} ArmKeepsBase(s: State, id: nat, now: int, delay: Option<nat>)
    requires BaseBut(s, id)
    ensures Base(Arm(s, id, now, delay))
  {
    var r := Arm(s, id, now, delay);
    assert forall k: nat :: k < |s.entries| ==> (Current(r, k) <==> Current(s, k));
  }

  lemma {:induction false} ArmKeepsCurrent(s: State, id: nat, now: int, delay: Option<nat>)
    requires BaseBut(s, id) && TimersCurrent(s) && (delay.Some? ==> Current(s, id))
    ensures TimersCurrent(Arm(s, id, now, delay))
  {
    var r := Arm(s, id, now, delay);
    assert forall k: nat :: k < |s.entries| ==> (Current(r, k) <==> Current(s, k));
  }

  /** The state in which `onFire` finds its entry. */
  function Woken(s: State, t: nat): State
    requires t in s.armed && s.armed[t].entry < |s.entries|
  {
    SetTimer(s, s.armed[t].entry, None).(armed := s.armed - {t})
  }

  lemma {:induction false} WokenBase(s: State, t: nat)
    requires Base(s) && t in s.armed
    ensures BaseBut(Woken(s, t), s.armed[t].entry) && (TimersCurrent(s) ==> TimersCurrent(Woken(s, t)))
    ensures forall k: nat :: k < |s.entries| ==> (Current(Woken(s, t), k) <==> Current(s, k))
  {
    var woken := Woken(s, t);
    assert forall k: nat :: k < |s.entries| ==> (Current(woken, k) <==> Current(s, k));
  }

  lemma {:induction false} FiringKeepsBase(s: State, id: nat)
    requires BaseBut(s, id)
    ensures var r := s.(firing := s.firing + {id}); Base(r) && (TimersCurrent(s) ==> TimersCurrent(r))
  {
    var r := s.(firing := s.firing + {id});
    assert forall k: nat :: k < |s.entries| ==> (Current(r, k) <==> Current(s, k));
  }

  lemma {:induction false} WakeKeepsBase(s: State, t: nat, now: int, delay: Option<nat>)
    requires Base(s)
    ensures Base(Step(s, Wake(t, now, delay)))
    ensures TimersCurrent(s) ==> TimersCurrent(Step(s, Wake(t, now, delay)))
  {
    if t in s.armed {
      var id := s.armed[t].entry;
      WokenBase(s, t);
      var w, r := Woken(s, t), Step(s, Wake(t, now, delay));
      if s.armed[t].clamped {
        assert r == Arm(w, id, now, delay);
        assert Base(r) by { ArmKeepsBase(w, id, now, delay); }
        if TimersCurrent(s) { assert TimersCurrent(r) by { ArmKeepsCurrent(w, id, now, delay); } }
      } else {
        FiringKeepsBase(w, id);
      }
    }
  }

  lemma {:induction false} DispatchedKeepsBase(s: State, id: nat, now: int, delay: Option<nat>)
    requires Base(s)
    ensures Base(Step(s, Dispatched(id, now, delay)))
    ensures TimersCurrent(s) ==> TimersCurrent(Step(s, Dispatched(id, now, delay)))
  {
    if id in s.firing {
      var back := s.(firing := s.firing - {id});
      assert forall k: nat :: k < |s.entries| ==> (Current(back, k) <==> Current(s, k));
      if Current(s, id) {
        assert BaseBut(back, id);
        ArmKeepsBase(back, id, now, delay);
        if TimersCurrent(s) { ArmKeepsCurrent(back, id, now, delay); }
      }
    }
  }

  lemma {:induction false} CancelOwned(s: State, ids: set<nat>)
    requires TimersOwned(s) && FiringOk(s)
    ensures TimersOwned(Cancel(s, ids)) && FiringOk(Cancel(s, ids))
    ensures forall t :: t in Cancel(s, ids).armed <==> t in s.armed && s.armed[t].entry !in ids
  {
    var r := Cancel(s, ids);
    forall t | t in s.armed ensures t in CancelledTimers(s, ids) <==> s.armed[t].entry in ids {
      var e := s.armed[t].entry;
      if e in ids { assert s.entries[e].timer.value == t; }
    }
  }

  lemma {:induction false} ClearedKeeps(s: State, pair: string)
    requires Base(s)
    ensures Base(Cleared(s, pair)) && |Cleared(s, pair).entries| == |s.entries| && pair !in Cleared(s, pair).pairs
    ensures TimersCurrent(s) ==> TimersCurrent(Cleared(s, pair))
  {
    var ids, r := IdsOf(s, pair), Cleared(s, pair);
    CancelOwned(s, ids);
    assert TimersOwned(r) && FiringOk(r);
    forall k: nat | k < |s.entries| ensures Current(r, k) <==> Current(s, k) && s.entries[k].pair != pair {}
    forall k: nat | Current(s, k) ensures k in ids <==> s.entries[k].pair == pair {}
  }

  lemma {:induction false} StopKeeps(s: State)
    requires Base(s)
    ensures Base(Step(s, Stop))
    ensures TimersCurrent(s) ==> Step(s, Stop).armed == map[]
  {
    CancelOwned(s, AllIds(s));
    forall k: nat | Current(s, k) ensures k in AllIds(s) {
      assert s.entries[k].pair in s.pairs && s.entries[k].key in s.pairs[s.entries[k].pair];
    }
  }

  lemma {:induction false} AddKeepsBase(s: State, pair: string, spec: Spec, now: int)
    requires Base(s) && pair in s.pairs
    ensures Base(Add(s, pair, spec, now))
  {
    var made := Make(s, pair, spec);
    forall k: nat | k < |s.entries| && Current(made, k) ensures Current(s, k) {}
    assert BaseBut(made, |s.entries|);
    ArmKeepsBase(made, |s.entries|, now, spec.delay);
  }

  lemma {:induction false} AddAllKeepsBase(s: State, pair: string, specs: seq<Spec>, now: int)
    requires Base(s) && pair in s.pairs
    ensures Base(AddAll(s, pair, specs, now))
  {
    if specs != [] {
      var n := |specs| - 1;
      AddAllKeepsBase(s, pair, specs[..n], now);
      AddKeepsBase(AddAll(s, pair, specs[..n], now), pair, specs[n], now);
    }
  }

  // ---------------------------------------------------------------------------
  // What adding entries leaves behind
  // ---------------------------------------------------------------------------

  /** Other entries are as before; the `i`-th new one follows them and is armed unless its
      schedule failed. */
  ghost predicate Appended(s: State, r: State, pair: string, specs: seq<Spec>) {
    && |r.entries| == |s.entries| + |specs| && r.entries[..|s.entries|] == s.entries
    && (forall i :: 0 <= i < |specs| ==> NewEntry(r.entries[|s.entries| + i], pair, specs[i]))
    && r.pairs.Keys == s.pairs.Keys && (forall p :: p in s.pairs && p != pair ==> r.pairs[p] == s.pairs[p])
  }

  predicate NewEntry(e: Entry, pair: string, spec: Spec) {
    e.pair == pair && e.key == spec.key && e.timer.Some? == spec.delay.Some?
  }

  lemma {:induction false} AddAllAppends(s: State, pair: string, specs: seq<Spec>, now: int)
    requires pair in s.pairs
    ensures Appended(s, AddAll(s, pair, specs, now), pair, specs)
  {
    if specs != [] {
      var n := |specs| - 1;
      AddAllAppends(s, pair, specs[..n], now);
      var m, r := AddAll(s, pair, specs[..n], now), AddAll(s, pair, specs, now);
      forall i | 0 <= i < |specs| ensures NewEntry(r.entries[|s.entries| + i], pair, specs[i]) {
        if i < n { assert NewEntry(m.entries[|s.entries| + i], pair, specs[..n][i]); }
      }
    }
  }

  predicate Repeated(specs: seq<Spec>, i: nat, j: nat) { i < j < |specs| && specs[i].key == specs[j].key }

  ghost predicate Later(specs: seq<Spec>, i: nat) { exists j: nat :: Repeated(specs, i, j) }

  /** No entry that gets a timer is followed by another one with its key. */
  ghost predicate NoArmedRepeat(specs: seq<Spec>) {
    forall i: nat :: i < |specs| && Later(specs, i) ==> specs[i].delay.None?
  }

  lemma {:induction false} LaterSnoc(specs: seq<Spec>, n: nat, i: nat)
    requires n + 1 == |specs| && i < n
    ensures Later(specs, i) <==> Later(specs[..n], i) || specs[n].key == specs[i].key
  {
    if Later(specs[..n], i) { var j: nat :| Repeated(specs[..n], i, j); assert Repeated(specs, i, j); }
    if specs[n].key == specs[i].key { assert Repeated(specs, i, n); }
    if Later(specs, i) { var j: nat :| Repeated(specs, i, j); if j < n { assert Repeated(specs[..n], i, j); } }
  }

  lemma {:induction false} AddPoints(s: State, pair: string, spec: Spec, now: int)
    requires pair in s.pairs
    ensures var r := Add(s, pair, spec, now).pairs; pair in r && forall k :: k in r[pair] <==> k == spec.key || k in s.pairs[pair]
    ensures var r := Add(s, pair, spec, now).pairs;
      forall k :: k in r[pair] ==> r[pair][k] == if k == spec.key then |s.entries| else s.pairs[pair][k]
  {
  }

  /** The key map points to the last entry added under a key. */
  lemma {:induction false} KeyPointsToLast(s: State, pair: string, specs: seq<Spec>, now: int, i: nat)
    requires pair in s.pairs && i < |specs|
    ensures var mine := AddAll(s, pair, specs, now).pairs[pair];
      specs[i].key in mine && mine[specs[i].key] < |s.entries| + |specs| && (mine[specs[i].key] == |s.entries| + i <==> !Later(specs, i))
  {
    var n := |specs| - 1;
    var m := AddAll(s, pair, specs[..n], now);
    assert |m.entries| == |s.entries| + n by { AddAllAppends(s, pair, specs[..n], now); }
    assert AddAll(s, pair, specs, now) == Add(m, pair, specs[n], now);
    AddPoints(m, pair, specs[n], now);
    if i < n {
      KeyPointsToLast(s, pair, specs[..n], now, i);
      LaterSnoc(specs, n, i);
      assert specs[..n][i] == specs[i];
    } else {
      assert !Later(specs, i);
    }
  }

  lemma {:induction false} AddedCurrent(s: State, pair: string, specs: seq<Spec>, now: int, e: nat)
    requires pair in s.pairs && |s.entries| <= e < |s.entries| + |specs|
    ensures var r := AddAll(s, pair, specs, now); e < |r.entries| && NewEntry(r.entries[e], pair, specs[e - |s.entries|])
    ensures Current(AddAll(s, pair, specs, now), e) <==> !Later(specs, e - |s.entries|)
  {
    var r, i := AddAll(s, pair, specs, now), e - |s.entries|;
    assert e < |r.entries| && NewEntry(r.entries[|s.entries| + i], pair, specs[i]) by { AddAllAppends(s, pair, specs, now); }
    assert specs[i].key in r.pairs[pair]
      && (r.pairs[pair][specs[i].key] == e <==> !Later(specs, i)) by { KeyPointsToLast(s, pair, specs, now, i); }
  }

  /** Old entries of other pairs are as current as before. */
  lemma {:induction false} OldStaysCurrent(s: State, r: State, pair: string, specs: seq<Spec>, k: nat)
    requires Appended(s, r, pair, specs) && pair in s.pairs && s.pairs[pair] == map[] && Current(s, k)
    ensures k < |r.entries| && r.entries[k] == s.entries[k] && Current(r, k)
  {
    assert r.entries[..|s.entries|][k] == s.entries[k];
  }

  /** New entries are as told, and current unless their key comes again. */
  ghost predicate NewKnown(s: State, r: State, pair: string, specs: seq<Spec>) {
    forall e: nat :: |s.entries| <= e < |s.entries| + |specs| ==> NewAt(s, r, pair, specs, e)
  }

  ghost predicate NewAt(s: State, r: State, pair: string, specs: seq<Spec>, e: nat)
    requires |s.entries| <= e < |s.entries| + |specs|
  {
    e < |r.entries| && NewEntry(r.entries[e], pair, specs[e - |s.entries|]) && (Current(r, e) <==> !Later(specs, e - |s.entries|))
  }

  lemma {:induction false} TimerStaysCurrent(s: State, r: State, pair: string, specs: seq<Spec>, t: nat)
    requires TimersOwned(s) && TimersOwned(r) && TimersCurrent(s) && pair in s.pairs && s.pairs[pair] == map[]
    requires Appended(s, r, pair, specs) && NewKnown(s, r, pair, specs) && NoArmedRepeat(specs) && t in r.armed
    ensures Current(r, r.armed[t].entry)
  {
    var e := r.armed[t].entry;
    if e < |s.entries| {
      assert r.entries[..|s.entries|][e] == s.entries[e];
      OldTimerKept(s, r, t);
      OldStaysCurrent(s, r, pair, specs, e);
    } else {
      assert NewAt(s, r, pair, specs, e);
    }
  }

  lemma {:induction false} RepeatedNotCurrent(s: State, r: State, pair: string, specs: seq<Spec>)
    requires TimersOwned(r) && |r.entries| == |s.entries| + |specs| && NewKnown(s, r, pair, specs) && !NoArmedRepeat(specs)
    ensures !TimersCurrent(r)
  {
    var i: nat :| i < |specs| && Later(specs, i) && specs[i].delay.Some?;
    var e := |s.entries| + i;
    assert NewAt(s, r, pair, specs, e);
    assert r.armed[r.entries[e].timer.value].entry == e;
  }

  /** Old timers belong to other pairs, so they stay current; new ones are current exactly
      when no armed key is repeated. */
  lemma {:induction false} AddAllCurrentIff(s: State, pair: string, specs: seq<Spec>, now: int)
    requires Base(s) && TimersCurrent(s) && pair in s.pairs && s.pairs[pair] == map[]
    ensures TimersCurrent(AddAll(s, pair, specs, now)) <==> NoArmedRepeat(specs)
  {
    var r := AddAll(s, pair, specs, now);
    assert TimersOwned(r) by { AddAllKeepsBase(s, pair, specs, now); }
    AddAllAppends(s, pair, specs, now);
    assert NewKnown(s, r, pair, specs) by {
      forall e: nat | |s.entries| <= e < |s.entries| + |specs| ensures NewAt(s, r, pair, specs, e) { AddedCurrent(s, pair, specs, now, e); }
    }
    if NoArmedRepeat(specs) {
      forall t | t in r.armed ensures Current(r, r.armed[t].entry) { TimerStaysCurrent(s, r, pair, specs, t); }
    } else {
      RepeatedNotCurrent(s, r, pair, specs);
    }
  }

  lemma {:induction false} OldTimerKept(s: State, r: State, t: nat)
    requires TimersOwned(s) && TimersOwned(r) && TimersCurrent(s) && t in r.armed && r.armed[t].entry < |s.entries|
    requires r.entries[r.armed[t].entry] == s.entries[r.armed[t].entry]
    ensures Current(s, r.armed[t].entry)
  {
    var e := r.armed[t].entry;
    assert s.entries[e].timer == Some(t) && s.armed[t].entry == e;
  }

  lemma {:induction false} OpenPair(c: State, pair: string)
    requires Base(c) && pair !in c.pairs
    ensures var o := c.(pairs := c.pairs[pair := map[]]); Base(o) && (TimersCurrent(c) ==> TimersCurrent(o))
  {
    var o := c.(pairs := c.pairs[pair := map[]]);
    forall k: nat | k < |c.entries| ensures Current(o, k) <==> Current(c, k) {}
  }

  lemma {:induction false} ReconfigureKeeps(s: State, pair: string, specs: seq<Spec>, now: int)
    requires Base(s)
    ensures Base(Step(s, Reconfigure(pair, specs, now)))
    ensures TimersCurrent(s) ==> (TimersCurrent(Step(s, Reconfigure(pair, specs, now))) <==> NoArmedRepeat(specs))
  {
    ClearedKeeps(s, pair);
    var c := Cleared(s, pair);
    if specs != [] {
      OpenPair(c, pair);
      var o := c.(pairs := c.pairs[pair := map[]]);
      AddAllKeepsBase(o, pair, specs, now);
      if TimersCurrent(s) { AddAllCurrentIff(o, pair, specs, now); }
    }
  }

  // ---------------------------------------------------------------------------
  // Main results
  // ---------------------------------------------------------------------------

  /** Whatever keys are used: every armed timer is the one its entry refers to, an entry never
      has two, none is armed while its dispatch runs, and no current entry is forgotten. */
  lemma {:induction false} OneTimerPerEntry(acts: seq<Act>)
    ensures Base(Run(acts))
  {
    if acts != [] {
      var n := |acts| - 1;
      OneTimerPerEntry(acts[..n]);
      var s := Run(acts[..n]);
      match acts[n] {
        case Wake(t, now, delay) => WakeKeepsBase(s, t, now, delay);
        case Dispatched(id, now, delay) => DispatchedKeepsBase(s, id, now, delay);
        case Reconfigure(pair, specs, now) => ReconfigureKeeps(s, pair, specs, now);
        case Stop => StopKeeps(s);
      }
    }
  }

  ghost predicate KeysOk(acts: seq<Act>) { forall i :: 0 <= i < |acts| && acts[i].Reconfigure? ==> DistinctKeys(acts[i].specs) }
  ghost predicate DistinctKeys(specs: seq<Spec>) { forall i: nat, j: nat :: !Repeated(specs, i, j) }

  /** With distinct keys, over every interleaving of wakes, dispatches, reconfigurations and
      stops: what is armed always belongs to the current entry of its key. */
  lemma {:induction false} OnlyCurrentEntriesArmed(acts: seq<Act>)
    requires KeysOk(acts)
    ensures Inv(Run(acts))
  {
    OneTimerPerEntry(acts);
    if acts != [] {
      var n := |acts| - 1;
      OnlyCurrentEntriesArmed(acts[..n]);
      var s := Run(acts[..n]);
      match acts[n] {
        case Wake(t, now, delay) => WakeKeepsBase(s, t, now, delay);
        case Dispatched(id, now, delay) => DispatchedKeepsBase(s, id, now, delay);
        case Reconfigure(pair, specs, now) =>
          ReconfigureKeeps(s, pair, specs, now);
          assert DistinctKeys(acts[n].specs);
        case Stop => StopKeeps(s);
      }
    }
  }

  lemma {:induction false} RunSnoc(acts: seq<Act>, a: Act)
    ensures Run(acts + [a]) == Step(Run(acts), a)
  {
    assert (acts + [a])[..|acts|] == acts;
  }

  /** A stop forgets every pair, and leaves nothing armed exactly when no timer had lost its
      entry before. Distinct keys are enough for that. */
  lemma {:induction false} StopClearsIff(acts: seq<Act>)
    ensures Run(acts + [Stop]).pairs == map[]
    ensures Run(acts + [Stop]).armed == map[] <==> TimersCurrent(Run(acts))
    ensures KeysOk(acts) ==> TimersCurrent(Run(acts))
  {
    var s := Run(acts);
    RunSnoc(acts, Stop);
    OneTimerPerEntry(acts);
    if KeysOk(acts) { OnlyCurrentEntriesArmed(acts); }
    if TimersCurrent(s) {
      StopKeeps(s);
    } else {
      var t :| t in s.armed && !Current(s, s.armed[t].entry);
      StopKeepsLeak(s, t, s.armed[t]);
    }
  }

  /** After such a stop nothing is ever armed again, whatever dispatches are still to end,
      until the next reconfiguration. */
  lemma {:induction false} StopIsFinal(acts: seq<Act>, more: seq<Act>)
    requires forall i :: 0 <= i < |more| ==> !more[i].Reconfigure?
    ensures var s := Run(acts + [Stop] + more); s.pairs == map[] && (TimersCurrent(Run(acts)) || KeysOk(acts) ==> s.armed == map[])
  {
    if more == [] {
      assert acts + [Stop] + more == acts + [Stop];
      StopClearsIff(acts);
    } else {
      var n := |more| - 1;
      StopIsFinal(acts, more[..n]);
      assert acts + [Stop] + more == acts + [Stop] + more[..n] + [more[n]];
      RunSnoc(acts + [Stop] + more[..n], more[n]);
      QuietWhenStopped(Run(acts + [Stop] + more[..n]), more[n]);
    }
  }

  lemma {:induction false} QuietWhenStopped(s: State, a: Act)
    requires s.pairs == map[] && !a.Reconfigure?
    ensures Step(s, a).pairs == map[] && (s.armed == map[] ==> Step(s, a).armed == map[])
  {
  }

  // ---------------------------------------------------------------------------
  // A timer that lost its entry
  // ---------------------------------------------------------------------------

  /** Timer `t` is armed for an entry that its key map no longer points to. */
  ghost predicate Leaked(s: State, t: nat, timer: Timer) {
    t in s.armed && s.armed[t] == timer && timer.entry < |s.entries| && !Current(s, timer.entry)
  }

  lemma {:induction false} ArmKeepsLeak(s: State, id: nat, now: int, delay: Option<nat>, t: nat, timer: Timer)
    requires Leaked(s, t, timer) && t < s.next && id < |s.entries|
    ensures Leaked(Arm(s, id, now, delay), t, timer) && t < Arm(s, id, now, delay).next
  {
  }

  lemma {:induction false} AddAllKeepsLeak(s: State, pair: string, specs: seq<Spec>, now: int, t: nat, timer: Timer)
    requires Leaked(s, t, timer) && t < s.next && pair in s.pairs
    ensures Leaked(AddAll(s, pair, specs, now), t, timer) && t < AddAll(s, pair, specs, now).next
  {
    if specs != [] {
      var n := |specs| - 1;
      AddAllKeepsLeak(s, pair, specs[..n], now, t, timer);
      var m := AddAll(s, pair, specs[..n], now);
      var made := Make(m, pair, specs[n]);
      assert Leaked(made, t, timer);
      ArmKeepsLeak(made, |m.entries|, now, specs[n].delay, t, timer);
    }
  }

  /** Cancelling current entries leaves it alone. */
  lemma {:induction false} CancelKeepsLeak(s: State, ids: set<nat>, t: nat, timer: Timer)
    requires Base(s) && Leaked(s, t, timer) && forall i :: i in ids ==> Current(s, i)
    ensures var r := Cancel(s, ids); t in r.armed && r.armed[t] == timer && r.entries[timer.entry] == s.entries[timer.entry]
  {
    CancelOwned(s, ids);
  }

  lemma {:induction false} ReconfigureKeepsLeak(s: State, pair: string, specs: seq<Spec>, now: int, t: nat, timer: Timer)
    requires Base(s) && Leaked(s, t, timer)
    ensures Leaked(Step(s, Reconfigure(pair, specs, now)), t, timer)
  {
    forall i | i in IdsOf(s, pair) ensures Current(s, i) {
      var k :| k in s.pairs[pair] && s.pairs[pair][k] == i;
    }
    CancelKeepsLeak(s, IdsOf(s, pair), t, timer);
    var c := Cleared(s, pair);
    assert Leaked(c, t, timer);
    if specs != [] {
      var o := c.(pairs := c.pairs[pair := map[]]);
      assert Leaked(o, t, timer);
      AddAllKeepsLeak(o, pair, specs, now, t, timer);
    }
  }

  lemma {:induction false} StopKeepsLeak(s: State, t: nat, timer: Timer)
    requires Base(s) && Leaked(s, t, timer)
    ensures Leaked(Step(s, Stop), t, timer)
  {
    forall i | i in AllIds(s) ensures Current(s, i) {
      var p, k :| p in s.pairs && k in s.pairs[p] && s.pairs[p][k] == i;
    }
    CancelKeepsLeak(s, AllIds(s), t, timer);
  }

  lemma {:induction false} StepKeepsLeak(s: State, a: Act, t: nat, timer: Timer)
    requires Base(s) && Leaked(s, t, timer) && !(a.Wake? && a.timer == t)
    ensures Leaked(Step(s, a), t, timer)
  {
    match a {
      case Wake(u, now, delay) =>
        if u in s.armed {
          var id := s.armed[u].entry;
          var woken := SetTimer(s, id, None).(armed := s.armed - {u});
          assert Leaked(woken, t, timer);
          ArmKeepsLeak(woken, id, now, delay, t, timer);
        }
      case Dispatched(id, now, delay) =>
        if id in s.firing { ArmKeepsLeak(s.(firing := s.firing - {id}), id, now, delay, t, timer); }
      case Reconfigure(pair, specs, now) => ReconfigureKeepsLeak(s, pair, specs, now, t, timer);
      case Stop => StopKeepsLeak(s, t, timer);
    }
  }

  /** No later reconfiguration or stop cancels it: until it wakes by itself it stays armed,
      for an entry that is never current again. */
  lemma {:induction false} LeakedTimerSurvives(acts: seq<Act>, more: seq<Act>, t: nat, timer: Timer)
    requires Leaked(Run(acts), t, timer) && forall i :: 0 <= i < |more| ==> !(more[i].Wake? && more[i].timer == t)
    ensures Leaked(Run(acts + more), t, timer)
  {
    if more == [] {
      assert acts + more == acts;
    } else {
      var n := |more| - 1;
      LeakedTimerSurvives(acts, more[..n], t, timer);
      LeakStep(acts + more[..n], more[n], t, timer);
      OneMore(acts, more);
    }
  }

  lemma {:induction false} OneMore(acts: seq<Act>, more: seq<Act>)
    requires more != []
    ensures acts + more[..|more| - 1] + [more[|more| - 1]] == acts + more
  {
  }

  lemma {:induction false} LeakStep(acts: seq<Act>, a: Act, t: nat, timer: Timer)
    requires Leaked(Run(acts), t, timer) && !(a.Wake? && a.timer == t)
    ensures Leaked(Run(acts + [a]), t, timer)
  {
    RunSnoc(acts, a);
    OneTimerPerEntry(acts);
    StepKeepsLeak(Run(acts), a, t, timer);
  }

  /** Reconfiguring a pair is exact about repeated keys: otherwise the timer of an entry that
      was overwritten in the key map is left (see LeakedTimerSurvives). */
  lemma {:induction false} RepeatedKeyLeaksTimer(acts: seq<Act>, pair: string, specs: seq<Spec>, now: int)
    requires KeysOk(acts)
    ensures TimersCurrent(Run(acts + [Reconfigure(pair, specs, now)])) <==> NoArmedRepeat(specs)
  {
    var a := Reconfigure(pair, specs, now);
    assert (acts + [a])[..|acts|] == acts;
    OnlyCurrentEntriesArmed(acts);
    ReconfigureKeeps(Run(acts), pair, specs, now);
  }

  // ---------------------------------------------------------------------------
  // Exact timers in the interleaving
  // ---------------------------------------------------------------------------

  function Due(next: int -> int, now: int): (d: Option<nat>)
    ensures d.Some? && d.value >= 1 && d.value == NextDelay(next, now)
  {
    Some(NextDelay(next, now))
  }

  /** Armed at `a`: a clamped timer ends short of the next instant after `a`, any other on it. */
  ghost predicate AimedFrom(next: int -> int, tm: Timer, a: int) {
    a < tm.due && if tm.clamped then tm.due < next(a) else tm.due == next(a)
  }

  ghost predicate Aimed(next: int -> int, tm: Timer) { exists a :: AimedFrom(next, tm, a) }

  ghost predicate AllAimed(s: State, sched: nat -> int -> int) {
    forall t :: t in s.armed ==> Aimed(sched(s.armed[t].entry), s.armed[t])
  }

  /** Timers go off when they are due, and delays come from the entry's schedule. */
  ghost predicate Timely(s: State, a: Act, sched: nat -> int -> int) {
    match a
    case Wake(t, now, delay) => t in s.armed ==> now == s.armed[t].due && FromSchedule(sched(s.armed[t].entry), now, delay)
    case Dispatched(id, now, delay) => FromSchedule(sched(id), now, delay)
    case Reconfigure(_, specs, now) => SpecsFrom(sched, |s.entries|, specs, now)
    case Stop => true
  }

  ghost predicate FromSchedule(next: int -> int, now: int, delay: Option<nat>) {
    IsSchedule(next) && (delay.None? || delay == Due(next, now))
  }

  ghost predicate SpecsFrom(sched: nat -> int -> int, n: nat, specs: seq<Spec>, now: int) {
    forall j :: 0 <= j < |specs| ==> SpecFrom(sched, n, specs, now, j)
  }

  ghost predicate SpecFrom(sched: nat -> int -> int, n: nat, specs: seq<Spec>, now: int, j: nat)
    requires j < |specs|
  {
    FromSchedule(sched(n + j), now, specs[j].delay)
  }

  ghost predicate OnTime(acts: seq<Act>, sched: nat -> int -> int) {
    acts == [] || (OnTime(acts[..|acts| - 1], sched) && Timely(Run(acts[..|acts| - 1]), acts[|acts| - 1], sched))
  }

  /** Arming aims at the first instant after the clock, clamped or not. */
  lemma {:induction false} ArmAims(next: int -> int, now: int, id: nat)
    requires IsSchedule(next)
    ensures var d := Due(next, now).value; AimedFrom(next, Timer(id, now + Clamp(d), Clamp(d) < d), now)
  {
  }

  lemma {:induction false} ArmKeepsAimed(s: State, id: nat, now: int, delay: Option<nat>, sched: nat -> int -> int)
    requires AllAimed(s, sched) && id < |s.entries| && FromSchedule(sched(id), now, delay)
    ensures AllAimed(Arm(s, id, now, delay), sched)
  {
    var r := Arm(s, id, now, delay);
    if delay.Some? {
      ArmAims(sched(id), now, id);
      assert Aimed(sched(id), r.armed[s.next]);
    }
    forall t | t in r.armed ensures Aimed(sched(r.armed[t].entry), r.armed[t]) {
      if t != s.next || delay.None? { assert t in s.armed && r.armed[t] == s.armed[t]; }
    }
  }

  lemma {:induction false} FewerStayAimed(s: State, r: State, sched: nat -> int -> int)
    requires AllAimed(s, sched) && forall t :: t in r.armed ==> t in s.armed && r.armed[t] == s.armed[t]
    ensures AllAimed(r, sched)
  {
  }

  lemma {:induction false} AddAllKeepsAimed(s: State, pair: string, specs: seq<Spec>, now: int, sched: nat -> int -> int)
    requires AllAimed(s, sched) && pair in s.pairs && SpecsFrom(sched, |s.entries|, specs, now)
    ensures AllAimed(AddAll(s, pair, specs, now), sched) && |AddAll(s, pair, specs, now).entries| == |s.entries| + |specs|
  {
    if specs != [] {
      var n := |specs| - 1;
      forall j | 0 <= j < n ensures SpecFrom(sched, |s.entries|, specs[..n], now, j) { assert SpecFrom(sched, |s.entries|, specs, now, j); }
      AddAllKeepsAimed(s, pair, specs[..n], now, sched);
      assert SpecFrom(sched, |s.entries|, specs, now, n);
      var m := AddAll(s, pair, specs[..n], now);
      FewerStayAimed(m, Make(m, pair, specs[n]), sched);
      ArmKeepsAimed(Make(m, pair, specs[n]), |m.entries|, now, specs[n].delay, sched);
    }
  }

  lemma {:induction false} StepKeepsAimed(s: State, a: Act, sched: nat -> int -> int)
    requires Base(s) && AllAimed(s, sched) && Timely(s, a, sched)
    ensures AllAimed(Step(s, a), sched)
  {
    match a {
      case Wake(t, now, delay) =>
        if t in s.armed {
          var id := s.armed[t].entry;
          var woken := SetTimer(s, id, None).(armed := s.armed - {t});
          FewerStayAimed(s, woken, sched);
          ArmKeepsAimed(woken, id, now, delay, sched);
          FewerStayAimed(woken, woken.(firing := s.firing + {id}), sched);
        }
      case Dispatched(id, now, delay) =>
        if id in s.firing {
          var back := s.(firing := s.firing - {id});
          FewerStayAimed(s, back, sched);
          ArmKeepsAimed(back, id, now, delay, sched);
        }
      case Reconfigure(pair, specs, now) =>
        var c := Cleared(s, pair);
        FewerStayAimed(s, c, sched);
        if specs != [] {
          var o := c.(pairs := c.pairs[pair := map[]]);
          FewerStayAimed(c, o, sched);
          AddAllKeepsAimed(o, pair, specs, now, sched);
        }
      case Stop => FewerStayAimed(s, Step(s, a), sched);
    }
  }

  lemma {:induction false} RunKeepsAimed(acts: seq<Act>, sched: nat -> int -> int)
    requires OnTime(acts, sched)
    ensures AllAimed(Run(acts), sched)
  {
    if acts != [] {
      var n := |acts| - 1;
      RunKeepsAimed(acts[..n], sched);
      OneTimerPerEntry(acts[..n]);
      StepKeepsAimed(Run(acts[..n]), acts[n], sched);
    }
  }

  /** Over every interleaving in which timers go off when due: a dispatch starts exactly on a
      scheduled instant of its entry, the first after the timer was armed; an early, clamped
      wake starts none and leaves the entry aimed at the same instant. */
  lemma {:induction false} DispatchesOnSchedule(acts: seq<Act>, sched: nat -> int -> int, t: nat, delay: Option<nat>)
    requires OnTime(acts, sched) && t in Run(acts).armed
    requires Timely(Run(acts), Wake(t, Run(acts).armed[t].due, delay), sched)
    ensures var s, tm := Run(acts), Run(acts).armed[t];
      var r, next := Step(s, Wake(t, tm.due, delay)), sched(tm.entry);
      && (tm.entry in r.firing <==> !tm.clamped)
      && (!tm.clamped ==> exists a :: a < tm.due == next(a))
      && (tm.clamped && delay.Some? ==> s.next in r.armed && exists a :: AimedFrom(next, tm, a) && AimedFrom(next, r.armed[s.next], a))
  {
    RunKeepsAimed(acts, sched);
    OneTimerPerEntry(acts);
    var s, tm := Run(acts), Run(acts).armed[t];
    var next := sched(tm.entry);
    assert Aimed(next, tm);
    var a :| AimedFrom(next, tm, a);
    assert tm.entry !in s.firing;
    if tm.clamped {
      ArmAims(next, tm.due, tm.entry);
      assert next(tm.due) == next(a);
    }
  }

  // ---------------------------------------------------------------------------
  // The life of one entry
  // ---------------------------------------------------------------------------

  /** The delay that act `a` computes for entry `id`: on a clamped wake of its timer, at the
      end of its dispatch while it is current, and when it is made. */
  ghost function Computed(s: State, a: Act, id: nat): Option<Option<nat>> {
    match a
    case Wake(t, _, d) => if t in s.armed && s.armed[t].entry == id && s.armed[t].clamped then Some(d) else None
    case Dispatched(e, _, d) => if e == id && id in s.firing && Current(s, id) then Some(d) else None
    case Reconfigure(_, specs, _) =>
      if |s.entries| <= id < |s.entries| + |specs| then Some(specs[id - |s.entries|].delay) else None
    case Stop => None
  }

  ghost function LastDelay(acts: seq<Act>, id: nat): Option<Option<nat>> {
    if acts == [] then None
    else
      var before := acts[..|acts| - 1];
      var c := Computed(Run(before), acts[|acts| - 1], id);
      if c.Some? then c else LastDelay(before, id)
  }

  /** What a computed delay does to the entry: a timer, cut to a day, or none for a failed schedule. */
  ghost predicate ArmedFor(s: State, id: nat, now: int, delay: Option<nat>)
    requires id < |s.entries|
  {
    var e := s.entries[id];
    match delay
    case None => e.stuck && e.timer.None?
    case Some(d) => !e.stuck && e.timer.Some? && e.timer.value in s.armed && DueIn(s.armed[e.timer.value], id, now, if d == 0 then 1 else d)
  }

  ghost predicate DueIn(tm: Timer, id: nat, now: int, d: nat) {
    tm.entry == id && if d <= 86_400_000 then tm.due == now + d && !tm.clamped else tm.due == now + 86_400_000 && tm.clamped
  }

  lemma {:induction false} ArmArms(s: State, id: nat, now: int, delay: Option<nat>)
    requires id < |s.entries| && !s.entries[id].stuck && s.entries[id].timer.None?
    ensures ArmedFor(Arm(s, id, now, delay), id, now, delay)
  {
  }

  /** Arming one entry leaves the others as they are. */
  lemma {:induction false} ArmElsewhere(s: State, id: nat, now: int, delay: Option<nat>, k: nat)
    requires id < |s.entries| && k < |s.entries| && k != id && (s.entries[k].timer.Some? ==> s.entries[k].timer.value < s.next)
    ensures var r := Arm(s, id, now, delay);
      && r.entries[k] == s.entries[k]
      && (s.entries[k].timer.Some? && s.entries[k].timer.value in s.armed ==>
            s.entries[k].timer.value in r.armed && r.armed[s.entries[k].timer.value] == s.armed[s.entries[k].timer.value])
  {
  }

  lemma {:induction false} AddElsewhere(s: State, pair: string, spec: Spec, now: int, k: nat)
    requires TimersOwned(s) && pair in s.pairs && k < |s.entries|
    ensures var r := Add(s, pair, spec, now);
      && r.entries[k] == s.entries[k]
      && (s.entries[k].timer.Some? ==>
            s.entries[k].timer.value in r.armed && r.armed[s.entries[k].timer.value] == s.armed[s.entries[k].timer.value])
  {
    ArmElsewhere(Make(s, pair, spec), |s.entries|, now, spec.delay, k);
  }

  lemma {:induction false} AddAllArms(s: State, pair: string, specs: seq<Spec>, now: int, i: nat)
    requires Base(s) && pair in s.pairs && i < |specs|
    ensures |AddAll(s, pair, specs, now).entries| == |s.entries| + |specs|
    ensures ArmedFor(AddAll(s, pair, specs, now), |s.entries| + i, now, specs[i].delay)
  {
    var n := |specs| - 1;
    var m := AddAll(s, pair, specs[..n], now);
    assert |m.entries| == |s.entries| + n by { AddAllAppends(s, pair, specs[..n], now); }
    assert Base(m) by { AddAllKeepsBase(s, pair, specs[..n], now); }
    if i < n {
      AddAllArms(s, pair, specs[..n], now, i);
      AddKeepsArmed(m, pair, specs[n], now, |s.entries| + i, specs[i].delay);
    } else {
      AddArms(m, pair, specs[n], now);
    }
  }

  lemma {:induction false} AddArms(s: State, pair: string, spec: Spec, now: int)
    requires pair in s.pairs
    ensures |Add(s, pair, spec, now).entries| == |s.entries| + 1 && ArmedFor(Add(s, pair, spec, now), |s.entries|, now, spec.delay)
  {
    ArmArms(Make(s, pair, spec), |s.entries|, now, spec.delay);
  }

  lemma {:induction false} AddKeepsArmed(s: State, pair: string, spec: Spec, now: int, k: nat, delay: Option<nat>)
    requires TimersOwned(s) && pair in s.pairs && k < |s.entries| && ArmedFor(s, k, now, delay)
    ensures |Add(s, pair, spec, now).entries| == |s.entries| + 1 && ArmedFor(Add(s, pair, spec, now), k, now, delay)
  {
    AddElsewhere(s, pair, spec, now, k);
  }

  /** A stuck entry has no timer and no dispatch: nothing will compute a delay for it again. */
  ghost predicate StuckIdle(s: State) {
    forall id: nat :: id < |s.entries| && s.entries[id].stuck ==> s.entries[id].timer.None? && id !in s.firing
  }

  /** The clock at an act. */
  function NowOf(a: Act): int {
    match a case Wake(_, now, _) => now case Dispatched(_, now, _) => now case Reconfigure(_, _, now) => now case Stop => 0
  }

  lemma {:induction false} ComputedArms(s: State, a: Act, id: nat)
    requires Base(s) && StuckIdle(s) && Computed(s, a, id).Some?
    ensures id < |Step(s, a).entries| && ArmedFor(Step(s, a), id, NowOf(a), Computed(s, a, id).value)
  {
    match a
    case Wake(t, now, d) => ArmArms(Woken(s, t), id, now, d);
    case Dispatched(e, now, d) => ArmArms(s.(firing := s.firing - {id}), id, now, d);
    case Reconfigure(pair, specs, now) => ReconfigureArms(s, pair, specs, now, id - |s.entries|);
  }

  lemma {:induction false} ReconfigureArms(s: State, pair: string, specs: seq<Spec>, now: int, i: nat)
    requires Base(s) && i < |specs|
    ensures var t := Step(s, Reconfigure(pair, specs, now));
      |t.entries| == |s.entries| + |specs| && ArmedFor(t, |s.entries| + i, now, specs[i].delay)
  {
    var c := Cleared(s, pair);
    ClearedKeeps(s, pair);
    OpenPair(c, pair);
    AddAllArms(c.(pairs := c.pairs[pair := map[]]), pair, specs, now, i);
  }

  lemma {:induction false} NotComputedSame(s: State, a: Act, id: nat)
    requires Base(s) && Computed(s, a, id).None?
    ensures id < |Step(s, a).entries| ==> id < |s.entries| && Step(s, a).entries[id].stuck == s.entries[id].stuck
    ensures id < |s.entries| ==> id < |Step(s, a).entries|
  {
    match a
    case Reconfigure(pair, specs, now) =>
      if specs != [] {
        var o := Cleared(s, pair).(pairs := Cleared(s, pair).pairs[pair := map[]]);
        AddAllAppends(o, pair, specs, now);
        var r := AddAll(o, pair, specs, now);
        if id < |s.entries| { assert r.entries[..|s.entries|][id] == o.entries[id]; }
      }
    case _ =>
  }

  /** Nothing starts for an entry without a timer unless a delay is computed for it. */
  lemma {:induction false} IdleStays(s: State, a: Act, id: nat)
    requires Base(s) && id < |s.entries| && s.entries[id].timer.None? && id !in s.firing && Computed(s, a, id).None?
    ensures var t := Step(s, a); id < |t.entries| && t.entries[id].timer.None? && id !in t.firing
  {
    match a
    case Reconfigure(pair, specs, now) =>
      if specs != [] {
        var o := Cleared(s, pair).(pairs := Cleared(s, pair).pairs[pair := map[]]);
        AddAllAppends(o, pair, specs, now);
        AddAllFiring(o, pair, specs, now);
        assert AddAll(o, pair, specs, now).entries[..|s.entries|][id] == o.entries[id];
      }
    case _ =>
  }

  lemma {:induction false} AddAllFiring(s: State, pair: string, specs: seq<Spec>, now: int)
    requires pair in s.pairs
    ensures AddAll(s, pair, specs, now).firing == s.firing
  {
    if specs != [] { AddAllFiring(s, pair, specs[..|specs| - 1], now); }
  }

  /** An armed entry is not being dispatched. */
  lemma {:induction false} ComputedNotFiring(s: State, a: Act, id: nat)
    requires Base(s) && Computed(s, a, id).Some?
    ensures id !in Step(s, a).firing
  {
    match a
    case Reconfigure(pair, specs, now) =>
      AddAllFiring(Cleared(s, pair).(pairs := Cleared(s, pair).pairs[pair := map[]]), pair, specs, now);
    case _ =>
  }

  lemma {:induction false} StuckStep(s: State, a: Act)
    requires Base(s) && StuckIdle(s)
    ensures StuckIdle(Step(s, a))
  {
    var r := Step(s, a);
    forall id: nat | id < |r.entries| && r.entries[id].stuck ensures r.entries[id].timer.None? && id !in r.firing {
      if Computed(s, a, id).Some? {
        ComputedArms(s, a, id);
        ComputedNotFiring(s, a, id);
      } else {
        NotComputedSame(s, a, id);
        IdleStays(s, a, id);
      }
    }
  }

  lemma {:induction false} RunStuckIdle(acts: seq<Act>)
    ensures StuckIdle(Run(acts))
  {
    if acts != [] {
      var n := |acts| - 1;
      RunStuckIdle(acts[..n]);
      OneTimerPerEntry(acts[..n]);
      StuckStep(Run(acts[..n]), acts[n]);
    }
  }

  /** An entry is stuck exactly if the last delay computed for it was none: its schedule
      could not be read. So a current entry that is not dispatching and whose last delay was
      a number has a timer. */
  lemma {:induction false} StuckIffFailed(acts: seq<Act>, id: nat)
    requires id < |Run(acts).entries|
    ensures Run(acts).entries[id].stuck <==> LastDelay(acts, id) == Some(None)
    ensures var s := Run(acts);
      Current(s, id) && id !in s.firing && LastDelay(acts, id) != Some(None) ==>
        s.entries[id].timer.Some? && s.entries[id].timer.value in s.armed && s.armed[s.entries[id].timer.value].entry == id
  {
    var n := |acts| - 1;
    var s := Run(acts[..n]);
    OneTimerPerEntry(acts);
    OneTimerPerEntry(acts[..n]);
    RunStuckIdle(acts[..n]);
    if Computed(s, acts[n], id).Some? {
      ComputedArms(s, acts[n], id);
    } else {
      NotComputedSame(s, acts[n], id);
      StuckIffFailed(acts[..n], id);
    }
  }

  /** Whenever a delay is computed for an entry, it is armed for it: after a clamped wake,
      after its dispatch while it is current, and when it is made. */
  lemma {:induction false} ArmedAsComputed(acts: seq<Act>, a: Act, id: nat)
    requires Computed(Run(acts), a, id).Some?
    ensures var t := Run(acts + [a]); id < |t.entries| && ArmedFor(t, id, NowOf(a), Computed(Run(acts), a, id).value)
  {
    RunSnoc(acts, a);
    OneTimerPerEntry(acts);
    RunStuckIdle(acts);
    ComputedArms(Run(acts), a, id);
  }

  /** Reconfiguring a pair replaces its entries: its keys are those of the new list, every
      other pair is as before, and only the timers of its current entries are cleared. */
  lemma {:induction false} ReconfigureReplaces(acts: seq<Act>, pair: string, specs: seq<Spec>, now: int)
    ensures var s, t := Run(acts), Run(acts + [Reconfigure(pair, specs, now)]);
      && PairReplaced(s, t, pair, specs)
      && |t.entries| == |s.entries| + |specs| && t.firing == s.firing
      && (forall id :: 0 <= id < |s.entries| ==>
            t.entries[id] == if Current(s, id) && s.entries[id].pair == pair then s.entries[id].(timer := None) else s.entries[id])
  {
    RunSnoc(acts, Reconfigure(pair, specs, now));
    OneTimerPerEntry(acts);
    ReplacesPair(Run(acts), pair, specs, now);
    ReplacesEntries(Run(acts), pair, specs, now);
  }

  ghost predicate PairReplaced(s: State, t: State, pair: string, specs: seq<Spec>) {
    && t.pairs.Keys == (if specs == [] then s.pairs.Keys - {pair} else s.pairs.Keys + {pair})
    && (forall p :: p in s.pairs && p != pair ==> t.pairs[p] == s.pairs[p])
    && (forall k :: specs != [] ==> (k in t.pairs[pair] <==> exists i :: 0 <= i < |specs| && specs[i].key == k))
  }

  lemma {:induction false} ReplacesPair(s: State, pair: string, specs: seq<Spec>, now: int)
    ensures PairReplaced(s, Step(s, Reconfigure(pair, specs, now)), pair, specs)
  {
    if specs != [] {
      var o := Cleared(s, pair).(pairs := Cleared(s, pair).pairs[pair := map[]]);
      AddAllAppends(o, pair, specs, now);
      AddAllKeys(o, pair, specs, now);
    }
  }

  lemma {:induction false} ReplacesEntries(s: State, pair: string, specs: seq<Spec>, now: int)
    requires MapsOk(s)
    ensures var t := Step(s, Reconfigure(pair, specs, now));
      && |t.entries| == |s.entries| + |specs| && t.firing == s.firing
      && (forall id :: 0 <= id < |s.entries| ==>
            t.entries[id] == if Current(s, id) && s.entries[id].pair == pair then s.entries[id].(timer := None) else s.entries[id])
  {
    forall k: nat | k < |s.entries| ensures k in IdsOf(s, pair) <==> Current(s, k) && s.entries[k].pair == pair {}
    if specs != [] {
      var o := Cleared(s, pair).(pairs := Cleared(s, pair).pairs[pair := map[]]);
      var r := AddAll(o, pair, specs, now);
      AddAllAppends(o, pair, specs, now);
      AddAllFiring(o, pair, specs, now);
      forall id | 0 <= id < |s.entries| ensures r.entries[id] == o.entries[id] { assert r.entries[..|s.entries|][id] == r.entries[id]; }
    }
  }

  lemma {:induction false} AddAllKeys(s: State, pair: string, specs: seq<Spec>, now: int)
    requires pair in s.pairs
    ensures forall k :: k in AddAll(s, pair, specs, now).pairs[pair] <==>
      k in s.pairs[pair] || exists i :: 0 <= i < |specs| && specs[i].key == k
  {
    if specs != [] {
      var n := |specs| - 1;
      AddAllKeys(s, pair, specs[..n], now);
      AddPoints(AddAll(s, pair, specs[..n], now), pair, specs[n], now);
      assert specs == specs[..n] + [specs[n]];
    }
  }

  // ---------------------------------------------------------------------------
  // The dispatches of one entry follow its schedule
  // ---------------------------------------------------------------------------

  /** When entry `id` was made, its dispatches started, and they ended. */
  ghost function Born(acts: seq<Act>, id: nat): int {
    if acts == [] then 0
    else
      var before, a := acts[..|acts| - 1], acts[|acts| - 1];
      if a.Reconfigure? && |Run(before).entries| <= id < |Run(acts).entries| then a.now else Born(before, id)
  }

  ghost function Starts(acts: seq<Act>, id: nat): seq<int> {
    if acts == [] then []
    else
      var before, a := acts[..|acts| - 1], acts[|acts| - 1];
      if a.Wake? && id !in Run(before).firing && id in Run(acts).firing then Starts(before, id) + [a.now] else Starts(before, id)
  }

  ghost function Ends(acts: seq<Act>, id: nat): seq<int> {
    if acts == [] then []
    else
      var before, a := acts[..|acts| - 1], acts[|acts| - 1];
      if a.Dispatched? && a.entry == id && id in Run(before).firing then Ends(before, id) + [a.now] else Ends(before, id)
  }

  /** The instant from which dispatch `i` is scheduled. */
  function From(born: int, ends: seq<int>, i: nat): int
    requires i <= |ends|
  {
    if i == 0 then born else ends[i - 1]
  }

  /** Every dispatch started on the first instant after the one before had ended, and the next
      one is under way or armed for. */
  ghost predicate Follows(s: State, id: nat, next: int -> int, born: int, starts: seq<int>, ends: seq<int>) {
    && id < |s.entries|
    && |ends| <= |starts| <= |ends| + 1
    && (forall i :: 0 <= i < |starts| ==> starts[i] == next(From(born, ends, i)))
    && (id in s.firing <==> |starts| == |ends| + 1)
    && (id !in s.firing ==> Awaits(s, id, next, From(born, ends, |ends|)))
  }

  /** A timer of the entry is on the way to the first instant after `a`. */
  ghost predicate Awaits(s: State, id: nat, next: int -> int, a: int)
    requires id < |s.entries|
  {
    s.entries[id].timer.Some? && s.entries[id].timer.value in s.armed && AimedFrom(next, s.armed[s.entries[id].timer.value], a)
  }

  lemma {:induction false} DueAims(next: int -> int, tm: Timer, id: nat, now: int, d: nat)
    requires IsSchedule(next) && d == NextDelay(next, now) && DueIn(tm, id, now, d)
    ensures AimedFrom(next, tm, now)
  {
  }

  /** Re-aiming on a clamped wake keeps the goal. */
  lemma {:induction false} SameGoal(next: int -> int, tm: Timer, tm': Timer, a: int)
    requires IsSchedule(next) && AimedFrom(next, tm, a) && tm.clamped && AimedFrom(next, tm', tm.due)
    ensures AimedFrom(next, tm', a)
  {
    assert next(tm.due) == next(a);
  }

  lemma {:induction false} ArmedAwaits(s: State, id: nat, next: int -> int, now: int, delay: Option<nat>)
    requires id < |s.entries| && ArmedFor(s, id, now, delay) && !s.entries[id].stuck && FromSchedule(next, now, delay)
    ensures Awaits(s, id, next, now)
  {
    DueAims(next, s.armed[s.entries[id].timer.value], id, now, delay.value);
  }

  lemma {:induction false} StillCurrent(s: State, a: Act, id: nat)
    requires id < |s.entries| && Current(Step(s, a), id)
    ensures Current(s, id)
    ensures a.Reconfigure? ==> a.pair != s.entries[id].pair
    ensures !a.Stop?
  {
    if a.Reconfigure? && a.specs != [] {
      var o := Cleared(s, a.pair).(pairs := Cleared(s, a.pair).pairs[a.pair := map[]]);
      AddAllAppends(o, a.pair, a.specs, a.now);
      assert AddAll(o, a.pair, a.specs, a.now).entries[..|s.entries|][id] == o.entries[id];
      NewKeysOnly(o, a.pair, a.specs, a.now);
    }
  }

  predicate AllFrom(mine: map<string, nat>, n: nat) { forall k :: k in mine ==> mine[k] >= n }

  lemma {:induction false} NewKeysOnly(s: State, pair: string, specs: seq<Spec>, now: int)
    requires pair in s.pairs && s.pairs[pair] == map[]
    ensures AllFrom(AddAll(s, pair, specs, now).pairs[pair], |s.entries|)
  {
    if specs != [] {
      var n := |specs| - 1;
      var m := AddAll(s, pair, specs[..n], now);
      NewKeysOnly(s, pair, specs[..n], now);
      assert |m.entries| == |s.entries| + n by { AddAllAppends(s, pair, specs[..n], now); }
      AddFrom(m, pair, specs[n], now, |s.entries|);
    }
  }

  lemma {:induction false} AddFrom(s: State, pair: string, spec: Spec, now: int, n: nat)
    requires pair in s.pairs && AllFrom(s.pairs[pair], n) && n <= |s.entries|
    ensures pair in Add(s, pair, spec, now).pairs && AllFrom(Add(s, pair, spec, now).pairs[pair], n)
  {
    AddPoints(s, pair, spec, now);
  }

  /** Act `a` is neither a wake of the entry nor the end of its dispatch. */
  ghost predicate Elsewhere(s: State, a: Act, id: nat) {
    && !(a.Wake? && a.timer in s.armed && s.armed[a.timer].entry == id)
    && !(a.Dispatched? && a.entry == id && id in s.firing)
  }

  lemma {:induction false} WakeElsewhere(s: State, t: nat, now: int, delay: Option<nat>, id: nat)
    requires Base(s) && t in s.armed && id < |s.entries| && s.armed[t].entry != id
    ensures var r := Step(s, Wake(t, now, delay));
      && id < |r.entries| && r.entries[id].timer == s.entries[id].timer && (id in r.firing <==> id in s.firing)
      && (s.entries[id].timer.Some? ==>
            s.entries[id].timer.value in r.armed && r.armed[s.entries[id].timer.value] == s.armed[s.entries[id].timer.value])
  {
    ArmElsewhere(Woken(s, t), s.armed[t].entry, now, delay, id);
  }

  lemma {:induction false} Undisturbed(s: State, a: Act, id: nat)
    requires Base(s) && id < |s.entries| && Current(Step(s, a), id) && Elsewhere(s, a, id)
    ensures var t := Step(s, a);
      && id < |t.entries| && t.entries[id].timer == s.entries[id].timer && (id in t.firing <==> id in s.firing)
      && (s.entries[id].timer.Some? ==>
            s.entries[id].timer.value in t.armed && t.armed[s.entries[id].timer.value] == s.armed[s.entries[id].timer.value])
  {
    StillCurrent(s, a, id);
    match a
    case Wake(t, now, d) => if t in s.armed { WakeElsewhere(s, t, now, d, id); }
    case Dispatched(e, now, d) => if e in s.firing && e != id { ArmElsewhere(s.(firing := s.firing - {e}), e, now, d, id); }
    case Reconfigure(pair, specs, now) => ReconfigureElsewhere(s, pair, specs, now, id);
  }

  lemma {:induction false} ReconfigureElsewhere(s: State, pair: string, specs: seq<Spec>, now: int, id: nat)
    requires Base(s) && id < |s.entries| && Current(s, id) && s.entries[id].pair != pair
    ensures var t := Step(s, Reconfigure(pair, specs, now));
      && id < |t.entries| && t.entries[id].timer == s.entries[id].timer && t.firing == s.firing
      && (s.entries[id].timer.Some? ==>
            s.entries[id].timer.value in t.armed && t.armed[s.entries[id].timer.value] == s.armed[s.entries[id].timer.value])
  {
    var c := Cleared(s, pair);
    CancelOwned(s, IdsOf(s, pair));
    ClearedKeeps(s, pair);
    if specs != [] {
      OpenPair(c, pair);
      AddAllElsewhere(c.(pairs := c.pairs[pair := map[]]), pair, specs, now, id);
    }
  }

  lemma {:induction false} AddAllElsewhere(s: State, pair: string, specs: seq<Spec>, now: int, k: nat)
    requires Base(s) && pair in s.pairs && k < |s.entries|
    ensures var r := AddAll(s, pair, specs, now);
      && k < |r.entries| && r.entries[k] == s.entries[k] && r.firing == s.firing
      && (s.entries[k].timer.Some? ==>
            s.entries[k].timer.value in r.armed && r.armed[s.entries[k].timer.value] == s.armed[s.entries[k].timer.value])
  {
    if specs != [] {
      var n := |specs| - 1;
      AddAllElsewhere(s, pair, specs[..n], now, k);
      AddAllKeepsBase(s, pair, specs[..n], now);
      AddElsewhere(AddAll(s, pair, specs[..n], now), pair, specs[n], now, k);
    }
  }

  /** After a clamped wake the entry awaits the same instant. */
  lemma {:induction false} AwaitsAgain(s: State, t: nat, delay: Option<nat>, next: int -> int, b: int)
    requires Base(s) && StuckIdle(s) && t in s.armed && s.armed[t].clamped && AimedFrom(next, s.armed[t], b)
    requires FromSchedule(next, s.armed[t].due, delay)
    requires !Step(s, Wake(t, s.armed[t].due, delay)).entries[s.armed[t].entry].stuck
    ensures Awaits(Step(s, Wake(t, s.armed[t].due, delay)), s.armed[t].entry, next, b)
  {
    var tm, id, r := s.armed[t], s.armed[t].entry, Step(s, Wake(t, s.armed[t].due, delay));
    assert ArmedFor(r, id, tm.due, delay) by { ComputedArms(s, Wake(t, tm.due, delay), id); }
    assert Awaits(r, id, next, tm.due) by { ArmedAwaits(r, id, next, tm.due, delay); }
    SameGoal(next, tm, r.armed[r.entries[id].timer.value], b);
  }

  lemma {:induction false} FollowsClamped(s: State, t: nat, delay: Option<nat>, next: int -> int, born: int,
    starts: seq<int>, ends: seq<int>)
    requires Base(s) && t in s.armed && s.armed[t].clamped && Follows(s, s.armed[t].entry, next, born, starts, ends)
    requires Awaits(Step(s, Wake(t, s.armed[t].due, delay)), s.armed[t].entry, next, From(born, ends, |ends|))
    ensures Follows(Step(s, Wake(t, s.armed[t].due, delay)), s.armed[t].entry, next, born, starts, ends)
  {
  }

  lemma {:induction false} FollowsStart(s: State, t: nat, delay: Option<nat>, next: int -> int, born: int, starts: seq<int>, ends: seq<int>)
    requires Base(s) && t in s.armed && !s.armed[t].clamped && Follows(s, s.armed[t].entry, next, born, starts, ends)
    ensures var tm := s.armed[t]; Follows(Step(s, Wake(t, tm.due, delay)), tm.entry, next, born, starts + [tm.due], ends)
  {
    assert s.armed[t].entry !in s.firing;
    assert AimedFrom(next, s.armed[t], From(born, ends, |ends|));
  }

  lemma {:induction false} FollowsWake(s: State, t: nat, delay: Option<nat>, next: int -> int, born: int, starts: seq<int>, ends: seq<int>)
    requires Base(s) && StuckIdle(s) && t in s.armed && Follows(s, s.armed[t].entry, next, born, starts, ends)
    requires FromSchedule(next, s.armed[t].due, delay)
    requires !Step(s, Wake(t, s.armed[t].due, delay)).entries[s.armed[t].entry].stuck
    ensures var tm := s.armed[t];
      Follows(Step(s, Wake(t, tm.due, delay)), tm.entry, next, born, if tm.clamped then starts else starts + [tm.due], ends)
  {
    if s.armed[t].clamped {
      assert s.armed[t].entry !in s.firing;
      AwaitsAgain(s, t, delay, next, From(born, ends, |ends|));
      FollowsClamped(s, t, delay, next, born, starts, ends);
    } else {
      FollowsStart(s, t, delay, next, born, starts, ends);
    }
  }

  lemma {:induction false} FollowsEnd(s: State, id: nat, now: int, delay: Option<nat>, next: int -> int, born: int,
    starts: seq<int>, ends: seq<int>)
    requires Base(s) && StuckIdle(s) && id in s.firing && Current(s, id) && Follows(s, id, next, born, starts, ends)
    requires FromSchedule(next, now, delay) && !Step(s, Dispatched(id, now, delay)).entries[id].stuck
    ensures Follows(Step(s, Dispatched(id, now, delay)), id, next, born, starts, ends + [now])
  {
    var r := Step(s, Dispatched(id, now, delay));
    ComputedArms(s, Dispatched(id, now, delay), id);
    ArmedAwaits(r, id, next, now, delay);
    forall i | 0 <= i < |starts| ensures From(born, ends + [now], i) == From(born, ends, i) {}
  }

  lemma {:induction false} FollowsNew(s: State, a: Act, id: nat, next: int -> int)
    requires Base(s) && StuckIdle(s) && a.Reconfigure? && |s.entries| <= id < |Step(s, a).entries|
    requires Computed(s, a, id).Some? && FromSchedule(next, a.now, Computed(s, a, id).value) && !Step(s, a).entries[id].stuck
    ensures Follows(Step(s, a), id, next, a.now, [], [])
  {
    ComputedArms(s, a, id);
    ComputedNotFiring(s, a, id);
    ArmedAwaits(Step(s, a), id, next, a.now, Computed(s, a, id).value);
  }

  lemma {:induction false} NoHistory(acts: seq<Act>, id: nat)
    requires id >= |Run(acts).entries|
    ensures Starts(acts, id) == [] && Ends(acts, id) == []
  {
    if acts != [] {
      var n := |acts| - 1;
      OneTimerPerEntry(acts[..n]);
      OneTimerPerEntry(acts);
      EntriesGrow(Run(acts[..n]), acts[n]);
      NoHistory(acts[..n], id);
    }
  }

  lemma {:induction false} EntriesGrow(s: State, a: Act)
    ensures |Step(s, a).entries| == |s.entries| + if a.Reconfigure? then |a.specs| else 0
  {
    if a.Reconfigure? && a.specs != [] {
      AddAllAppends(Cleared(s, a.pair).(pairs := Cleared(s, a.pair).pairs[a.pair := map[]]), a.pair, a.specs, a.now);
    }
  }

  /** An entry that is current, and whose schedule could always be read, is dispatched exactly
      on time, over every interleaving in which timers go off when due: first on the first
      instant after it was made, then each time on the first instant after the dispatch before
      has ended; and it is being dispatched, or a timer for the next such instant is armed. */
  lemma {:induction false} EntryFollowsSchedule(acts: seq<Act>, sched: nat -> int -> int, id: nat)
    requires OnTime(acts, sched) && Current(Run(acts), id) && !Run(acts).entries[id].stuck
    ensures Follows(Run(acts), id, sched(id), Born(acts, id), Starts(acts, id), Ends(acts, id))
  {
    var n := |acts| - 1;
    var s, a := Run(acts[..n]), acts[n];
    OneTimerPerEntry(acts[..n]);
    RunStuckIdle(acts[..n]);
    EntriesGrow(s, a);
    if id >= |s.entries| {
      NewFollows(acts, sched, id);
    } else {
      StillCurrent(s, a, id);
      NotStuckBefore(s, a, id);
      EntryFollowsSchedule(acts[..n], sched, id);
      FollowsStep(s, a, id, sched, Born(acts[..n], id), Starts(acts[..n], id), Ends(acts[..n], id));
    }
  }

  lemma {:induction false} NewFollows(acts: seq<Act>, sched: nat -> int -> int, id: nat)
    requires acts != [] && OnTime(acts, sched)
    requires |Run(acts[..|acts| - 1]).entries| <= id < |Run(acts).entries| && !Run(acts).entries[id].stuck
    ensures Follows(Run(acts), id, sched(id), Born(acts, id), Starts(acts, id), Ends(acts, id))
  {
    var before := acts[..|acts| - 1];
    OneTimerPerEntry(before);
    RunStuckIdle(before);
    NewReads(acts, id);
    MadeOnTime(Run(before), acts[|acts| - 1], id, sched);
  }

  lemma {:induction false} NewReads(acts: seq<Act>, id: nat)
    requires acts != [] && |Run(acts[..|acts| - 1]).entries| <= id < |Run(acts).entries|
    ensures acts[|acts| - 1].Reconfigure? && Born(acts, id) == acts[|acts| - 1].now
    ensures Starts(acts, id) == [] && Ends(acts, id) == []
  {
    NoHistory(acts[..|acts| - 1], id);
    EntriesGrow(Run(acts[..|acts| - 1]), acts[|acts| - 1]);
  }

  lemma {:induction false} MadeOnTime(s: State, a: Act, id: nat, sched: nat -> int -> int)
    requires Base(s) && StuckIdle(s) && a.Reconfigure? && Timely(s, a, sched)
    requires |s.entries| <= id < |Step(s, a).entries| && !Step(s, a).entries[id].stuck
    ensures Follows(Step(s, a), id, sched(id), a.now, [], [])
  {
    EntriesGrow(s, a);
    assert SpecFrom(sched, |s.entries|, a.specs, a.now, id - |s.entries|);
    FollowsNew(s, a, id, sched(id));
  }

  lemma {:induction false} NotStuckBefore(s: State, a: Act, id: nat)
    requires Base(s) && StuckIdle(s) && id < |s.entries| && id < |Step(s, a).entries| && !Step(s, a).entries[id].stuck
    ensures !s.entries[id].stuck
  {
    if Computed(s, a, id).None? { NotComputedSame(s, a, id); }
  }

  lemma {:induction false} FollowsStep(s: State, a: Act, id: nat, sched: nat -> int -> int, born: int, starts: seq<int>, ends: seq<int>)
    requires Base(s) && StuckIdle(s) && Follows(s, id, sched(id), born, starts, ends) && Timely(s, a, sched)
    requires Current(s, id) && Current(Step(s, a), id) && !Step(s, a).entries[id].stuck
    ensures Follows(Step(s, a), id, sched(id), born,
      if a.Wake? && id !in s.firing && id in Step(s, a).firing then starts + [a.now] else starts,
      if a.Dispatched? && a.entry == id && id in s.firing then ends + [a.now] else ends)
  {
    if Elsewhere(s, a, id) {
      Undisturbed(s, a, id);
    } else if a.Wake? {
      FollowsWake(s, a.timer, a.delay, sched(id), born, starts, ends);
    } else {
      FollowsEnd(s, id, a.now, a.delay, sched(id), born, starts, ends);
    }
  }

  /** Those instants are the firings of one entry with exact timers. */
  lemma {:induction false} FollowsIsFires(s: State, id: nat, next: int -> int, born: int, starts: seq<int>, ends: seq<int>, took: seq<nat>)
    requires IsSchedule(next) && Follows(s, id, next, born, starts, ends)
    requires |took| == |starts| && forall i :: 0 <= i < |ends| ==> ends[i] == starts[i] + took[i]
    ensures starts <= Fires(next, born, took)
  {
    FiringsFollowSchedule(next, born, took);
    ChainedAlike(next, born, starts, ends, took, Fires(next, born, took));
  }

  lemma {:induction false} ChainedAlike(next: int -> int, born: int, starts: seq<int>, ends: seq<int>, took: seq<nat>, f: seq<int>)
    requires |ends| <= |starts| <= |ends| + 1 && |took| == |starts| && |f| == |took| + 1 && f[0] == next(born)
    requires forall i :: 0 <= i < |ends| ==> ends[i] == starts[i] + took[i]
    requires forall i :: 0 <= i < |starts| ==> starts[i] == next(From(born, ends, i))
    requires forall i :: 0 <= i < |took| ==> f[i + 1] == next(f[i] + took[i])
    ensures starts <= f
  {
    var k := 0;
    while k < |starts|
      invariant k <= |starts| && forall i :: 0 <= i < k ==> starts[i] == f[i]
    {
      if k > 0 { assert f[k - 1 + 1] == next(f[k - 1] + took[k - 1]) && ends[k - 1] == starts[k - 1] + took[k - 1]; }
      k := k + 1;
    }
  }

  // ---------------------------------------------------------------------------
  // The source object
  // ---------------------------------------------------------------------------

  lemma {:induction false} CancelTwice(s: State, a: set<nat>, b: set<nat>)
    ensures Cancel(Cancel(s, a), b) == Cancel(s, a + b)
  {
    var m := Cancel(s, a);
    forall t ensures t in CancelledTimers(s, a + b) <==> t in CancelledTimers(s, a) || t in CancelledTimers(m, b) {
      if t in CancelledTimers(s, a + b) {
        var i :| i in a + b && i < |s.entries| && s.entries[i].timer.Some? && s.entries[i].timer.value == t;
        if i !in a { assert m.entries[i] == s.entries[i]; }
      }
      if t in CancelledTimers(m, b) {
        var i :| i in b && i < |m.entries| && m.entries[i].timer.Some? && m.entries[i].timer.value == t;
        assert m.entries[i] == s.entries[i];
      }
    }
    assert Cancel(m, b).entries == Cancel(s, a + b).entries;
    assert Cancel(m, b).armed == Cancel(s, a + b).armed;
  }

  lemma {:induction false} CancelNone(s: State)
    ensures Cancel(s, {}) == s
  {
    assert CancelledTimers(s, {}) == {};
    assert s.armed - {} == s.armed;
  }

  class Source {
    var entries: seq<Entry>
    var pairs: map<string, map<string, nat>>
    var armed: map<nat, Timer>
    var next: nat
    var firing: set<nat>

    function Abs(): State reads this { State(entries, pairs, armed, next, firing) }

    constructor ()
      ensures Abs() == Empty
    {
      entries, pairs, armed, next, firing := [], map[], map[], 0, {};
    }

    /** A schedule that cannot be parsed leaves the entry without a timer. */
    method ArmEntry(id: nat, now: int, delay: Option<nat>)
      requires id < |entries|
      modifies this
      ensures Abs() == Arm(old(Abs()), id, now, delay)
    {
      if delay.None? {
        entries := entries[id := entries[id].(stuck := true)];
        return;
      }
      var d := if delay.value >= 1 then delay.value else 1;
      var clamped := if d <= MaxTimeoutMs then d else MaxTimeoutMs;
      armed := armed[next := Timer(id, now + clamped, clamped < d)];
      entries := entries[id := entries[id].(timer := Some(next))];
      next := next + 1;
    }

    /** Clears the timers of the entries of one key map. */
    method CancelEntries(m: map<string, nat>)
      requires forall k :: k in m ==> m[k] < |entries|
      modifies this
      ensures Abs() == Cancel(old(Abs()), m.Values)
    {
      CancelNone(Abs());
      var todo := m.Keys;
      ghost var done: set<nat> := {};
      while todo != {}
        invariant todo <= m.Keys && |entries| == old(|entries|)
        invariant done == set k | k in m && k !in todo :: m[k]
        invariant Abs() == Cancel(old(Abs()), done)
        decreases |todo|
      {
        var k :| k in todo;
        CancelTwice(old(Abs()), done, {m[k]});
        CancelEntry(m[k]);
        done := done + {m[k]};
        todo := todo - {k};
      }
      assert done == m.Values;
    }

    method CancelEntry(id: nat)
      requires id < |entries|
      modifies this
      ensures Abs() == Cancel(old(Abs()), {id})
    {
      ghost var s := Abs();
      if entries[id].timer.Some? {
        assert CancelledTimers(s, {id}) == {s.entries[id].timer.value};
        armed := armed - {entries[id].timer.value};
        entries := entries[id := entries[id].(timer := None)];
      } else {
        assert CancelledTimers(s, {id}) == {};
        assert s.armed - {} == s.armed;
      }
      assert entries == Cancel(s, {id}).entries;
    }

    method OnFire(t: nat, now: int, delay: Option<nat>)
      requires t in armed && armed[t].entry < |entries|
      modifies this
      ensures Abs() == Step(old(Abs()), Wake(t, now, delay))
    {
      var timer := armed[t];
      armed := armed - {t};
      entries := entries[timer.entry := entries[timer.entry].(timer := None)];
      if timer.clamped {
        ArmEntry(timer.entry, now, delay);
        return;
      }
      firing := firing + {timer.entry};
    }

    /** Re-arms only the entry that is still current for its key. */
    method AfterFire(id: nat, now: int, delay: Option<nat>)
      requires id in firing && id < |entries|
      modifies this
      ensures Abs() == Step(old(Abs()), Dispatched(id, now, delay))
      ensures old(Current(Abs(), id)) && delay.Some? ==>
        && id < |entries| && entries[id].timer.Some? && entries[id].timer.value in armed
        && DueIn(armed[entries[id].timer.value], id, now, if delay.value == 0 then 1 else delay.value)
      ensures !old(Current(Abs(), id)) ==> armed == old(armed)
    {
      firing := firing - {id};
      var e := entries[id];
      if e.pair in pairs && e.key in pairs[e.pair] && pairs[e.pair][e.key] == id {
        ArmEntry(id, now, delay);
      }
    }

    method ReconfigurePair(pair: string, specs: seq<Spec>, now: int)
      requires MapsOk(Abs())
      modifies this
      ensures Abs() == Step(old(Abs()), Reconfigure(pair, specs, now))
    {
      if pair in pairs { CancelEntries(pairs[pair]); } else { CancelNone(Abs()); }
      pairs := pairs - {pair};
      assert Abs() == Cleared(old(Abs()), pair);
      if specs == [] { return; }
      pairs := pairs[pair := map[]];
      ghost var start := Abs();
      assert AddAll(start, pair, specs[..0], now) == start;
      for i := 0 to |specs|
        invariant Abs() == AddAll(start, pair, specs[..i], now)
      {
        assert specs[..i + 1][..i] == specs[..i];
        AddEntry(pair, specs[i], now);
      }
      assert specs[..|specs|] == specs;
    }

    method AddEntry(pair: string, spec: Spec, now: int)
      requires pair in pairs
      modifies this
      ensures Abs() == Add(old(Abs()), pair, spec, now)
    {
      var id := |entries|;
      entries := entries + [Entry(pair, spec.key, None, false)];
      pairs := pairs[pair := pairs[pair][spec.key := id]];
      ArmEntry(id, now, spec.delay);
    }

    method StopAll()
      requires MapsOk(Abs())
      modifies this
      ensures Abs() == Step(old(Abs()), Stop)
    {
      CancelNone(Abs());
      ghost var s := Abs();
      var todo := pairs.Keys;
      ghost var done: set<nat> := {};
      while todo != {}
        invariant todo <= pairs.Keys && |entries| == |s.entries| && pairs == s.pairs
        invariant done == set p, k | p in s.pairs && p !in todo && k in s.pairs[p] :: s.pairs[p][k]
        invariant Abs() == Cancel(s, done)
        decreases |todo|
      {
        var p :| p in todo;
        CancelTwice(s, done, pairs[p].Values);
        CancelEntries(pairs[p]);
        done := done + s.pairs[p].Values;
        todo := todo - {p};
      }
      assert done == AllIds(s);
      pairs := map[];
    }
  }
}
