/** packages/sandbox/src/bridge.ts (`makeCallable`, `drainCallableLeaks`) and the leak audit
    of packages/sandbox/src/worker.ts: host-side handles on guest functions, which may be
    disposed of while calls through them are still in flight.

    `Run` is every interleaving of calls beginning and ending, dispose requests and the
    audit at the end of a run. `Asked` and `InFlight` read the same history without looking
    at the counters. */
module Callables {
  /** `releases` counts `dup.dispose()`; `live`: still in the registry of live callables. */
  datatype Callable = Callable(disposed: bool, depth: nat, pendingDispose: bool, releases: nat, live: bool)

  datatype Act =
    | Make(tracked: bool)
    | Begin(id: nat)
    | End(id: nat)
    | Dispose(id: nat)
    | Drain

  // ---------------------------------------------------------------------------
  // One callable
  // ---------------------------------------------------------------------------

  function Fresh(tracked: bool): Callable { Callable(false, 0, false, 0, tracked) }

  function Release(c: Callable): Callable { c.(disposed := true, releases := c.releases + 1, live := false) }

  /** A disposed callable rejects; one that only waits for disposal does not. */
  function BeginOn(c: Callable): Callable { if c.disposed then c else c.(depth := c.depth + 1) }

  function EndOn(c: Callable): Callable {
    if c.depth == 0 then c
    else
      var d := c.(depth := c.depth - 1);
      if d.depth == 0 && d.pendingDispose && !d.disposed then Release(d) else d
  }

  function DisposeOn(c: Callable): Callable {
    if c.disposed || c.pendingDispose then c
    else if c.depth > 0 then c.(pendingDispose := true)
    else Release(c)
  }

  /** The audit empties the registry and disposes of what was in it. */
  function DrainOn(c: Callable): Callable { if c.live then DisposeOn(c.(live := false)) else c }

  function DrainTo(cs: seq<Callable>, n: nat): (r: seq<Callable>)
    requires n <= |cs|
    ensures |r| == |cs| && forall i :: 0 <= i < |cs| ==> r[i] == if i < n then DrainOn(cs[i]) else cs[i]
  {
    if n == 0 then cs else DrainTo(cs, n - 1)[n - 1 := DrainOn(cs[n - 1])]
  }

  function Step(cs: seq<Callable>, a: Act): seq<Callable> {
    match a
    case Make(tracked) => cs + [Fresh(tracked)]
    case Begin(id) => if id < |cs| then cs[id := BeginOn(cs[id])] else cs
    case End(id) => if id < |cs| then cs[id := EndOn(cs[id])] else cs
    case Dispose(id) => if id < |cs| then cs[id := DisposeOn(cs[id])] else cs
    case Drain => DrainTo(cs, |cs|)
  }

  function Run(acts: seq<Act>): seq<Callable> {
    if acts == [] then [] else Step(Run(acts[..|acts| - 1]), acts[|acts| - 1])
  }

  // ---------------------------------------------------------------------------
  // Reading the history
  // ---------------------------------------------------------------------------

  function Made(acts: seq<Act>): nat {
    if acts == [] then 0 else Made(acts[..|acts| - 1]) + if acts[|acts| - 1].Make? then 1 else 0
  }

  /** Made by a descriptor and no audit since. */
  predicate Tracked(acts: seq<Act>, id: nat) {
    acts != [] &&
    var before, a := acts[..|acts| - 1], acts[|acts| - 1];
    if a.Make? && Made(before) == id then a.tracked else a != Drain && Tracked(before, id)
  }

  /** Its disposal was requested, directly or by an audit. */
  predicate Asked(acts: seq<Act>, id: nat) {
    acts != [] && id < Made(acts) &&
    var before, a := acts[..|acts| - 1], acts[|acts| - 1];
    Asked(before, id) || (a == Dispose(id) && id < Made(before)) || (a == Drain && Tracked(before, id))
  }

  predicate Over(acts: seq<Act>, id: nat) { Asked(acts, id) && InFlight(acts, id) == 0 }

  /** Calls begun and not ended; none can begin once the callable is over. */
  function InFlight(acts: seq<Act>, id: nat): nat {
    if acts == [] then 0
    else
      var before, a := acts[..|acts| - 1], acts[|acts| - 1];
      var n := InFlight(before, id);
      if a == Begin(id) && id < Made(before) && !(Asked(before, id) && n == 0) then n + 1
      else if a == End(id) && n > 0 then n - 1
      else n
  }

  // ---------------------------------------------------------------------------
  // The counters mean the history
  // ---------------------------------------------------------------------------

  ghost predicate Means(c: Callable, asked: bool, inFlight: nat, tracked: bool) {
    && c.depth == inFlight
    && c.disposed == (asked && inFlight == 0)
    && (c.pendingDispose ==> asked) && (asked && inFlight > 0 ==> c.pendingDispose)
    && c.releases == (if c.disposed then 1 else 0)
    && c.live == (tracked && !c.disposed)
  }

  function FlightAfter(n: nat, a: Act, id: nat, open: bool): nat {
    if a == Begin(id) && open then n + 1 else if a == End(id) && n > 0 then n - 1 else n
  }

  lemma {:induction false} HistoryStep(acts: seq<Act>, a: Act, id: nat)
    ensures var now := acts + [a]; Made(now) == Made(acts) + (if a.Make? then 1 else 0)
    ensures var now := acts + [a]; Tracked(now, id) == (if a.Make? && Made(acts) == id then a.tracked else a != Drain && Tracked(acts, id))
    ensures var now := acts + [a];
      Asked(now, id) == (id < Made(now)
      && (Asked(acts, id) || (a == Dispose(id) && id < Made(acts)) || (a == Drain && Tracked(acts, id))))
    ensures InFlight(acts + [a], id) == FlightAfter(InFlight(acts, id), a, id, id < Made(acts) && !Over(acts, id))
  {
    assert (acts + [a])[..|acts|] == acts;
  }

  lemma {:induction false} UnmadeIsBlank(acts: seq<Act>, id: nat)
    requires Made(acts) <= id
    ensures !Asked(acts, id) && !Tracked(acts, id) && InFlight(acts, id) == 0
  {
    if acts != [] {
      var n := |acts| - 1;
      assert acts == acts[..n] + [acts[n]];
      UnmadeIsBlank(acts[..n], id);
      HistoryStep(acts[..n], acts[n], id);
    }
  }

  lemma {:induction false} CountersMeanHistory(acts: seq<Act>, id: nat)
    ensures |Run(acts)| == Made(acts)
    ensures id < |Run(acts)| ==> Means(Run(acts)[id], Asked(acts, id), InFlight(acts, id), Tracked(acts, id))
  {
    if acts != [] {
      var n := |acts| - 1;
      var before, a := acts[..n], acts[n];
      assert acts == before + [a];
      CountersMeanHistory(before, id);
      HistoryStep(before, a, id);
      if Made(before) <= id { UnmadeIsBlank(before, id); }
    }
  }

  /** For every interleaving of nested and overlapping calls, repeated dispose requests and
      audits: the handle is released exactly once disposal was requested and no call is in
      flight, at most once, and only from then on calls are rejected. */
  lemma {:induction false} ReleasedExactlyWhenOver(acts: seq<Act>, id: nat)
    requires id < |Run(acts)|
    ensures var c := Run(acts)[id];
      && c.releases == (if Asked(acts, id) && InFlight(acts, id) == 0 then 1 else 0)
      && c.depth == InFlight(acts, id)
      && (BeginOn(c) == c <==> c.releases == 1)
  {
    CountersMeanHistory(acts, id);
  }

  /** Over stays over: whatever happens later, it is not released again and rejects calls. */
  lemma {:induction false} OverForGood(acts: seq<Act>, more: seq<Act>, id: nat)
    requires id < |Run(acts)| && Over(acts, id)
    ensures id < |Run(acts + more)| && Run(acts + more)[id].releases == 1 && Run(acts + more)[id].disposed && Over(acts + more, id)
  {
    CountersMeanHistory(acts, id);
    StaysOver(acts, more, id);
    CountersMeanHistory(acts + more, id);
  }

  lemma {:induction false} StaysOver(acts: seq<Act>, more: seq<Act>, id: nat)
    requires id < Made(acts) && Over(acts, id)
    ensures id < Made(acts + more) && Over(acts + more, id)
  {
    if more == [] {
      assert acts + more == acts;
    } else {
      var n := |more| - 1;
      StaysOver(acts, more[..n], id);
      HistoryStep(acts + more[..n], more[n], id);
      assert acts + more == acts + more[..n] + [more[n]];
    }
  }

  /** A release never happens under a running call: the step that releases ends with none. */
  lemma {:induction false} NeverReleasedInFlight(acts: seq<Act>, a: Act, id: nat)
    requires id < |Run(acts)| && id < |Run(acts + [a])| && Run(acts + [a])[id].releases > Run(acts)[id].releases
    ensures Run(acts)[id].releases == 0 && InFlight(acts + [a], id) == 0 && InFlight(acts, id) == (if a == End(id) then 1 else 0)
  {
    CountersMeanHistory(acts, id);
    CountersMeanHistory(acts + [a], id);
    HistoryStep(acts, a, id);
  }

  /** After the audit every tracked callable is over, or will be when its calls end, and the
      registry is empty. */
  lemma {:induction false} AuditReachesAll(acts: seq<Act>, id: nat)
    requires id < |Run(acts)|
    ensures var c := Run(acts + [Drain])[id];
      !c.live && (Tracked(acts, id) ==> Asked(acts + [Drain], id) && (c.disposed || (c.pendingDispose && c.depth > 0)))
  {
    CountersMeanHistory(acts, id);
    CountersMeanHistory(acts + [Drain], id);
    HistoryStep(acts, Drain, id);
  }

  // ---------------------------------------------------------------------------
  // The bridge's callables
  // ---------------------------------------------------------------------------

  class Registry {
    var cs: seq<Callable>

    constructor ()
      ensures cs == []
    {
      cs := [];
    }

    method MakeCallable(named: bool) returns (id: nat)
      modifies this
      ensures cs == Step(old(cs), Make(named)) && id == old(|cs|)
    {
      id := |cs|;
      cs := cs + [Callable(false, 0, false, 0, named)];
    }

    /** False: rejected with CallableDisposedError. */
    method Invoke(id: nat) returns (accepted: bool)
      requires id < |cs|
      modifies this
      ensures cs == Step(old(cs), Begin(id)) && accepted == !old(cs[id].disposed)
    {
      var c := cs[id];
      if c.disposed { return false; }
      cs := cs[id := c.(depth := c.depth + 1)];
      accepted := true;
    }

    method InvokeFinally(id: nat)
      requires id < |cs| && cs[id].depth > 0
      modifies this
      ensures cs == Step(old(cs), End(id))
    {
      var c := cs[id].(depth := cs[id].depth - 1);
      if c.depth == 0 && c.pendingDispose && !c.disposed {
        c := c.(disposed := true, releases := c.releases + 1, live := false);
      }
      cs := cs[id := c];
    }

    method DisposeCallable(id: nat)
      requires id < |cs|
      modifies this
      ensures cs == Step(old(cs), Dispose(id))
    {
      var c := cs[id];
      if c.disposed || c.pendingDispose { return; }
      if c.depth > 0 {
        cs := cs[id := c.(pendingDispose := true)];
        return;
      }
      cs := cs[id := c.(disposed := true, releases := c.releases + 1, live := false)];
    }

    /** Lists the survivors, empties the registry, then disposes of each. */
    method DrainLeaks()
      modifies this
      ensures cs == Step(old(cs), Drain)
    {
      ghost var was := cs;
      var leaks: seq<nat> := [];
      for i := 0 to |cs|
        invariant cs == was && forall k: nat :: k in leaks <==> k < i && was[k].live
      {
        if cs[i].live { leaks := leaks + [i]; }
      }
      var all := cs;
      cs := seq(|all|, i requires 0 <= i < |all| => all[i].(live := false));
      for j := 0 to |leaks|
        invariant |cs| == |was|
        invariant forall k :: 0 <= k < |was| ==>
          cs[k] == if k in leaks[..j] then DisposeOn(was[k].(live := false)) else was[k].(live := false)
      {
        assert leaks[..j + 1] == leaks[..j] + [leaks[j]];
        assert leaks[j] in leaks;
        RepeatDispose(was[leaks[j]].(live := false));
        DisposeCallable(leaks[j]);
      }
      assert leaks[..|leaks|] == leaks;
    }
  }

  lemma {:induction false} RepeatDispose(c: Callable)
    ensures DisposeOn(DisposeOn(c)) == DisposeOn(c)
  {
  }
}
