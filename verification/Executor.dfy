/** packages/runtime/src/executor/index.ts and run-queue.ts: invocations of one sandbox
    are serialized through a promise chain, sandbox events are widened with the running
    invocation's identity and recorded one after the other on the emit tail.

    `emitted` lists everything ever chained on the emit tail, `recorded` how much of it
    has been recorded; `started` remembers the invocations in the order they began, with
    the sandbox run each one got, if any. */
module Executor {
  import opened Basics
  import opened Events
  import Sb = SandboxRun
  import ES = EventStore

  /** What identifies an invocation. Ids are fresh by construction (random UUIDs). */
  datatype Meta = Meta(id: nat, tenant: string, dispatch: string)

  datatype Phase = Idle | Running(meta: Meta) | Draining(meta: Meta, target: nat)

  datatype Begun = Begun(meta: Meta, run: Option<nat>)

  datatype Exec = Exec(
    sb: Sb.Main, queue: seq<Meta>, phase: Phase, nextId: nat,
    emitted: seq<ES.InvEvent>, recorded: nat, started: seq<Begun>, returned: seq<nat>)

  const Boot := Exec(Sb.Boot, [], Idle, 0, [], 0, [], [])

  datatype Act =
    | Invoke(tenant: string, dispatch: Option<string>)
    | StartNext(now: int)
    | SandboxAct(a: Sb.Act)
    | RecordOne
    | Return

  /** Widening stamps the identity, and the dispatch metadata on `trigger.request` only. */
  function Widen(m: Meta, e: SandboxEvent): ES.InvEvent {
    ES.InvEvent(m.id, e, m.tenant, if e.kind == "trigger.request" then Some(m.dispatch) else None)
  }

  function WidenAll(m: Meta, es: seq<SandboxEvent>): (r: seq<ES.InvEvent>)
    ensures |r| == |es|
  {
    if es == [] then [] else WidenAll(m, es[..|es| - 1]) + [Widen(m, es[|es| - 1])]
  }

  /** Events the step forwarded to the subscriber while the run promise was unsettled. */
  function Delta(before: Sb.Main, after: Sb.Main): seq<SandboxEvent> {
    if before.runs != [] && |after.runs| == |before.runs| && |Sb.Current(before).events| <= |Sb.Current(after).events|
    then Sb.Current(after).events[|Sb.Current(before).events|..]
    else []
  }

  /** The run promise of the current invocation is settled. */
  predicate Settled(m: Sb.Main) { m.runs == [] || Sb.Current(m).settlements != [] }

  function Step(x: Exec, a: Act): Exec {
    match a
    case Invoke(tenant, dispatch) =>
      var m := Meta(2 * x.nextId, tenant, if dispatch.Some? then dispatch.value else "trigger");
      x.(queue := x.queue + [m], nextId := x.nextId + 1)
    case StartNext(now) =>
      if !x.phase.Idle? || x.queue == [] then x
      else
        var m := x.queue[0];
        var sb' := Sb.Step(x.sb, Sb.RunCall(now));
        if Sb.CanRun(x.sb)
        then x.(queue := x.queue[1..], sb := sb', phase := Running(m), started := x.started + [Begun(m, Some(|x.sb.runs|))])
        else x.(queue := x.queue[1..], sb := sb', phase := Draining(m, |x.emitted|), started := x.started + [Begun(m, None)])
    case SandboxAct(a) =>
      if a.RunCall? then x
      else
        var sb' := Sb.Step(x.sb, a);
        if !x.phase.Running? then x.(sb := sb')
        else
          var emitted' := x.emitted + WidenAll(x.phase.meta, Delta(x.sb, sb'));
          x.(sb := sb', emitted := emitted',
             phase := if Settled(sb') then Draining(x.phase.meta, |emitted'|) else x.phase)
    case RecordOne =>
      if x.recorded < |x.emitted| then x.(recorded := x.recorded + 1) else x
    case Return =>
      if x.phase.Draining? && x.recorded >= x.phase.target
      then x.(phase := Idle, returned := x.returned + [x.phase.meta.id])
      else x
  }

  function Run(acts: seq<Act>): Exec {
    if acts == [] then Boot else Step(Run(acts[..|acts| - 1]), acts[|acts| - 1])
  }

  // ---------------------------------------------------------------------------
  // The per-sandbox state, updated in place
  // ---------------------------------------------------------------------------

  class Invoker {
    var sb: Sb.Main
    var queue: seq<Meta>
    var phase: Phase
    var nextId: nat
    var emitted: seq<ES.InvEvent>
    var recorded: nat
    var started: seq<Begun>
    var returned: seq<nat>

    function Abs(): Exec reads this { Exec(sb, queue, phase, nextId, emitted, recorded, started, returned) }

    constructor ()
      ensures Abs() == Boot
    {
      sb, queue, phase, nextId, emitted, recorded, started, returned := Sb.Boot, [], Idle, 0, [], 0, [], [];
    }

    /** `invoke`: take a turn at the end of the run queue. */
    method Enqueue(tenant: string, dispatch: Option<string>)
      modifies this
      ensures Abs() == Step(old(Abs()), Invoke(tenant, dispatch))
    {
      var source := if dispatch.Some? then dispatch.value else "trigger";
      queue := queue + [Meta(2 * nextId, tenant, source)];
      nextId := nextId + 1;
    }

    /** The turn at the head starts; a sandbox that refuses the run settles it at once. */
    method RunNext(now: int)
      modifies this
      ensures Abs() == Step(old(Abs()), StartNext(now))
    {
      if !phase.Idle? || queue == [] { return; }
      var m := queue[0];
      queue := queue[1..];
      if Sb.CanRun(sb) {
        started := started + [Begun(m, Some(|sb.runs|))];
        phase := Running(m);
      } else {
        started := started + [Begun(m, None)];
        phase := Draining(m, |emitted|);
      }
      sb := Sb.Step(sb, Sb.RunCall(now));
    }

    /** The `onEvent` listener: without an active invocation the event is dropped. */
    method OnEvent(e: SandboxEvent)
      modifies this`emitted
      ensures emitted == if phase.Running? then old(emitted) + [Widen(phase.meta, e)] else old(emitted)
      ensures phase.Running? ==>
        var w := emitted[|old(emitted)|];
        && w.base == e && w.id == phase.meta.id && w.tenant == phase.meta.tenant
        && w.dispatch == if e.kind == "trigger.request" then Some(phase.meta.dispatch) else None
    {
      if phase.Running? { emitted := emitted + [Widen(phase.meta, e)]; }
    }

    method Listen(es: seq<SandboxEvent>)
      modifies this`emitted
      ensures emitted == if phase.Running? then old(emitted) + WidenAll(phase.meta, es) else old(emitted)
    {
      for i := 0 to |es|
        invariant emitted == if phase.Running? then old(emitted) + WidenAll(phase.meta, es[..i]) else old(emitted)
      {
        assert es[..i + 1][..i] == es[..i];
        OnEvent(es[i]);
      }
      assert es[..|es|] == es;
    }

    /** The sandbox moves on: what it forwards goes to the listener, and a settled run
        ends the active invocation. */
    method OnSandbox(a: Sb.Act)
      requires !a.RunCall?
      modifies this
      ensures Abs() == Step(old(Abs()), SandboxAct(a))
    {
      var after := Sb.Step(sb, a);
      Listen(Delta(sb, after));
      sb := after;
      if phase.Running? && Settled(sb) { phase := Draining(phase.meta, |emitted|); }
    }

    /** The emit tail advances by one record. */
    method RecordNext()
      modifies this
      ensures Abs() == Step(old(Abs()), RecordOne)
    {
      if recorded < |emitted| { recorded := recorded + 1; }
    }

    /** The invocation returns once the tail it awaited is recorded. */
    method TryReturn() returns (done: bool)
      modifies this
      ensures Abs() == Step(old(Abs()), Return)
      ensures done <==> old(phase).Draining? && old(recorded) >= old(phase).target
    {
      done := phase.Draining? && recorded >= phase.target;
      if done {
        returned := returned + [phase.meta.id];
        phase := Idle;
      }
    }
  }

  // ---------------------------------------------------------------------------
  // Reference meaning
  // ---------------------------------------------------------------------------

  /** The events of one begun invocation: those its run forwarded before it settled. */
  function Block(b: Begun, runs: seq<Sb.RunRec>): seq<ES.InvEvent> {
    if b.run.Some? && b.run.value < |runs| then WidenAll(b.meta, runs[b.run.value].events) else []
  }

  /** One block per invocation, in the order the invocations began. */
  function Blocks(started: seq<Begun>, runs: seq<Sb.RunRec>): seq<ES.InvEvent> {
    if started == [] then []
    else Blocks(started[..|started| - 1], runs) + Block(started[|started| - 1], runs)
  }

  /** Ids grow in the order of the calls: begun, then queued, then not yet handed out. */
  ghost predicate IdsFresh(started: seq<Begun>, queue: seq<Meta>, nextId: nat) {
    && (forall i :: 0 <= i < |started| ==> started[i].meta.id < 2 * nextId && started[i].meta.id % 2 == 0)
    && (forall i :: 0 <= i < |queue| ==> queue[i].id < 2 * nextId && queue[i].id % 2 == 0)
    && IdsIncrease(started)
    && (forall i, j :: 0 <= i < j < |queue| ==> queue[i].id < queue[j].id)
    && (forall i, j :: 0 <= i < |started| && 0 <= j < |queue| ==> started[i].meta.id < queue[j].id)
  }

  ghost predicate IdsIncrease(started: seq<Begun>) {
    forall i, j :: 0 <= i < j < |started| ==> started[i].meta.id < started[j].meta.id
  }

  ghost predicate PhaseOk(x: Exec) {
    && (!x.phase.Idle? ==> x.started != [] && x.started[|x.started| - 1].meta == x.phase.meta)
    && (x.phase.Running? ==> Sb.InFlight(x.sb) && Sb.Current(x.sb).settlements == [])
    && (x.phase.Running? ==> x.started[|x.started| - 1].run == Some(|x.sb.runs| - 1))
    && (!x.phase.Running? ==> Settled(x.sb))
    && (x.phase.Draining? ==> x.phase.target == |x.emitted|)
  }

  ghost predicate Inv(x: Exec) {
    && IdsFresh(x.started, x.queue, x.nextId) && PhaseOk(x)
    && x.recorded <= |x.emitted|
    && x.emitted == Blocks(x.started, x.sb.runs)
    && RunsAssigned(x.started, |x.sb.runs|)
    && (forall k :: 0 <= k < |x.returned| ==> Done(x, x.returned[k]))
  }

  /** Begun invocations own distinct runs, in increasing order. */
  ghost predicate RunsAssigned(started: seq<Begun>, n: nat) {
    && (forall i :: 0 <= i < |started| ==> (started[i].run.Some? ==> started[i].run.value < n))
    && (forall i, j :: 0 <= i < j < |started| && started[i].run.Some? && started[j].run.Some? ==>
          started[i].run.value < started[j].run.value)
  }

  /** Every event of the invocation has been recorded, and it is not the current one. */
  ghost predicate Done(x: Exec, id: nat) {
    && (!x.phase.Idle? ==> x.phase.meta.id != id)
    && (exists i :: 0 <= i < |x.started| && x.started[i].meta.id == id)
    && forall i :: 0 <= i < |x.emitted| && x.emitted[i].id == id ==> i < x.recorded
  }

  // ---------------------------------------------------------------------------
  // Facts about blocks
  // ---------------------------------------------------------------------------

  lemma {:induction false} WidenAllConcat(m: Meta, a: seq<SandboxEvent>, b: seq<SandboxEvent>)
    ensures WidenAll(m, a + b) == WidenAll(m, a) + WidenAll(m, b)
  {
    if b == [] {
      assert a + b == a;
    } else {
      var n := |b| - 1;
      WidenAllConcat(m, a, b[..n]);
      assert (a + b)[..|a| + n] == a + b[..n];
    }
  }

  lemma {:induction false} WidenAllAt(m: Meta, es: seq<SandboxEvent>, i: nat)
    requires i < |es|
    ensures WidenAll(m, es)[i] == Widen(m, es[i])
  {
    if i < |es| - 1 { WidenAllAt(m, es[..|es| - 1], i); }
  }

  lemma {:induction false} BlocksSame(started: seq<Begun>, runs: seq<Sb.RunRec>, runs': seq<Sb.RunRec>)
    requires forall i :: 0 <= i < |started| ==> Block(started[i], runs) == Block(started[i], runs')
    ensures Blocks(started, runs) == Blocks(started, runs')
  {
    if started != [] { BlocksSame(started[..|started| - 1], runs, runs'); }
  }

  lemma {:induction false} BlocksAppend(started: seq<Begun>, b: Begun, runs: seq<Sb.RunRec>)
    ensures Blocks(started + [b], runs) == Blocks(started, runs) + Block(b, runs)
  {
    assert (started + [b])[..|started|] == started;
  }

  /** An id in the log of blocks belongs to an invocation that began. */
  lemma {:induction false} BlocksIds(started: seq<Begun>, runs: seq<Sb.RunRec>, i: nat) returns (k: nat)
    requires i < |Blocks(started, runs)|
    ensures k < |started| && Blocks(started, runs)[i].id == started[k].meta.id
    ensures i >= |Blocks(started[..|started| - 1], runs)| ==> k == |started| - 1
    ensures i < |Blocks(started[..|started| - 1], runs)| ==> k < |started| - 1
  {
    var n := |started| - 1;
    if i < |Blocks(started[..n], runs)| {
      k := BlocksIds(started[..n], runs, i);
    } else {
      k := n;
      WidenAllAt(started[n].meta, runs[started[n].run.value].events, i - |Blocks(started[..n], runs)|);
    }
  }

  lemma {:induction false} BlocksContiguous(started: seq<Begun>, runs: seq<Sb.RunRec>, i: nat, j: nat, k: nat)
    requires IdsIncrease(started) && i < j < k < |Blocks(started, runs)|
    requires Blocks(started, runs)[i].id == Blocks(started, runs)[k].id
    ensures Blocks(started, runs)[j].id == Blocks(started, runs)[i].id
  {
    var n := |started| - 1;
    var bi := BlocksIds(started, runs, i);
    var bj := BlocksIds(started, runs, j);
    var bk := BlocksIds(started, runs, k);
    if bk < n { BlocksContiguous(started[..n], runs, i, j, k); }
  }

  // ---------------------------------------------------------------------------
  // The invariant is kept
  // ---------------------------------------------------------------------------

  lemma {:induction false} AssignedAppend(started: seq<Begun>, b: Begun, n: nat, n': nat)
    requires RunsAssigned(started, n) && n <= n' && (b.run.Some? ==> n <= b.run.value < n')
    ensures RunsAssigned(started + [b], n')
  {
  }

  lemma {:induction false} StartBlocks(started: seq<Begun>, b: Begun, runs: seq<Sb.RunRec>, runs': seq<Sb.RunRec>)
    requires RunsAssigned(started, |runs|) && runs <= runs'
    requires b.run.Some? ==> b.run.value == |runs| == |runs'| - 1 && runs'[|runs|].events == []
    ensures Blocks(started + [b], runs') == Blocks(started, runs)
  {
    forall i | 0 <= i < |started| ensures Block(started[i], runs) == Block(started[i], runs') {
      if started[i].run.Some? { assert runs'[started[i].run.value] == runs[started[i].run.value]; }
    }
    BlocksSame(started, runs, runs');
    BlocksAppend(started, b, runs');
    assert Block(b, runs') == [];
    assert Blocks(started, runs') + [] == Blocks(started, runs');
  }

  lemma {:induction false} StartDone(x: Exec, x': Exec, id: nat)
    requires Done(x, id) && IdsFresh(x.started, x.queue, x.nextId) && x.queue != []
    requires x.started <= x'.started && x'.emitted == x.emitted && x'.recorded == x.recorded
    requires x'.phase.Idle? || x'.phase.meta == x.queue[0]
    ensures Done(x', id)
  {
    var i :| 0 <= i < |x.started| && x.started[i].meta.id == id;
    assert x'.started[i] == x.started[i];
  }

  lemma {:induction false} IdsAfterStart(started: seq<Begun>, queue: seq<Meta>, nextId: nat, b: Begun)
    requires IdsFresh(started, queue, nextId) && queue != [] && b.meta == queue[0]
    ensures IdsFresh(started + [b], queue[1..], nextId)
  {
  }

  lemma {:induction false} IdsAfterInvoke(started: seq<Begun>, queue: seq<Meta>, nextId: nat, m: Meta)
    requires IdsFresh(started, queue, nextId) && m.id == 2 * nextId
    ensures IdsFresh(started, queue + [m], nextId + 1)
  {
  }

  lemma {:induction false} StartKeepsInv(x: Exec, now: int)
    requires Inv(x) && x.phase.Idle? && x.queue != []
    ensures Inv(Step(x, StartNext(now)))
  {
    var x' := Step(x, StartNext(now));
    var b := x'.started[|x.started|];
    assert x'.started == x.started + [b] && x'.queue == x.queue[1..] && b.meta == x.queue[0];
    assert x'.emitted == Blocks(x'.started, x'.sb.runs) by { StartBlocks(x.started, b, x.sb.runs, x'.sb.runs); }
    assert RunsAssigned(x'.started, |x'.sb.runs|) by { AssignedAppend(x.started, b, |x.sb.runs|, |x'.sb.runs|); }
    forall k | 0 <= k < |x'.returned| ensures Done(x', x'.returned[k]) {
      StartDone(x, x', x.returned[k]);
    }
    assert IdsFresh(x'.started, x'.queue, x'.nextId) by { IdsAfterStart(x.started, x.queue, x.nextId, b); }
    assert PhaseOk(x') by { StartPhase(x, now); }
  }

  lemma {:induction false} StartPhase(x: Exec, now: int)
    requires PhaseOk(x) && x.phase.Idle? && x.queue != []
    ensures PhaseOk(Step(x, StartNext(now)))
  {
  }

  /** A run that forwards more events extends the block of the invocation that owns it. */
  lemma {:induction false} BlocksExtend(started: seq<Begun>, runs: seq<Sb.RunRec>, runs': seq<Sb.RunRec>, d: seq<SandboxEvent>)
    requires started != [] && runs != [] && |runs| == |runs'| && RunsAssigned(started, |runs|)
    requires started[|started| - 1].run == Some(|runs| - 1)
    requires forall k :: 0 <= k < |runs| - 1 ==> runs'[k] == runs[k]
    requires runs'[|runs| - 1].events == runs[|runs| - 1].events + d
    ensures Blocks(started, runs') == Blocks(started, runs) + WidenAll(started[|started| - 1].meta, d)
  {
    var n := |started| - 1;
    forall i | 0 <= i < n ensures Block(started[..n][i], runs) == Block(started[..n][i], runs') {
      if started[i].run.Some? { assert started[i].run.value < started[n].run.value; }
    }
    BlocksSame(started[..n], runs, runs');
    WidenAllConcat(started[n].meta, runs[|runs| - 1].events, d);
    var p, q, m := Blocks(started[..n], runs), Block(started[n], runs), WidenAll(started[n].meta, d);
    assert Blocks(started, runs') == p + (q + m);
  }

  lemma {:induction false} BlocksUnchanged(started: seq<Begun>, sb: Sb.Main, sb': Sb.Main)
    requires RunsAssigned(started, |sb.runs|) && Settled(sb) && Sb.OnlyExtends(sb, sb')
    ensures Blocks(started, sb'.runs) == Blocks(started, sb.runs)
  {
    forall i | 0 <= i < |started| ensures Block(started[i], sb.runs) == Block(started[i], sb'.runs) {
      if started[i].run.Some? {
        var k := started[i].run.value;
        assert k < |sb.runs| && sb'.runs[k].events == sb.runs[k].events;
      }
    }
    BlocksSame(started, sb.runs, sb'.runs);
  }

  lemma {:induction false} MoreEventsDone(x: Exec, x': Exec, id: nat)
    requires Done(x, id) && x'.started == x.started && x'.recorded == x.recorded && !x.phase.Idle?
    requires x.emitted <= x'.emitted && !x'.phase.Idle? && x'.phase.meta == x.phase.meta
    requires forall i :: |x.emitted| <= i < |x'.emitted| ==> x'.emitted[i].id == x.phase.meta.id
    ensures Done(x', id)
  {
    forall i | 0 <= i < |x'.emitted| && x'.emitted[i].id == id ensures i < x'.recorded {
      assert i < |x.emitted| && x.emitted[i] == x'.emitted[i];
    }
  }

  lemma {:induction false} WidenAllIds(m: Meta, es: seq<SandboxEvent>)
    ensures forall i :: 0 <= i < |WidenAll(m, es)| ==> WidenAll(m, es)[i].id == m.id
  {
    forall i | 0 <= i < |WidenAll(m, es)| ensures WidenAll(m, es)[i].id == m.id { WidenAllAt(m, es, i); }
  }

  lemma {:induction false} RunningBlocks(x: Exec, sb': Sb.Main)
    requires x.phase.Running? && PhaseOk(x) && RunsAssigned(x.started, |x.sb.runs|) && Sb.OnlyExtends(x.sb, sb')
    ensures Blocks(x.started, sb'.runs) == Blocks(x.started, x.sb.runs) + WidenAll(x.phase.meta, Delta(x.sb, sb'))
  {
    var d := Delta(x.sb, sb');
    assert Sb.Current(sb').events == Sb.Current(x.sb).events + d;
    BlocksExtend(x.started, x.sb.runs, sb'.runs, d);
  }

  lemma {:induction false} RunningPhase(x: Exec, a: Sb.Act)
    requires x.phase.Running? && PhaseOk(x) && !a.RunCall? && Sb.OnlyExtends(x.sb, Sb.Step(x.sb, a))
    ensures PhaseOk(Step(x, SandboxAct(a)))
  {
  }

  lemma {:induction false} RunningKeepsInv(x: Exec, a: Sb.Act)
    requires Inv(x) && !a.RunCall? && x.phase.Running?
    ensures Inv(Step(x, SandboxAct(a)))
  {
    var x' := Step(x, SandboxAct(a));
    Sb.StepExtends(x.sb, a);
    RunningBlocks(x, x'.sb);
    RunningPhase(x, a);
    WidenAllIds(x.phase.meta, Delta(x.sb, x'.sb));
    forall k | 0 <= k < |x'.returned| ensures Done(x', x'.returned[k]) {
      MoreEventsDone(x, x', x.returned[k]);
    }
  }

  lemma {:induction false} SameDone(x: Exec, x': Exec, id: nat)
    requires Done(x, id) && x'.started == x.started && x'.recorded >= x.recorded
    requires x'.emitted == x.emitted && (x'.phase.Idle? || x'.phase == x.phase)
    ensures Done(x', id)
  {
  }

  lemma {:induction false} OtherKeepsInv(x: Exec, a: Sb.Act)
    requires Inv(x) && !a.RunCall? && !x.phase.Running?
    ensures Inv(Step(x, SandboxAct(a)))
  {
    var x' := Step(x, SandboxAct(a));
    Sb.StepExtends(x.sb, a);
    BlocksUnchanged(x.started, x.sb, x'.sb);
    forall k | 0 <= k < |x'.returned| ensures Done(x', x'.returned[k]) { SameDone(x, x', x.returned[k]); }
    assert PhaseOk(x');
  }

  lemma {:induction false} ReturnKeepsInv(x: Exec)
    requires Inv(x) && x.phase.Draining? && x.recorded >= x.phase.target
    ensures Inv(Step(x, Return))
  {
    var x' := Step(x, Return);
    forall k | 0 <= k < |x'.returned| ensures Done(x', x'.returned[k]) {
      if k < |x.returned| { assert Done(x, x.returned[k]); }
      else { assert x.started[|x.started| - 1].meta.id == x'.returned[k]; }
    }
  }

  lemma {:induction false} RecordKeepsInv(x: Exec)
    requires Inv(x)
    ensures Inv(Step(x, RecordOne))
  {
    var x' := Step(x, RecordOne);
    forall k | 0 <= k < |x'.returned| ensures Done(x', x'.returned[k]) { SameDone(x, x', x.returned[k]); }
  }

  lemma {:induction false} InvokeKeepsInv(x: Exec, a: Act)
    requires Inv(x) && a.Invoke?
    ensures Inv(Step(x, a))
  {
    var x' := Step(x, a);
    forall k | 0 <= k < |x'.returned| ensures Done(x', x'.returned[k]) { SameDone(x, x', x.returned[k]); }
    assert IdsFresh(x'.started, x'.queue, x'.nextId) by {
      IdsAfterInvoke(x.started, x.queue, x.nextId, x'.queue[|x.queue|]);
    }
    assert PhaseOk(x');
  }

  lemma {:induction false} StepKeepsInv(x: Exec, a: Act)
    requires Inv(x)
    ensures Inv(Step(x, a))
  {
    match a
    case Invoke(_, _) => InvokeKeepsInv(x, a);
    case StartNext(now) => if x.phase.Idle? && x.queue != [] { StartKeepsInv(x, now); }
    case SandboxAct(b) =>
      if !b.RunCall? { if x.phase.Running? { RunningKeepsInv(x, b); } else { OtherKeepsInv(x, b); } }
    case RecordOne => RecordKeepsInv(x);
    case Return => if x.phase.Draining? && x.recorded >= x.phase.target { ReturnKeepsInv(x); }
  }

  lemma {:induction false} RunKeepsInv(acts: seq<Act>)
    ensures Inv(Run(acts))
  {
    if acts != [] {
      RunKeepsInv(acts[..|acts| - 1]);
      StepKeepsInv(Run(acts[..|acts| - 1]), acts[|acts| - 1]);
    }
  }

  // ---------------------------------------------------------------------------
  // Main results
  // ---------------------------------------------------------------------------

  /** For every schedule of concurrent invocations: what is put on the emit tail is one
      contiguous block per invocation, in the order the invocations began, and a block is
      exactly what that invocation's own run forwarded, each event with the identity of its
      call of `invoke`. */
  lemma {:induction false} EmittedInBlocks(acts: seq<Act>)
    ensures var x := Run(acts);
      && x.emitted == Blocks(x.started, x.sb.runs)
      && (forall i :: 0 <= i < |x.emitted| ==> Owned(x.emitted[i], Invokes(acts)))
      && (forall b :: b in x.started && b.run.Some? && b.run.value < |x.sb.runs| ==>
            Bases(Block(b, x.sb.runs)) == x.sb.runs[b.run.value].events)
  {
    RunKeepsInv(acts);
    var x := Run(acts);
    forall i | 0 <= i < |x.emitted| ensures Owned(x.emitted[i], Invokes(acts)) { EmittedOwned(acts, i); }
    forall b | b in x.started && b.run.Some? && b.run.value < |x.sb.runs|
      ensures Bases(Block(b, x.sb.runs)) == x.sb.runs[b.run.value].events
    {
      BlockBases(b, x.sb.runs);
    }
  }

  /** Events of different invocations are never interleaved. */
  lemma {:induction false} NeverInterleaved(acts: seq<Act>, i: nat, j: nat, k: nat)
    requires i < j < k < |Run(acts).emitted| && Run(acts).emitted[i].id == Run(acts).emitted[k].id
    ensures Run(acts).emitted[j].id == Run(acts).emitted[i].id
  {
    RunKeepsInv(acts);
    var x := Run(acts);
    BlocksContiguous(x.started, x.sb.runs, i, j, k);
  }

  /** Dispatch metadata sits on `trigger.request` events and nowhere else, and it is that of
      the call of `invoke`, with "trigger" for none. */
  lemma {:induction false} DispatchOnlyOnRequest(acts: seq<Act>, i: nat)
    requires i < |Run(acts).emitted|
    ensures var e, calls := Run(acts).emitted[i], Invokes(acts);
      && (e.dispatch.Some? <==> e.base.kind == "trigger.request")
      && e.id / 2 < |calls| && calls[e.id / 2].Invoke?
      && (e.dispatch.Some? ==> e.dispatch.value == match calls[e.id / 2].dispatch { case Some(d) => d case None => "trigger" })
  {
    EmittedOwned(acts, i);
  }

  /** An invocation that has returned has all its events recorded, for good. */
  lemma {:induction false} ReturnedMeansRecorded(acts: seq<Act>, id: nat, i: nat)
    requires id in Run(acts).returned && i < |Run(acts).emitted| && Run(acts).emitted[i].id == id
    ensures i < Run(acts).recorded
  {
    RunKeepsInv(acts);
    var x := Run(acts);
    var k :| 0 <= k < |x.returned| && x.returned[k] == id;
    assert Done(x, x.returned[k]);
  }

  // ---------------------------------------------------------------------------
  // Whose events they are, read off the acts
  // ---------------------------------------------------------------------------

  /** The calls of `invoke`, in order. */
  function Invokes(acts: seq<Act>): seq<Act> {
    if acts == [] then []
    else
      var n := |acts| - 1;
      if acts[n].Invoke? then Invokes(acts[..n]) + [acts[n]] else Invokes(acts[..n])
  }

  /** `m` identifies the `n`-th call `a`: its own id, its tenant, its dispatch. */
  predicate Identifies(m: Meta, n: nat, a: Act) {
    a.Invoke? && m.id == 2 * n && m.tenant == a.tenant && m.dispatch == match a.dispatch { case Some(d) => d case None => "trigger" }
  }

  ghost predicate TurnsOk(x: Exec, calls: seq<Act>) {
    && |x.started| + |x.queue| == |calls| == x.nextId
    && (forall i :: 0 <= i < |x.started| ==> Identifies(x.started[i].meta, i, calls[i]))
    && (forall i :: 0 <= i < |x.queue| ==> Identifies(x.queue[i], |x.started| + i, calls[|x.started| + i]))
  }

  lemma {:induction false} InvokeTurns(x: Exec, calls: seq<Act>, a: Act)
    requires TurnsOk(x, calls) && a.Invoke?
    ensures TurnsOk(Step(x, a), calls + [a])
  {
  }

  lemma {:induction false} StartTurns(x: Exec, calls: seq<Act>, now: int)
    requires TurnsOk(x, calls)
    ensures TurnsOk(Step(x, StartNext(now)), calls)
  {
    if x.phase.Idle? && x.queue != [] {
      var x' := Step(x, StartNext(now));
      forall i | 0 <= i < |x'.queue| ensures Identifies(x'.queue[i], |x'.started| + i, calls[|x'.started| + i]) {
        assert x'.queue[i] == x.queue[i + 1];
      }
    }
  }

  /** Turns are taken in the order of the calls; none is lost, doubled or given to another. */
  lemma {:induction false} TurnsInCallOrder(acts: seq<Act>)
    ensures TurnsOk(Run(acts), Invokes(acts))
  {
    if acts != [] {
      var n := |acts| - 1;
      var x := Run(acts[..n]);
      TurnsInCallOrder(acts[..n]);
      if acts[n].Invoke? { InvokeTurns(x, Invokes(acts[..n]), acts[n]); }
      else if acts[n].StartNext? { StartTurns(x, Invokes(acts[..n]), acts[n].now); }
      else { assert Step(x, acts[n]).started == x.started && Step(x, acts[n]).queue == x.queue; }
    }
  }

  /** Event `e` belongs to one of the calls and carries its identity, field by field. */
  ghost predicate Owned(e: ES.InvEvent, calls: seq<Act>) {
    var n := e.id / 2;
    && e.id % 2 == 0 && n < |calls| && calls[n].Invoke? && e.tenant == calls[n].tenant
    && e.dispatch == OwnDispatch(e.base.kind, calls[n].dispatch)
  }

  /** Dispatch metadata sits on `trigger.request` events and nowhere else. */
  function OwnDispatch(kind: string, dispatch: Option<string>): Option<string> {
    if kind != "trigger.request" then None else if dispatch.None? then Some("trigger") else dispatch
  }

  lemma {:induction false} WidenedOwned(m: Meta, e: SandboxEvent, n: nat, calls: seq<Act>)
    requires n < |calls| && Identifies(m, n, calls[n])
    ensures var w := Widen(m, e); Owned(w, calls) && w.id == 2 * n && w.base == e
  {
  }

  /** Entry `i` of the log of blocks: which invocation and which event of its run it is. */
  lemma {:induction false} BlocksAt(started: seq<Begun>, runs: seq<Sb.RunRec>, i: nat) returns (k: nat, j: nat)
    requires i < |Blocks(started, runs)|
    ensures k < |started| && started[k].run.Some? && started[k].run.value < |runs| && j < |runs[started[k].run.value].events|
    ensures Blocks(started, runs)[i] == Widen(started[k].meta, runs[started[k].run.value].events[j])
  {
    var n := |started| - 1;
    var before := |Blocks(started[..n], runs)|;
    if i < before {
      k, j := BlocksAt(started[..n], runs, i);
    } else {
      k, j := n, i - before;
      WidenAllAt(started[n].meta, runs[started[n].run.value].events, j);
    }
  }

  /** Every event on the emit tail carries the id, tenant and dispatch of the call of
      `invoke` it belongs to. */
  lemma {:induction false} EmittedOwned(acts: seq<Act>, i: nat)
    requires i < |Run(acts).emitted|
    ensures Owned(Run(acts).emitted[i], Invokes(acts))
  {
    var x := Run(acts);
    RunKeepsInv(acts);
    TurnsInCallOrder(acts);
    var k, j := BlocksAt(x.started, x.sb.runs, i);
    WidenedOwned(x.started[k].meta, x.sb.runs[x.started[k].run.value].events[j], k, Invokes(acts));
  }

  /** The events of one invocation without its identity. */
  function Bases(es: seq<ES.InvEvent>): (r: seq<SandboxEvent>)
    ensures |r| == |es| && forall i :: 0 <= i < |es| ==> r[i] == es[i].base
  {
    seq(|es|, i requires 0 <= i < |es| => es[i].base)
  }

  /** Taking the identity off gives back what the run forwarded. */
  lemma {:induction false} BlockBases(b: Begun, runs: seq<Sb.RunRec>)
    ensures Bases(Block(b, runs)) == if b.run.Some? && b.run.value < |runs| then runs[b.run.value].events else []
  {
    if b.run.Some? && b.run.value < |runs| {
      var es := runs[b.run.value].events;
      forall i | 0 <= i < |es| ensures Block(b, runs)[i].base == es[i] { WidenAllAt(b.meta, es, i); }
    }
  }

  // ---------------------------------------------------------------------------
  // Every turn gets on
  // ---------------------------------------------------------------------------

  lemma {:induction false} RunSnoc(acts: seq<Act>, a: Act)
    ensures Run(acts + [a]) == Step(Run(acts), a)
  {
    assert (acts + [a])[..|acts|] == acts;
  }

  ghost predicate CountsOk(x: Exec) {
    && |x.returned| + (if x.phase.Idle? then 0 else 1) == |x.started|
    && forall i :: 0 <= i < |x.returned| ==> x.returned[i] == x.started[i].meta.id
  }

  /** Invocations return in the order they began, and the next begins when they have. */
  lemma {:induction false} ReturnedInOrder(acts: seq<Act>)
    ensures CountsOk(Run(acts))
  {
    if acts != [] {
      var n := |acts| - 1;
      ReturnedInOrder(acts[..n]);
      RunKeepsInv(acts[..n]);
      CountsStep(Run(acts[..n]), acts[n]);
    }
  }

  lemma {:induction false} CountsStep(x: Exec, a: Act)
    requires CountsOk(x) && PhaseOk(x)
    ensures CountsOk(Step(x, a))
  {
  }

  /** A waiting invocation begins as soon as all before it have returned; with a sandbox that
      refuses, it begins without a run. */
  lemma {:induction false} NextTurnBegins(acts: seq<Act>, now: int)
    ensures var x, x' := Run(acts), Run(acts + [StartNext(now)]);
      var next := |x.returned| == |x.started| < |Invokes(acts)|;
      && |x'.started| == |x.started| + (if next then 1 else 0)
      && (next ==> Identifies(x'.started[|x.started|].meta, |x.started|, Invokes(acts)[|x.started|]))
      && (next ==> x'.started[|x.started|].run == if |x'.sb.runs| > |x.sb.runs| then Some(|x.sb.runs|) else None)
  {
    RunSnoc(acts, StartNext(now));
    TurnsInCallOrder(acts);
    ReturnedInOrder(acts);
  }

  /** The run of the invocation that began last is the sandbox's last run. */
  ghost predicate LastRunOk(x: Exec) {
    x.started != [] && x.started[|x.started| - 1].run.Some? ==> x.started[|x.started| - 1].run.value + 1 == |x.sb.runs|
  }

  lemma {:induction false} LastRunIsLast(acts: seq<Act>)
    ensures LastRunOk(Run(acts))
  {
    if acts != [] {
      var n := |acts| - 1;
      LastRunIsLast(acts[..n]);
      LastRunStep(Run(acts[..n]), acts[n]);
    }
  }

  lemma {:induction false} LastRunStep(x: Exec, a: Act)
    requires LastRunOk(x)
    ensures LastRunOk(Step(x, a))
  {
    if a.SandboxAct? && !a.a.RunCall? { Sb.StepExtends(x.sb, a.a); }
  }

  /** The invocation under way returns exactly when its run is settled, or was refused, and
      everything emitted has been recorded. */
  lemma {:induction false} ReturnsIff(acts: seq<Act>)
    requires |Run(acts).returned| < |Run(acts).started|
    ensures var x, x' := Run(acts), Run(acts + [Return]);
      var last := x.started[|x.started| - 1];
      x'.returned == if RunOver(x.sb, last.run) && x.recorded == |x.emitted| then x.returned + [last.meta.id] else x.returned
  {
    RunSnoc(acts, Return);
    RunKeepsInv(acts);
    ReturnedInOrder(acts);
    LastRunIsLast(acts);
    ReturnStep(Run(acts));
  }

  /** A run that was refused, or whose promise is settled. */
  predicate RunOver(m: Sb.Main, run: Option<nat>) {
    run.None? || (run.value < |m.runs| && m.runs[run.value].settlements != [])
  }

  lemma {:induction false} ReturnStep(x: Exec)
    requires PhaseOk(x) && CountsOk(x) && LastRunOk(x) && x.recorded <= |x.emitted| && |x.returned| < |x.started|
    ensures var last := x.started[|x.started| - 1];
      Step(x, Return).returned
        == if RunOver(x.sb, last.run) && x.recorded == |x.emitted| then x.returned + [last.meta.id] else x.returned
  {
  }

  // ---------------------------------------------------------------------------
  // The sandbox under the executor is a sandbox
  // ---------------------------------------------------------------------------

  /** What an executor act is for the sandbox: a turn that begins is a call of `run()`. */
  function SandboxPart(x: Exec, a: Act): seq<Sb.Act> {
    if a.SandboxAct? && !a.a.RunCall? then [a.a]
    else if a.StartNext? && |x.started| < |Step(x, a).started| then [Sb.RunCall(a.now)]
    else []
  }

  function SandboxActs(acts: seq<Act>): seq<Sb.Act> {
    if acts == [] then [] else SandboxActs(acts[..|acts| - 1]) + SandboxPart(Run(acts[..|acts| - 1]), acts[|acts| - 1])
  }

  lemma {:induction false} SandboxStep(x: Exec, a: Act)
    ensures var p := SandboxPart(x, a); |p| <= 1 && Step(x, a).sb == if p == [] then x.sb else Sb.Step(x.sb, p[0])
  {
  }

  lemma {:induction false} SandboxSnoc(h: seq<Sb.Act>, p: seq<Sb.Act>)
    requires |p| <= 1
    ensures Sb.Run(h + p) == if p == [] then Sb.Run(h) else Sb.Step(Sb.Run(h), p[0])
  {
    if p == [] { assert h + p == h; } else { assert p == [p[0]]; Sb.RunSnoc(h, p[0]); }
  }

  /** So every theorem about sandboxes holds for the one under the executor. */
  lemma {:induction false} SandboxHistory(acts: seq<Act>)
    ensures Run(acts).sb == Sb.Run(SandboxActs(acts))
  {
    if acts != [] {
      var n := |acts| - 1;
      var x := Run(acts[..n]);
      SandboxHistory(acts[..n]);
      SandboxStep(x, acts[n]);
      SandboxSnoc(SandboxActs(acts[..n]), SandboxPart(x, acts[n]));
    }
  }
}
