/** packages/sandbox/src/sandbox.ts: the main-thread side of one sandbox. Worker
    messages, worker death, the CPU watchdog, `run()` and `dispose()` arrive in any
    order; every run's events and its settlement come out of them. */
module SandboxRun {
  import opened Basics
  import opened Events
  import Seqr = RunSequencer
  import Term = WorkerTermination

  datatype Settlement = Resolved(payload: string) | Rejected(message: string)

  /** One call of `run()`: the wire events it stamped, the close reason if it died, the
      events forwarded before and after its promise was settled, every settlement
      attempt in order (a promise keeps the first), and how often it was finalized. */
  datatype RunRec = RunRec(
    wires: seq<WireEvent>, death: Option<string>,
    events: seq<SandboxEvent>, late: seq<SandboxEvent>,
    settlements: seq<Settlement>, finals: nat)

  datatype Main = Main(sqr: Seqr.State, term: Term.State, disposed: bool, runs: seq<RunRec>)

  const DISPOSED := "Sandbox is disposed"

  const Boot := Main(Seqr.Idle, Term.Init, false, [])

  datatype Act =
    | RunCall(now: int)
    | WireMsg(w: WireEvent)
    | DoneMsg(payload: string)
    | RestoreFailedMsg(message: string)
    | WorkerErr(err: Term.WorkerError, now: int)
    | WorkerExit(message: string, now: int)
    | WatchdogAct(now: int)
    | Dispose

  predicate InFlight(m: Main) { m.runs != [] && m.runs[|m.runs| - 1].finals == 0 }

  function Current(m: Main): RunRec
    requires m.runs != []
  {
    m.runs[|m.runs| - 1]
  }

  function SetCurrent(m: Main, r: RunRec): Main
    requires m.runs != []
  {
    m.(runs := m.runs[|m.runs| - 1 := r])
  }

  /** `run()` rejects at once when disposed, dead or busy. */
  predicate CanRun(m: Main) { !m.disposed && m.term.dispatched == [] && !InFlight(m) }

  /** Hand a stamped event to the subscriber. */
  function Forward(r: RunRec, es: seq<SandboxEvent>): RunRec {
    if r.settlements == [] then r.(events := r.events + es) else r.(late := r.late + es)
  }

  function StampInto(m: Main, w: WireEvent): Main
    requires InFlight(m)
  {
    var (s', o) := Seqr.Next(m.sqr, w);
    var r := Current(m).(wires := Current(m).wires + [w]);
    SetCurrent(m, Forward(r, if o.Some? then [o.value] else [])).(sqr := s')
  }

  /** `finalize`: stop the watchdog, forward the synthesised closes, settle. */
  function Finalize(m: Main, death: Option<string>, s: Settlement): Main
    requires InFlight(m)
  {
    var (sqr', synth) := Seqr.Finish(m.sqr, death);
    var r := Forward(Current(m), synth);
    SetCurrent(m, r.(death := death, settlements := r.settlements + [s], finals := r.finals + 1))
      .(sqr := sqr', term := Term.Step(m.term, Term.Disarm))
  }

  function DimName(d: Term.Dim): string {
    match d case Cpu => "cpu" case Output => "output" case Pending => "pending"
  }

  /** The `system.exhaustion` leaf; its budget payload is not modelled. */
  function LimitLeaf(d: Term.Dim, now: int): WireEvent {
    WireEvent("system.exhaustion", DimName(d), now, now, None, None, None, Leaf)
  }

  function HandleDeath(m: Main, fallback: string, now: int): Main
    requires InFlight(m)
  {
    var cause := Term.CauseNow(m.term);
    if cause.Some? && cause.value.Limit? then
      var dim := DimName(cause.value.dim);
      Finalize(StampInto(m, LimitLeaf(cause.value.dim, now)), Some("limit:" + dim), Rejected("sandbox limit exceeded: " + dim))
    else
      var reason :=
        if cause.None? then fallback
        else if cause.value.Crash? then "crash:" + cause.value.message
        else "restore-failed:" + cause.value.message;
      Finalize(m, Some(reason), Rejected(fallback))
  }

  function Step(m: Main, a: Act): Main {
    match a
    case RunCall(now) =>
      if CanRun(m)
      then m.(sqr := Seqr.Start(m.sqr), term := Term.Step(m.term, Term.Arm(now)),
              runs := m.runs + [RunRec([], None, [], [], [], 0)])
      else m
    case WireMsg(w) => if InFlight(m) then StampInto(m, w) else m.(sqr := Seqr.Next(m.sqr, w).0)
    case DoneMsg(p) => if InFlight(m) then Finalize(m, None, Resolved(p)) else m
    case RestoreFailedMsg(msg) => m.(term := Term.Step(m.term, Term.MarkRestoreFailed(msg)))
    case WorkerErr(e, now) =>
      var m1 := m.(term := Term.Step(m.term, Term.ErrorSig(e)));
      if InFlight(m1) then HandleDeath(m1, e.message, now) else m1
    case WorkerExit(msg, now) =>
      var m1 := m.(term := Term.Step(m.term, Term.ExitSig));
      if InFlight(m1) then HandleDeath(m1, msg, now) else m1
    case WatchdogAct(now) => m.(term := Term.Step(m.term, Term.Watchdog(now)))
    case Dispose =>
      if m.disposed then m
      else
        var m1 := m.(disposed := true, term := Term.Step(m.term, Term.MarkDisposing));
        if InFlight(m1)
        then SetCurrent(m1, Current(m1).(settlements := Current(m1).settlements + [Rejected(DISPOSED)]))
        else m1
  }

  function Run(acts: seq<Act>): Main {
    if acts == [] then Boot else Step(Run(acts[..|acts| - 1]), acts[|acts| - 1])
  }

  /** The sandbox object: it owns one sequencer and one termination machine and reacts
      to worker messages and lifecycle calls by updating itself in place. */
  class Sandbox {
    const sequencer: Seqr.Sequencer
    const termination: Term.Termination
    var disposed: bool
    var runs: seq<RunRec>

    function Abs(): Main reads this, sequencer, termination {
      Main(sequencer.Abs(), termination.Abs(), disposed, runs)
    }

    constructor ()
      ensures Abs() == Boot && fresh(sequencer) && fresh(termination)
    {
      sequencer := new Seqr.Sequencer();
      termination := new Term.Termination();
      disposed, runs := false, [];
    }

    method StartRun(now: int) returns (started: bool)
      modifies this, sequencer, termination
      ensures Abs() == Step(old(Abs()), RunCall(now)) && started == CanRun(old(Abs()))
    {
      if disposed || termination.callbacks != [] || (runs != [] && runs[|runs| - 1].finals == 0) { return false; }
      runs := runs + [RunRec([], None, [], [], [], 0)];
      sequencer.OpenWindow();
      termination.ArmCpuBudget(now);
      return true;
    }

    method OnWire(w: WireEvent)
      modifies this, sequencer
      ensures Abs() == Step(old(Abs()), WireMsg(w))
    {
      var o := sequencer.Stamped(w);
      if InFlight(Abs()) {
        var r := runs[|runs| - 1];
        r := r.(wires := r.wires + [w]);
        runs := runs[|runs| - 1 := Forward(r, if o.Some? then [o.value] else [])];
      }
    }

    method Settle(death: Option<string>, s: Settlement)
      requires InFlight(Abs())
      modifies this, sequencer, termination
      ensures Abs() == Finalize(old(Abs()), death, s)
    {
      var synth := sequencer.FinishRun(death);
      termination.DisarmCpuBudget();
      var r := Forward(runs[|runs| - 1], synth);
      runs := runs[|runs| - 1 := r.(death := death, settlements := r.settlements + [s], finals := r.finals + 1)];
    }

    method OnDone(payload: string)
      modifies this, sequencer, termination
      ensures Abs() == Step(old(Abs()), DoneMsg(payload))
      ensures old(InFlight(Abs())) ==>
        |runs| == |old(runs)| && runs[|runs| - 1].settlements == old(runs)[|runs| - 1].settlements + [Resolved(payload)]
    {
      if InFlight(Abs()) { Settle(None, Resolved(payload)); }
    }

    method Die(fallback: string, now: int)
      requires InFlight(Abs())
      modifies this, sequencer, termination
      ensures Abs() == HandleDeath(old(Abs()), fallback, now)
    {
      var cause := termination.CurrentCause();
      if cause.Some? && cause.value.Limit? {
        OnWire(LimitLeaf(cause.value.dim, now));
        var dim := DimName(cause.value.dim);
        Settle(Some("limit:" + dim), Rejected("sandbox limit exceeded: " + dim));
        return;
      }
      var reason := fallback;
      if cause.Some? && cause.value.Crash? {
        reason := "crash:" + cause.value.message;
      } else if cause.Some? {
        reason := "restore-failed:" + cause.value.message;
      }
      Settle(Some(reason), Rejected(fallback));
    }

    method OnError(e: Term.WorkerError, now: int)
      modifies this, sequencer, termination
      ensures Abs() == Step(old(Abs()), WorkerErr(e, now))
    {
      termination.OnError(e);
      if InFlight(Abs()) { Die(e.message, now); }
    }

    method OnExit(message: string, now: int)
      modifies this, sequencer, termination
      ensures Abs() == Step(old(Abs()), WorkerExit(message, now))
    {
      termination.OnExit();
      if InFlight(Abs()) { Die(message, now); }
    }

    method DisposeNow()
      modifies this, termination
      ensures Abs() == Step(old(Abs()), Dispose)
    {
      if disposed { return; }
      disposed := true;
      termination.Dispose();
      if InFlight(Abs()) {
        var r := runs[|runs| - 1];
        runs := runs[|runs| - 1 := r.(settlements := r.settlements + [Rejected(DISPOSED)])];
      }
    }
  }

  // ---------------------------------------------------------------------------
  // Invariant
  // ---------------------------------------------------------------------------

  /** A finalized run forwarded exactly the events of its wire stream plus, if it died,
      one synthesised close per open frame; and it was settled. */
  ghost predicate Finished(r: RunRec) {
    && r.finals == 1
    && r.events + r.late == Seqr.RunEvents(r.wires, r.death)
    && 1 <= |r.settlements| <= 2
    && (|r.settlements| == 2 ==> r.settlements[0] == Rejected(DISPOSED))
    && (r.settlements[0].Resolved? ==> r.death.None?)
    && (|r.settlements| == 1 ==> r.late == [])
    && (|r.settlements| == 2 ==> r.events <= Seqr.Outputs(Seqr.Fresh, r.wires))
  }

  ghost predicate Open(r: RunRec, disposed: bool) {
    && r.finals == 0 && r.death.None?
    && r.events + r.late == Seqr.Outputs(Seqr.Fresh, r.wires)
    && (if disposed then r.settlements == [Rejected(DISPOSED)] else r.settlements == [] && r.late == [])
  }

  ghost predicate Inv(m: Main) {
    && (forall k :: 0 <= k < |m.runs| - 1 ==> Finished(m.runs[k]) && |m.runs[k].settlements| == 1)
    && (m.runs != [] ==> if InFlight(m) then Open(Current(m), m.disposed) else Finished(Current(m)))
    && m.sqr == (if InFlight(m) then Seqr.After(Seqr.Fresh, Current(m).wires) else Seqr.Idle)
    && m.term.disposing == m.disposed
    && (m.term.fired <==> m.term.dispatched != [])
    && (m.runs != [] && |Current(m).settlements| == 2 ==> m.disposed)
  }

  lemma {:induction false} StampKeepsInv(m: Main, w: WireEvent)
    requires Inv(m) && InFlight(m)
    ensures Inv(StampInto(m, w)) && InFlight(StampInto(m, w))
  {
    var ws := Current(m).wires;
    assert (ws + [w])[..|ws|] == ws;
    assert Seqr.After(Seqr.Fresh, ws + [w]) == Seqr.Next(m.sqr, w).0;
    var m' := StampInto(m, w);
    var (r, r') := (Current(m), Current(m'));
    var o := Seqr.Next(m.sqr, w).1;
    var es := if o.Some? then [o.value] else [];
    assert r'.events + r'.late == (r.events + r.late) + es;
  }

  lemma {:induction false} FinalizeKeepsInv(m: Main, death: Option<string>, s: Settlement)
    requires Inv(m) && InFlight(m) && (s.Resolved? ==> death.None?)
    ensures Inv(Finalize(m, death, s)) && !InFlight(Finalize(m, death, s))
  {
    var m' := Finalize(m, death, s);
    var (r, r') := (Current(m), Current(m'));
    var synth := Seqr.Finish(m.sqr, death).1;
    assert r'.events + r'.late == (r.events + r.late) + synth;
  }

  lemma {:induction false} DeathKeepsInv(m: Main, fallback: string, now: int)
    requires Inv(m) && InFlight(m)
    ensures Inv(HandleDeath(m, fallback, now)) && !InFlight(HandleDeath(m, fallback, now))
  {
    var cause := Term.CauseNow(m.term);
    if cause.Some? && cause.value.Limit? {
      var dim := DimName(cause.value.dim);
      var m1 := StampInto(m, LimitLeaf(cause.value.dim, now));
      StampKeepsInv(m, LimitLeaf(cause.value.dim, now));
      FinalizeKeepsInv(m1, Some("limit:" + dim), Rejected("sandbox limit exceeded: " + dim));
    } else {
      var reason :=
        if cause.None? then fallback
        else if cause.value.Crash? then "crash:" + cause.value.message
        else "restore-failed:" + cause.value.message;
      FinalizeKeepsInv(m, Some(reason), Rejected(fallback));
    }
  }

  lemma {:induction false} StartKeepsInv(m: Main, now: int)
    requires Inv(m)
    ensures Inv(Step(m, RunCall(now)))
  {
    if CanRun(m) {
      var m' := Step(m, RunCall(now));
      assert Current(m') == RunRec([], None, [], [], [], 0) && Open(Current(m'), false);
      forall k | 0 <= k < |m'.runs| - 1 ensures Finished(m'.runs[k]) && |m'.runs[k].settlements| == 1 {
        assert m'.runs[k] == m.runs[k];
        if k == |m.runs| - 1 { assert Current(m) == m.runs[k]; }
      }
    }
  }

  /** A signal other than disposal touches only the termination flags. */
  lemma {:induction false} SignalKeepsInv(m: Main, g: Term.Signal)
    requires Inv(m) && !g.MarkDisposing?
    ensures Inv(m.(term := Term.Step(m.term, g)))
  {
  }

  lemma {:induction false} DisposeKeepsInv(m: Main)
    requires Inv(m) && !m.disposed
    ensures Inv(Step(m, Dispose))
  {
    var m' := Step(m, Dispose);
    if InFlight(m) {
      assert Open(Current(m'), true);
    }
  }

  lemma {:induction false} WireKeepsInv(m: Main, w: WireEvent)
    requires Inv(m)
    ensures Inv(Step(m, WireMsg(w)))
  {
    if InFlight(m) { StampKeepsInv(m, w); } else { assert Step(m, WireMsg(w)) == m; }
  }

  lemma {:induction false} DeadKeepsInv(m: Main, a: Act)
    requires Inv(m) && (a.WorkerErr? || a.WorkerExit?)
    ensures Inv(Step(m, a))
  {
    var g := if a.WorkerErr? then Term.ErrorSig(a.err) else Term.ExitSig;
    SignalKeepsInv(m, g);
    if InFlight(m) {
      DeathKeepsInv(m.(term := Term.Step(m.term, g)), if a.WorkerErr? then a.err.message else a.message, a.now);
    }
  }

  lemma {:induction false} StepKeepsInv(m: Main, a: Act)
    requires Inv(m)
    ensures Inv(Step(m, a))
  {
    match a
    case RunCall(now) => StartKeepsInv(m, now);
    case WireMsg(w) => WireKeepsInv(m, w);
    case DoneMsg(p) => if InFlight(m) { FinalizeKeepsInv(m, None, Resolved(p)); }
    case RestoreFailedMsg(msg) => SignalKeepsInv(m, Term.MarkRestoreFailed(msg));
    case WorkerErr(_, _) => DeadKeepsInv(m, a);
    case WorkerExit(_, _) => DeadKeepsInv(m, a);
    case WatchdogAct(now) => SignalKeepsInv(m, Term.Watchdog(now));
    case Dispose => if !m.disposed { DisposeKeepsInv(m); }
  }

  lemma {:induction false} RunKeepsInv(acts: seq<Act>)
    ensures Inv(Run(acts))
  {
    if acts != [] {
      RunKeepsInv(acts[..|acts| - 1]);
      StepKeepsInv(Run(acts[..|acts| - 1]), acts[|acts| - 1]);
    }
  }

  // ---------------------------------------------------------------------------
  // Main results
  // ---------------------------------------------------------------------------

  /** Whatever the order of done, error, exit, watchdog, restore failure and disposal:
      a run is finalized at most once, a finalized run has exactly one effective
      settlement, and what it forwarded is its stamped stream followed, on death, by one
      close per open frame, numbered without gap. A second settlement attempt exists only
      behind the one that `dispose()` made, and only then do events come too late. */
  lemma {:induction false} EachRunFinalizesOnce(acts: seq<Act>, k: nat)
    requires k < |Run(acts).runs|
    ensures var r := Run(acts).runs[k];
      && r.finals <= 1
      && (r.finals == 1 ==> r.settlements != [] && r.events + r.late == Seqr.RunEvents(r.wires, r.death))
      && (forall i :: 0 <= i < |r.events + r.late| ==> (r.events + r.late)[i].seqNo == i)
      && (|r.settlements| > 1 ==> |r.settlements| == 2 && r.settlements[0] == Rejected(DISPOSED))
      && (r.late != [] ==> r.settlements != [] && r.settlements[0] == Rejected(DISPOSED) && Run(acts).disposed)
      && (|r.settlements| == 2 ==> r.events <= Seqr.Outputs(Seqr.Fresh, r.wires))
  {
    RunKeepsInv(acts);
    RecordMeans(Run(acts), k);
    var r := Run(acts).runs[k];
    forall i | 0 <= i < |r.events + r.late| ensures (r.events + r.late)[i].seqNo == i {
      if r.finals == 1 { Seqr.RunEventsNumbered(r.wires, r.death); } else { Seqr.OutputsNumbered(r.wires); }
    }
  }

  /** What the invariant says about one run. */
  lemma {:induction false} RecordMeans(m: Main, k: nat)
    requires Inv(m) && k < |m.runs|
    ensures var r := m.runs[k]; if r.finals == 1 then Finished(r) else Open(r, m.disposed)
    ensures |m.runs[k].settlements| == 2 ==> m.disposed
    ensures m.runs[k].late != [] ==> m.disposed && m.runs[k].settlements[0] == Rejected(DISPOSED)
  {
    var r := m.runs[k];
    assert k == |m.runs| - 1 ==> r == Current(m);
    assert if k == |m.runs| - 1 && InFlight(m) then Open(r, m.disposed) else Finished(r);
  }

  /** The termination signals one step raises. */
  function SignalsIn(m: Main, a: Act): seq<Term.Signal> {
    var disarm := if InFlight(m) then [Term.Disarm] else [];
    match a
    case RunCall(now) => if CanRun(m) then [Term.Arm(now)] else []
    case WireMsg(_) => []
    case DoneMsg(_) => disarm
    case RestoreFailedMsg(msg) => [Term.MarkRestoreFailed(msg)]
    case WorkerErr(e, _) => [Term.ErrorSig(e)] + disarm
    case WorkerExit(_, _) => [Term.ExitSig] + disarm
    case WatchdogAct(now) => [Term.Watchdog(now)]
    case Dispose => if m.disposed then [] else [Term.MarkDisposing]
  }

  function Apply(t: Term.State, gs: seq<Term.Signal>): Term.State {
    if gs == [] then t else Term.Step(Apply(t, gs[..|gs| - 1]), gs[|gs| - 1])
  }

  lemma {:induction false} ApplyOneOrTwo(t: Term.State, g: Term.Signal, h: Term.Signal)
    ensures Apply(t, []) == t && Apply(t, [g]) == Term.Step(t, g)
    ensures Apply(t, [g] + [h]) == Term.Step(Term.Step(t, g), h)
  {
    assert [g][..0] == [] && ([g] + [h])[..1] == [g];
    assert Apply(t, [g]) == Term.Step(Apply(t, []), g);
  }

  lemma {:induction false} DeathTerm(m: Main, fallback: string, now: int)
    requires InFlight(m)
    ensures HandleDeath(m, fallback, now).term == Term.Step(m.term, Term.Disarm)
  {
  }

  lemma {:induction false} StepTerm(m: Main, a: Act)
    ensures Step(m, a).term == Apply(m.term, SignalsIn(m, a))
  {
    match a
    case RunCall(now) => ApplyOneOrTwo(m.term, Term.Arm(now), Term.Disarm);
    case WireMsg(_) =>
    case DoneMsg(_) => ApplyOneOrTwo(m.term, Term.Disarm, Term.Disarm);
    case RestoreFailedMsg(msg) => ApplyOneOrTwo(m.term, Term.MarkRestoreFailed(msg), Term.Disarm);
    case WorkerErr(e, now) =>
      ApplyOneOrTwo(m.term, Term.ErrorSig(e), Term.Disarm);
      if InFlight(m) { DeathTerm(m.(term := Term.Step(m.term, Term.ErrorSig(e))), e.message, now); }
      else { assert SignalsIn(m, a) == [Term.ErrorSig(e)]; }
    case WorkerExit(msg, now) =>
      ApplyOneOrTwo(m.term, Term.ExitSig, Term.Disarm);
      if InFlight(m) { DeathTerm(m.(term := Term.Step(m.term, Term.ExitSig)), msg, now); }
      else { assert SignalsIn(m, a) == [Term.ExitSig]; }
    case WatchdogAct(now) => ApplyOneOrTwo(m.term, Term.Watchdog(now), Term.Disarm);
    case Dispose => ApplyOneOrTwo(m.term, Term.MarkDisposing, Term.Disarm);
  }

  function Signals(acts: seq<Act>): seq<Term.Signal> {
    if acts == [] then []
    else Signals(acts[..|acts| - 1]) + SignalsIn(Run(acts[..|acts| - 1]), acts[|acts| - 1])
  }

  lemma {:induction false} RunThenApply(gs: seq<Term.Signal>, hs: seq<Term.Signal>)
    ensures Term.Run(gs + hs) == Apply(Term.Run(gs), hs)
  {
    if hs == [] {
      assert gs + hs == gs;
    } else {
      var n := |hs| - 1;
      RunThenApply(gs, hs[..n]);
      var u, v := gs + hs, gs + hs[..n];
      assert u[..|u| - 1] == v && u[|u| - 1] == hs[n];
      assert Term.Run(u) == Term.Step(Term.Run(v), hs[n]);
    }
  }

  /** The termination flags of the sandbox are the result of its history of signals, so
      the at-most-once theorem of the termination machine holds for every sandbox. */
  lemma {:induction false} FlagsFollowSignals(acts: seq<Act>)
    ensures Run(acts).term == Term.Run(Signals(acts))
  {
    if acts != [] {
      var n := |acts| - 1;
      FlagsFollowSignals(acts[..n]);
      StepTerm(Run(acts[..n]), acts[n]);
      RunThenApply(Signals(acts[..n]), SignalsIn(Run(acts[..n]), acts[n]));
    }
  }

  lemma {:induction false} RunSnoc(acts: seq<Act>, a: Act)
    ensures Run(acts + [a]) == Step(Run(acts), a)
  {
    assert (acts + [a])[..|acts|] == acts;
  }

  /** It does happen: disposal while a frame is open, then the worker's exit, synthesises
      the close of that frame after the run was settled. */
  lemma {:induction false} DisposedRunClosesTooLate(w: WireEvent, id: nat, now: int, message: string)
    requires w.framing == Framing.Open(id)
    ensures var m := Run([RunCall(now)] + [WireMsg(w)] + [Dispose] + [WorkerExit(message, now)]);
      && |m.runs| == 1 && m.runs[0].wires == [w] && m.runs[0].death == Some(message)
      && m.runs[0].events == [Stamp(w, 0, None)]
      && m.runs[0].late == [Seqr.SynthClose(FirstFrame(w, id), 1, w.at, w.ts, message)]
  {
    var a, b := [RunCall(now)], [RunCall(now)] + [WireMsg(w)];
    RunSnoc([], RunCall(now));
    assert [] + [RunCall(now)] == a;
    RunSnoc(a, WireMsg(w));
    RunSnoc(b, Dispose);
    RunSnoc(b + [Dispose], WorkerExit(message, now));
    OpenThenDispose(w, id, now);
    DisposedThenExit(Run(b + [Dispose]), w, id, now, message);
  }

  lemma {:induction false} OpenThenDispose(w: WireEvent, id: nat, now: int)
    requires w.framing == Framing.Open(id)
    ensures var m := Step(Step(Step(Boot, RunCall(now)), WireMsg(w)), Dispose);
      m.term.disposing && m.sqr == Seqr.State(1, [0], [FirstFrame(w, id)], true, w.ts, w.at)
      && m.runs == [RunRec([w], None, [Stamp(w, 0, None)], [], [Rejected(DISPOSED)], 0)]
  {
    var m1 := Step(Boot, RunCall(now));
    assert m1.runs == [RunRec([], None, [], [], [], 0)];
    OpenFirstFrame(m1.sqr, w, id);
    var m2 := Step(m1, WireMsg(w));
    assert [] + [w] == [w] && [] + [Stamp(w, 0, None)] == [Stamp(w, 0, None)] && [] + [Rejected(DISPOSED)] == [Rejected(DISPOSED)];
    assert m2.runs == [RunRec([w], None, [Stamp(w, 0, None)], [], [], 0)];
  }

  lemma {:induction false} DisposedThenExit(m: Main, w: WireEvent, id: nat, now: int, message: string)
    requires m.term.disposing && m.sqr == Seqr.State(1, [0], [FirstFrame(w, id)], true, w.ts, w.at)
    requires m.runs == [RunRec([w], None, [Stamp(w, 0, None)], [], [Rejected(DISPOSED)], 0)]
    ensures var r := Step(m, WorkerExit(message, now)).runs;
      |r| == 1 && r[0].wires == [w] && r[0].death == Some(message) && r[0].events == [Stamp(w, 0, None)]
      && r[0].late == [Seqr.SynthClose(FirstFrame(w, id), 1, w.at, w.ts, message)]
  {
    OnlyFrameCloses(m.sqr, FirstFrame(w, id), message);
  }

  function FirstFrame(w: WireEvent, id: nat): Seqr.Frame { Seqr.Frame(id, 0, w.name, w.kind, Seqr.SynthCloseKind(w.kind)) }

  lemma {:induction false} OpenFirstFrame(s: Seqr.State, w: WireEvent, id: nat)
    requires s.active && s.seqNo == 0 && s.refStack == [] && s.calls == [] && w.framing == Framing.Open(id)
    ensures Seqr.Next(s, w) == (Seqr.State(1, [0], [FirstFrame(w, id)], true, w.ts, w.at), Some(Stamp(w, 0, None)))
  {
    assert s.refStack + [0] == [0] && s.calls + [FirstFrame(w, id)] == [FirstFrame(w, id)];
  }

  lemma {:induction false} OnlyFrameCloses(s: Seqr.State, f: Seqr.Frame, reason: string)
    requires s.calls == [f]
    ensures Seqr.SynthCloses(s, reason) == [Seqr.SynthClose(f, s.seqNo, s.lastAt, s.lastTs, reason)]
  {
    assert [f][..0] == [];
  }

  /** The termination callback runs at most once, and never after disposal. */
  lemma {:induction false} CallbackAtMostOnce(acts: seq<Act>, a: Act)
    ensures |Run(acts).term.dispatched| <= 1
    ensures Run(acts).disposed ==> Step(Run(acts), a).term.dispatched == Run(acts).term.dispatched
  {
    FlagsFollowSignals(acts);
    Term.TerminationReportedOnce(Signals(acts));
    var m := Run(acts);
    if m.disposed {
      RunKeepsInv(acts);
      StepTerm(m, a);
      QuietWhenDisposing(m.term, SignalsIn(m, a));
    }
  }

  lemma {:induction false} QuietWhenDisposing(t: Term.State, gs: seq<Term.Signal>)
    requires t.disposing
    ensures Apply(t, gs).disposing && Apply(t, gs).dispatched == t.dispatched
  {
    if gs != [] { QuietWhenDisposing(t, gs[..|gs| - 1]); }
  }

  /** What a step other than `run()` may do to the runs: earlier runs are untouched, the
      last one only gains events and settlements, and after its first settlement it gains
      no event that still counts. */
  ghost predicate OnlyExtends(m: Main, m': Main) {
    && |m'.runs| == |m.runs|
    && (forall k :: 0 <= k < |m.runs| - 1 ==> m'.runs[k] == m.runs[k])
    && (m.runs != [] ==> RecExtends(Current(m), Current(m')))
  }

  ghost predicate RecExtends(r: RunRec, r': RunRec) {
    && r.events <= r'.events && r.settlements <= r'.settlements
    && (r.settlements != [] ==> r'.events == r.events)
    && (r.finals == 1 ==> r' == r)
    && (r.finals == 0 && r'.settlements == [] ==> r'.finals == 0)
  }

  lemma {:induction false} StampExtends(m: Main, w: WireEvent)
    requires InFlight(m)
    ensures OnlyExtends(m, StampInto(m, w)) && Current(StampInto(m, w)).settlements == Current(m).settlements
    ensures InFlight(StampInto(m, w))
  {
  }

  lemma {:induction false} FinalizeExtends(m: Main, death: Option<string>, s: Settlement)
    requires InFlight(m)
    ensures OnlyExtends(m, Finalize(m, death, s))
  {
  }

  lemma {:induction false} DeathExtends(m: Main, fallback: string, now: int)
    requires InFlight(m)
    ensures OnlyExtends(m, HandleDeath(m, fallback, now))
  {
    var cause := Term.CauseNow(m.term);
    if cause.Some? && cause.value.Limit? {
      var leaf := LimitLeaf(cause.value.dim, now);
      var dim := DimName(cause.value.dim);
      StampExtends(m, leaf);
      FinalizeExtends(StampInto(m, leaf), Some("limit:" + dim), Rejected("sandbox limit exceeded: " + dim));
    } else {
      var reason :=
        if cause.None? then fallback
        else if cause.value.Crash? then "crash:" + cause.value.message
        else "restore-failed:" + cause.value.message;
      FinalizeExtends(m, Some(reason), Rejected(fallback));
    }
  }

  lemma {:induction false} DisposeExtends(m: Main)
    ensures OnlyExtends(m, Step(m, Dispose))
  {
  }

  lemma {:induction false} StepExtends(m: Main, a: Act)
    requires !a.RunCall?
    ensures OnlyExtends(m, Step(m, a))
  {
    if a.Dispose? {
      DisposeExtends(m);
    } else if !InFlight(m) {
      assert Step(m, a).runs == m.runs;
    } else {
      match a
      case WireMsg(w) => StampExtends(m, w);
      case DoneMsg(p) => FinalizeExtends(m, None, Resolved(p));
      case RestoreFailedMsg(_) =>
      case WorkerErr(e, now) => SignalledDeathExtends(m, Term.ErrorSig(e), e.message, now);
      case WorkerExit(msg, now) => SignalledDeathExtends(m, Term.ExitSig, msg, now);
      case WatchdogAct(_) =>
    }
  }

  lemma {:induction false} SignalledDeathExtends(m: Main, g: Term.Signal, fallback: string, now: int)
    requires InFlight(m)
    ensures OnlyExtends(m, HandleDeath(m.(term := Term.Step(m.term, g)), fallback, now))
  {
    DeathExtends(m.(term := Term.Step(m.term, g)), fallback, now);
  }

  // ---------------------------------------------------------------------------
  // Why a run died
  // ---------------------------------------------------------------------------

  predicate DeathAct(a: Act) { a.WorkerErr? || a.WorkerExit? }

  function DeathSignal(a: Act): Term.Signal
    requires DeathAct(a)
  {
    if a.WorkerErr? then Term.ErrorSig(a.err) else Term.ExitSig
  }

  function Fallback(a: Act): string
    requires DeathAct(a)
  {
    if a.WorkerErr? then a.err.message else a.message
  }

  /** Act `n` is the worker's death under run `k`. */
  ghost predicate DiesAt(acts: seq<Act>, n: nat, k: nat) {
    n < |acts| && DeathAct(acts[n]) && InFlight(Run(acts[..n])) && |Run(acts[..n]).runs| == k + 1
  }

  function CloseReason(c: Option<Term.Cause>, fallback: string): string {
    match c
    case None => fallback
    case Some(Limit(Cpu, _)) => "limit:cpu"
    case Some(Limit(Output, _)) => "limit:output"
    case Some(Limit(Pending, _)) => "limit:pending"
    case Some(Crash(message)) => "crash:" + message
    case Some(RestoreFailed(message)) => "restore-failed:" + message
  }

  function Rejection(c: Option<Term.Cause>, fallback: string): Settlement {
    match c
    case Some(Limit(Cpu, _)) => Rejected("sandbox limit exceeded: cpu")
    case Some(Limit(Output, _)) => Rejected("sandbox limit exceeded: output")
    case Some(Limit(Pending, _)) => Rejected("sandbox limit exceeded: pending")
    case _ => Rejected(fallback)
  }

  function ExhaustionLeaf(name: string, now: int): WireEvent {
    WireEvent("system.exhaustion", name, now, now, None, None, None, Leaf)
  }

  /** What a limit adds to the wire events of the run it ends. */
  function Leaves(c: Option<Term.Cause>, now: int): seq<WireEvent> {
    match c
    case Some(Limit(Cpu, _)) => [ExhaustionLeaf("cpu", now)]
    case Some(Limit(Output, _)) => [ExhaustionLeaf("output", now)]
    case Some(Limit(Pending, _)) => [ExhaustionLeaf("pending", now)]
    case _ => []
  }

  /** What the record of a run says if it died of cause `c` with act `a`, having got `ws`. */
  ghost predicate DiedOf(r: RunRec, c: Option<Term.Cause>, a: Act, ws: seq<WireEvent>)
    requires DeathAct(a)
  {
    && r.death == Some(CloseReason(c, Fallback(a)))
    && r.settlements != [] && r.settlements[|r.settlements| - 1] == Rejection(c, Fallback(a))
    && r.wires == ws + Leaves(c, a.now)
  }

  lemma {:induction false} DeathRecorded(m: Main, fallback: string, now: int)
    requires InFlight(m)
    ensures var m' := HandleDeath(m, fallback, now); var c := Term.CauseNow(m.term);
      && |m'.runs| == |m.runs|
      && Current(m').death == Some(CloseReason(c, fallback))
      && Current(m').settlements == Current(m).settlements + [Rejection(c, fallback)]
      && Current(m').wires == Current(m).wires + Leaves(c, now)
  {
    var c := Term.CauseNow(m.term);
    DimTexts();
    if c.Some? && c.value.Limit? {
      assert Leaves(c, now) == [LimitLeaf(c.value.dim, now)];
    } else {
      assert Current(m).wires + [] == Current(m).wires;
    }
  }

  lemma {:induction false} DimTexts()
    ensures "limit:" + "cpu" == "limit:cpu" && "limit:" + "output" == "limit:output" && "limit:" + "pending" == "limit:pending"
    ensures "sandbox limit exceeded: " + "cpu" == "sandbox limit exceeded: cpu"
    ensures "sandbox limit exceeded: " + "output" == "sandbox limit exceeded: output"
    ensures "sandbox limit exceeded: " + "pending" == "sandbox limit exceeded: pending"
  {
  }

  ghost function Suffered(m: Main, a: Act): Option<Term.Cause>
    requires DeathAct(a)
  {
    Term.CauseNow(Term.Step(m.term, DeathSignal(a)))
  }

  lemma {:induction false} DeathStep(m: Main, a: Act)
    requires InFlight(m) && DeathAct(a)
    ensures |Step(m, a).runs| == |m.runs| && DiedOf(Current(Step(m, a)), Suffered(m, a), a, Current(m).wires)
  {
    DeathRecorded(m.(term := Term.Step(m.term, DeathSignal(a))), Fallback(a), a.now);
  }

  /** Every other step leaves the deaths recorded so far alone and records none. */
  lemma {:induction false} OtherStep(m: Main, a: Act, k: nat)
    requires Inv(m) && k < |m.runs| && !(DeathAct(a) && InFlight(m) && k == |m.runs| - 1)
    ensures k < |Step(m, a).runs| && Step(m, a).runs[k].death == m.runs[k].death
    ensures m.runs[k].death.Some? ==> Step(m, a).runs[k] == m.runs[k]
  {
    RecordMeans(m, k);
    if !a.RunCall? { StepExtends(m, a); }
    if k == |m.runs| - 1 && InFlight(m) { OpenStaysAlive(m, a); }
  }

  lemma {:induction false} OpenStaysAlive(m: Main, a: Act)
    requires InFlight(m) && !DeathAct(a) && Current(m).death.None?
    ensures |Step(m, a).runs| == |m.runs| && Current(Step(m, a)).death.None?
  {
  }

  ghost predicate DiedAs(acts: seq<Act>, n: nat, r: RunRec) {
    && n < |acts| && DeathAct(acts[n]) && Run(acts[..n]).runs != []
    && DiedOf(r, Suffered(Run(acts[..n]), acts[n]), acts[n], Current(Run(acts[..n])).wires)
  }

  ghost predicate NeverDies(acts: seq<Act>, k: nat) { forall n: nat :: !DiesAt(acts, n, k) }

  /** `r` tells whether and of what run `k` died. */
  ghost predicate Tells(acts: seq<Act>, k: nat, r: RunRec) {
    && (r.death.None? <==> NeverDies(acts, k))
    && forall n: nat :: DiesAt(acts, n, k) ==> DiedAs(acts, n, r)
  }

  ghost predicate DeathOk(acts: seq<Act>, k: nat) {
    var m := Run(acts);
    if k < |m.runs| then Tells(acts, k, m.runs[k]) else NeverDies(acts, k)
  }

  lemma {:induction false} EarlierDeath(acts: seq<Act>, n: nat, k: nat, r: RunRec)
    requires acts != [] && n != |acts| - 1
    ensures DiesAt(acts, n, k) <==> DiesAt(acts[..|acts| - 1], n, k)
    ensures DiedAs(acts[..|acts| - 1], n, r) <==> DiedAs(acts, n, r)
  {
    if n < |acts| { assert acts[..|acts| - 1][..n] == acts[..n]; }
  }

  lemma {:induction false} StillAlive(acts: seq<Act>, k: nat)
    requires acts != [] && NeverDies(acts[..|acts| - 1], k) && !DiesAt(acts, |acts| - 1, k)
    ensures NeverDies(acts, k)
  {
    forall i: nat ensures !DiesAt(acts, i, k) {
      if i != |acts| - 1 { EarlierDeath(acts, i, k, RunRec([], None, [], [], [], 0)); }
    }
  }

  lemma {:induction false} StillTells(acts: seq<Act>, k: nat, r: RunRec)
    requires acts != [] && Tells(acts[..|acts| - 1], k, r) && !DiesAt(acts, |acts| - 1, k) && r.death.Some?
    ensures Tells(acts, k, r)
  {
    var i: nat :| DiesAt(acts[..|acts| - 1], i, k);
    EarlierDeath(acts, i, k, r);
    forall n: nat | DiesAt(acts, n, k) ensures DiedAs(acts, n, r) { EarlierDeath(acts, n, k, r); }
  }

  lemma {:induction false} TellsNow(acts: seq<Act>, k: nat, r: RunRec)
    requires acts != [] && NeverDies(acts[..|acts| - 1], k)
    requires DiesAt(acts, |acts| - 1, k) && DiedAs(acts, |acts| - 1, r)
    ensures Tells(acts, k, r)
  {
    forall n: nat | DiesAt(acts, n, k) ensures DiedAs(acts, n, r) {
      if n != |acts| - 1 { EarlierDeath(acts, n, k, r); }
    }
  }

  lemma {:induction false} DeathsRecorded(acts: seq<Act>, k: nat)
    ensures DeathOk(acts, k)
  {
    if acts != [] {
      var n := |acts| - 1;
      DeathsRecorded(acts[..n], k);
      RunKeepsInv(acts[..n]);
      if k < |Run(acts[..n]).runs| { StartedStep(acts, k); } else { NotStartedStep(acts, k); }
    }
  }

  lemma {:induction false} StartedStep(acts: seq<Act>, k: nat)
    requires acts != [] && DeathOk(acts[..|acts| - 1], k) && Inv(Run(acts[..|acts| - 1]))
    requires k < |Run(acts[..|acts| - 1]).runs|
    ensures DeathOk(acts, k)
  {
    var n := |acts| - 1;
    var m, m' := Run(acts[..n]), Run(acts);
    if DiesAt(acts, n, k) {
      RecordMeans(m, k);
      DeathStep(m, acts[n]);
      TellsNow(acts, k, m'.runs[k]);
    } else {
      OtherStep(m, acts[n], k);
      if m.runs[k].death.Some? { StillTells(acts, k, m.runs[k]); } else { StillAlive(acts, k); }
    }
  }

  lemma {:induction false} NotStartedStep(acts: seq<Act>, k: nat)
    requires acts != [] && DeathOk(acts[..|acts| - 1], k) && k >= |Run(acts[..|acts| - 1]).runs|
    ensures DeathOk(acts, k)
  {
    var n := |acts| - 1;
    StillAlive(acts, k);
    if k < |Run(acts).runs| { StartsAlive(Run(acts[..n]), acts[n], k); }
  }

  lemma {:induction false} StartsAlive(m: Main, a: Act, k: nat)
    requires |m.runs| <= k < |Step(m, a).runs|
    ensures Step(m, a).runs[k].death.None?
  {
    if !a.RunCall? { StepExtends(m, a); }
  }

  /** The signals raised up to and including the worker's death at act `n`. */
  function SignalsTo(acts: seq<Act>, n: nat): seq<Term.Signal>
    requires n < |acts| && DeathAct(acts[n])
  {
    Signals(acts[..n]) + [DeathSignal(acts[n])]
  }

  /** Act `n` is the worker's death under run `k`, and the signals up to it give cause `c`. */
  ghost predicate DiesKnowing(acts: seq<Act>, n: nat, k: nat, c: Option<Term.Cause>) {
    DiesAt(acts, n, k) && Term.Known(SignalsTo(acts, n), |SignalsTo(acts, n)|, c)
  }

  lemma {:induction false} SufferedIsKnown(acts: seq<Act>, n: nat, c: Option<Term.Cause>)
    requires n < |acts| && DeathAct(acts[n])
    ensures Term.Known(SignalsTo(acts, n), |SignalsTo(acts, n)|, c) <==> c == Suffered(Run(acts[..n]), acts[n])
  {
    var gs := SignalsTo(acts, n);
    Term.CauseMeansHistory(gs, c);
    FlagsFollowSignals(acts[..n]);
    assert gs[..|gs| - 1] == Signals(acts[..n]) && gs[|gs| - 1] == DeathSignal(acts[n]);
  }

  /** A run has a close reason exactly when the worker died under it, and then the reason,
      the rejection and the limit leaf are those of the cause that the signals raised up to
      that death give; without a cause (disposed of before, or a bare exit) the reason is
      the message of the death itself. */
  lemma {:induction false} DeathReason(acts: seq<Act>, k: nat)
    requires k < |Run(acts).runs|
    ensures Run(acts).runs[k].death.Some? <==> exists n: nat :: DiesAt(acts, n, k)
    ensures forall n: nat, c :: DiesKnowing(acts, n, k, c) ==>
      DiedOf(Run(acts).runs[k], c, acts[n], Current(Run(acts[..n])).wires)
  {
    DeathsRecorded(acts, k);
    forall n: nat, c | DiesKnowing(acts, n, k, c)
      ensures DiedOf(Run(acts).runs[k], c, acts[n], Current(Run(acts[..n])).wires)
    {
      SufferedIsKnown(acts, n, c);
    }
  }

  // ---------------------------------------------------------------------------
  // The record of a run, read off the acts
  // ---------------------------------------------------------------------------

  /** The wire events that arrived during a run, how many of them before the sandbox was
      disposed of, and the act that ended the run: a done message, an error or an exit. */
  datatype Life = Life(wires: seq<WireEvent>, cut: Option<nat>, end: Option<Act>)

  function Live(l: Life, a: Act): Life {
    if l.end.Some? then l
    else match a
      case WireMsg(w) => l.(wires := l.wires + [w])
      case Dispose => if l.cut.None? then l.(cut := Some(|l.wires|)) else l
      case DoneMsg(_) => l.(end := Some(a))
      case WorkerErr(_, _) => l.(end := Some(a))
      case WorkerExit(_, _) => l.(end := Some(a))
      case _ => l
  }

  /** What happened to run `k` between its start and the start of the next run. */
  function LifeOf(acts: seq<Act>, k: nat): Life {
    if acts == [] then Life([], None, None)
    else
      var before, l := acts[..|acts| - 1], LifeOf(acts[..|acts| - 1], k);
      if |Run(before).runs| == k + 1 then Live(l, acts[|acts| - 1]) else l
  }

  function CutSettlements(l: Life): seq<Settlement> { if l.cut.Some? then [Rejected("Sandbox is disposed")] else [] }

  /** The record of a run agrees with what happened to it. What a death adds is `DeathReason`. */
  ghost predicate Agrees(l: Life, r: RunRec) {
    && r.finals == (if l.end.Some? then 1 else 0)
    && (if l.end.Some? && DeathAct(l.end.value) then r.death.Some? && l.wires <= r.wires else r.death.None? && l.wires == r.wires)
    && SettledBy(l, r.settlements)
    && (l.cut.None? ==> r.late == [])
    && (l.cut.Some? ==> l.cut.value <= |l.wires| && r.events == Seqr.Outputs(Seqr.Fresh, l.wires[..l.cut.value]))
  }

  /** Disposal settles first; the end of the run settles after it. */
  ghost predicate SettledBy(l: Life, ss: seq<Settlement>) {
    if l.end.None? then ss == CutSettlements(l)
    else if l.end.value.DoneMsg? then ss == CutSettlements(l) + [Resolved(l.end.value.payload)]
    else |ss| == |CutSettlements(l)| + 1 && CutSettlements(l) <= ss && ss[|ss| - 1].Rejected?
  }

  ghost predicate RunOk(m: Main, l: Life, k: nat) {
    if k < |m.runs| then Agrees(l, m.runs[k]) else l == Life([], None, None)
  }

  lemma {:induction false} WireAgrees(m: Main, l: Life, w: WireEvent)
    requires Inv(m) && InFlight(m) && Agrees(l, Current(m))
    ensures Agrees(Live(l, WireMsg(w)), Current(Step(m, WireMsg(w))))
  {
    if l.cut.Some? { assert (l.wires + [w])[..l.cut.value] == l.wires[..l.cut.value]; }
  }

  lemma {:induction false} DisposeAgrees(m: Main, l: Life)
    requires Inv(m) && InFlight(m) && Agrees(l, Current(m))
    ensures Agrees(Live(l, Dispose), Current(Step(m, Dispose)))
  {
    assert l.wires[..|l.wires|] == l.wires;
    assert Open(Current(m), m.disposed);
    assert Current(m).late == [] ==> Current(m).events + [] == Current(m).events;
  }

  lemma {:induction false} DoneAgrees(m: Main, l: Life, p: string)
    requires Inv(m) && InFlight(m) && Agrees(l, Current(m))
    ensures Agrees(Live(l, DoneMsg(p)), Current(Step(m, DoneMsg(p))))
  {
  }

  lemma {:induction false} DeathAgrees(m: Main, l: Life, a: Act)
    requires Inv(m) && InFlight(m) && Agrees(l, Current(m)) && DeathAct(a)
    ensures Agrees(Live(l, a), Current(Step(m, a)))
  {
    DeathStep(m, a);
    DeathChanges(m, a);
    DiedAgrees(l, Current(m), Current(Step(m, a)), a);
  }

  /** What a death does to the record, whatever its cause. */
  ghost predicate Dies(r: RunRec, r': RunRec) {
    && r'.finals == r.finals + 1 && r'.death.Some? && r.wires <= r'.wires
    && |r'.settlements| == |r.settlements| + 1 && r.settlements <= r'.settlements && r'.settlements[|r.settlements|].Rejected?
    && (if r.settlements == [] then r'.late == r.late else r'.events == r.events)
  }

  lemma {:induction false} DeathChanges(m: Main, a: Act)
    requires InFlight(m) && DeathAct(a)
    ensures |Step(m, a).runs| == |m.runs| && Dies(Current(m), Current(Step(m, a)))
  {
    var m1 := m.(term := Term.Step(m.term, DeathSignal(a)));
    DeathRecorded(m1, Fallback(a), a.now);
    DeathFinalizes(m1, Fallback(a), a.now);
    StepExtends(m, a);
  }

  lemma {:induction false} DeathFinalizes(m: Main, fallback: string, now: int)
    requires InFlight(m)
    ensures var m' := HandleDeath(m, fallback, now);
      |m'.runs| == |m.runs| && Current(m').finals == 1 && (Current(m).settlements == [] ==> Current(m').late == Current(m).late)
  {
  }

  lemma {:induction false} DiedAgrees(l: Life, r: RunRec, r': RunRec, a: Act)
    requires Agrees(l, r) && r.finals == 0 && Dies(r, r') && DeathAct(a)
    ensures Agrees(Live(l, a), r')
  {
  }

  lemma {:induction false} OpenAgrees(m: Main, l: Life, a: Act)
    requires Inv(m) && InFlight(m) && Agrees(l, Current(m))
    ensures |Step(m, a).runs| == |m.runs| && Agrees(Live(l, a), Current(Step(m, a)))
  {
    if !a.RunCall? { StepExtends(m, a); }
    match a
    case WireMsg(w) => WireAgrees(m, l, w);
    case Dispose => DisposeAgrees(m, l);
    case DoneMsg(p) => DoneAgrees(m, l, p);
    case WorkerErr(_, _) => DeathAgrees(m, l, a);
    case WorkerExit(_, _) => DeathAgrees(m, l, a);
    case _ =>
  }

  lemma {:induction false} ClosedAgrees(m: Main, l: Life, a: Act, k: nat)
    requires Inv(m) && k < |m.runs| && Agrees(l, m.runs[k]) && (k < |m.runs| - 1 || !InFlight(m))
    ensures k < |Step(m, a).runs| && Step(m, a).runs[k] == m.runs[k] && Live(l, a) == l
  {
    RecordMeans(m, k);
    if !a.RunCall? { StepExtends(m, a); }
  }

  lemma {:induction false} NewAgrees(m: Main, a: Act, k: nat)
    requires |m.runs| <= k < |Step(m, a).runs|
    ensures Agrees(Life([], None, None), Step(m, a).runs[k])
  {
    if !a.RunCall? { StepExtends(m, a); }
  }

  lemma {:induction false} RunOkStep(m: Main, l: Life, a: Act, k: nat)
    requires Inv(m) && RunOk(m, l, k)
    ensures RunOk(Step(m, a), if |m.runs| == k + 1 then Live(l, a) else l, k)
  {
    if k >= |m.runs| {
      if k < |Step(m, a).runs| { NewAgrees(m, a, k); }
    } else if k < |m.runs| - 1 || !InFlight(m) {
      ClosedAgrees(m, l, a, k);
    } else {
      OpenAgrees(m, l, a);
    }
  }

  /** For every order of acts the record of a run says what happened to the run: its wire
      events are those that arrived; it resolves with the payload of the done message that
      ended it, behind the rejection by a disposal that came first; only what was stamped
      before that disposal was forwarded in time. */
  lemma {:induction false} RecordsMeanActs(acts: seq<Act>, k: nat)
    ensures RunOk(Run(acts), LifeOf(acts, k), k)
  {
    if acts != [] {
      var before := acts[..|acts| - 1];
      RecordsMeanActs(before, k);
      RunKeepsInv(before);
      RunOkStep(Run(before), LifeOf(before, k), acts[|acts| - 1], k);
    }
  }

  /** Act `n` is the done message `p` and arrives while run `k` is in flight. */
  ghost predicate DoneAt(acts: seq<Act>, n: nat, k: nat, p: string) {
    n < |acts| && acts[n] == DoneMsg(p) && InFlight(Run(acts[..n])) && |Run(acts[..n]).runs| == k + 1
  }

  ghost predicate DisposedBy(acts: seq<Act>, n: nat)
    requires n <= |acts|
  {
    exists i :: 0 <= i < n && acts[i] == Dispose
  }

  lemma {:induction false} DisposedMeans(acts: seq<Act>, n: nat)
    requires n <= |acts|
    ensures Run(acts[..n]).disposed <==> DisposedBy(acts, n)
  {
    if n > 0 {
      DisposedMeans(acts, n - 1);
      assert acts[..n][..n - 1] == acts[..n - 1];
      DisposedStep(Run(acts[..n - 1]), acts[n - 1]);
    }
  }

  lemma {:induction false} DisposedStep(m: Main, a: Act)
    ensures Step(m, a).disposed == (m.disposed || a.Dispose?)
  {
  }

  /** An ended run's life is over. */
  lemma {:induction false} LifeFrozen(acts: seq<Act>, n: nat, k: nat)
    requires n <= |acts| && LifeOf(acts[..n], k).end.Some?
    ensures LifeOf(acts, k) == LifeOf(acts[..n], k)
  {
    if n == |acts| {
      assert acts[..n] == acts;
    } else {
      var before := acts[..|acts| - 1];
      assert before[..n] == acts[..n];
      LifeFrozen(before, n, k);
    }
  }

  lemma {:induction false} LifeAtEnd(acts: seq<Act>, n: nat, k: nat)
    requires n < |acts| && InFlight(Run(acts[..n])) && |Run(acts[..n]).runs| == k + 1 && (acts[n].DoneMsg? || DeathAct(acts[n]))
    ensures var l := LifeOf(acts, k); l.end == Some(acts[n]) && (l.cut.Some? <==> DisposedBy(acts, n))
  {
    var before := acts[..n];
    RecordsMeanActs(before, k);
    RunKeepsInv(before);
    DisposedMeans(acts, n);
    assert acts[..n + 1][..n] == before;
    assert LifeOf(acts[..n + 1], k) == Live(LifeOf(before, k), acts[n]);
    LifeFrozen(acts, n + 1, k);
  }

  /** The act that ended a run was taken while the run was in flight. */
  lemma {:induction false} EndFound(acts: seq<Act>, k: nat) returns (n: nat)
    requires LifeOf(acts, k).end.Some?
    ensures n < |acts| && acts[n] == LifeOf(acts, k).end.value && InFlight(Run(acts[..n])) && |Run(acts[..n]).runs| == k + 1
  {
    var m := |acts| - 1;
    if LifeOf(acts[..m], k).end.Some? {
      LifeFrozen(acts, m, k);
      n := EndFound(acts[..m], k);
      assert acts[..m][..n] == acts[..n];
    } else {
      n := m;
      EndedNow(acts, k);
    }
  }

  lemma {:induction false} EndedNow(acts: seq<Act>, k: nat)
    requires acts != [] && LifeOf(acts, k).end.Some? && LifeOf(acts[..|acts| - 1], k).end.None?
    ensures var n := |acts| - 1;
      acts[n] == LifeOf(acts, k).end.value && InFlight(Run(acts[..n])) && |Run(acts[..n]).runs| == k + 1
  {
    StillInFlight(acts[..|acts| - 1], k);
  }

  lemma {:induction false} StillInFlight(acts: seq<Act>, k: nat)
    requires LifeOf(acts, k).end.None?
    ensures |Run(acts).runs| == k + 1 ==> InFlight(Run(acts))
  {
    RecordsMeanActs(acts, k);
  }

  /** A run resolves exactly by a done message that arrives while it is in flight, with the
      payload of that message, and that counts exactly if no disposal came before. */
  lemma {:induction false} ResolvedIffDone(acts: seq<Act>, k: nat, p: string)
    requires k < |Run(acts).runs|
    ensures var ss := Run(acts).runs[k].settlements;
      && (Resolved(p) in ss <==> exists n: nat :: DoneAt(acts, n, k, p))
      && (forall n: nat :: DoneAt(acts, n, k, p) ==>
            ss == if DisposedBy(acts, n) then [Rejected("Sandbox is disposed"), Resolved(p)] else [Resolved(p)])
  {
    RecordsMeanActs(acts, k);
    var l, ss := LifeOf(acts, k), Run(acts).runs[k].settlements;
    if Resolved(p) in ss {
      SettledWith(l, ss, p);
      var n := EndFound(acts, k);
      assert DoneAt(acts, n, k, p);
    }
    forall n: nat | DoneAt(acts, n, k, p)
      ensures ss == if DisposedBy(acts, n) then [Rejected("Sandbox is disposed"), Resolved(p)] else [Resolved(p)]
    {
      LifeAtEnd(acts, n, k);
    }
  }

  lemma {:induction false} SettledWith(l: Life, ss: seq<Settlement>, p: string)
    requires SettledBy(l, ss) && Resolved(p) in ss
    ensures l.end == Some(DoneMsg(p))
  {
    var i :| 0 <= i < |ss| && ss[i] == Resolved(p);
  }

  // ---------------------------------------------------------------------------
  // When a run starts
  // ---------------------------------------------------------------------------

  predicate Fatal(a: Act) { a.Dispose? || a.WorkerExit? || a.RestoreFailedMsg? }

  lemma {:induction false} AliveIff(acts: seq<Act>)
    ensures !Run(acts).disposed && Run(acts).term.dispatched == [] <==> forall i :: 0 <= i < |acts| ==> !Fatal(acts[i])
  {
    if acts != [] {
      var n := |acts| - 1;
      AliveIff(acts[..n]);
      RunKeepsInv(acts[..n]);
      AliveStep(Run(acts[..n]), acts[n]);
      assert forall i :: 0 <= i < n ==> acts[..n][i] == acts[i];
    }
  }

  lemma {:induction false} AliveStep(m: Main, a: Act)
    requires Inv(m)
    ensures var t := Step(m, a);
      !t.disposed && t.term.dispatched == [] <==> !m.disposed && m.term.dispatched == [] && !Fatal(a)
  {
    DisposedStep(m, a);
    if DeathAct(a) { DeathDispatches(m, a); } else { OtherDispatches(m, a); }
  }

  lemma {:induction false} DeathDispatches(m: Main, a: Act)
    requires DeathAct(a) && (m.term.fired <==> m.term.dispatched != [])
    ensures Step(m, a).term.dispatched == [] <==> m.term.dispatched == [] && (m.term.disposing || !a.WorkerExit?)
  {
    var m1 := m.(term := Term.Step(m.term, DeathSignal(a)));
    if InFlight(m) { DeathTerm(m1, Fallback(a), a.now); } else { assert Step(m, a) == m1; }
  }

  lemma {:induction false} OtherDispatches(m: Main, a: Act)
    requires !DeathAct(a) && (m.term.fired <==> m.term.dispatched != [])
    ensures Step(m, a).term.dispatched == [] <==> m.term.dispatched == [] && (m.term.disposing || !a.RestoreFailedMsg?)
  {
  }

  /** A call of `run()` starts a run exactly when the sandbox was not disposed of, its worker
      neither exited nor failed to restore, and the run before has ended. A started run is
      the next one and begins with nothing. */
  lemma {:induction false} StartsIff(acts: seq<Act>, now: int)
    ensures var m, m' := Run(acts), Run(acts + [RunCall(now)]);
      var n := |m.runs|;
      var free := (forall i :: 0 <= i < |acts| ==> !Fatal(acts[i])) && (n > 0 ==> LifeOf(acts, n - 1).end.Some?);
      m'.runs == if free then m.runs + [RunRec([], None, [], [], [], 0)] else m.runs
  {
    var m := Run(acts);
    var n := |m.runs|;
    RunSnoc(acts, RunCall(now));
    AliveIff(acts);
    assert n > 0 ==> (LifeOf(acts, n - 1).end.Some? <==> !InFlight(m)) by {
      if n > 0 {
        RecordsMeanActs(acts, n - 1);
        assert RunOk(m, LifeOf(acts, n - 1), n - 1);
      }
    }
    assert Step(m, RunCall(now)).runs == if CanRun(m) then m.runs + [RunRec([], None, [], [], [], 0)] else m.runs;
  }
}
