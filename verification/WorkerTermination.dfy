/** packages/sandbox/src/worker-termination.ts: racing worker signals are turned into at
    most one termination callback with one classified cause. */
module WorkerTermination {
  import opened Basics
  import opened Events

  datatype Dim = Cpu | Output | Pending

  /** An error from the worker. `limitDim` is present on a tagged limit error. */
  datatype WorkerError = WorkerError(message: string, limitDim: Option<Dim>, observed: Option<int>)

  datatype Cause =
    | Limit(dim: Dim, observed: Option<int>)
    | Crash(message: string)
    | RestoreFailed(message: string)

  /** `dispatched` logs every call of the termination callback. */
  datatype State = State(
    lastError: Option<WorkerError>, disposing: bool, cpuExpired: bool, observed: Option<int>,
    fired: bool, startedAt: int, armed: bool, restoreFailed: Option<string>, dispatched: seq<Cause>)

  const Init := State(None, false, false, None, false, 0, false, None, [])

  datatype Signal =
    | ErrorSig(err: WorkerError)
    | ExitSig
    | Arm(now: int)
    | Disarm
    | Watchdog(now: int)
    | MarkDisposing
    | MarkRestoreFailed(message: string)

  predicate IsLimitError(e: WorkerError) { e.limitDim.Some? && e.limitDim.value != Cpu }

  function Classify(s: State): Cause {
    if s.restoreFailed.Some? then RestoreFailed(s.restoreFailed.value)
    else if s.cpuExpired then Limit(Cpu, s.observed)
    else if s.lastError.Some? && IsLimitError(s.lastError.value)
    then Limit(s.lastError.value.limitDim.value, s.lastError.value.observed)
    else Crash(if s.lastError.Some? then s.lastError.value.message else "worker exited")
  }

  function CauseNow(s: State): Option<Cause> {
    if s.disposing || !(s.cpuExpired || s.lastError.Some? || s.restoreFailed.Some?) then None
    else Some(Classify(s))
  }

  function Dispatch(s: State): State {
    if s.fired then s else s.(fired := true, dispatched := s.dispatched + [Classify(s)])
  }

  function Step(s: State, g: Signal): State {
    match g
    case ErrorSig(e) => if s.lastError.Some? then s else s.(lastError := Some(e))
    case ExitSig => if s.disposing then s else Dispatch(s)
    case Arm(now) => s.(startedAt := now, cpuExpired := false, observed := None, armed := true)
    case Disarm => s.(armed := false)
    case Watchdog(now) =>
      if s.armed then s.(armed := false, cpuExpired := true, observed := Some(now - s.startedAt)) else s
    case MarkDisposing => s.(disposing := true, armed := false)
    case MarkRestoreFailed(m) =>
      if s.disposing then s
      else Dispatch(if s.restoreFailed.Some? then s else s.(restoreFailed := Some(m)))
  }

  function Run(gs: seq<Signal>): State {
    if gs == [] then Init else Step(Run(gs[..|gs| - 1]), gs[|gs| - 1])
  }

  class Termination {
    var lastError: Option<WorkerError>
    var disposing: bool
    var cpuBudgetExpired: bool
    var observedOnExpiry: Option<int>
    var fired: bool
    var startedAt: int
    var watchdog: bool
    var restoreFailedErr: Option<string>
    var callbacks: seq<Cause>

    function Abs(): State reads this {
      State(lastError, disposing, cpuBudgetExpired, observedOnExpiry, fired, startedAt, watchdog, restoreFailedErr, callbacks)
    }

    constructor ()
      ensures Abs() == Init
    {
      lastError, disposing, cpuBudgetExpired, observedOnExpiry := None, false, false, None;
      fired, startedAt, watchdog, restoreFailedErr, callbacks := false, 0, false, None, [];
    }

    method Deliver(cause: Cause)
      modifies this`fired, this`callbacks
      ensures old(fired) ==> unchanged(this)
      ensures !old(fired) ==> fired && callbacks == old(callbacks) + [cause]
    {
      if fired { return; }
      fired := true;
      callbacks := callbacks + [cause];
    }

    method OnError(e: WorkerError)
      modifies this
      ensures Abs() == Step(old(Abs()), ErrorSig(e))
    {
      if lastError.None? { lastError := Some(e); }
    }

    method OnExit()
      modifies this
      ensures Abs() == Step(old(Abs()), ExitSig)
    {
      if disposing { return; }
      Deliver(Classify(Abs()));
    }

    method ArmCpuBudget(now: int)
      modifies this
      ensures Abs() == Step(old(Abs()), Arm(now))
    {
      startedAt, cpuBudgetExpired, observedOnExpiry, watchdog := now, false, None, true;
    }

    method DisarmCpuBudget()
      modifies this
      ensures Abs() == Step(old(Abs()), Disarm)
    {
      if watchdog { watchdog := false; }
    }

    /** The timer callback; a cleared timer never calls it. */
    method WatchdogFires(now: int)
      modifies this
      ensures Abs() == Step(old(Abs()), Watchdog(now))
    {
      if !watchdog { return; }
      watchdog, cpuBudgetExpired, observedOnExpiry := false, true, Some(now - startedAt);
    }

    method Dispose()
      modifies this
      ensures Abs() == Step(old(Abs()), MarkDisposing)
    {
      disposing := true;
      if watchdog { watchdog := false; }
    }

    method OnRestoreFailed(m: string)
      modifies this
      ensures Abs() == Step(old(Abs()), MarkRestoreFailed(m))
    {
      if disposing { return; }
      if restoreFailedErr.None? { restoreFailedErr := Some(m); }
      Deliver(Classify(Abs()));
    }

    /** No cause is reported while disposing, nor before any terminating signal. */
    method CurrentCause() returns (c: Option<Cause>)
      ensures c == CauseNow(Abs())
    {
      if disposing { return None; }
      if !(cpuBudgetExpired || lastError.Some? || restoreFailedErr.Some?) { return None; }
      return Some(Classify(Abs()));
    }
  }

  // ---------------------------------------------------------------------------
  // Reference meaning over the signal history
  // ---------------------------------------------------------------------------

  predicate Terminal(g: Signal) { g.ExitSig? || g.MarkRestoreFailed? }

  /** Signal `i` is the first terminal one, and disposal was not marked before it. */
  ghost predicate Decides(gs: seq<Signal>, i: nat) {
    && i < |gs| && Terminal(gs[i])
    && forall k :: 0 <= k < i ==> !Terminal(gs[k]) && !gs[k].MarkDisposing?
  }

  /** Whether the watchdog expired since the budget was last armed: a fire counts only
      if no arm, disarm or fire separates it from the arm before it. */
  ghost predicate Expired(gs: seq<Signal>, n: nat)
    requires n <= |gs|
  {
    exists a, f :: ExpiredBy(gs, n, a, f)
  }

  ghost predicate ExpiredBy(gs: seq<Signal>, n: nat, a: int, f: int)
    requires n <= |gs|
  {
    && 0 <= a < f < n && gs[a].Arm? && gs[f].Watchdog?
    && (forall k :: a < k < n ==> !gs[k].Arm?)
    && (forall k :: a < k < f ==> !gs[k].Disarm? && !gs[k].Watchdog? && !gs[k].MarkDisposing?)
  }

  ghost predicate FirstError(gs: seq<Signal>, n: nat, e: WorkerError)
    requires n <= |gs|
  {
    exists i :: 0 <= i < n && gs[i] == ErrorSig(e) && forall k :: 0 <= k < i ==> !gs[k].ErrorSig?
  }

  ghost predicate Disposed(gs: seq<Signal>, n: nat)
    requires n <= |gs|
  {
    exists k :: 0 <= k < n && gs[k].MarkDisposing?
  }

  /** The first restore failure counts, unless disposal was marked before it. */
  ghost predicate FirstFailure(gs: seq<Signal>, n: nat, m: string)
    requires n <= |gs|
  {
    exists i :: FailsAt(gs, n, i) && gs[i].message == m
  }

  ghost predicate FailsAt(gs: seq<Signal>, n: nat, i: int)
    requires n <= |gs|
  {
    && 0 <= i < n && gs[i].MarkRestoreFailed?
    && forall k :: 0 <= k < i ==> !gs[k].MarkRestoreFailed? && !gs[k].MarkDisposing?
  }

  /** The cause an error stands for, dimension by dimension. A CPU limit comes from the
      watchdog and never as an error, so an error tagged with it counts as a crash. */
  function ErrorCause(e: WorkerError): Cause {
    match e.limitDim
    case Some(Output) => Limit(Output, e.observed)
    case Some(Pending) => Limit(Pending, e.observed)
    case Some(Cpu) => Crash(e.message)
    case None => Crash(e.message)
  }

  /** The cause that an expired budget or the first error gives, or else `other`. */
  ghost predicate Blames(gs: seq<Signal>, n: nat, c: Option<Cause>, other: Option<Cause>)
    requires n <= |gs|
  {
    if Expired(gs, n) then
      exists a, f :: ExpiredBy(gs, n, a, f) && c == Some(Limit(Cpu, Some(gs[f].now - gs[a].now)))
    else if exists e :: FirstError(gs, n, e) then
      exists e :: FirstError(gs, n, e) && c == Some(ErrorCause(e))
    else c == other
  }

  /** What the callback must report when signal `i` decides. */
  ghost predicate Reports(gs: seq<Signal>, i: nat, c: Cause)
    requires i < |gs|
  {
    if gs[i].MarkRestoreFailed? then c == RestoreFailed(gs[i].message)
    else Blames(gs, i, Some(c), Some(Crash("worker exited")))
  }

  /** What `cause()` must answer after `n` signals: nothing while disposing, else a restore
      failure before an expired budget before the first error. */
  ghost predicate Known(gs: seq<Signal>, n: nat, c: Option<Cause>)
    requires n <= |gs|
  {
    if Disposed(gs, n) then c == None
    else if exists m :: FirstFailure(gs, n, m) then exists m :: FirstFailure(gs, n, m) && c == Some(RestoreFailed(m))
    else Blames(gs, n, c, None)
  }

  // ---------------------------------------------------------------------------
  // Proofs
  // ---------------------------------------------------------------------------

  /** Nothing terminal and no disposal among the first `n` signals. */
  ghost predicate Quiet(gs: seq<Signal>, n: nat)
    requires n <= |gs|
  {
    forall k :: 0 <= k < n ==> !Terminal(gs[k]) && !gs[k].MarkDisposing?
  }

  /** The arm that is still running after `n` signals. */
  ghost predicate ArmedBy(gs: seq<Signal>, n: nat, a: int)
    requires n <= |gs|
  {
    && 0 <= a < n && gs[a].Arm?
    && forall k :: a < k < n ==> !gs[k].Arm? && !gs[k].Disarm? && !gs[k].Watchdog? && !gs[k].MarkDisposing?
  }

  ghost predicate Armed(gs: seq<Signal>, n: nat)
    requires n <= |gs|
  {
    exists a :: ArmedBy(gs, n, a)
  }

  /** How the flags read off the history, whatever it is. */
  ghost predicate FlagsOk(gs: seq<Signal>, n: nat, s: State)
    requires n <= |gs|
  {
    TerminalOk(gs, n, s) && BudgetOk(gs, n, s) && ErrorOk(gs, n, s)
  }

  ghost predicate BudgetOk(gs: seq<Signal>, n: nat, s: State)
    requires n <= |gs|
  {
    && (s.cpuExpired <==> Expired(gs, n))
    && (s.armed <==> Armed(gs, n))
    && (forall a, f :: ExpiredBy(gs, n, a, f) ==> s.observed == Some(gs[f].now - gs[a].now))
    && (forall a :: ArmedBy(gs, n, a) ==> s.startedAt == gs[a].now)
  }

  ghost predicate ErrorOk(gs: seq<Signal>, n: nat, s: State)
    requires n <= |gs|
  {
    && (s.lastError.None? ==> forall k :: 0 <= k < n ==> !gs[k].ErrorSig?)
    && (s.lastError.Some? ==> FirstError(gs, n, s.lastError.value))
  }

  ghost predicate TerminalOk(gs: seq<Signal>, n: nat, s: State)
    requires n <= |gs|
  {
    && (Quiet(gs, n) ==> !s.fired && s.dispatched == [])
    && (s.disposing <==> Disposed(gs, n))
    && (s.restoreFailed.None? && !s.disposing ==> forall k :: 0 <= k < n ==> !gs[k].MarkRestoreFailed?)
    && (s.restoreFailed.None? ==> forall i :: !FailsAt(gs, n, i))
    && (s.restoreFailed.Some? ==> FirstFailure(gs, n, s.restoreFailed.value))
  }

  lemma {:induction false} FlagsMeanHistory(gs: seq<Signal>, n: nat)
    requires n <= |gs|
    ensures FlagsOk(gs, n, Run(gs[..n]))
  {
    if n > 0 {
      FlagsMeanHistory(gs, n - 1);
      assert gs[..n][..n - 1] == gs[..n - 1];
      FlagsStep(gs, n - 1, Run(gs[..n - 1]));
    }
  }

  lemma {:induction false} FlagsStep(gs: seq<Signal>, n: nat, s: State)
    requires n < |gs| && FlagsOk(gs, n, s)
    ensures FlagsOk(gs, n + 1, Step(s, gs[n]))
  {
    TerminalStep(gs, n, s);
    BudgetStep(gs, n, s);
    ErrorStep(gs, n, s);
  }

  lemma {:induction false} ErrorStep(gs: seq<Signal>, n: nat, s: State)
    requires n < |gs| && ErrorOk(gs, n, s)
    ensures ErrorOk(gs, n + 1, Step(s, gs[n]))
  {
  }

  lemma {:induction false} BudgetStep(gs: seq<Signal>, n: nat, s: State)
    requires n < |gs| && BudgetOk(gs, n, s)
    ensures BudgetOk(gs, n + 1, Step(s, gs[n]))
  {
    ExpiredStep(gs, n);
    ArmedStep(gs, n);
    assert StepsBudget(s, gs[n], Step(s, gs[n]));
    BudgetFields(gs, n, s, Step(s, gs[n]));
  }

  /** What a signal does to the budget, whatever else it does. */
  ghost predicate StepsBudget(s: State, g: Signal, s': State) {
    && s'.armed == (g.Arm? || (s.armed && !Clears(g)))
    && s'.cpuExpired == ((s.cpuExpired && !g.Arm?) || (g.Watchdog? && s.armed))
    && (g.Arm? ==> s'.startedAt == g.now)
    && (!g.Arm? ==> s'.startedAt == s.startedAt)
    && (g.Watchdog? && s.armed ==> s'.observed == Some(g.now - s.startedAt))
    && (!g.Arm? && !(g.Watchdog? && s.armed) ==> s'.observed == s.observed)
  }

  lemma {:induction false} BudgetFields(gs: seq<Signal>, n: nat, s: State, s': State)
    requires n < |gs| && BudgetOk(gs, n, s) && StepsBudget(s, gs[n], s')
    ensures forall a, f :: ExpiredBy(gs, n + 1, a, f) ==> s'.observed == Some(gs[f].now - gs[a].now)
    ensures forall a :: ArmedBy(gs, n + 1, a) ==> s'.startedAt == gs[a].now
  {
    forall a, f | ExpiredBy(gs, n + 1, a, f) ensures s'.observed == Some(gs[f].now - gs[a].now) {
      if f < n { assert ExpiredBy(gs, n, a, f); SecondFire(gs, n, a, f); } else { assert ArmedBy(gs, n, a); }
    }
    forall a | ArmedBy(gs, n + 1, a) ensures s'.startedAt == gs[a].now {
      if a < n { assert ArmedBy(gs, n, a); }
    }
  }

  lemma {:induction false} TerminalStep(gs: seq<Signal>, n: nat, s: State)
    requires n < |gs| && TerminalOk(gs, n, s)
    ensures TerminalOk(gs, n + 1, Step(s, gs[n]))
  {
    var s' := Step(s, gs[n]);
    assert Quiet(gs, n + 1) ==> Quiet(gs, n) && !Terminal(gs[n]);
    assert Disposed(gs, n + 1) <==> Disposed(gs, n) || gs[n].MarkDisposing?;
    assert s.disposing ==> !FailsAt(gs, n + 1, n);
    if s.restoreFailed.Some? {
      var i :| FailsAt(gs, n, i) && gs[i].message == s.restoreFailed.value;
      assert FailsAt(gs, n + 1, i);
    } else if s'.restoreFailed.Some? {
      assert FailsAt(gs, n + 1, n);
    } else {
      var m := n + 1;
      forall i ensures !FailsAt(gs, m, i) { assert !FailsAt(gs, n, i); }
    }
  }

  /** An expired budget is not armed. */
  lemma {:induction false} SecondFire(gs: seq<Signal>, n: nat, a: int, f: int)
    requires n <= |gs| && ExpiredBy(gs, n, a, f)
    ensures !Armed(gs, n)
  {
    forall a' ensures !ArmedBy(gs, n, a') {
      assert a' < a || a' == a || a' > a;
    }
  }

  lemma {:induction false} ExpiredStep(gs: seq<Signal>, n: nat)
    requires n < |gs|
    ensures Expired(gs, n + 1) <==>
      (Expired(gs, n) && !gs[n].Arm?) || (gs[n].Watchdog? && Armed(gs, n))
  {
    if Expired(gs, n + 1) {
      var a, f :| ExpiredBy(gs, n + 1, a, f);
      if f < n { assert ExpiredBy(gs, n, a, f); } else { assert ArmedBy(gs, n, a); }
    }
    if Expired(gs, n) && !gs[n].Arm? {
      var a, f :| ExpiredBy(gs, n, a, f);
      assert ExpiredBy(gs, n + 1, a, f);
    }
    if gs[n].Watchdog? && Armed(gs, n) {
      var a :| ArmedBy(gs, n, a);
      assert ExpiredBy(gs, n + 1, a, n);
    }
  }

  predicate Clears(g: Signal) { g.Disarm? || g.Watchdog? || g.MarkDisposing? }

  lemma {:induction false} ArmedStep(gs: seq<Signal>, n: nat)
    requires n < |gs|
    ensures Armed(gs, n + 1) <==> gs[n].Arm? || (Armed(gs, n) && !Clears(gs[n]))
  {
    if gs[n].Arm? {
      assert ArmedBy(gs, n + 1, n);
    } else {
      if Armed(gs, n + 1) {
        var a :| ArmedBy(gs, n + 1, a);
        assert ArmedBy(gs, n, a);
      }
      if Armed(gs, n) && !Clears(gs[n]) {
        var a :| ArmedBy(gs, n, a);
        assert ArmedBy(gs, n + 1, a);
      }
    }
  }

  /** `cause()` answers what the history says, and nothing else can be read off it. */
  lemma {:induction false} CauseMeansHistory(gs: seq<Signal>, c: Option<Cause>)
    ensures Known(gs, |gs|, c) <==> c == CauseNow(Run(gs))
  {
    assert gs[..|gs|] == gs;
    FlagsMeanHistory(gs, |gs|);
    FailureKnown(gs, |gs|, Run(gs));
    BlameKnown(gs, |gs|, Run(gs), c, None);
  }

  lemma {:induction false} FailureKnown(gs: seq<Signal>, n: nat, s: State)
    requires n <= |gs| && TerminalOk(gs, n, s)
    ensures forall m :: FirstFailure(gs, n, m) <==> s.restoreFailed == Some(m)
  {
    forall m | FirstFailure(gs, n, m) ensures s.restoreFailed == Some(m) {
      var i :| FailsAt(gs, n, i) && gs[i].message == m;
      var j :| FailsAt(gs, n, j) && gs[j].message == s.restoreFailed.value;
      assert !(i < j) && !(j < i);
    }
  }

  function FlagsBlame(s: State, other: Option<Cause>): Option<Cause> {
    if s.cpuExpired then Some(Limit(Cpu, s.observed))
    else if s.lastError.Some? then Some(ErrorCause(s.lastError.value))
    else other
  }

  /** The flags blame what the history blames. */
  lemma {:induction false} BlameKnown(gs: seq<Signal>, n: nat, s: State, c: Option<Cause>, other: Option<Cause>)
    requires n <= |gs| && FlagsOk(gs, n, s)
    ensures Blames(gs, n, c, other) <==> c == FlagsBlame(s, other)
  {
    if s.cpuExpired {
      var a, f :| ExpiredBy(gs, n, a, f);
    } else {
      ErrorKnown(gs, n, s);
    }
  }

  lemma {:induction false} ErrorKnown(gs: seq<Signal>, n: nat, s: State)
    requires n <= |gs| && FlagsOk(gs, n, s)
    ensures forall e :: FirstError(gs, n, e) <==> s.lastError == Some(e)
  {
  }

  lemma {:induction false} SilentStep(s: State, g: Signal)
    requires s.fired || s.disposing
    ensures Step(s, g).dispatched == s.dispatched && (Step(s, g).fired || Step(s, g).disposing)
  {
  }

  /** Once fired or disposing, no later signal reaches the callback. */
  lemma {:induction false} Silent(gs: seq<Signal>, n: nat)
    requires n <= |gs| && (Run(gs[..n]).fired || Run(gs[..n]).disposing)
    ensures Run(gs).dispatched == Run(gs[..n]).dispatched
    ensures Run(gs).fired || Run(gs).disposing
  {
    if n == |gs| {
      assert gs[..n] == gs;
    } else {
      var m := |gs| - 1;
      assert gs[..m][..n] == gs[..n];
      Silent(gs[..m], n);
      SilentStep(Run(gs[..m]), gs[m]);
    }
  }

  /** For every ordering of signals the callback runs at most once. It runs exactly when
      some exit or restore failure precedes every disposal, and then it reports the cause
      that the history before the first such signal determines. */
  lemma {:induction false} TerminationReportedOnce(gs: seq<Signal>)
    ensures |Run(gs).dispatched| <= 1
    ensures (exists i: nat :: Decides(gs, i)) <==> |Run(gs).dispatched| == 1
    ensures forall i: nat :: Decides(gs, i) ==> Run(gs).dispatched != [] && Reports(gs, i, Run(gs).dispatched[0])
  {
    if i: nat :| Decides(gs, i) {
      DecisionReports(gs, i);
      assert forall i': nat :: Decides(gs, i') ==> i' == i;
    } else {
      NeverDecided(gs);
    }
  }

  /** The deciding signal dispatches the cause that the flags, hence the history, give. */
  lemma {:induction false} DecisiveStep(gs: seq<Signal>, i: nat, s: State)
    requires Decides(gs, i) && FlagsOk(gs, i, s)
    ensures Step(s, gs[i]).fired && |Step(s, gs[i]).dispatched| == 1
    ensures Reports(gs, i, Step(s, gs[i]).dispatched[0])
  {
    var s' := Step(s, gs[i]);
    assert s.restoreFailed.None?;
    assert !s.disposing;
    if gs[i].ExitSig? { BlameKnown(gs, i, s, Some(s'.dispatched[0]), Some(Crash("worker exited"))); }
  }

  lemma {:induction false} DecisionReports(gs: seq<Signal>, i: nat)
    requires Decides(gs, i)
    ensures |Run(gs).dispatched| == 1 && Reports(gs, i, Run(gs).dispatched[0])
  {
    FlagsMeanHistory(gs, i);
    assert gs[..i + 1][..i] == gs[..i];
    DecisiveStep(gs, i, Run(gs[..i]));
    Silent(gs, i + 1);
  }

  lemma {:induction false} NeverDecided(gs: seq<Signal>)
    requires forall i: nat :: !Decides(gs, i)
    ensures Run(gs).dispatched == []
    ensures Quiet(gs, |gs|) || Run(gs).disposing
  {
    if gs != [] {
      var m := |gs| - 1;
      forall i: nat ensures !Decides(gs[..m], i) { assert Decides(gs[..m], i) ==> Decides(gs, i); }
      NeverDecided(gs[..m]);
      if Run(gs[..m]).disposing {
        SilentStep(Run(gs[..m]), gs[m]);
      } else {
        FlagsMeanHistory(gs[..m], m);
        assert gs[..m][..m] == gs[..m];
        assert forall k :: 0 <= k < m ==> gs[..m][k] == gs[k];
        assert !Decides(gs, m);
      }
    }
  }
}
