/** The stages joined: one sandbox under the executor, feeding the event store, while the
    store commits, retries, prunes and takes events from other sources. Theorems here
    follow a worker's wire events all the way into commit batches. */
module Pipeline {
  import opened Basics
  import opened Events
  import Seqr = RunSequencer
  import Wb = WorkerBridge
  import Sb = SandboxRun
  import Ex = Executor
  import ES = EventStore

  datatype Pipe = Pipe(x: Ex.Exec, st: ES.Store)

  /** `RecordNext` runs the next link of the emit tail. Events from other sources
      (exceptions, rejections, uploads) own ids of their own: the executor hands out even
      ids, everyone else odd ones, which stands for UUIDs never colliding. */
  datatype Act =
    | ExecAct(a: Ex.Act)
    | RecordNext
    | StoreAct(s: ES.Act)

  const Boot := Pipe(Ex.Boot, ES.Empty)

  predicate Foreign(a: ES.Act) { a.RecordAct? ==> a.e.id % 2 == 1 }

  function Step(p: Pipe, a: Act, mr: nat): Pipe {
    match a
    case ExecAct(b) => if b.RecordOne? then p else p.(x := Ex.Step(p.x, b))
    case RecordNext =>
      if p.x.recorded < |p.x.emitted|
      then Pipe(Ex.Step(p.x, Ex.RecordOne), ES.Record(p.st, p.x.emitted[p.x.recorded]))
      else p
    case StoreAct(b) => if Foreign(b) then p.(st := ES.Step(p.st, b, mr)) else p
  }

  function Run(acts: seq<Act>, mr: nat): Pipe {
    if acts == [] then Boot else Step(Run(acts[..|acts| - 1], mr), acts[|acts| - 1], mr)
  }

  // ---------------------------------------------------------------------------
  // What the store has accepted of one invocation
  // ---------------------------------------------------------------------------

  ghost predicate Tied(p: Pipe) {
    p.x.recorded <= |p.x.emitted| &&
    (!p.st.stopped ==> forall id: nat :: id % 2 == 0 ==> InStep(p, id))
  }

  ghost predicate InStep(p: Pipe, id: nat)
    requires p.x.recorded <= |p.x.emitted|
  {
    ES.Filter(p.st.log, id) == ES.Filter(p.x.emitted[..p.x.recorded], id)
  }

  ghost predicate Inv(p: Pipe, mr: nat) { Ex.Inv(p.x) && Sb.Inv(p.x.sb) && ES.Inv(p.st, mr) && Tied(p) }

  lemma {:induction false} RecordLog(st: ES.Store, e: ES.InvEvent)
    requires !st.stopped
    ensures ES.Record(st, e).log == st.log + [e] && !ES.Record(st, e).stopped
  {
  }

  lemma {:induction false} RecordNextTied(p: Pipe, id: nat)
    requires p.x.recorded < |p.x.emitted| && InStep(p, id) && !p.st.stopped
    ensures ES.Filter(ES.Record(p.st, p.x.emitted[p.x.recorded]).log, id) == ES.Filter(p.x.emitted[..p.x.recorded + 1], id)
  {
    var n, e := p.x.recorded, p.x.emitted[p.x.recorded];
    var before := p.x.emitted[..n];
    assert ES.Record(p.st, e).log == p.st.log + [e] by { RecordLog(p.st, e); }
    assert p.x.emitted[..n + 1] == before + [e];
    ES.FilterAppend(p.st.log, e, id);
    ES.FilterAppend(before, e, id);
  }

  /** A store step of another source leaves the executor's ids alone. */
  lemma {:induction false} ForeignLog(st: ES.Store, a: ES.Act, mr: nat, id: nat)
    requires Foreign(a) && id % 2 == 0 && !ES.Step(st, a, mr).stopped
    ensures !st.stopped && ES.Filter(ES.Step(st, a, mr).log, id) == ES.Filter(st.log, id)
  {
    if a.RecordAct? {
      RecordLog(st, a.e);
      ES.FilterAppend(st.log, a.e, id);
    }
  }

  lemma {:induction false} ExecTied(x: Ex.Exec, a: Ex.Act)
    requires x.recorded <= |x.emitted| && !a.RecordOne?
    ensures Ex.Step(x, a).recorded == x.recorded && x.emitted <= Ex.Step(x, a).emitted
  {
  }

  lemma {:induction false} StepKeepsTied(p: Pipe, a: Act, mr: nat)
    requires Tied(p)
    ensures Tied(Step(p, a, mr))
  {
    var p' := Step(p, a, mr);
    match a
    case ExecAct(b) =>
      if !b.RecordOne? {
        ExecTied(p.x, b);
        assert p'.x.emitted[..p.x.recorded] == p.x.emitted[..p.x.recorded];
        if !p'.st.stopped { forall id: nat | id % 2 == 0 ensures InStep(p', id) { assert InStep(p, id); } }
      }
    case RecordNext =>
      if p.x.recorded < |p.x.emitted| && !p'.st.stopped {
        forall id: nat | id % 2 == 0 ensures InStep(p', id) {
          assert InStep(p, id);
          RecordNextTied(p, id);
        }
      }
    case StoreAct(b) =>
      if Foreign(b) && !p'.st.stopped {
        forall id: nat | id % 2 == 0 ensures InStep(p', id) {
          ForeignLog(p.st, b, mr, id);
          assert InStep(p, id);
        }
      }
  }

  lemma {:induction false} SandboxPart(x: Ex.Exec, a: Ex.Act)
    requires Sb.Inv(x.sb)
    ensures Sb.Inv(Ex.Step(x, a).sb)
  {
    if a.StartNext? { Sb.StepKeepsInv(x.sb, Sb.RunCall(a.now)); }
    if a.SandboxAct? { Sb.StepKeepsInv(x.sb, a.a); }
    assert Ex.Step(x, a).sb == x.sb || (a.StartNext? && Ex.Step(x, a).sb == Sb.Step(x.sb, Sb.RunCall(a.now)))
        || (a.SandboxAct? && Ex.Step(x, a).sb == Sb.Step(x.sb, a.a));
  }

  lemma {:induction false} StepKeepsInv(p: Pipe, a: Act, mr: nat)
    requires Inv(p, mr)
    ensures Inv(Step(p, a, mr), mr)
  {
    StepKeepsTied(p, a, mr);
    match a
    case ExecAct(b) => Ex.StepKeepsInv(p.x, b); SandboxPart(p.x, b);
    case RecordNext =>
      Ex.StepKeepsInv(p.x, Ex.RecordOne);
      SandboxPart(p.x, Ex.RecordOne);
      if p.x.recorded < |p.x.emitted| { ES.StepKeepsInv(p.st, ES.RecordAct(p.x.emitted[p.x.recorded]), mr); }
    case StoreAct(b) => ES.StepKeepsInv(p.st, b, mr);
  }

  lemma {:induction false} RunKeepsInv(acts: seq<Act>, mr: nat)
    ensures Inv(Run(acts, mr), mr)
  {
    if acts == [] {
      ES.RunKeepsInv([], mr);
    } else {
      RunKeepsInv(acts[..|acts| - 1], mr);
      StepKeepsInv(Run(acts[..|acts| - 1], mr), acts[|acts| - 1], mr);
    }
  }

  // ---------------------------------------------------------------------------
  // One invocation's share of the emit tail
  // ---------------------------------------------------------------------------

  lemma {:induction false} FilterConcat(a: seq<ES.InvEvent>, b: seq<ES.InvEvent>, id: nat)
    ensures ES.Filter(a + b, id) == ES.Filter(a, id) + ES.Filter(b, id)
  {
    if b == [] {
      assert a + b == a;
    } else {
      var n := |b| - 1;
      FilterConcat(a, b[..n], id);
      assert (a + b)[..|a| + n] == a + b[..n];
    }
  }

  lemma {:induction false} FilterOwn(es: seq<ES.InvEvent>, id: nat)
    requires forall i :: 0 <= i < |es| ==> es[i].id == id
    ensures ES.Filter(es, id) == es
  {
    if es != [] {
      FilterOwn(es[..|es| - 1], id);
      assert es == es[..|es| - 1] + [es[|es| - 1]];
    }
  }

  lemma {:induction false} FilterNone(es: seq<ES.InvEvent>, id: nat)
    requires forall i :: 0 <= i < |es| ==> es[i].id != id
    ensures ES.Filter(es, id) == []
  {
    if es != [] { FilterNone(es[..|es| - 1], id); }
  }

  lemma {:induction false} FilterBlock(b: Ex.Begun, runs: seq<Sb.RunRec>, id: nat)
    ensures ES.Filter(Ex.Block(b, runs), id) == if b.meta.id == id then Ex.Block(b, runs) else []
  {
    var es := Ex.Block(b, runs);
    if es != [] { Ex.WidenAllIds(b.meta, runs[b.run.value].events); }
    if b.meta.id == id { FilterOwn(es, id); } else { FilterNone(es, id); }
  }

  lemma {:induction false} FilterLastBlock(started: seq<Ex.Begun>, runs: seq<Sb.RunRec>, id: nat, n: nat)
    requires n + 1 == |started|
    ensures ES.Filter(Ex.Blocks(started, runs), id)
         == ES.Filter(Ex.Blocks(started[..n], runs), id) + if started[n].meta.id == id then Ex.Block(started[n], runs) else []
  {
    FilterConcat(Ex.Blocks(started[..n], runs), Ex.Block(started[n], runs), id);
    FilterBlock(started[n], runs, id);
  }

  lemma {:induction false} FilterBlocksNone(started: seq<Ex.Begun>, runs: seq<Sb.RunRec>, id: nat)
    requires forall k :: 0 <= k < |started| ==> started[k].meta.id != id
    ensures ES.Filter(Ex.Blocks(started, runs), id) == []
  {
    if started != [] {
      var n := |started| - 1;
      FilterBlocksNone(started[..n], runs, id);
      FilterLastBlock(started, runs, id, n);
    }
  }

  lemma {:induction false} FilterBlocks(started: seq<Ex.Begun>, runs: seq<Sb.RunRec>, k: nat)
    requires Ex.IdsIncrease(started) && k < |started|
    ensures ES.Filter(Ex.Blocks(started, runs), started[k].meta.id) == Ex.Block(started[k], runs)
  {
    var n := |started| - 1;
    var id := started[k].meta.id;
    FilterLastBlock(started, runs, id, n);
    if k == n {
      FilterBlocksNone(started[..n], runs, id);
    } else {
      FilterBlocks(started[..n], runs, k);
    }
  }

  lemma {:induction false} FilterRecorded(es: seq<ES.InvEvent>, n: nat, id: nat)
    requires n <= |es| && forall i :: n <= i < |es| ==> es[i].id != id
    ensures ES.Filter(es[..n], id) == ES.Filter(es, id)
  {
    FilterConcat(es[..n], es[n..], id);
    FilterNone(es[n..], id);
    assert es == es[..n] + es[n..];
  }

  /** Invocation `k` got a sandbox run and has returned. */
  ghost predicate ReturnedRun(p: Pipe, k: nat) {
    && k < |p.x.started| && p.x.started[k].run.Some? && p.x.started[k].run.value < |p.x.sb.runs|
    && p.x.started[k].meta.id in p.x.returned
  }

  function RunOf(p: Pipe, k: nat): Sb.RunRec
    requires ReturnedRun(p, k)
  {
    p.x.sb.runs[p.x.started[k].run.value]
  }

  function ForwardedOf(p: Pipe, k: nat): seq<ES.InvEvent>
    requires ReturnedRun(p, k)
  {
    Ex.WidenAll(p.x.started[k].meta, RunOf(p, k).events)
  }

  /** Once an invocation has returned, the store has accepted exactly the events of its
      run, in order, and has cut them into batches after each terminal event. What follows
      the last terminal event is still accumulated. */
  lemma {:induction false} ReturnedRunIsArchived(acts: seq<Act>, mr: nat, k: nat)
    requires ReturnedRun(Run(acts, mr), k) && !Run(acts, mr).st.stopped
    ensures var p := Run(acts, mr);
      var id, all := p.x.started[k].meta.id, ForwardedOf(p, k);
      && ES.Filter(p.st.log, id) == all
      && ES.BatchesOf(p.st.batches, id) == ES.Chunks(all)
      && ES.AccOf(p.st, id) == ES.Rest(all)
  {
    var p := Run(acts, mr);
    var x := p.x;
    RunKeepsInv(acts, mr);
    var id := x.started[k].meta.id;
    assert id % 2 == 0 && InStep(p, id);
    assert ES.AccOk(p.st, id);
    assert forall i :: x.recorded <= i < |x.emitted| ==> x.emitted[i].id != id by {
      var r :| 0 <= r < |x.returned| && x.returned[r] == id;
      assert Ex.Done(x, x.returned[r]);
    }
    FilterRecorded(x.emitted, x.recorded, id);
    FilterBlocks(x.started, x.sb.runs, k);
  }

  // ---------------------------------------------------------------------------
  // Worker death, end to end
  // ---------------------------------------------------------------------------

  lemma {:induction false} PrefixStops(kind: string, n: nat)
    requires n < |kind| && kind[n] == '.' && '.' !in kind[..n]
    ensures Seqr.Prefix(kind) == kind[..n]
  {
    if n > 0 {
      assert kind[..n] == [kind[0]] + kind[1..][..n - 1];
      PrefixStops(kind[1..], n - 1);
    }
  }

  lemma {:induction false} TriggerPrefix(kind: string)
    requires kind == "trigger.request"
    ensures Seqr.SynthCloseKind(kind) == "trigger.error"
  {
    assert kind[7] == '.' && kind[..7] == "trigger";
    PrefixStops(kind, 7);
  }

  /** A synthesised close is terminal only if its frame is in the trigger family. */
  lemma {:induction false} SynthTerminal(kind: string)
    requires ES.TerminalKind(Seqr.SynthCloseKind(kind))
    ensures Seqr.Prefix(kind) == "trigger"
  {
    var p, k := Seqr.Prefix(kind), Seqr.SynthCloseKind(kind);
    assert k == p + ".error" && k[|k| - 1] == 'r';
    assert k == "trigger.error" by {
      assert "trigger.response"[15] == 'e' && "trigger.exception"[16] == 'n';
      assert "trigger.rejection"[16] == 'n' && "system.upload"[12] == 'd';
    }
    assert p == k[..|k| - 6];
    assert "trigger.error"[..7] == "trigger";
  }

  /** Every stamped event has the kind of some wire event. */
  lemma {:induction false} OutputKinds(ws: seq<WireEvent>, i: nat)
    requires i < |Seqr.Outputs(Seqr.Fresh, ws)|
    ensures exists k :: 0 <= k < |ws| && ws[k].kind == Seqr.Outputs(Seqr.Fresh, ws)[i].kind
  {
    var n := |ws| - 1;
    if i < |Seqr.Outputs(Seqr.Fresh, ws[..n])| {
      OutputKinds(ws[..n], i);
      var k :| 0 <= k < n && ws[..n][k].kind == Seqr.Outputs(Seqr.Fresh, ws)[i].kind;
      assert ws[k].kind == ws[..n][k].kind;
    } else {
      assert ws[n].kind == Seqr.Outputs(Seqr.Fresh, ws)[i].kind;
    }
  }

  /** The trigger frame `j` is the oldest frame still open, nothing terminal was emitted,
      and no other frame that is still open belongs to the trigger family. */
  ghost predicate DiedUnderTrigger(ws: seq<WireEvent>, j: nat) {
    && Seqr.NoOverlap(ws)
    && Seqr.IsOpenAt(ws, j, |ws|) && ws[j].kind == "trigger.request"
    && (forall k: nat :: Seqr.IsOpenAt(ws, k, |ws|) ==> k == j || (j < k && Seqr.Prefix(ws[k].kind) != "trigger"))
    && (forall k :: 0 <= k < |ws| ==> !ES.TerminalKind(ws[k].kind))
  }

  /** The synthesised closes before the last one are not terminal. */
  lemma {:induction false} InnerClosesNotTerminal(ws: seq<WireEvent>, j: nat, reason: string, i: nat)
    requires DiedUnderTrigger(ws, j) && i + 1 < |Seqr.After(Seqr.Fresh, ws).calls|
    ensures !ES.TerminalKind(Seqr.SynthCloses(Seqr.After(Seqr.Fresh, ws), reason)[i].kind)
  {
    var js, s := Seqr.OpenIdxs(ws, |ws|), Seqr.After(Seqr.Fresh, ws);
    assert Seqr.TracksFrames(ws, Seqr.Numbers(ws), js, s.calls, s.refStack) by { Seqr.FinalTracks(ws); }
    var a := |js| - 1 - i;
    assert Seqr.IsOpenAt(ws, js[a], |ws|) && js[a] != j by {
      Seqr.OpenIdxsIncreasing(ws, |ws|);
      assert js[0] < js[a] && Seqr.IsOpenAt(ws, js[0], |ws|) && Seqr.IsOpenAt(ws, js[a], |ws|);
    }
    Seqr.SynthAt(ws, Seqr.Numbers(ws), js, s, reason, i);
    assert Seqr.SynthCloses(s, reason)[i].kind == Seqr.SynthCloseKind(ws[js[a]].kind);
    OtherFamilyNotTerminal(ws[js[a]].kind);
  }

  lemma {:induction false} OtherFamilyNotTerminal(kind: string)
    requires Seqr.Prefix(kind) != "trigger"
    ensures !ES.TerminalKind(Seqr.SynthCloseKind(kind))
  {
    if ES.TerminalKind(Seqr.SynthCloseKind(kind)) { SynthTerminal(kind); }
  }

  lemma {:induction false} EarlierNotTerminal(ws: seq<WireEvent>, j: nat, reason: string, i: nat)
    requires DiedUnderTrigger(ws, j) && i + 1 < |Seqr.RunEvents(ws, Some(reason))|
    ensures !ES.TerminalKind(Seqr.RunEvents(ws, Some(reason))[i].kind)
  {
    var out, s := Seqr.Outputs(Seqr.Fresh, ws), Seqr.After(Seqr.Fresh, ws);
    assert Seqr.RunEvents(ws, Some(reason)) == out + Seqr.SynthCloses(s, reason);
    if i < |out| {
      OutputKinds(ws, i);
      var k :| 0 <= k < |ws| && ws[k].kind == out[i].kind;
    } else {
      InnerClosesNotTerminal(ws, j, reason, i - |out|);
    }
  }

  /** The events of a run that died under an open trigger frame: the last one is the
      `trigger.error` close of that frame, and no earlier one is terminal. */
  lemma {:induction false} DeathEndsOnce(ws: seq<WireEvent>, j: nat, reason: string)
    requires DiedUnderTrigger(ws, j)
    ensures var r := Seqr.RunEvents(ws, Some(reason));
      && r != [] && r[|r| - 1].kind == "trigger.error" && r[|r| - 1].ref == Some(Seqr.SeqAt(ws, j))
      && forall i :: 0 <= i < |r| - 1 ==> !ES.TerminalKind(r[i].kind)
  {
    Seqr.OldestFrameClosesLast(ws, reason, j);
    TriggerPrefix("trigger.request");
    var r := Seqr.RunEvents(ws, Some(reason));
    forall i | 0 <= i < |r| - 1 ensures !ES.TerminalKind(r[i].kind) {
      EarlierNotTerminal(ws, j, reason, i);
    }
  }

  /** End to end on worker death while `trigger.request` is the oldest open frame. Once the
      invocation has returned, its single commit batch holds every event of the run if and
      only if no event came after the run was settled, that is, if and only if the sandbox
      was not disposed of while the run was in flight. Otherwise nothing is stored and what
      the executor did get stays in the accumulator. The events of the run are numbered
      0, 1, 2, ..., every frame is closed exactly once, and the last is `trigger.error`. */
  lemma {:induction false} DeathStoredAsOneBatch(acts: seq<Act>, mr: nat, k: nat, j: nat)
    requires ReturnedRun(Run(acts, mr), k) && !Run(acts, mr).st.stopped
    requires var r := RunOf(Run(acts, mr), k); r.death.Some? && DiedUnderTrigger(r.wires, j)
    ensures var p := Run(acts, mr);
      var b, r := p.x.started[k], RunOf(p, k);
      var all := Ex.WidenAll(b.meta, Seqr.RunEvents(r.wires, r.death));
      && (ES.BatchesOf(p.st.batches, b.meta.id) == [all] <==> r.late == [])
      && (r.late == [] <==> |r.settlements| == 1)
      && (r.late == [] ==> ES.AccOf(p.st, b.meta.id) == [])
      && (r.late != [] ==> ES.BatchesOf(p.st.batches, b.meta.id) == [] && ES.AccOf(p.st, b.meta.id) == Ex.WidenAll(b.meta, r.events))
      && EndsWithError(all)
      && (forall i :: 0 <= i < |r.wires| && r.wires[i].framing.Open? ==> Seqr.ClosedOnce(r.wires, r.death.value, i))
  {
    var p := Run(acts, mr);
    var b, r := p.x.started[k], RunOf(p, k);
    ReturnedRunIsArchived(acts, mr, k);
    assert DeadRun(r) by {
      RunKeepsInv(acts, mr);
      DeadRunFinished(p.x.sb, b.run.value);
    }
    LateIffDisposed(r, j);
    DeathBatches(b.meta, r, j);
    forall i | 0 <= i < |r.wires| && r.wires[i].framing.Open? ensures Seqr.ClosedOnce(r.wires, r.death.value, i) {
      Seqr.EveryFrameClosedOnce(r.wires, r.death.value, i);
    }
  }

  ghost predicate EndsWithError(all: seq<ES.InvEvent>) {
    ES.Numbered(all) && all != [] && all[|all| - 1].base.kind == "trigger.error"
  }

  /** A finalized run that died: everything it forwarded, and how much of it in time. */
  ghost predicate DeadRun(r: Sb.RunRec) {
    && r.death.Some? && r.events + r.late == Seqr.RunEvents(r.wires, r.death) && 1 <= |r.settlements| <= 2
    && (|r.settlements| == 1 ==> r.late == [])
    && (|r.settlements| == 2 ==> r.events <= Seqr.Outputs(Seqr.Fresh, r.wires))
  }

  lemma {:induction false} DeadRunFinished(m: Sb.Main, i: nat)
    requires Sb.Inv(m) && i < |m.runs| && m.runs[i].death.Some?
    ensures DeadRun(m.runs[i])
  {
    assert i == |m.runs| - 1 ==> m.runs[i] == Sb.Current(m);
  }

  /** The closes are synthesised on death, so they are late exactly when disposal came first. */
  lemma {:induction false} LateIffDisposed(r: Sb.RunRec, j: nat)
    requires DeadRun(r) && DiedUnderTrigger(r.wires, j)
    ensures r.late == [] <==> |r.settlements| == 1
    ensures r.late != [] ==> r.events <= Seqr.Outputs(Seqr.Fresh, r.wires)
  {
    var reason := r.death.value;
    var k := Seqr.OpenFrameIsSynthesised(r.wires, reason, j);
    assert |Seqr.SynthCloses(Seqr.After(Seqr.Fresh, r.wires), reason)| > 0;
    assert |Seqr.RunEvents(r.wires, r.death)| > |Seqr.Outputs(Seqr.Fresh, r.wires)|;
    assert r.late == [] ==> r.events == Seqr.RunEvents(r.wires, r.death);
  }

  lemma {:induction false} DeathBatches(m: Ex.Meta, r: Sb.RunRec, j: nat)
    requires DeadRun(r) && DiedUnderTrigger(r.wires, j) && (r.late != [] ==> r.events <= Seqr.Outputs(Seqr.Fresh, r.wires))
    ensures var all, sent := Ex.WidenAll(m, Seqr.RunEvents(r.wires, r.death)), Ex.WidenAll(m, r.events);
      && EndsWithError(all)
      && (r.late == [] ==> ES.Chunks(sent) == [all] && ES.Rest(sent) == [])
      && (r.late != [] ==> ES.Chunks(sent) == [] && ES.Rest(sent) == sent)
  {
    var whole := Seqr.RunEvents(r.wires, r.death);
    var all, sent := Ex.WidenAll(m, whole), Ex.WidenAll(m, r.events);
    DeathEndsOnce(r.wires, j, r.death.value);
    WidenedEndsOnce(m, whole);
    Seqr.RunEventsNumbered(r.wires, r.death);
    WidenedNumbered(m, whole);
    Ex.WidenAllAt(m, whole, |whole| - 1);
    if r.late == [] {
      assert r.events == whole;
      ES.SingleBatchIff(all);
      ES.RestAfterTerminal(all);
    } else {
      forall i | 0 <= i < |sent| ensures !ES.Terminal(sent[i]) {
        Ex.WidenAllAt(m, r.events, i);
        OutputKinds(r.wires, i);
      }
      ES.NoTerminalNoChunk(sent);
    }
  }

  // ---------------------------------------------------------------------------
  // From the worker's own history
  // ---------------------------------------------------------------------------

  /** What reached the main thread before the worker died: the first `n` events it posted,
      and possibly the leaf that the main thread adds for a limit. */
  ghost predicate Delivered(posted: seq<WireEvent>, n: nat, ws: seq<WireEvent>) {
    n <= |posted| && (ws == posted[..n] || exists leaf: WireEvent :: IsLimitLeaf(leaf) && ws == posted[..n] + [leaf])
  }

  predicate IsLimitLeaf(leaf: WireEvent) { leaf.framing == Leaf && leaf.kind == "system.exhaustion" }

  /** The trigger plugin opened the run's first frame with token `t` at event `j`; its close
      was not delivered, nothing else delivered is of the trigger family or terminal. */
  ghost predicate UnderTrigger(w: Wb.Worker, t: nat, j: nat, n: nat) {
    && j < n <= |w.wire| && Wb.OpenedAt(w, t, j) && w.wire[j].kind == "trigger.request"
    && (forall i :: Wb.ClosedAt(w, t, i) ==> i >= n)
    && (forall i :: 0 <= i < n && w.wire[i].framing.Open? && i != j ==> j < i && Seqr.Prefix(w.wire[i].kind) != "trigger")
    && (forall i :: 0 <= i < n ==> !ES.TerminalKind(w.wire[i].kind))
  }

  lemma {:induction false} WorkerDiesUnderTrigger(wacts: seq<Wb.Act>, t: nat, j: nat, n: nat, ws: seq<WireEvent>)
    requires Wb.Attributed(Wb.Run(wacts)) && UnderTrigger(Wb.Run(wacts), t, j, n) && Delivered(Wb.Run(wacts).wire, n, ws)
    ensures DiedUnderTrigger(ws, j)
  {
    var w := Wb.Run(wacts);
    if ws == w.wire[..n] {
      PrefixDies(wacts, t, j, n);
    } else {
      var leaf: WireEvent :| IsLimitLeaf(leaf) && ws == w.wire[..n] + [leaf];
      PrefixDies(wacts, t, j, n);
      Wb.DeliveredNeverOverlaps(wacts, n, leaf);
      LeafDies(w.wire[..n], leaf, j);
    }
  }

  lemma {:induction false} PrefixDies(wacts: seq<Wb.Act>, t: nat, j: nat, n: nat)
    requires Wb.Attributed(Wb.Run(wacts)) && UnderTrigger(Wb.Run(wacts), t, j, n)
    ensures DiedUnderTrigger(Wb.Run(wacts).wire[..n], j)
  {
    var w := Wb.Run(wacts);
    assert Seqr.NoOverlap(w.wire[..n]) by { Wb.DeliveredNeverOverlaps(wacts, n, w.wire[j].(framing := Leaf)); }
    assert Seqr.IsOpenAt(w.wire[..n], j, n) by {
      Wb.RunKeepsInv(wacts);
      Wb.UnsettledStaysOpen(w, t, j, n);
      Seqr.PrefixIsOpenAt(w.wire, n, j, n);
    }
  }

  lemma {:induction false} LeafDies(u: seq<WireEvent>, leaf: WireEvent, j: nat)
    requires DiedUnderTrigger(u, j) && IsLimitLeaf(leaf) && Seqr.NoOverlap(u + [leaf])
    ensures DiedUnderTrigger(u + [leaf], j)
  {
    var ws := u + [leaf];
    LeafKeepsOpen(u, leaf, j);
    LimitNotTerminal(leaf.kind);
    forall k: nat | Seqr.IsOpenAt(ws, k, |ws|) ensures k == j || (j < k && Seqr.Prefix(ws[k].kind) != "trigger") {
      assert ws[..|u|] == u;
      Seqr.PrefixIsOpenAt(ws, |u|, k, |u|);
      assert Seqr.IsOpenAt(u, k, |u|);
    }
  }

  lemma {:induction false} LeafKeepsOpen(u: seq<WireEvent>, leaf: WireEvent, j: nat)
    requires leaf.framing == Leaf && Seqr.IsOpenAt(u, j, |u|)
    ensures Seqr.IsOpenAt(u + [leaf], j, |u| + 1)
  {
  }

  lemma {:induction false} LimitNotTerminal(kind: string)
    requires kind == "system.exhaustion"
    ensures !ES.TerminalKind(kind)
  {
    assert kind[0] == 's' && |kind| == 17;
  }

  /** The whole way: whatever the worker did before it died with its trigger frame open, as
      long as no close of an earlier run met an open frame, the single batch holds every
      event of the run exactly when the sandbox was not disposed of first. */
  lemma {:induction false} WorkerDeathStoredAsOneBatch(acts: seq<Act>, mr: nat, k: nat, wacts: seq<Wb.Act>, t: nat, j: nat, n: nat)
    requires ReturnedRun(Run(acts, mr), k) && !Run(acts, mr).st.stopped && RunOf(Run(acts, mr), k).death.Some?
    requires Wb.Attributed(Wb.Run(wacts)) && UnderTrigger(Wb.Run(wacts), t, j, n)
    requires Delivered(Wb.Run(wacts).wire, n, RunOf(Run(acts, mr), k).wires)
    ensures var p := Run(acts, mr);
      var b, r := p.x.started[k], RunOf(p, k);
      var all := Ex.WidenAll(b.meta, Seqr.RunEvents(r.wires, r.death));
      && (if |r.settlements| == 1 then ES.BatchesOf(p.st.batches, b.meta.id) == [all] && ES.AccOf(p.st, b.meta.id) == []
          else ES.BatchesOf(p.st.batches, b.meta.id) == [] && ES.AccOf(p.st, b.meta.id) == Ex.WidenAll(b.meta, r.events))
      && EndsWithError(all)
      && (forall i :: 0 <= i < |r.wires| && r.wires[i].framing.Open? ==> Seqr.ClosedOnce(r.wires, r.death.value, i))
  {
    WorkerDiesUnderTrigger(wacts, t, j, n, RunOf(Run(acts, mr), k).wires);
    DeathStoredAsOneBatch(acts, mr, k, j);
  }

  lemma {:induction false} WidenedEndsOnce(m: Ex.Meta, es: seq<SandboxEvent>)
    requires es != [] && ES.TerminalKind(es[|es| - 1].kind) && forall i :: 0 <= i < |es| - 1 ==> !ES.TerminalKind(es[i].kind)
    ensures ES.EndsOnce(Ex.WidenAll(m, es))
  {
    var ws := Ex.WidenAll(m, es);
    forall i | 0 <= i < |ws| ensures ws[i].base == es[i] { Ex.WidenAllAt(m, es, i); }
  }

  lemma {:induction false} WidenedNumbered(m: Ex.Meta, es: seq<SandboxEvent>)
    requires forall i :: 0 <= i < |es| ==> es[i].seqNo == i
    ensures ES.Numbered(Ex.WidenAll(m, es))
  {
    forall i | 0 <= i < |es| ensures Ex.WidenAll(m, es)[i].base.seqNo == i { Ex.WidenAllAt(m, es, i); }
  }

  // ---------------------------------------------------------------------------
  // The stages are the ones modelled apart
  // ---------------------------------------------------------------------------

  function ExecActs(acts: seq<Act>): seq<Ex.Act> {
    if acts == [] then []
    else
      var before := ExecActs(acts[..|acts| - 1]);
      match acts[|acts| - 1]
      case ExecAct(b) => if b.RecordOne? then before else before + [b]
      case RecordNext => before + [Ex.RecordOne]
      case StoreAct(_) => before
  }

  /** What one act of the pipe is for the store. */
  function StorePart(p: Pipe, a: Act): seq<ES.Act> {
    match a
    case ExecAct(_) => []
    case RecordNext => if p.x.recorded < |p.x.emitted| then [ES.RecordAct(p.x.emitted[p.x.recorded])] else []
    case StoreAct(b) => if Foreign(b) then [b] else []
  }

  function StoreActs(acts: seq<Act>, mr: nat): seq<ES.Act> {
    if acts == [] then []
    else StoreActs(acts[..|acts| - 1], mr) + StorePart(Run(acts[..|acts| - 1], mr), acts[|acts| - 1])
  }

  lemma {:induction false} StoreStep(p: Pipe, a: Act, mr: nat)
    ensures var s := StorePart(p, a); |s| <= 1 && Step(p, a, mr).st == if s == [] then p.st else ES.Step(p.st, s[0], mr)
  {
  }

  lemma {:induction false} StoreSnoc(h: seq<ES.Act>, s: seq<ES.Act>, mr: nat)
    requires |s| <= 1
    ensures ES.Run(h + s, mr) == if s == [] then ES.Run(h, mr) else ES.Step(ES.Run(h, mr), s[0], mr)
  {
    if s == [] { assert h + s == h; } else { assert s == [s[0]]; ES.RunSnoc(h, s[0], mr); }
  }

  /** So every theorem about the executor and about the store holds inside the pipe. */
  lemma {:induction false} StagesHistory(acts: seq<Act>, mr: nat)
    ensures Run(acts, mr).x == Ex.Run(ExecActs(acts)) && Run(acts, mr).st == ES.Run(StoreActs(acts, mr), mr)
  {
    if acts != [] {
      var n := |acts| - 1;
      StagesHistory(acts[..n], mr);
      ExecStep(acts, mr);
      StoreStep(Run(acts[..n], mr), acts[n], mr);
      StoreSnoc(StoreActs(acts[..n], mr), StorePart(Run(acts[..n], mr), acts[n]), mr);
    }
  }

  lemma {:induction false} ExecStep(acts: seq<Act>, mr: nat)
    requires acts != [] && Run(acts[..|acts| - 1], mr).x == Ex.Run(ExecActs(acts[..|acts| - 1]))
    ensures Run(acts, mr).x == Ex.Run(ExecActs(acts))
  {
    var before, a := acts[..|acts| - 1], acts[|acts| - 1];
    match a
    case ExecAct(b) => Ex.RunSnoc(ExecActs(before), b);
    case RecordNext => Ex.RunSnoc(ExecActs(before), Ex.RecordOne);
    case StoreAct(_) =>
  }

  // ---------------------------------------------------------------------------
  // Whose events are stored
  // ---------------------------------------------------------------------------

  /** Every event the store accepted under an id of the executor is owned by that call. */
  ghost predicate LogOwned(log: seq<ES.InvEvent>, calls: seq<Ex.Act>) {
    forall i :: 0 <= i < |log| && log[i].id % 2 == 0 ==> Ex.Owned(log[i], calls)
  }

  lemma {:induction false} FilterMember(log: seq<ES.InvEvent>, id: nat, e: ES.InvEvent)
    ensures e in ES.Filter(log, id) <==> e in log && e.id == id
  {
    if log != [] {
      FilterMember(log[..|log| - 1], id, e);
      assert log == log[..|log| - 1] + [log[|log| - 1]];
    }
  }

  lemma {:induction false} RestMember(es: seq<ES.InvEvent>, e: ES.InvEvent)
    requires e in ES.Rest(es)
    ensures e in es
  {
    if e in ES.Rest(es[..|es| - 1]) { RestMember(es[..|es| - 1], e); }
    assert es == es[..|es| - 1] + [es[|es| - 1]];
  }

  lemma {:induction false} AccumulatedInLog(st: ES.Store, id: nat, mr: nat, e: ES.InvEvent)
    requires ES.Inv(st, mr) && e in ES.AccOf(st, id)
    ensures e in st.log && e.id == id
  {
    assert ES.AccOk(st, id);
    RestMember(ES.Filter(st.log, id), e);
    FilterMember(st.log, id, e);
  }

  lemma {:induction false} ShutdownOwned(st: ES.Store, id: nat, now: int, mr: nat, calls: seq<Ex.Act>)
    requires ES.Inv(st, mr) && LogOwned(st.log, calls) && id % 2 == 0 && ES.AccOf(st, id) != []
    ensures Ex.Owned(ES.Shutdown(st.acc[id], id, now), calls)
  {
    var first := st.acc[id][0];
    assert first in ES.AccOf(st, id);
    AccumulatedInLog(st, id, mr, first);
    var i :| 0 <= i < |st.log| && st.log[i] == first;
    assert Ex.Owned(st.log[i], calls);
    assert "trigger.error"[8] != "trigger.request"[8];
  }

  lemma {:induction false} StoreStepOwned(st: ES.Store, a: ES.Act, mr: nat, calls: seq<Ex.Act>)
    requires ES.Inv(st, mr) && LogOwned(st.log, calls) && (a.RecordAct? && a.e.id % 2 == 0 ==> Ex.Owned(a.e, calls))
    ensures LogOwned(ES.Step(st, a, mr).log, calls)
  {
    ES.LogStep(st, a, mr);
    if a.DrainAct? && a.id % 2 == 0 && ES.AccOf(st, a.id) != [] { ShutdownOwned(st, a.id, a.now, mr, calls); }
  }

  lemma {:induction false} AcceptedOwned(acts: seq<Act>, mr: nat)
    ensures LogOwned(Run(acts, mr).st.log, Ex.Invokes(ExecActs(acts)))
  {
    if acts != [] {
      var n := |acts| - 1;
      var p := Run(acts[..n], mr);
      AcceptedOwned(acts[..n], mr);
      RunKeepsInv(acts[..n], mr);
      CallsGrow(acts);
      forall i | 0 <= i < |p.st.log| && p.st.log[i].id % 2 == 0 ensures Ex.Owned(p.st.log[i], Ex.Invokes(ExecActs(acts))) {
        CallsKeepOwned(acts, p.st.log[i]);
      }
      var s := StorePart(p, acts[n]);
      StoreStep(p, acts[n], mr);
      if s != [] {
        if acts[n].RecordNext? { RecordedOwned(acts, mr); }
        StoreStepOwned(p.st, s[0], mr, Ex.Invokes(ExecActs(acts)));
      }
    }
  }

  lemma {:induction false} CallsGrow(acts: seq<Act>)
    requires acts != []
    ensures Ex.Invokes(ExecActs(acts[..|acts| - 1])) <= Ex.Invokes(ExecActs(acts))
  {
    var h, now := ExecActs(acts[..|acts| - 1]), ExecActs(acts);
    if now != h { assert now[..|now| - 1] == h; }
  }

  lemma {:induction false} CallsKeepOwned(acts: seq<Act>, e: ES.InvEvent)
    requires acts != [] && Ex.Owned(e, Ex.Invokes(ExecActs(acts[..|acts| - 1])))
    ensures Ex.Owned(e, Ex.Invokes(ExecActs(acts)))
  {
    CallsGrow(acts);
  }

  lemma {:induction false} RecordedOwned(acts: seq<Act>, mr: nat)
    requires acts != [] && Run(acts[..|acts| - 1], mr).x.recorded < |Run(acts[..|acts| - 1], mr).x.emitted|
    ensures var x := Run(acts[..|acts| - 1], mr).x; Ex.Owned(x.emitted[x.recorded], Ex.Invokes(ExecActs(acts)))
  {
    var before := acts[..|acts| - 1];
    var x := Run(before, mr).x;
    StagesHistory(before, mr);
    Ex.EmittedOwned(ExecActs(before), x.recorded);
    CallsKeepOwned(acts, x.emitted[x.recorded]);
  }

  lemma {:induction false} BatchMember(bs: seq<ES.Batch>, b: nat, e: ES.InvEvent)
    requires b < |bs| && e in bs[b].events
    ensures e in ES.Concat(ES.BatchesOf(bs, bs[b].id))
  {
    var n, id := |bs| - 1, bs[b].id;
    if b < n { BatchMember(bs[..n], b, e); }
    if bs[n].id == id { ES.ConcatSnoc(ES.BatchesOf(bs[..n], id), bs[n].events); }
  }

  lemma {:induction false} RowMember(bs: seq<ES.Batch>, live: seq<nat>, e: ES.InvEvent) returns (b: nat)
    requires e in ES.Rows(bs, live)
    ensures b < |bs| && e in bs[b].events
  {
    var n := |live| - 1;
    if e in ES.Rows(bs, live[..n]) { b := RowMember(bs, live[..n], e); } else { b := live[n]; }
  }

  /** Over every history of the whole pipe, with retries, prunes and shutdown: an event that
      is in the table under an id of the executor carries the tenant of the call of `invoke`
      that the id belongs to, and its dispatch on `trigger.request` only. */
  lemma {:induction false} RowsOwned(acts: seq<Act>, mr: nat, e: ES.InvEvent)
    requires e in Run(acts, mr).st.rows && e.id % 2 == 0
    ensures Ex.Owned(e, Ex.Invokes(ExecActs(acts)))
  {
    var st := Run(acts, mr).st;
    RunKeepsInv(acts, mr);
    AcceptedOwned(acts, mr);
    var b := RowMember(st.batches, st.live, e);
    BatchedInLog(st, mr, b, e);
    var i :| 0 <= i < |st.log| && st.log[i] == e;
    assert Ex.Owned(st.log[i], Ex.Invokes(ExecActs(acts)));
  }

  lemma {:induction false} BatchedInLog(st: ES.Store, mr: nat, b: nat, e: ES.InvEvent)
    requires ES.Inv(st, mr) && b < |st.batches| && e in st.batches[b].events
    ensures e in st.log
  {
    var id := st.batches[b].id;
    assert ES.AccOk(st, id);
    BatchMember(st.batches, b, e);
    ES.ChunksPartition(ES.Filter(st.log, id));
    FilterMember(st.log, id, e);
  }

  /** What the store has accepted of the `k`-th call of `invoke` once it has returned, field
      by field: the events its run forwarded, under its own id, tenant and dispatch. */
  lemma {:induction false} ReturnedRunFieldByField(acts: seq<Act>, mr: nat, k: nat)
    requires ReturnedRun(Run(acts, mr), k) && !Run(acts, mr).st.stopped
    ensures var p := Run(acts, mr);
      var got := ES.Concat(ES.BatchesOf(p.st.batches, 2 * k)) + ES.AccOf(p.st, 2 * k);
      && p.x.started[k].meta.id == 2 * k
      && Ex.Bases(got) == RunOf(p, k).events
      && forall i :: 0 <= i < |got| ==> got[i].id == 2 * k && Ex.Owned(got[i], Ex.Invokes(ExecActs(acts)))
  {
    var p, calls := Run(acts, mr), Ex.Invokes(ExecActs(acts));
    var m, es := p.x.started[k].meta, RunOf(p, k).events;
    StagesHistory(acts, mr);
    Ex.TurnsInCallOrder(ExecActs(acts));
    assert Ex.Identifies(m, k, calls[k]);
    ReturnedRunIsArchived(acts, mr, k);
    ES.ChunksPartition(ForwardedOf(p, k));
    forall i | 0 <= i < |es|
      ensures ForwardedOf(p, k)[i].base == es[i] && ForwardedOf(p, k)[i].id == 2 * k && Ex.Owned(ForwardedOf(p, k)[i], calls)
    {
      Ex.WidenAllAt(m, es, i);
      Ex.WidenedOwned(m, es[i], k, calls);
    }
  }

  // ---------------------------------------------------------------------------
  // Success, end to end
  // ---------------------------------------------------------------------------

  /** The last event is of a closing kind and no earlier one is. */
  ghost predicate ClosesOnce(es: seq<SandboxEvent>) {
    es != [] && ES.ClosingKind(es[|es| - 1].kind) && forall i :: 0 <= i < |es| - 1 ==> !ES.ClosingKind(es[i].kind)
  }

  /** End to end on success: the run resolved before any disposal and its invocation has
      returned. Its events are its stamped wire stream and nothing else, and they are one
      commit batch with nothing left over exactly when the stream ends with its only event of
      a closing kind, such as `trigger.response`. */
  lemma {:induction false} SuccessStoredAsOneBatch(acts: seq<Act>, mr: nat, k: nat)
    requires ReturnedRun(Run(acts, mr), k) && !Run(acts, mr).st.stopped
    requires var r := RunOf(Run(acts, mr), k); r.settlements != [] && r.settlements[0].Resolved?
    ensures var p := Run(acts, mr);
      var b, r := p.x.started[k], RunOf(p, k);
      && r.late == [] && r.events == Seqr.Outputs(Seqr.Fresh, r.wires)
      && (ES.BatchesOf(p.st.batches, b.meta.id) == [ForwardedOf(p, k)] && ES.AccOf(p.st, b.meta.id) == [] <==> ClosesOnce(r.events))
  {
    var p := Run(acts, mr);
    var b, r := p.x.started[k], RunOf(p, k);
    RunKeepsInv(acts, mr);
    assert ResolvedRun(r) by { ResolvedFinished(p.x.sb, b.run.value); }
    ReturnedRunIsArchived(acts, mr, k);
    SuccessBatches(b.meta, r.events);
  }

  lemma {:induction false} ResolvedFinished(m: Sb.Main, i: nat)
    requires Sb.Inv(m) && i < |m.runs| && m.runs[i].settlements != [] && m.runs[i].settlements[0].Resolved?
    ensures ResolvedRun(m.runs[i])
  {
    Sb.RecordMeans(m, i);
    var r := m.runs[i];
    assert Sb.Finished(r);
    assert r.events + [] == r.events && Seqr.Outputs(Seqr.Fresh, r.wires) + [] == Seqr.Outputs(Seqr.Fresh, r.wires);
  }

  ghost predicate ResolvedRun(r: Sb.RunRec) { r.late == [] && r.events == Seqr.Outputs(Seqr.Fresh, r.wires) }

  lemma {:induction false} SuccessBatches(m: Ex.Meta, es: seq<SandboxEvent>)
    ensures var all := Ex.WidenAll(m, es); ES.Chunks(all) == [all] && ES.Rest(all) == [] <==> ClosesOnce(es)
  {
    var all := Ex.WidenAll(m, es);
    forall i | 0 <= i < |es| ensures all[i].base == es[i] { Ex.WidenAllAt(m, es, i); }
    if es != [] { ES.SingleBatchIff(all); }
    if ClosesOnce(es) {
      WidenedEndsOnce(m, es);
      ES.RestAfterTerminal(all);
    }
  }
}
