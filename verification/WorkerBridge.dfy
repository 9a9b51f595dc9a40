/** packages/sandbox/src/bridge.ts (run window, CallId minting) and the open/close
    pairing of packages/sandbox/src/plugin.ts and packages/runtime/src/plugins/trigger.ts.

    A plugin that opens a frame keeps the CallId it was given and passes it back when it
    closes the frame, possibly much later: a `Token` is such a captured id. Runs follow
    one another on one worker; CallIds restart at 0 in each run. */
module WorkerBridge {
  import opened Basics
  import opened Events
  import Seqr = RunSequencer

  datatype EmitFraming = EmitLeaf | EmitOpen | EmitClose(callId: nat)

  datatype BridgeState = BridgeState(nextCallId: nat, runActive: bool)

  /** `buildEvent`: the new bridge state, the posted wire event, the returned id.
      Outside the window nothing is posted and the id is 0. */
  function BuildEvent(b: BridgeState, body: WireEvent, f: EmitFraming): (BridgeState, Option<WireEvent>, nat) {
    if !b.runActive then (b, None, 0)
    else match f
      case EmitLeaf => (b, Some(body.(framing := Leaf)), 0)
      case EmitOpen => (b.(nextCallId := b.nextCallId + 1), Some(body.(framing := Open(b.nextCallId))), b.nextCallId)
      case EmitClose(id) => (b, Some(body.(framing := Close(id))), 0)
  }

  /** The four setters: open and close the window, restart the ids, swap in the restored VM
      (which closes the window and restarts the ids). */
  function Opened(b: BridgeState): BridgeState { b.(runActive := true) }
  function Closed(b: BridgeState): BridgeState { b.(runActive := false) }
  function IdsReset(b: BridgeState): BridgeState { b.(nextCallId := 0) }
  function Rebound(b: BridgeState): BridgeState { IdsReset(Closed(b)) }

  class Bridge {
    var nextCallId: nat
    var runActive: bool

    function Abs(): BridgeState reads this { BridgeState(nextCallId, runActive) }

    constructor ()
      ensures Abs() == BridgeState(0, false)
    {
      nextCallId, runActive := 0, false;
    }

    method SetRunActive()
      modifies this
      ensures Abs() == Opened(old(Abs()))
    { runActive := true; }

    method ClearRunActive()
      modifies this
      ensures Abs() == Closed(old(Abs()))
    { runActive := false; }

    method ResetCallIds()
      modifies this
      ensures Abs() == IdsReset(old(Abs()))
    { nextCallId := 0; }

    method Rebind()
      modifies this
      ensures Abs() == Rebound(old(Abs()))
    { runActive := false; nextCallId := 0; }

    method Emit(body: WireEvent, f: EmitFraming) returns (posted: Option<WireEvent>, id: nat)
      modifies this
      ensures (Abs(), posted, id) == BuildEvent(old(Abs()), body, f)
    {
      if !runActive { return None, 0; }
      match f
      case EmitLeaf => posted, id := Some(body.(framing := Leaf)), 0;
      case EmitOpen =>
        id := nextCallId;
        nextCallId := nextCallId + 1;
        posted := Some(body.(framing := Open(id)));
      case EmitClose(c) => posted, id := Some(body.(framing := Close(c))), 0;
    }
  }

  // ---------------------------------------------------------------------------
  // The worker over many runs
  // ---------------------------------------------------------------------------

  /** A captured CallId: the id, the run whose window was open when it was minted
      (none outside every window), and whether its owner has closed with it. */
  datatype Token = Token(callId: nat, mintedIn: Option<nat>, settled: bool)

  /** `wire` holds what the current run posted; `src[i]` is the token behind event `i`
      (meaningless for leaves). */
  datatype Worker = Worker(bridge: BridgeState, run: nat, tokens: seq<Token>, wire: seq<WireEvent>, src: seq<nat>)

  datatype Act =
    | BeginRun
    | EndRun
    | Restore
    | EmitLeafAct(body: WireEvent)
    | OpenAct(body: WireEvent)
    | SettleAct(token: nat, body: WireEvent)

  const Boot := Worker(BridgeState(0, false), 0, [], [], [])

  function Post(w: Worker, posted: Option<WireEvent>, token: nat): Worker {
    if posted.None? then w else w.(wire := w.wire + [posted.value], src := w.src + [token])
  }

  function Do(w: Worker, a: Act): Worker {
    match a
    case BeginRun => Worker(Opened(IdsReset(w.bridge)), w.run + 1, w.tokens, [], [])
    case EndRun => w.(bridge := Closed(w.bridge))
    case Restore => w.(bridge := Rebound(w.bridge))
    case EmitLeafAct(body) => Post(w, BuildEvent(w.bridge, body, EmitLeaf).1, 0)
    case OpenAct(body) =>
      var (b, posted, id) := BuildEvent(w.bridge, body, EmitOpen);
      var t := Token(id, if w.bridge.runActive then Some(w.run) else None, false);
      Post(w.(bridge := b, tokens := w.tokens + [t]), posted, |w.tokens|)
    case SettleAct(t, body) =>
      if t < |w.tokens| && !w.tokens[t].settled
      then Post(w.(tokens := w.tokens[t := w.tokens[t].(settled := true)]),
                BuildEvent(w.bridge, body, EmitClose(w.tokens[t].callId)).1, t)
      else w
  }

  function Run(acts: seq<Act>): Worker {
    if acts == [] then Boot else Do(Run(acts[..|acts| - 1]), acts[|acts| - 1])
  }

  // ---------------------------------------------------------------------------
  // Invariant
  // ---------------------------------------------------------------------------

  /** An open carries its token's id, and the token belongs to this run. */
  ghost predicate OpenOk(w: Worker, i: nat)
    requires i < |w.wire| == |w.src|
  {
    w.wire[i].framing.Open? ==>
      && w.src[i] < |w.tokens|
      && w.tokens[w.src[i]].callId == w.wire[i].framing.callId
      && w.tokens[w.src[i]].mintedIn == Some(w.run)
      && (w.bridge.runActive ==> w.wire[i].framing.callId < w.bridge.nextCallId)
  }

  /** A close carries its token's id, and the token is used up. */
  ghost predicate CloseOk(w: Worker, i: nat)
    requires i < |w.wire| == |w.src|
  {
    w.wire[i].framing.Close? ==>
      w.src[i] < |w.tokens| && w.tokens[w.src[i]].callId == w.wire[i].framing.callId && w.tokens[w.src[i]].settled
  }

  /** A token of this run has its open on the wire. */
  ghost predicate TokenOk(w: Worker, t: nat)
    requires t < |w.tokens| && |w.wire| == |w.src|
  {
    && (w.tokens[t].mintedIn.Some? ==> w.tokens[t].mintedIn.value <= w.run)
    && (w.tokens[t].mintedIn == Some(w.run) ==> exists i :: OpenedAt(w, t, i))
  }

  ghost predicate OpenedAt(w: Worker, t: nat, i: int) {
    0 <= i < |w.wire| == |w.src| && w.wire[i].framing.Open? && w.src[i] == t
  }

  ghost predicate ClosedAt(w: Worker, t: nat, i: int) {
    0 <= i < |w.wire| == |w.src| && w.wire[i].framing.Close? && w.src[i] == t
  }

  ghost predicate Inv(w: Worker) {
    && |w.wire| == |w.src|
    && (forall i :: 0 <= i < |w.wire| ==> OpenOk(w, i) && CloseOk(w, i))
    && (forall t :: 0 <= t < |w.tokens| ==> TokenOk(w, t))
    && (forall i, j :: 0 <= i < j < |w.wire| && w.wire[i].framing.Open? && w.wire[j].framing.Open? ==>
          w.wire[i].framing.callId < w.wire[j].framing.callId && w.src[i] < w.src[j])
    && (forall t, i, j :: ClosedAt(w, t, i) && ClosedAt(w, t, j) ==> i == j)
    && (forall t, i, j :: OpenedAt(w, t, i) && ClosedAt(w, t, j) ==> i < j)
  }

  lemma {:induction false} OpenKeepsTokens(w: Worker, body: WireEvent, t: nat)
    requires Inv(w) && t < |Do(w, OpenAct(body)).tokens|
    ensures var w' := Do(w, OpenAct(body)); |w'.wire| == |w'.src| && TokenOk(w', t)
  {
    var w' := Do(w, OpenAct(body));
    if t < |w.tokens| {
      assert TokenOk(w, t);
      if w.tokens[t].mintedIn == Some(w.run) {
        var i :| OpenedAt(w, t, i);
        assert OpenedAt(w', t, i);
      }
    } else if w.bridge.runActive {
      assert OpenedAt(w', t, |w.wire|);
    }
  }

  lemma {:induction false} SourcesKnown(w: Worker, i: nat)
    requires Inv(w) && i < |w.wire| && !w.wire[i].framing.Leaf?
    ensures w.src[i] < |w.tokens|
  {
    assert OpenOk(w, i) && CloseOk(w, i);
  }

  lemma {:induction false} OpenKeepsInv(w: Worker, body: WireEvent)
    requires Inv(w)
    ensures Inv(Do(w, OpenAct(body)))
  {
    var w' := Do(w, OpenAct(body));
    var n := |w.wire|;
    forall i | 0 <= i < |w'.wire| ensures OpenOk(w', i) && CloseOk(w', i) {
      if i < n { assert OpenOk(w, i) && CloseOk(w, i); }
    }
    forall t | 0 <= t < |w'.tokens| ensures TokenOk(w', t) { OpenKeepsTokens(w, body, t); }
    forall i, j | 0 <= i < j < |w'.wire| && w'.wire[i].framing.Open? && w'.wire[j].framing.Open?
      ensures w'.wire[i].framing.callId < w'.wire[j].framing.callId && w'.src[i] < w'.src[j]
    {
      assert OpenOk(w, i);
    }
    forall t, i, j | ClosedAt(w', t, i) && ClosedAt(w', t, j) ensures i == j {
      assert ClosedAt(w, t, i) && ClosedAt(w, t, j);
    }
    forall t, i, j | OpenedAt(w', t, i) && ClosedAt(w', t, j) ensures i < j {
      assert ClosedAt(w, t, j) && j < n;
      SourcesKnown(w, j);
      if i < n { assert OpenedAt(w, t, i); }
    }
  }

  lemma {:induction false} SettleKeepsTokens(w: Worker, t0: nat, body: WireEvent, t: nat)
    requires Inv(w) && t < |w.tokens|
    ensures var w' := Do(w, SettleAct(t0, body)); |w'.wire| == |w'.src| && |w'.tokens| == |w.tokens| && TokenOk(w', t)
  {
    var w' := Do(w, SettleAct(t0, body));
    assert TokenOk(w, t);
    if w.tokens[t].mintedIn == Some(w.run) {
      var i :| OpenedAt(w, t, i);
      assert OpenedAt(w', t, i);
    }
  }

  lemma {:induction false} SettleKeepsInv(w: Worker, t0: nat, body: WireEvent)
    requires Inv(w)
    ensures Inv(Do(w, SettleAct(t0, body)))
  {
    var w' := Do(w, SettleAct(t0, body));
    var n := |w.wire|;
    if w' == w { return; }
    forall i | 0 <= i < |w'.wire| ensures OpenOk(w', i) && CloseOk(w', i) {
      if i < n { assert OpenOk(w, i) && CloseOk(w, i); }
    }
    forall t | 0 <= t < |w'.tokens| ensures TokenOk(w', t) { SettleKeepsTokens(w, t0, body, t); }
    forall i | 0 <= i < n && w.wire[i].framing.Close? ensures w.src[i] != t0 { assert CloseOk(w, i); }
    forall t, i, j | ClosedAt(w', t, i) && ClosedAt(w', t, j) ensures i == j {
      if i < n { assert ClosedAt(w, t, i); }
      if j < n { assert ClosedAt(w, t, j); }
    }
    forall t, i, j | OpenedAt(w', t, i) && ClosedAt(w', t, j) ensures i < j {
      assert OpenedAt(w, t, i);
      if j < n { assert ClosedAt(w, t, j); }
    }
  }

  /** Acts that post at most a leaf, or end the window, keep every pairing fact. */
  lemma {:induction false} OtherKeepsInv(w: Worker, a: Act)
    requires Inv(w) && !a.OpenAct? && !a.SettleAct?
    ensures Inv(Do(w, a))
  {
    var w' := Do(w, a);
    forall t | 0 <= t < |w'.tokens| ensures TokenOk(w', t) {
      assert TokenOk(w, t);
      if !a.BeginRun? && w.tokens[t].mintedIn == Some(w.run) {
        var i :| OpenedAt(w, t, i);
        assert OpenedAt(w', t, i);
      }
    }
    if !a.BeginRun? {
      forall i | 0 <= i < |w'.wire| ensures OpenOk(w', i) && CloseOk(w', i) {
        if i < |w.wire| { assert OpenOk(w, i) && CloseOk(w, i); }
      }
      forall t, i, j | ClosedAt(w', t, i) && ClosedAt(w', t, j) ensures i == j {
        assert ClosedAt(w, t, i) && ClosedAt(w, t, j);
      }
      forall t, i, j | OpenedAt(w', t, i) && ClosedAt(w', t, j) ensures i < j {
        assert OpenedAt(w, t, i) && ClosedAt(w, t, j);
      }
    }
  }

  lemma {:induction false} RunKeepsInv(acts: seq<Act>)
    ensures Inv(Run(acts))
  {
    if acts != [] {
      var w, a := Run(acts[..|acts| - 1]), acts[|acts| - 1];
      RunKeepsInv(acts[..|acts| - 1]);
      if a.OpenAct? { OpenKeepsInv(w, a.body); }
      else if a.SettleAct? { SettleKeepsInv(w, a.token, a.body); }
      else { OtherKeepsInv(w, a); }
    }
  }

  // ---------------------------------------------------------------------------
  // What is on the wire, read off the acts
  // ---------------------------------------------------------------------------

  /** A run has begun and neither ended nor been cut short by a restore. */
  function Active(acts: seq<Act>): bool {
    if acts == [] then false
    else match acts[|acts| - 1]
      case BeginRun => true
      case EndRun => false
      case Restore => false
      case _ => Active(acts[..|acts| - 1])
  }

  /** Frames opened in the window of the latest run. */
  function Opens(acts: seq<Act>): nat {
    if acts == [] || acts[|acts| - 1].BeginRun? then 0
    else
      var before := acts[..|acts| - 1];
      Opens(before) + if acts[|acts| - 1].OpenAct? && Active(before) then 1 else 0
  }

  /** The CallId each open was answered with: a count within its run, or 0 outside. */
  function Ids(acts: seq<Act>): seq<nat> {
    if acts == [] then []
    else
      var before := acts[..|acts| - 1];
      if acts[|acts| - 1].OpenAct? then Ids(before) + [if Active(before) then Opens(before) else 0] else Ids(before)
  }

  /** The opens that have been settled. */
  function Settled(acts: seq<Act>): (r: set<nat>)
    ensures forall t :: t in r ==> t < |Ids(acts)|
  {
    if acts == [] then {}
    else
      var before, a := acts[..|acts| - 1], acts[|acts| - 1];
      if a.SettleAct? && a.token < |Ids(before)| then Settled(before) + {a.token} else Settled(before)
  }

  /** What the latest run posted: within its window every leaf, every open under the next
      CallId, and for every open, of whatever run, its first settlement as a close. */
  function Posted(acts: seq<Act>): seq<WireEvent> {
    if acts == [] || acts[|acts| - 1].BeginRun? then []
    else
      var before := acts[..|acts| - 1];
      if !Active(before) then Posted(before)
      else match acts[|acts| - 1]
        case EmitLeafAct(body) => Posted(before) + [body.(framing := Leaf)]
        case OpenAct(body) => Posted(before) + [body.(framing := Open(Opens(before)))]
        case SettleAct(t, body) =>
          if t < |Ids(before)| && t !in Settled(before) then Posted(before) + [body.(framing := Close(Ids(before)[t]))]
          else Posted(before)
        case _ => Posted(before)
  }

  ghost predicate WireOk(acts: seq<Act>, w: Worker) {
    && w.wire == Posted(acts) && w.bridge.runActive == Active(acts)
    && (Active(acts) ==> w.bridge.nextCallId == Opens(acts))
    && |w.tokens| == |Ids(acts)|
    && forall t :: 0 <= t < |w.tokens| ==> w.tokens[t].callId == Ids(acts)[t] && (w.tokens[t].settled <==> t in Settled(acts))
  }

  lemma {:induction false} WireStep(acts: seq<Act>, w: Worker)
    requires acts != [] && !acts[|acts| - 1].SettleAct? && WireOk(acts[..|acts| - 1], w)
    ensures WireOk(acts, Do(w, acts[|acts| - 1]))
  {
  }

  lemma {:induction false} SettleWireStep(acts: seq<Act>, w: Worker)
    requires acts != [] && acts[|acts| - 1].SettleAct? && WireOk(acts[..|acts| - 1], w)
    ensures WireOk(acts, Do(w, acts[|acts| - 1]))
  {
  }

  /** For every worker history the wire of the latest run is what the acts say. */
  lemma {:induction false} WireMeansActs(acts: seq<Act>)
    ensures WireOk(acts, Run(acts))
  {
    if acts != [] {
      var w := Run(acts[..|acts| - 1]);
      WireMeansActs(acts[..|acts| - 1]);
      if acts[|acts| - 1].SettleAct? { SettleWireStep(acts, w); } else { WireStep(acts, w); }
    }
  }

  // ---------------------------------------------------------------------------
  // Main results
  // ---------------------------------------------------------------------------

  /** Ids minted within one run never collide, so the sequencer's stamping theorem
      applies to every run of every worker history. */
  lemma {:induction false} MintedIdsNeverOverlap(acts: seq<Act>)
    ensures Seqr.NoOverlap(Run(acts).wire)
  {
    RunKeepsInv(acts);
  }

  /** The same holds for whatever prefix of the run reached the main thread before the
      worker died, with the leaf that the main thread adds for a limit. */
  lemma {:induction false} DeliveredNeverOverlaps(acts: seq<Act>, n: nat, leaf: WireEvent)
    requires n <= |Run(acts).wire| && leaf.framing == Leaf
    ensures Seqr.NoOverlap(Run(acts).wire[..n]) && Seqr.NoOverlap(Run(acts).wire[..n] + [leaf])
  {
    MintedIdsNeverOverlap(acts);
    var ws := Run(acts).wire;
    forall i, j | 0 <= j < i < n && ws[i].framing.Open?
      ensures !Seqr.OpenUnder(ws[..n], j, i, ws[i].framing.callId)
           && !Seqr.OpenUnder(ws[..n] + [leaf], j, i, ws[i].framing.callId)
    {
      assert !Seqr.OpenUnder(ws, j, i, ws[i].framing.callId);
      Seqr.PrefixIsOpenAt(ws, n, j, i);
      Seqr.PrefixIsOpenAt(ws[..n] + [leaf], n, j, i);
      assert (ws[..n] + [leaf])[..n] == ws[..n];
    }
  }

  /** A close whose token was not minted in the current run. */
  ghost predicate Stale(w: Worker, i: nat) {
    && i < |w.wire| == |w.src| && w.wire[i].framing.Close?
    && (w.src[i] < |w.tokens| ==> w.tokens[w.src[i]].mintedIn != Some(w.run))
  }

  /** Every accepted close is credited to the frame that its own token opened. */
  ghost predicate Attributed(w: Worker) {
    |w.wire| == |w.src| && forall i, j | 0 <= j < i < |w.wire| && w.wire[i].framing.Close? ::
      Seqr.OpenUnder(w.wire, j, i, w.wire[i].framing.callId) ==> w.src[j] == w.src[i]
  }

  lemma {:induction false} SameIdSameToken(w: Worker, i: nat, j: nat)
    requires Inv(w) && i < |w.wire| && j < |w.wire| && w.wire[j].framing.Open? && w.wire[i].framing.Close?
    requires w.wire[i].framing.callId == w.wire[j].framing.callId && !Stale(w, i)
    ensures w.src[i] == w.src[j]
  {
    assert CloseOk(w, i) && OpenOk(w, j);
    var t := w.src[i];
    assert TokenOk(w, t);
    var k :| OpenedAt(w, t, k);
    assert OpenOk(w, k);
  }

  /** Closes are credited to their own opens exactly when no close of an earlier run (or
      of no run) arrives while a frame with the same number is open. */
  lemma {:induction false} AttributedIffStaleDropped(acts: seq<Act>)
    ensures Attributed(Run(acts)) <==>
      forall i: nat :: Stale(Run(acts), i) ==> !Seqr.Accepted(Run(acts).wire, i)
  {
    RunKeepsInv(acts);
    var w := Run(acts);
    if Attributed(w) {
      forall i: nat, j: nat | Stale(w, i) && j < i
        ensures !Seqr.OpenUnder(w.wire, j, i, w.wire[i].framing.callId)
      {
        assert OpenOk(w, j) && CloseOk(w, i);
      }
    } else {
      var i, j :| 0 <= j < i < |w.wire| && w.wire[i].framing.Close?
        && Seqr.OpenUnder(w.wire, j, i, w.wire[i].framing.callId) && w.src[j] != w.src[i];
      if !Stale(w, i) { SameIdSameToken(w, i, j); }
      assert Seqr.Accepted(w.wire, i);
    }
  }

  /** A request opened and closed within one run is paired on the main side: unless a
      stale close got in the way, its close is accepted and `ref` is the number of the
      very event its token opened. */
  lemma {:induction false} CloseNamesOwnOpen(acts: seq<Act>, t: nat, j: nat, i: nat)
    requires Attributed(Run(acts)) && OpenedAt(Run(acts), t, j) && ClosedAt(Run(acts), t, i)
    ensures j < i && Seqr.OutputAt(Seqr.Fresh, Run(acts).wire, i)
         == Some(Stamp(Run(acts).wire[i], Seqr.SeqAt(Run(acts).wire, i), Some(Seqr.SeqAt(Run(acts).wire, j))))
  {
    var w := Run(acts);
    var id := w.wire[i].framing.callId;
    RunKeepsInv(acts);
    assert OpenOk(w, j) && CloseOk(w, i);
    MintedIdsNeverOverlap(acts);
    assert id == w.wire[j].framing.callId;
    FrameKept(w, t, j, i, i);
    Seqr.StampedAsMeant(w.wire, i);
    forall j': nat | Seqr.OpenUnder(w.wire, j', i, id) ensures j' == j {
      assert OpenOk(w, j');
    }
  }

  /** Up to its own close, the frame a token opened stays open. */
  lemma {:induction false} FrameKept(w: Worker, t: nat, j: nat, k: nat, i: nat)
    requires Inv(w) && Attributed(w) && OpenedAt(w, t, j) && ClosedAt(w, t, i) && j < k <= i
    ensures Seqr.OpenUnder(w.wire, j, k, w.wire[j].framing.callId)
  {
    if k > j + 1 {
      FrameKept(w, t, j, k - 1, i);
      assert w.wire[k - 1].framing == Close(w.wire[j].framing.callId) ==> ClosedAt(w, t, k - 1);
    }
  }

  /** A frame whose token has not closed it is still open, unless a stale close got in the way. */
  lemma {:induction false} UnsettledStaysOpen(w: Worker, t: nat, j: nat, k: nat)
    requires Inv(w) && Attributed(w) && OpenedAt(w, t, j) && j < k <= |w.wire| && forall i :: ClosedAt(w, t, i) ==> i >= k
    ensures Seqr.IsOpenAt(w.wire, j, k)
  {
    if k > j + 1 {
      UnsettledStaysOpen(w, t, j, k - 1);
      if w.wire[k - 1].framing == Close(w.wire[j].framing.callId) {
        assert Seqr.OpenUnder(w.wire, j, k - 1, w.wire[k - 1].framing.callId);
        assert ClosedAt(w, t, k - 1);
      }
    }
  }

  lemma {:induction false} RunSnoc(acts: seq<Act>, a: Act)
    ensures Run(acts + [a]) == Do(Run(acts), a)
  {
    assert (acts + [a])[..|acts|] == acts;
  }

  /** The hazard is real: a request left over from run 1 that settles during run 2
      closes run 2's trigger frame, because both carry CallId 0. The close is stamped
      with the number of that frame, which its own request never opened. */
  lemma {:induction false} StaleCloseHitsNextRun(body: WireEvent)
    ensures
      var w := Run([BeginRun] + [OpenAct(body)] + [EndRun] + [Restore] + [BeginRun] + [OpenAct(body)]
        + [SettleAct(0, body)]);
      && w.wire == [body.(framing := Open(0)), body.(framing := Close(0))]
      && w.src == [1, 0] && w.run == 2 && |w.tokens| == 2 && w.tokens[0].mintedIn == Some(1)
      && !Attributed(w) && Seqr.OutputAt(Seqr.Fresh, w.wire, 1) == Some(Stamp(w.wire[1], 1, Some(0)))
  {
    var a, b := [BeginRun], [BeginRun] + [OpenAct(body)];
    var c := b + [EndRun] + [Restore] + [BeginRun];
    assert [] + [BeginRun] == a;
    RunSnoc([], BeginRun);
    RunSnoc(a, OpenAct(body));
    RunSnoc(b, EndRun);
    RunSnoc(b + [EndRun], Restore);
    RunSnoc(b + [EndRun] + [Restore], BeginRun);
    RunSnoc(c, OpenAct(body));
    RunSnoc(c + [OpenAct(body)], SettleAct(0, body));
    LeftOver(body);
    NextRunOpens(Run(c), body);
    StaleSettles(Run(c + [OpenAct(body)]), body);
    ClosesForeignFrame(Run(c + [OpenAct(body)] + [SettleAct(0, body)]));
  }

  lemma {:induction false} OnlyFrameNamed(ws: seq<WireEvent>)
    requires |ws| == 2 && ws[0].framing == Open(0) && ws[1].framing == Close(0)
    ensures Seqr.OutputAt(Seqr.Fresh, ws, 1) == Some(Stamp(ws[1], 1, Some(0)))
  {
    assert Seqr.OpenUnder(ws, 0, 1, ws[1].framing.callId);
    Seqr.StampedAsMeant(ws, 1);
    assert Seqr.SeqAt(ws, 0) == 0;
    assert Seqr.SeqAt(ws, 1) == 1 by { assert Seqr.Accepted(ws, 0); }
    assert forall j :: Seqr.OpenUnder(ws, j, 1, 0) ==> j == 0;
  }

  /** A close under the id of an open of another request. */
  lemma {:induction false} ClosesForeignFrame(w: Worker)
    requires |w.wire| == 2 && w.wire[0].framing == Open(0) && w.wire[1].framing == Close(0) && w.src == [1, 0]
    ensures !Attributed(w) && Seqr.OutputAt(Seqr.Fresh, w.wire, 1) == Some(Stamp(w.wire[1], 1, Some(0)))
  {
    var ws := w.wire;
    assert !Attributed(w) by { assert Seqr.OpenUnder(ws, 0, 1, ws[1].framing.callId) && w.src[0] != w.src[1]; }
    OnlyFrameNamed(ws);
  }

  /** Run 2 has just begun, with the request of run 1 unsettled. */
  lemma {:induction false} LeftOver(body: WireEvent)
    ensures Do(Do(Do(Do(Do(Boot, BeginRun), OpenAct(body)), EndRun), Restore), BeginRun)
         == Worker(BridgeState(0, true), 2, [Token(0, Some(1), false)], [], [])
  {
    var w := Do(Do(Boot, BeginRun), OpenAct(body));
    assert w.tokens == [Token(0, Some(1), false)] && w.run == 1;
  }

  lemma {:induction false} NextRunOpens(w: Worker, body: WireEvent)
    requires w == Worker(BridgeState(0, true), 2, [Token(0, Some(1), false)], [], [])
    ensures var v := Do(w, OpenAct(body));
      v.bridge.runActive && v.run == 2 && v.tokens == [Token(0, Some(1), false), Token(0, Some(2), false)]
      && v.wire == [body.(framing := Open(0))] && v.src == [1]
  {
  }

  lemma {:induction false} StaleSettles(w: Worker, body: WireEvent)
    requires w.bridge.runActive && w.tokens == [Token(0, Some(1), false), Token(0, Some(2), false)]
    requires w.wire == [body.(framing := Open(0))] && w.src == [1]
    ensures var v := Do(w, SettleAct(0, body));
      v.wire == [body.(framing := Open(0)), body.(framing := Close(0))] && v.src == [1, 0] && v.run == w.run
      && |v.tokens| == 2 && v.tokens[0].mintedIn == Some(1)
  {
  }
}
