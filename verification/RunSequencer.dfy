/** packages/sandbox/src/run-sequencer.ts: the main thread stamps `seq` and `ref` on
    the wire events of one run and, when the worker dies, synthesises the closes.

    `State` and its step functions say what one call does. The second half gives a
    reference meaning that looks only at the stream of wire events (which opens are
    still unmatched, how many events were accepted before) and proves that the step
    functions compute it for every stream whose opens do not reuse an open id. */
module RunSequencer {
  import opened Basics
  import opened Events

  /** A `callMap` entry together with its key. `State.calls` lists the entries of the
      insertion-ordered map, oldest first. */
  datatype Frame = Frame(callId: nat, openSeq: nat, name: string, kind: string, closeKind: string)

  datatype State = State(seqNo: nat, refStack: seq<nat>, calls: seq<Frame>, active: bool, lastTs: int, lastAt: int)

  const Idle := State(0, [], [], false, 0, 0)
  const Fresh := State(0, [], [], true, 0, 0)

  // ---------------------------------------------------------------------------
  // Step functions
  // ---------------------------------------------------------------------------

  /** Opening the window discards whatever an earlier run left behind. */
  function Start(s: State): State { Fresh.(lastTs := s.lastTs, lastAt := s.lastAt) }

  /** Text before the first '.', or all of it. */
  function Prefix(kind: string): (p: string)
    ensures '.' !in p && p <= kind
    ensures |p| < |kind| ==> kind[|p|] == '.'
  {
    if kind == "" || kind[0] == '.' then "" else [kind[0]] + Prefix(kind[1..])
  }

  function SynthCloseKind(kind: string): string { Prefix(kind) + ".error" }

  function FrameIndex(calls: seq<Frame>, id: nat): (i: int)
    ensures -1 <= i < |calls|
    ensures i >= 0 ==> calls[i].callId == id
    ensures i < 0 <==> forall k :: 0 <= k < |calls| ==> calls[k].callId != id
  {
    if calls == [] then -1
    else if calls[|calls| - 1].callId == id then |calls| - 1
    else FrameIndex(calls[..|calls| - 1], id)
  }

  function LastIndexOf(s: seq<nat>, x: nat): (i: int)
    ensures -1 <= i < |s|
    ensures i >= 0 ==> s[i] == x
    ensures forall k :: i < k < |s| ==> s[k] != x
  {
    if s == [] then -1
    else if s[|s| - 1] == x then |s| - 1
    else LastIndexOf(s[..|s| - 1], x)
  }

  /** Map insertion: an existing key keeps its position. */
  function SetFrame(calls: seq<Frame>, f: Frame): seq<Frame> {
    var i := FrameIndex(calls, f.callId);
    if i < 0 then calls + [f] else calls[i := f]
  }

  function Top(s: seq<nat>): Option<nat> { if s == [] then None else Some(s[|s| - 1]) }

  function Unstack(s: seq<nat>, x: nat): seq<nat> {
    var i := LastIndexOf(s, x);
    if i < 0 then s else RemoveAt(s, i)
  }

  /** Popping is the common case of removing the last occurrence. */
  lemma {:induction false} PopIsUnstack(s: seq<nat>, x: nat)
    requires s != [] && s[|s| - 1] == x
    ensures Unstack(s, x) == s[..|s| - 1]
  {
    assert LastIndexOf(s, x) == |s| - 1;
  }

  function Next(s: State, w: WireEvent): (State, Option<SandboxEvent>) {
    if !s.active then (s, None)
    else
      var s1 := s.(lastTs := w.ts, lastAt := w.at);
      match w.framing
      case Leaf =>
        (s1.(seqNo := s.seqNo + 1), Some(Stamp(w, s.seqNo, Top(s.refStack))))
      case Open(id) =>
        (s1.(seqNo := s.seqNo + 1,
             refStack := s.refStack + [s.seqNo],
             calls := SetFrame(s.calls, Frame(id, s.seqNo, w.name, w.kind, SynthCloseKind(w.kind)))),
         Some(Stamp(w, s.seqNo, Top(s.refStack))))
      case Close(id) =>
        var i := FrameIndex(s.calls, id);
        if i < 0 then (s1, None)
        else
          var openSeq := s.calls[i].openSeq;
          (s1.(seqNo := s.seqNo + 1, refStack := Unstack(s.refStack, openSeq), calls := RemoveAt(s.calls, i)),
           Some(Stamp(w, s.seqNo, Some(openSeq))))
  }

  /** The death-path close of one frame. */
  function SynthClose(f: Frame, seqNo: nat, lastAt: int, lastTs: int, reason: string): SandboxEvent {
    SandboxEvent(f.closeKind, seqNo, Some(f.openSeq), lastAt, lastTs, f.name, None, None, Some(reason))
  }

  /** Closes of every open frame, newest frame first, numbered from `s.seqNo`. */
  function SynthCloses(s: State, reason: string): (r: seq<SandboxEvent>)
    ensures |r| == |s.calls|
    decreases |s.calls|
  {
    if s.calls == [] then []
    else
      var n := |s.calls| - 1;
      [SynthClose(s.calls[n], s.seqNo, s.lastAt, s.lastTs, reason)]
      + SynthCloses(s.(calls := s.calls[..n], seqNo := s.seqNo + 1), reason)
  }

  lemma {:induction false} SynthEntry(s: State, reason: string, k: nat)
    requires k < |s.calls|
    ensures SynthCloses(s, reason)[k]
         == SynthClose(s.calls[|s.calls| - 1 - k], s.seqNo + k, s.lastAt, s.lastTs, reason)
    decreases k
  {
    var n := |s.calls| - 1;
    if k > 0 { SynthEntry(s.(calls := s.calls[..n], seqNo := s.seqNo + 1), reason, k - 1); }
  }

  function Finish(s: State, reason: Option<string>): (State, seq<SandboxEvent>) {
    (Idle, if reason.Some? then SynthCloses(s, reason.value) else [])
  }

  /** The sequencer as the source writes it: closure variables updated in place. */
  class Sequencer {
    var seqNo: nat
    var refStack: seq<nat>
    var callMap: seq<Frame>
    var runActive: bool
    var lastSeenTs: int
    var lastSeenAt: int

    function Abs(): State reads this {
      State(seqNo, refStack, callMap, runActive, lastSeenTs, lastSeenAt)
    }

    constructor ()
      ensures Abs() == Idle
    {
      seqNo, refStack, callMap, runActive, lastSeenTs, lastSeenAt := 0, [], [], false, 0, 0;
    }

    method OpenWindow()
      modifies this
      ensures Abs() == Start(old(Abs()))
    {
      if seqNo != 0 || |refStack| > 0 || |callMap| > 0 {
        seqNo, refStack, callMap := 0, [], [];
      }
      runActive := true;
    }

    method Stamped(w: WireEvent) returns (r: Option<SandboxEvent>)
      modifies this
      ensures (Abs(), r) == Next(old(Abs()), w)
    {
      if !runActive { return None; }
      lastSeenTs, lastSeenAt := w.ts, w.at;
      match w.framing
      case Leaf =>
        r := Some(Stamp(w, seqNo, Top(refStack)));
        seqNo := seqNo + 1;
      case Open(id) =>
        var mine := seqNo;
        seqNo := seqNo + 1;
        r := Some(Stamp(w, mine, Top(refStack)));
        refStack := refStack + [mine];
        callMap := SetFrame(callMap, Frame(id, mine, w.name, w.kind, SynthCloseKind(w.kind)));
      case Close(id) =>
        r := HandleClose(w, id);
    }

    method HandleClose(w: WireEvent, id: nat) returns (r: Option<SandboxEvent>)
      requires runActive && w.framing == Close(id) && lastSeenTs == w.ts && lastSeenAt == w.at
      modifies this
      ensures (Abs(), r) == Next(old(Abs()), w)
    {
      var i := FrameIndex(callMap, id);
      if i < 0 { return None; }
      var openSeq := callMap[i].openSeq;
      var mine := seqNo;
      seqNo := seqNo + 1;
      if |refStack| > 0 && refStack[|refStack| - 1] == openSeq {
        PopIsUnstack(refStack, openSeq);
        refStack := refStack[..|refStack| - 1];
      } else {
        var idx := LastIndexOf(refStack, openSeq);
        if idx != -1 {
          refStack := refStack[..idx] + refStack[idx + 1..];
        }
      }
      callMap := callMap[..i] + callMap[i + 1..];
      r := Some(Stamp(w, mine, Some(openSeq)));
    }

    /** With a reason, one close per open frame, newest first; state is zeroed. */
    method FinishRun(reason: Option<string>) returns (r: seq<SandboxEvent>)
      modifies this
      ensures (Abs(), r) == Finish(old(Abs()), reason)
    {
      r := [];
      ghost var was := Abs();
      if |callMap| > 0 && reason.Some? {
        var n := |callMap|;
        while |r| < n
          invariant |r| <= n == |callMap| == |was.calls| && callMap == was.calls
          invariant lastSeenAt == was.lastAt && lastSeenTs == was.lastTs
          invariant seqNo == was.seqNo + |r|
          invariant r == SynthCloses(was, reason.value)[..|r|]
        {
          SynthEntry(was, reason.value, |r|);
          var f := callMap[n - 1 - |r|];
          r := r + [SynthClose(f, seqNo, lastSeenAt, lastSeenTs, reason.value)];
          seqNo := seqNo + 1;
        }
        assert r == SynthCloses(was, reason.value);
      }
      seqNo, refStack, callMap, runActive, lastSeenTs, lastSeenAt := 0, [], [], false, 0, 0;
    }
  }

  // ---------------------------------------------------------------------------
  // Reference meaning of a stream of wire events
  // ---------------------------------------------------------------------------

  /** Event `j` opened a frame that no event before `n` closed. */
  ghost predicate IsOpenAt(ws: seq<WireEvent>, j: nat, n: nat)
    requires n <= |ws|
  {
    && j < n && ws[j].framing.Open?
    && forall k :: j < k < n ==> ws[k].framing != Close(ws[j].framing.callId)
  }

  /** The open frame, if any, that an event carrying `id` at position `n` refers to. */
  ghost predicate OpenUnder(ws: seq<WireEvent>, j: nat, n: nat, id: nat)
    requires n <= |ws|
  {
    IsOpenAt(ws, j, n) && ws[j].framing.callId == id
  }

  ghost predicate Accepted(ws: seq<WireEvent>, i: nat)
    requires i < |ws|
  {
    ws[i].framing.Close? ==> exists j :: OpenUnder(ws, j, i, ws[i].framing.callId)
  }

  /** How many of the first `n` events were accepted. */
  ghost function SeqAt(ws: seq<WireEvent>, n: nat): nat
    requires n <= |ws|
  {
    if n == 0 then 0 else SeqAt(ws, n - 1) + if Accepted(ws, n - 1) then 1 else 0
  }

  /** No open reuses an id whose frame is still open. */
  ghost predicate NoOverlap(ws: seq<WireEvent>)
  {
    forall i, j :: 0 <= j < i < |ws| && ws[i].framing.Open? ==> !OpenUnder(ws, j, i, ws[i].framing.callId)
  }

  /** What `ref` of event `i` must be: a close names its own open; anything else names
      the most recently opened frame that is still open. */
  ghost predicate RefIs(ws: seq<WireEvent>, i: nat, ref: Option<nat>)
    requires i < |ws|
  {
    if ws[i].framing.Close? then
      exists j :: OpenUnder(ws, j, i, ws[i].framing.callId) && ref == Some(SeqAt(ws, j))
    else if ref.None? then
      forall j :: !IsOpenAt(ws, j, i)
    else
      exists j :: IsOpenAt(ws, j, i) && ref == Some(SeqAt(ws, j)) && forall k :: IsOpenAt(ws, k, i) ==> k <= j
  }

  /** The stamped event has every field of the wire event except its framing. */
  ghost predicate Carries(e: SandboxEvent, w: WireEvent) {
    && e.kind == w.kind && e.name == w.name && e.at == w.at && e.ts == w.ts
    && e.input == w.input && e.output == w.output && e.error == w.error
  }

  ghost predicate OutputIs(ws: seq<WireEvent>, i: nat, out: Option<SandboxEvent>)
    requires i < |ws|
  {
    if Accepted(ws, i)
    then out.Some? && Carries(out.value, ws[i]) && out.value.seqNo == SeqAt(ws, i) && RefIs(ws, i, out.value.ref)
    else out.None?
  }

  // ---------------------------------------------------------------------------
  // Running the step functions over a stream
  // ---------------------------------------------------------------------------

  function After(s: State, ws: seq<WireEvent>): State {
    if ws == [] then s else Next(After(s, ws[..|ws| - 1]), ws[|ws| - 1]).0
  }

  /** Stamped events of the stream, dropped ones left out. */
  function Outputs(s: State, ws: seq<WireEvent>): seq<SandboxEvent> {
    if ws == [] then []
    else
      var n := |ws| - 1;
      var o := Next(After(s, ws[..n]), ws[n]).1;
      Outputs(s, ws[..n]) + if o.Some? then [o.value] else []
  }

  /** The result of the `i`-th call of `next`. */
  function OutputAt(s: State, ws: seq<WireEvent>, i: nat): Option<SandboxEvent>
    requires i < |ws|
  {
    Next(After(s, ws[..i]), ws[i]).1
  }

  // ---------------------------------------------------------------------------
  // Open frames, oldest first
  // ---------------------------------------------------------------------------

  ghost function OpenIdxs(ws: seq<WireEvent>, n: nat): seq<nat>
    requires n <= |ws|
  {
    if n == 0 then []
    else
      var prev := OpenIdxs(ws, n - 1);
      match ws[n - 1].framing
      case Leaf => prev
      case Open(_) => prev + [n - 1]
      case Close(id) => Without(ws, prev, id)
  }

  ghost predicate OpensId(ws: seq<WireEvent>, j: nat, id: nat) { j < |ws| && ws[j].framing == Open(id) }

  /** `js` with the positions that opened `id` left out. */
  ghost function Without(ws: seq<WireEvent>, js: seq<nat>, id: nat): seq<nat> {
    if js == [] then []
    else
      var init := Without(ws, js[..|js| - 1], id);
      var last := js[|js| - 1];
      if OpensId(ws, last, id) then init else init + [last]
  }

  lemma {:induction false} WithoutMember(ws: seq<WireEvent>, js: seq<nat>, id: nat, j: nat)
    ensures j in Without(ws, js, id) <==> j in js && !OpensId(ws, j, id)
  {
    if js != [] {
      WithoutMember(ws, js[..|js| - 1], id, j);
      assert js == js[..|js| - 1] + [js[|js| - 1]];
    }
  }

  ghost predicate Increasing(s: seq<nat>) { forall a, b :: 0 <= a < b < |s| ==> s[a] < s[b] }

  lemma {:induction false} WithoutKeepsOrder(ws: seq<WireEvent>, js: seq<nat>, id: nat)
    requires Increasing(js)
    ensures Increasing(Without(ws, js, id))
  {
    if js != [] {
      var last := js[|js| - 1];
      WithoutKeepsOrder(ws, js[..|js| - 1], id);
      var init := Without(ws, js[..|js| - 1], id);
      forall a | 0 <= a < |init| ensures init[a] < last {
        WithoutMember(ws, js[..|js| - 1], id, init[a]);
      }
    }
  }

  lemma {:induction false} IsOpenAtStep(ws: seq<WireEvent>, j: nat, n: nat)
    requires n < |ws|
    ensures IsOpenAt(ws, j, n + 1) <==>
      (j == n && ws[n].framing.Open?) ||
      (IsOpenAt(ws, j, n) && ws[n].framing != Close(ws[j].framing.callId))
  {
  }

  lemma {:induction false} OpenIdxsMember(ws: seq<WireEvent>, n: nat, j: nat)
    requires n <= |ws|
    ensures j in OpenIdxs(ws, n) <==> IsOpenAt(ws, j, n)
  {
    if n > 0 {
      OpenIdxsMember(ws, n - 1, j);
      IsOpenAtStep(ws, j, n - 1);
      if ws[n - 1].framing.Close? { WithoutMember(ws, OpenIdxs(ws, n - 1), ws[n - 1].framing.callId, j); }
    }
  }

  lemma {:induction false} OpenIdxsIncreasing(ws: seq<WireEvent>, n: nat)
    requires n <= |ws|
    ensures Increasing(OpenIdxs(ws, n))
    ensures forall a :: 0 <= a < |OpenIdxs(ws, n)| ==> IsOpenAt(ws, OpenIdxs(ws, n)[a], n)
  {
    if n > 0 {
      OpenIdxsIncreasing(ws, n - 1);
      if ws[n - 1].framing.Close? { WithoutKeepsOrder(ws, OpenIdxs(ws, n - 1), ws[n - 1].framing.callId); }
    }
    var js := OpenIdxs(ws, n);
    forall a | 0 <= a < |js| ensures IsOpenAt(ws, js[a], n) {
      OpenIdxsMember(ws, n, js[a]);
    }
  }

  lemma {:induction false} SeqAtMonotone(ws: seq<WireEvent>, i: nat, j: nat)
    requires i <= j <= |ws|
    ensures SeqAt(ws, i) <= SeqAt(ws, j)
    ensures i < j && Accepted(ws, i) ==> SeqAt(ws, i) < SeqAt(ws, j)
    decreases j - i
  {
    if i < j { SeqAtMonotone(ws, i + 1, j); assert SeqAt(ws, i + 1) == SeqAt(ws, i) + if Accepted(ws, i) then 1 else 0; }
  }

  /** `num[n]` is how many of the first `n` events were accepted. */
  ghost predicate Numbered(ws: seq<WireEvent>, num: seq<nat>) {
    |num| == |ws| + 1 && forall n :: 0 <= n <= |ws| ==> num[n] == SeqAt(ws, n)
  }

  ghost function Numbers(ws: seq<WireEvent>): (num: seq<nat>)
    ensures Numbered(ws, num)
  {
    seq(|ws| + 1, n requires 0 <= n <= |ws| => SeqAt(ws, n))
  }

  /** Frame `f`, stacked as `top`, is the one that event `j` opened. */
  ghost predicate TracksFrame(ws: seq<WireEvent>, num: seq<nat>, j: nat, f: Frame, top: nat) {
    && j < |ws| && j < |num| && ws[j].framing.Open? && top == num[j]
    && f == Frame(ws[j].framing.callId, num[j], ws[j].name, ws[j].kind, SynthCloseKind(ws[j].kind))
  }

  ghost predicate TracksFrames(ws: seq<WireEvent>, num: seq<nat>, js: seq<nat>, calls: seq<Frame>, stack: seq<nat>) {
    && |calls| == |stack| == |js|
    && forall k :: 0 <= k < |js| ==> TracksFrame(ws, num, js[k], calls[k], stack[k])
  }

  /** The state the code must be in after the first `n` events. */
  ghost predicate Tracks(ws: seq<WireEvent>, num: seq<nat>, n: nat, s: State)
    requires n <= |ws| && |num| == |ws| + 1
  {
    && s.active && s.seqNo == num[n]
    && TracksFrames(ws, num, OpenIdxs(ws, n), s.calls, s.refStack)
    && (n > 0 ==> s.lastTs == ws[n - 1].ts && s.lastAt == ws[n - 1].at)
  }

  lemma {:induction false} OpenIdsDistinct(ws: seq<WireEvent>, n: nat, a: nat, b: nat)
    requires n <= |ws| && NoOverlap(ws) && a < b && IsOpenAt(ws, a, n) && IsOpenAt(ws, b, n)
    ensures ws[a].framing.callId != ws[b].framing.callId
  {
    assert !OpenUnder(ws, a, b, ws[b].framing.callId);
  }

  /** Filtering out one id removes exactly the position holding it. */
  lemma {:induction false} WithoutIsRemoveAt(ws: seq<WireEvent>, js: seq<nat>, id: nat, i: nat)
    requires i < |js| && OpensId(ws, js[i], id)
    requires forall k :: 0 <= k < |js| && k != i ==> !OpensId(ws, js[k], id)
    ensures Without(ws, js, id) == RemoveAt(js, i)
  {
    var m := |js| - 1;
    if i == m {
      WithoutNone(ws, js[..m], id);
      assert RemoveAt(js, m) == js[..m];
    } else {
      assert js[..m][i] == js[i];
      WithoutIsRemoveAt(ws, js[..m], id, i);
      assert RemoveAt(js, i) == RemoveAt(js[..m], i) + [js[m]];
    }
  }

  lemma {:induction false} WithoutNone(ws: seq<WireEvent>, js: seq<nat>, id: nat)
    requires forall k :: 0 <= k < |js| ==> !OpensId(ws, js[k], id)
    ensures Without(ws, js, id) == js
  {
    if js != [] {
      WithoutNone(ws, js[..|js| - 1], id);
      assert js == js[..|js| - 1] + [js[|js| - 1]];
    }
  }

  lemma {:induction false} TracksRefStackIncreasing(ws: seq<WireEvent>, num: seq<nat>, n: nat, s: State)
    requires n <= |ws| && Numbered(ws, num) && Tracks(ws, num, n, s)
    ensures Increasing(s.refStack)
  {
    var js := OpenIdxs(ws, n);
    OpenIdxsIncreasing(ws, n);
    forall a, b | 0 <= a < b < |js| ensures s.refStack[a] < s.refStack[b] {
      assert TracksFrame(ws, num, js[a], s.calls[a], s.refStack[a]);
      assert TracksFrame(ws, num, js[b], s.calls[b], s.refStack[b]);
      SeqAtMonotone(ws, js[a], js[b]);
    }
  }

  /** A close whose id is not open changes nothing but the last-seen stamps. */
  lemma {:induction false} MissedClose(ws: seq<WireEvent>, num: seq<nat>, n: nat, s: State, id: nat)
    requires n < |ws| && |num| == |ws| + 1 && Tracks(ws, num, n, s)
    requires ws[n].framing == Close(id) && FrameIndex(s.calls, id) < 0
    ensures OpenIdxs(ws, n + 1) == OpenIdxs(ws, n) && !Accepted(ws, n)
  {
    var js := OpenIdxs(ws, n);
    forall k | 0 <= k < |js| ensures !OpensId(ws, js[k], id) {
      assert TracksFrame(ws, num, js[k], s.calls[k], s.refStack[k]);
    }
    WithoutNone(ws, js, id);
    forall j | OpenUnder(ws, j, n, id) ensures false {
      OpenIdxsMember(ws, n, j);
    }
  }

  /** A close that finds its frame removes exactly that frame's position. */
  lemma {:induction false} HitCloseIdxs(ws: seq<WireEvent>, n: nat, i: nat, id: nat)
    requires n < |ws| && NoOverlap(ws) && ws[n].framing == Close(id)
    requires i < |OpenIdxs(ws, n)| && OpensId(ws, OpenIdxs(ws, n)[i], id)
    ensures OpenIdxs(ws, n + 1) == RemoveAt(OpenIdxs(ws, n), i)
  {
    var js := OpenIdxs(ws, n);
    OpenIdxsIncreasing(ws, n);
    forall k | 0 <= k < |js| && k != i ensures !OpensId(ws, js[k], id) {
      if k < i { OpenIdsDistinct(ws, n, js[k], js[i]); } else { OpenIdsDistinct(ws, n, js[i], js[k]); }
    }
    WithoutIsRemoveAt(ws, js, id, i);
  }

  /** The step of a close that finds its frame, once the stack is known to be increasing. */
  lemma {:induction false} HitCloseStep(s: State, w: WireEvent, i: nat)
    requires s.active && w.framing.Close? && FrameIndex(s.calls, w.framing.callId) == i
    requires i < |s.refStack| && s.refStack[i] == s.calls[i].openSeq && Increasing(s.refStack)
    ensures Next(s, w).0 == State(s.seqNo + 1, RemoveAt(s.refStack, i), RemoveAt(s.calls, i), true, w.ts, w.at)
  {
    assert LastIndexOf(s.refStack, s.refStack[i]) == i;
  }

  lemma {:induction false} RemovalTracks(ws: seq<WireEvent>, num: seq<nat>, js: seq<nat>, calls: seq<Frame>, stack: seq<nat>, i: nat)
    requires TracksFrames(ws, num, js, calls, stack) && i < |js|
    ensures TracksFrames(ws, num, RemoveAt(js, i), RemoveAt(calls, i), RemoveAt(stack, i))
  {
    forall k | 0 <= k < |js| - 1
      ensures TracksFrame(ws, num, RemoveAt(js, i)[k], RemoveAt(calls, i)[k], RemoveAt(stack, i)[k])
    {
      var k0 := if k < i then k else k + 1;
      assert TracksFrame(ws, num, js[k0], calls[k0], stack[k0]);
    }
  }

  /** The frame that an accepted close finds is the one its event opened. */
  lemma {:induction false} HitCloseFrame(ws: seq<WireEvent>, num: seq<nat>, n: nat, s: State, i: nat)
    requires n < |ws| && Numbered(ws, num) && Tracks(ws, num, n, s) && ws[n].framing.Close?
    requires FrameIndex(s.calls, ws[n].framing.callId) == i
    ensures var js, id := OpenIdxs(ws, n), ws[n].framing.callId;
      i < |js| == |s.refStack| && OpensId(ws, js[i], id) && OpenUnder(ws, js[i], n, id)
      && s.calls[i].openSeq == s.refStack[i] == SeqAt(ws, js[i])
  {
    var js := OpenIdxs(ws, n);
    assert TracksFrame(ws, num, js[i], s.calls[i], s.refStack[i]);
    OpenIdxsMember(ws, n, js[i]);
  }

  lemma {:induction false} AcceptedCounts(ws: seq<WireEvent>, n: nat, j: nat)
    requires n < |ws| && ws[n].framing.Close? && OpenUnder(ws, j, n, ws[n].framing.callId)
    ensures SeqAt(ws, n + 1) == SeqAt(ws, n) + 1
  {
  }

  lemma {:induction false} HitCloseTracks(ws: seq<WireEvent>, num: seq<nat>, n: nat, s: State, i: nat)
    requires n < |ws| && NoOverlap(ws) && Numbered(ws, num) && Tracks(ws, num, n, s) && ws[n].framing.Close?
    requires FrameIndex(s.calls, ws[n].framing.callId) == i
    ensures Tracks(ws, num, n + 1, Next(s, ws[n]).0)
    ensures OpenUnder(ws, OpenIdxs(ws, n)[i], n, ws[n].framing.callId)
    ensures s.calls[i].openSeq == SeqAt(ws, OpenIdxs(ws, n)[i])
  {
    var js := OpenIdxs(ws, n);
    HitCloseFrame(ws, num, n, s, i);
    assert num[n + 1] == num[n] + 1 by { AcceptedCounts(ws, n, js[i]); }
    assert Next(s, ws[n]).0 == State(s.seqNo + 1, RemoveAt(s.refStack, i), RemoveAt(s.calls, i), true, ws[n].ts, ws[n].at) by {
      TracksRefStackIncreasing(ws, num, n, s);
      HitCloseStep(s, ws[n], i);
    }
    assert OpenIdxs(ws, n + 1) == RemoveAt(js, i) by { HitCloseIdxs(ws, n, i, ws[n].framing.callId); }
    RemovalTracks(ws, num, js, s.calls, s.refStack, i);
  }

  /** The top of the stack names the most recently opened frame still open. */
  lemma {:induction false} TopIsRef(ws: seq<WireEvent>, num: seq<nat>, n: nat, s: State)
    requires n < |ws| && Numbered(ws, num) && Tracks(ws, num, n, s) && !ws[n].framing.Close?
    ensures RefIs(ws, n, Top(s.refStack))
  {
    var js := OpenIdxs(ws, n);
    OpenIdxsIncreasing(ws, n);
    if js == [] {
      forall j: nat ensures !IsOpenAt(ws, j, n) { OpenIdxsMember(ws, n, j); }
    } else {
      var m := |js| - 1;
      assert TracksFrame(ws, num, js[m], s.calls[m], s.refStack[m]);
      assert IsOpenAt(ws, js[m], n);
      forall k: nat | IsOpenAt(ws, k, n) ensures k <= js[m] { OpenIdxsMember(ws, n, k); }
    }
  }

  lemma {:induction false} OpenTracks(ws: seq<WireEvent>, num: seq<nat>, n: nat, s: State)
    requires n < |ws| && NoOverlap(ws) && Numbered(ws, num) && Tracks(ws, num, n, s) && ws[n].framing.Open?
    ensures Tracks(ws, num, n + 1, Next(s, ws[n]).0)
  {
    var js := OpenIdxs(ws, n);
    OpenIdxsIncreasing(ws, n);
    forall k | 0 <= k < |js| ensures s.calls[k].callId != ws[n].framing.callId {
      assert TracksFrame(ws, num, js[k], s.calls[k], s.refStack[k]);
      assert !OpenUnder(ws, js[k], n, ws[n].framing.callId);
    }
    assert SeqAt(ws, n + 1) == SeqAt(ws, n) + 1;
  }

  lemma {:induction false} StepTracks(ws: seq<WireEvent>, num: seq<nat>, n: nat, s: State)
    requires n < |ws| && NoOverlap(ws) && Numbered(ws, num) && Tracks(ws, num, n, s)
    ensures Tracks(ws, num, n + 1, Next(s, ws[n]).0) && OutputIs(ws, n, Next(s, ws[n]).1)
  {
    assert SeqAt(ws, n + 1) == SeqAt(ws, n) + if Accepted(ws, n) then 1 else 0;
    match ws[n].framing
    case Leaf => TopIsRef(ws, num, n, s);
    case Open(_) => TopIsRef(ws, num, n, s); OpenTracks(ws, num, n, s);
    case Close(id) =>
      var i := FrameIndex(s.calls, id);
      if i < 0 {
        MissedClose(ws, num, n, s, id);
      } else {
        HitCloseTracks(ws, num, n, s, i);
        assert OpenUnder(ws, OpenIdxs(ws, n)[i], n, id);
      }
  }

  // ---------------------------------------------------------------------------
  // Main results
  // ---------------------------------------------------------------------------

  lemma {:induction false} AfterTracks(ws: seq<WireEvent>, n: nat)
    requires n <= |ws| && NoOverlap(ws)
    ensures Tracks(ws, Numbers(ws), n, After(Fresh, ws[..n]))
  {
    if n > 0 {
      AfterTracks(ws, n - 1);
      assert ws[..n][..n - 1] == ws[..n - 1];
      StepTracks(ws, Numbers(ws), n - 1, After(Fresh, ws[..n - 1]));
    }
  }

  /** Every event of a run is stamped as the reference meaning demands, whatever the
      interleaving of opens, leaves and closes. */
  lemma {:induction false} StampedAsMeant(ws: seq<WireEvent>, i: nat)
    requires i < |ws| && NoOverlap(ws)
    ensures OutputIs(ws, i, OutputAt(Fresh, ws, i))
  {
    AfterTracks(ws, i);
    StepTracks(ws, Numbers(ws), i, After(Fresh, ws[..i]));
  }

  ghost predicate StackMatches(s: State) {
    |s.refStack| == |s.calls| && forall k :: 0 <= k < |s.calls| ==> s.refStack[k] == s.calls[k].openSeq
  }

  lemma {:induction false} PrefixIsOpenAt(ws: seq<WireEvent>, m: nat, j: nat, n: nat)
    requires n <= m <= |ws|
    ensures IsOpenAt(ws[..m], j, n) <==> IsOpenAt(ws, j, n)
  {
    if IsOpenAt(ws[..m], j, n) {
      forall k | j < k < n ensures ws[k].framing != Close(ws[j].framing.callId) { assert ws[..m][k] == ws[k]; }
    }
  }

  /** `refStack` lists the open seqs of `callMap` in insertion order after every prefix
      of the stream exactly when no open reuses the id of a frame that is still open. */
  lemma {:induction false} StackMatchesIffNoOverlap(ws: seq<WireEvent>)
    ensures NoOverlap(ws) <==> forall n :: 0 <= n <= |ws| ==> StackMatches(After(Fresh, ws[..n]))
  {
    if NoOverlap(ws) {
      forall n | 0 <= n <= |ws| ensures StackMatches(After(Fresh, ws[..n])) {
        AfterTracks(ws, n);
        var js, s := OpenIdxs(ws, n), After(Fresh, ws[..n]);
        forall k | 0 <= k < |js| ensures s.refStack[k] == s.calls[k].openSeq {
          assert TracksFrame(ws, Numbers(ws), js[k], s.calls[k], s.refStack[k]);
        }
      }
    } else {
      assert ws[..|ws|] == ws;
      var i := FirstOverlap(ws, |ws|);
      var j :| 0 <= j < i && OpenUnder(ws, j, i, ws[i].framing.callId);
      OverlapUnbalances(ws, i, j);
    }
  }

  /** The earliest open that reuses a live id. */
  lemma {:induction false} FirstOverlap(ws: seq<WireEvent>, n: nat) returns (i: nat)
    requires n <= |ws| && !NoOverlap(ws[..n])
    ensures i < n && NoOverlap(ws[..i]) && ws[i].framing.Open?
    ensures exists j: nat :: j < i && OpenUnder(ws, j, i, ws[i].framing.callId)
  {
    if !NoOverlap(ws[..n - 1]) {
      i := FirstOverlap(ws, n - 1);
    } else {
      i := n - 1;
      var u := ws[..n];
      var b, a :| 0 <= a < b < n && u[b].framing.Open? && OpenUnder(u, a, b, u[b].framing.callId);
      PrefixIsOpenAt(ws, n, a, b);
      if b < n - 1 {
        PrefixIsOpenAt(ws, n - 1, a, b);
        assert OpenUnder(ws[..n - 1], a, b, ws[..n - 1][b].framing.callId);
        assert false;
      }
      assert OpenUnder(ws, a, i, ws[i].framing.callId);
    }
  }

  lemma {:induction false} OverlapUnbalances(ws: seq<WireEvent>, i: nat, j: nat)
    requires i < |ws| && NoOverlap(ws[..i]) && ws[i].framing.Open? && OpenUnder(ws, j, i, ws[i].framing.callId)
    ensures !StackMatches(After(Fresh, ws[..i + 1]))
  {
    var u := ws[..i];
    var s := After(Fresh, u);
    assert u[..i] == u && ws[..i + 1][..i] == u;
    assert OpenUnder(u, j, i, ws[i].framing.callId) by { PrefixIsOpenAt(ws, i, j, i); }
    LiveIdHasFrame(u, s, j, ws[i].framing.callId);
    assert After(Fresh, ws[..i + 1]) == Next(s, ws[i]).0;
    OverwriteUnbalances(s, ws[i]);
  }

  lemma {:induction false} LiveIdHasFrame(u: seq<WireEvent>, s: State, j: nat, id: nat)
    requires NoOverlap(u) && s == After(Fresh, u) && OpenUnder(u, j, |u|, id)
    ensures s.active && |s.refStack| == |s.calls| && FrameIndex(s.calls, id) >= 0
  {
    assert u[..|u|] == u;
    AfterTracks(u, |u|);
    OpenIdxsMember(u, |u|, j);
    var js := OpenIdxs(u, |u|);
    var k :| 0 <= k < |js| && js[k] == j;
    assert TracksFrame(u, Numbers(u), js[k], s.calls[k], s.refStack[k]);
  }

  lemma {:induction false} OverwriteUnbalances(s: State, w: WireEvent)
    requires s.active && w.framing.Open? && |s.refStack| == |s.calls| && FrameIndex(s.calls, w.framing.callId) >= 0
    ensures !StackMatches(Next(s, w).0)
  {
  }

  /** Two opens sharing an id leave a stale parent on the stack: after both a close and
      a leaf, the leaf still names event 0 although no frame is open in `callMap`. */
  lemma {:induction false} ReusedIdLeavesStaleParent(w: WireEvent)
    ensures
      var o, c, l := w.(framing := Open(0)), w.(framing := Close(0)), w.(framing := Leaf);
      var s := After(Fresh, [o, o, c]);
      && s.calls == [] && s.refStack == [0]
      && Next(s, l).1 == Some(Stamp(l, 3, Some(0)))
  {
    var o, c := w.(framing := Open(0)), w.(framing := Close(0));
    var ws := [o, o, c];
    assert ws[..2] == [o, o] && ws[..2][..1] == [o] && [o][..0] == [];
    var s1 := After(Fresh, [o]);
    assert s1 == Next(After(Fresh, []), o).0;
    assert s1.refStack == [0] && |s1.calls| == 1;
    var s2 := After(Fresh, ws[..2]);
    assert s2 == Next(s1, o).0;
    assert s2.refStack == [0, 1] && |s2.calls| == 1 && s2.calls[0].openSeq == 1;
  }

  /** All events a run forwards: the stamped ones, then on death the synthesised closes. */
  function RunEvents(ws: seq<WireEvent>, reason: Option<string>): seq<SandboxEvent> {
    Outputs(Fresh, ws) + if reason.Some? then SynthCloses(After(Fresh, ws), reason.value) else []
  }

  /** One call numbers the event it returns with the counter, and only then advances it. */
  lemma {:induction false} NextNumbers(s: State, w: WireEvent)
    requires s.active
    ensures Next(s, w).0.active
    ensures Next(s, w).1.Some? ==> Next(s, w).1.value.seqNo == s.seqNo && Next(s, w).0.seqNo == s.seqNo + 1
    ensures Next(s, w).1.None? ==> Next(s, w).0.seqNo == s.seqNo
  {
  }

  lemma {:induction false} OutputsNumbered(ws: seq<WireEvent>)
    ensures After(Fresh, ws).active && |Outputs(Fresh, ws)| == After(Fresh, ws).seqNo
    ensures forall k :: 0 <= k < |Outputs(Fresh, ws)| ==> Outputs(Fresh, ws)[k].seqNo == k
  {
    if ws != [] {
      var n := |ws| - 1;
      OutputsNumbered(ws[..n]);
      NextNumbers(After(Fresh, ws[..n]), ws[n]);
    }
  }

  /** Sequence numbers of a run are 0, 1, 2, ... without gap, synthesised closes
      included, for every stream (ids may be reused, closes may be unmatched). */
  lemma {:induction false} RunEventsNumbered(ws: seq<WireEvent>, reason: Option<string>)
    ensures forall k :: 0 <= k < |RunEvents(ws, reason)| ==> RunEvents(ws, reason)[k].seqNo == k
  {
    OutputsNumbered(ws);
    if reason.Some? {
      var s := After(Fresh, ws);
      forall k | 0 <= k < |s.calls| ensures SynthCloses(s, reason.value)[k].seqNo == s.seqNo + k {
        SynthEntry(s, reason.value, k);
      }
    }
  }

  /** Event `i` is the accepted close of the frame opened by event `j`. */
  ghost predicate ClosedBy(ws: seq<WireEvent>, j: nat, i: nat) {
    j < i < |ws| && ws[i].framing.Close? && OpenUnder(ws, j, i, ws[i].framing.callId)
  }

  ghost predicate SynthFor(ws: seq<WireEvent>, reason: string, j: nat, k: nat) {
    j < |ws| && k < |After(Fresh, ws).calls| && SynthCloses(After(Fresh, ws), reason)[k].ref == Some(SeqAt(ws, j))
  }

  /** The `k`-th synthesised close carries the frame's name, its error kind, the reason and
      the time of the last event of the stream. */
  ghost predicate Resembles(ws: seq<WireEvent>, reason: string, j: nat, k: nat)
    requires SynthFor(ws, reason, j, k)
  {
    var e, last := SynthCloses(After(Fresh, ws), reason)[k], ws[|ws| - 1];
    && e.name == ws[j].name && e.kind == Prefix(ws[j].kind) + ".error"
    && e.error == Some(reason) && e.input.None? && e.output.None?
    && e.at == last.at && e.ts == last.ts
  }

  lemma {:induction false} LastSeen(ws: seq<WireEvent>)
    requires ws != []
    ensures After(Fresh, ws).lastAt == ws[|ws| - 1].at && After(Fresh, ws).lastTs == ws[|ws| - 1].ts
  {
    OutputsNumbered(ws[..|ws| - 1]);
  }

  lemma {:induction false} NotOpenMeansClosed(ws: seq<WireEvent>, j: nat)
    requires j < |ws| && ws[j].framing.Open? && !IsOpenAt(ws, j, |ws|)
    ensures exists i :: ClosedBy(ws, j, i)
  {
    var n := j + 1;
    while IsOpenAt(ws, j, n)
      invariant j < n <= |ws|
      invariant n > j + 1 ==> IsOpenAt(ws, j, n - 1)
      decreases |ws| - n
    {
      n := n + 1;
    }
    assert ClosedBy(ws, j, n - 1);
  }

  lemma {:induction false} FinalTracks(ws: seq<WireEvent>)
    requires NoOverlap(ws)
    ensures Tracks(ws, Numbers(ws), |ws|, After(Fresh, ws))
  {
    AfterTracks(ws, |ws|);
    assert ws[..|ws|] == ws;
  }

  /** The `k`-th synthesised close belongs to the open frame at the mirrored position. */
  lemma {:induction false} SynthAt(ws: seq<WireEvent>, num: seq<nat>, js: seq<nat>, s: State, reason: string, k: nat)
    requires TracksFrames(ws, num, js, s.calls, s.refStack) && k < |js|
    ensures var j, e := js[|js| - 1 - k], SynthCloses(s, reason)[k];
      && j < |ws| && j < |num| && ws[j].framing.Open? && e.ref == Some(num[j])
      && e.name == ws[j].name && e.kind == SynthCloseKind(ws[j].kind) && e.error == Some(reason)
      && e.input.None? && e.output.None? && e.at == s.lastAt && e.ts == s.lastTs
  {
    var a := |js| - 1 - k;
    assert TracksFrame(ws, num, js[a], s.calls[a], s.refStack[a]);
    SynthEntry(s, reason, k);
  }

  lemma {:induction false} SameSeqSameEvent(ws: seq<WireEvent>, i: nat, j: nat)
    requires i < |ws| && j < |ws| && Accepted(ws, i) && Accepted(ws, j) && SeqAt(ws, i) == SeqAt(ws, j)
    ensures i == j
  {
    if i < j { SeqAtMonotone(ws, i, j); } else { SeqAtMonotone(ws, j, i); }
  }

  lemma {:induction false} SynthForIs(ws: seq<WireEvent>, reason: string, j: nat, k: nat)
    requires NoOverlap(ws) && j < |ws| && ws[j].framing.Open? && SynthFor(ws, reason, j, k)
    ensures var js := OpenIdxs(ws, |ws|); |js| == |After(Fresh, ws).calls| && js[|js| - 1 - k] == j
  {
    var js, s := OpenIdxs(ws, |ws|), After(Fresh, ws);
    assert TracksFrames(ws, Numbers(ws), js, s.calls, s.refStack) by { FinalTracks(ws); }
    var j' := js[|js| - 1 - k];
    assert j' < |ws| && ws[j'].framing.Open? && SeqAt(ws, j') == SeqAt(ws, j) by {
      SynthAt(ws, Numbers(ws), js, s, reason, k);
    }
    SameSeqSameEvent(ws, j, j');
  }

  lemma {:induction false} OpenFrameIsSynthesised(ws: seq<WireEvent>, reason: string, j: nat) returns (k: nat)
    requires NoOverlap(ws) && IsOpenAt(ws, j, |ws|)
    ensures SynthFor(ws, reason, j, k) && Resembles(ws, reason, j, k)
  {
    FinalTracks(ws);
    var js := OpenIdxs(ws, |ws|);
    OpenIdxsMember(ws, |ws|, j);
    var a :| 0 <= a < |js| && js[a] == j;
    k := |js| - 1 - a;
    LastSeen(ws);
    SynthAt(ws, Numbers(ws), OpenIdxs(ws, |ws|), After(Fresh, ws), reason, k);
  }

  /** Frame `j` has exactly one close: its own accepted close event, or else exactly one
      synthesised close carrying its name and error kind. */
  ghost predicate ClosedOnce(ws: seq<WireEvent>, reason: string, j: nat)
    requires j < |ws|
  {
    && (IsOpenAt(ws, j, |ws|) ==> exists k: nat :: SynthFor(ws, reason, j, k) && Resembles(ws, reason, j, k))
    && (!IsOpenAt(ws, j, |ws|) ==> exists i: nat :: ClosedBy(ws, j, i))
    && (forall i: nat, k: nat :: ClosedBy(ws, j, i) ==> !SynthFor(ws, reason, j, k))
    && (forall i: nat, i': nat :: ClosedBy(ws, j, i) && ClosedBy(ws, j, i') ==> i == i')
    && (forall k: nat, k': nat :: SynthFor(ws, reason, j, k) && SynthFor(ws, reason, j, k') ==> k == k')
  }

  /** After a death every opened frame is closed exactly once. */
  lemma {:induction false} EveryFrameClosedOnce(ws: seq<WireEvent>, reason: string, j: nat)
    requires NoOverlap(ws) && j < |ws| && ws[j].framing.Open?
    ensures ClosedOnce(ws, reason, j)
  {
    if IsOpenAt(ws, j, |ws|) {
      var k := OpenFrameIsSynthesised(ws, reason, j);
    } else {
      NotOpenMeansClosed(ws, j);
    }
    OpenIdxsMember(ws, |ws|, j);
    OpenIdxsIncreasing(ws, |ws|);
    forall k: nat | SynthFor(ws, reason, j, k) ensures IsOpenAt(ws, j, |ws|) {
      SynthForIs(ws, reason, j, k);
    }
    forall k: nat, k': nat | SynthFor(ws, reason, j, k) && SynthFor(ws, reason, j, k') ensures k == k' {
      SynthForIs(ws, reason, j, k);
      SynthForIs(ws, reason, j, k');
    }
  }

  /** The synthesised closes come newest frame first. */
  lemma {:induction false} ClosesNewestFirst(ws: seq<WireEvent>, reason: string, j: nat, j': nat, k: nat, k': nat)
    requires NoOverlap(ws) && j < |ws| && j' < |ws| && ws[j].framing.Open? && ws[j'].framing.Open?
    requires SynthFor(ws, reason, j, k) && SynthFor(ws, reason, j', k')
    ensures k < k' <==> j' < j
  {
    SynthForIs(ws, reason, j, k);
    SynthForIs(ws, reason, j', k');
    OpenIdxsIncreasing(ws, |ws|);
  }

  /** The synthesised close of the oldest frame still open is the last event of the run. */
  lemma {:induction false} OldestFrameClosesLast(ws: seq<WireEvent>, reason: string, j: nat)
    requires NoOverlap(ws) && IsOpenAt(ws, j, |ws|) && forall k: nat :: k < j ==> !IsOpenAt(ws, k, |ws|)
    ensures var r := RunEvents(ws, Some(reason));
      r != [] && r[|r| - 1].kind == SynthCloseKind(ws[j].kind) && r[|r| - 1].name == ws[j].name
      && r[|r| - 1].ref == Some(SeqAt(ws, j)) && r[|r| - 1].error == Some(reason)
  {
    var js, s := OpenIdxs(ws, |ws|), After(Fresh, ws);
    assert |js| > 0 && js[0] == j by { OldestIsFirst(ws, j); }
    assert TracksFrames(ws, Numbers(ws), js, s.calls, s.refStack) by { FinalTracks(ws); }
    SynthAt(ws, Numbers(ws), js, s, reason, |js| - 1);
    var synth := SynthCloses(s, reason);
    assert RunEvents(ws, Some(reason)) == Outputs(Fresh, ws) + synth;
  }

  lemma {:induction false} OldestIsFirst(ws: seq<WireEvent>, j: nat)
    requires IsOpenAt(ws, j, |ws|) && forall k: nat :: k < j ==> !IsOpenAt(ws, k, |ws|)
    ensures var js := OpenIdxs(ws, |ws|); |js| > 0 && js[0] == j
  {
    var js := OpenIdxs(ws, |ws|);
    OpenIdxsIncreasing(ws, |ws|);
    OpenIdxsMember(ws, |ws|, j);
    var a :| 0 <= a < |js| && js[a] == j;
    assert js[0] <= js[a] && IsOpenAt(ws, js[0], |ws|);
  }
}
