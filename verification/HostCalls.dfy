/** packages/sandbox/src/worker.ts (callHost, resolveHostCall, rejectPendingHostCalls) and
    the main-side servicing in packages/sandbox/src/sandbox.ts: requests and responses
    cross in both directions, handlers finish in any order, runs end in between.

    `calls` remembers every call ever issued, in order, with the run it was issued in and
    every settlement it received; `replies` remembers what each handler answered. */
module HostCalls {
  import opened Basics

  datatype Response = Response(id: nat, ok: bool, value: string)

  datatype Settlement = Answered(ok: bool, value: string) | Abandoned

  /** A promise created by `callHost`. */
  datatype Call = Call(run: nat, settlements: seq<Settlement>)

  /** Worker side: the id counter and the pending map (id to promise). */
  datatype Worker = Worker(hostCallSeq: nat, pending: map<nat, nat>, calls: seq<Call>, run: nat)

  /** Both sides and what travels between them. Messages may overtake one another, which
      includes the first-in-first-out order of the real port. */
  datatype Net = Net(w: Worker, requests: set<nat>, handling: set<nat>, responses: set<Response>,
                     replies: map<nat, Response>, disposed: bool)

  const Boot := Net(Worker(0, map[], [], 0), {}, {}, {}, map[], false)

  datatype Act =
    | BeginRun
    | CallHost
    | MainTakes(id: nat)
    | HandlerSettles(id: nat, ok: bool, value: string)
    | Deliver(r: Response)
    | EndRun
    | Dispose

  function SettleCall(calls: seq<Call>, c: nat, s: Settlement): seq<Call> {
    if c < |calls| then calls[c := calls[c].(settlements := calls[c].settlements + [s])] else calls
  }

  function Resolve(w: Worker, r: Response): Worker {
    if r.id !in w.pending then w
    else w.(pending := w.pending - {r.id}, calls := SettleCall(w.calls, w.pending[r.id], Answered(r.ok, r.value)))
  }

  /** Every pending promise is rejected and the map is cleared. */
  function RejectPending(w: Worker): Worker {
    w.(pending := map[],
       calls := seq(|w.calls|, c requires 0 <= c < |w.calls| =>
         if c in w.pending.Values then w.calls[c].(settlements := w.calls[c].settlements + [Abandoned]) else w.calls[c]))
  }

  function Step(n: Net, a: Act): Net {
    match a
    case BeginRun => n.(w := n.w.(run := n.w.run + 1))
    case CallHost =>
      var id := n.w.hostCallSeq;
      n.(w := n.w.(hostCallSeq := id + 1, pending := n.w.pending[id := |n.w.calls|],
                   calls := n.w.calls + [Call(n.w.run, [])]),
         requests := n.requests + {id})
    case MainTakes(id) =>
      if id in n.requests then n.(requests := n.requests - {id}, handling := n.handling + {id}) else n
    case HandlerSettles(id, ok, v) =>
      if id !in n.handling then n
      else
        var r := Response(id, ok, v);
        n.(handling := n.handling - {id}, replies := n.replies[id := r],
           responses := if n.disposed then n.responses else n.responses + {r})
    case Deliver(r) => if r in n.responses then n.(responses := n.responses - {r}, w := Resolve(n.w, r)) else n
    case EndRun => n.(w := RejectPending(n.w))
    case Dispose => n.(disposed := true)
  }

  function Run(acts: seq<Act>): Net {
    if acts == [] then Boot else Step(Run(acts[..|acts| - 1]), acts[|acts| - 1])
  }

  /** The worker's channel state, updated in place. */
  class Channel {
    var hostCallSeq: nat
    var pendingHostCalls: map<nat, nat>
    var calls: seq<Call>
    var run: nat

    function Abs(): Worker reads this { Worker(hostCallSeq, pendingHostCalls, calls, run) }

    constructor ()
      ensures Abs() == Boot.w
    {
      hostCallSeq, pendingHostCalls, calls, run := 0, map[], [], 0;
    }

    /** The id is the counter, which is never reset. */
    method PostHostCall() returns (id: nat)
      modifies this
      ensures id == old(hostCallSeq) && Abs() == Step(Boot.(w := old(Abs())), CallHost).w
    {
      id := hostCallSeq;
      hostCallSeq := hostCallSeq + 1;
      pendingHostCalls := pendingHostCalls[id := |calls|];
      calls := calls + [Call(run, [])];
    }

    method ResolveHostCall(r: Response)
      modifies this
      ensures Abs() == Resolve(old(Abs()), r)
      ensures old(r.id in pendingHostCalls && pendingHostCalls[r.id] < |calls|) ==>
        var c := old(pendingHostCalls)[r.id];
        |calls| == |old(calls)| && calls[c].settlements == old(calls)[c].settlements + [Answered(r.ok, r.value)]
    {
      if r.id !in pendingHostCalls { return; }
      var c := pendingHostCalls[r.id];
      pendingHostCalls := pendingHostCalls - {r.id};
      if c < |calls| {
        calls := calls[c := calls[c].(settlements := calls[c].settlements + [Answered(r.ok, r.value)])];
      }
    }

    method RejectPendingHostCalls()
      modifies this
      ensures Abs() == RejectPending(old(Abs()))
    {
      ghost var goal := RejectPending(Abs()).calls;
      var todo := pendingHostCalls.Values;
      while todo != {}
        invariant todo <= pendingHostCalls.Values && pendingHostCalls == old(pendingHostCalls)
        invariant hostCallSeq == old(hostCallSeq) && run == old(run) && |calls| == |old(calls)| == |goal|
        invariant forall c :: 0 <= c < |calls| ==> calls[c] == if c in todo then old(calls)[c] else goal[c]
        decreases |todo|
      {
        var c :| c in todo;
        todo := todo - {c};
        if c < |calls| {
          calls := calls[c := calls[c].(settlements := calls[c].settlements + [Abandoned])];
        }
      }
      pendingHostCalls := map[];
    }
  }

  // ---------------------------------------------------------------------------
  // Invariant
  // ---------------------------------------------------------------------------

  /** Call `c` has id `c`; it is pending exactly while it is unsettled; its one settlement
      is the run-end rejection or the answer its own handler gave. */
  ghost predicate CallOk(n: Net, c: nat)
    requires c < |n.w.calls|
  {
    var ss := n.w.calls[c].settlements;
    && |ss| <= 1
    && (c in n.w.pending <==> ss == [])
    && (ss != [] && ss[0].Answered? ==> c in n.replies && n.replies[c] == Response(c, ss[0].ok, ss[0].value))
    && n.w.calls[c].run <= n.w.run
  }

  ghost predicate Inv(n: Net) {
    && n.w.hostCallSeq == |n.w.calls|
    && (forall c :: 0 <= c < |n.w.calls| ==> CallOk(n, c))
    && (forall id :: id in n.w.pending ==> id < |n.w.calls| && n.w.pending[id] == id)
    && (forall id :: id in n.requests || id in n.handling ==> id < |n.w.calls|)
    && n.requests !! n.handling
    && (forall id :: id in n.replies ==> n.replies[id].id == id && id !in n.requests && id !in n.handling && id < |n.w.calls|)
    && (forall r :: r in n.responses ==> r.id in n.replies && n.replies[r.id] == r)
  }

  lemma {:induction false} CallKeepsInv(n: Net)
    requires Inv(n)
    ensures Inv(Step(n, CallHost))
  {
    var n' := Step(n, CallHost);
    forall c | 0 <= c < |n'.w.calls| ensures CallOk(n', c) {
      if c < |n.w.calls| { assert CallOk(n, c); }
    }
  }

  lemma {:induction false} DeliverKeepsInv(n: Net, r: Response)
    requires Inv(n) && r in n.responses
    ensures Inv(Step(n, Deliver(r)))
  {
    var n' := Step(n, Deliver(r));
    forall c | 0 <= c < |n'.w.calls| ensures CallOk(n', c) { assert CallOk(n, c); }
  }

  lemma {:induction false} EndKeepsInv(n: Net)
    requires Inv(n)
    ensures Inv(Step(n, EndRun))
    ensures forall c :: 0 <= c < |n.w.calls| ==> |Step(n, EndRun).w.calls[c].settlements| == 1
  {
    var n' := Step(n, EndRun);
    forall c | 0 <= c < |n'.w.calls| ensures CallOk(n', c) && |n'.w.calls[c].settlements| == 1 {
      assert CallOk(n, c);
      if c in n.w.pending { assert n.w.pending[c] == c; }
    }
  }

  lemma {:induction false} OtherKeepsInv(n: Net, a: Act)
    requires Inv(n) && (a.BeginRun? || a.MainTakes? || a.HandlerSettles? || a.Dispose?)
    ensures Inv(Step(n, a))
  {
    var n' := Step(n, a);
    forall c | 0 <= c < |n'.w.calls| ensures CallOk(n', c) { assert CallOk(n, c); }
  }

  lemma {:induction false} RunKeepsInv(acts: seq<Act>)
    ensures Inv(Run(acts))
  {
    if acts != [] {
      var n, a := Run(acts[..|acts| - 1]), acts[|acts| - 1];
      RunKeepsInv(acts[..|acts| - 1]);
      match a
      case CallHost => CallKeepsInv(n);
      case Deliver(r) => if r in n.responses { DeliverKeepsInv(n, r); }
      case EndRun => EndKeepsInv(n);
      case _ => OtherKeepsInv(n, a);
    }
  }

  // ---------------------------------------------------------------------------
  // The life of one call, read off the acts
  // ---------------------------------------------------------------------------

  /** How many calls were issued. */
  function Issued(acts: seq<Act>): nat {
    if acts == [] then 0 else Issued(acts[..|acts| - 1]) + if acts[|acts| - 1].CallHost? then 1 else 0
  }

  function Disposed(acts: seq<Act>): bool {
    acts != [] && (Disposed(acts[..|acts| - 1]) || acts[|acts| - 1].Dispose?)
  }

  /** The main side took the request of call `c` off the wire. */
  function Taken(acts: seq<Act>, c: nat): bool {
    if acts == [] then false
    else
      var before, a := acts[..|acts| - 1], acts[|acts| - 1];
      Taken(before, c) || (a == MainTakes(c) && c < Issued(before))
  }

  /** What the handler of call `c` said first. */
  function Handled(acts: seq<Act>, c: nat): Option<Response> {
    if acts == [] then None
    else
      var before, a := acts[..|acts| - 1], acts[|acts| - 1];
      if Handled(before, c).None? && a.HandlerSettles? && a.id == c && Taken(before, c) then Some(Response(c, a.ok, a.value))
      else Handled(before, c)
  }

  /** That answer, if it was posted: a disposed sandbox posts nothing. */
  function Posted(acts: seq<Act>, c: nat): Option<Response> {
    if acts == [] then None
    else
      var before := acts[..|acts| - 1];
      if Handled(before, c).None? && !Disposed(before) then Handled(acts, c) else Posted(before, c)
  }

  /** How call `c` ended: with the first of its posted answer's delivery and a run end. */
  function Ending(acts: seq<Act>, c: nat): Option<Settlement> {
    if acts == [] then None
    else
      var before, a := acts[..|acts| - 1], acts[|acts| - 1];
      if Ending(before, c).Some? || c >= Issued(before) then Ending(before, c)
      else if a.EndRun? then Some(Abandoned)
      else if a.Deliver? && Posted(before, c) == Some(a.r) then Some(Answered(a.r.ok, a.r.value))
      else None
  }

  /** A response carries the id of the call it answers. */
  lemma {:induction false} PostedId(acts: seq<Act>, c: nat)
    ensures Handled(acts, c).Some? ==> Handled(acts, c).value.id == c && Taken(acts, c)
    ensures Posted(acts, c).Some? ==> Posted(acts, c) == Handled(acts, c)
    ensures Taken(acts, c) || Ending(acts, c).Some? ==> c < Issued(acts)
  {
    if acts != [] { PostedId(acts[..|acts| - 1], c); }
  }

  /** Both sides know of call `c` what the acts say. */
  ghost predicate Lives(acts: seq<Act>, n: Net, c: nat) {
    && |n.w.calls| == Issued(acts) && n.disposed == Disposed(acts)
    && (c in n.requests <==> c < Issued(acts) && !Taken(acts, c))
    && (c in n.handling <==> Taken(acts, c) && Handled(acts, c).None?)
    && (forall r :: r in n.responses && r.id == c ==> Posted(acts, c) == Some(r))
    && (Posted(acts, c).Some? && Ending(acts, c).None? ==> Posted(acts, c).value in n.responses)
    && (c < |n.w.calls| ==> n.w.calls[c].settlements == Only(Ending(acts, c)))
  }

  function Only(s: Option<Settlement>): seq<Settlement> { if s.Some? then [s.value] else [] }

  lemma {:induction false} CallLives(acts: seq<Act>, c: nat)
    ensures Lives(acts, Run(acts), c)
  {
    if acts != [] {
      var before, a := acts[..|acts| - 1], acts[|acts| - 1];
      CallLives(before, c);
      RunKeepsInv(before);
      PostedId(before, c);
      if a.Deliver? { DeliverLives(acts, c); }
      else if a.EndRun? { EndLives(acts, c); }
      else if a.HandlerSettles? { ReplyLives(acts, c); }
      else { OtherLives(acts, c); }
    }
  }

  lemma {:induction false} DeliverLives(acts: seq<Act>, c: nat)
    requires acts != [] && acts[|acts| - 1].Deliver?
    requires Inv(Run(acts[..|acts| - 1])) && Lives(acts[..|acts| - 1], Run(acts[..|acts| - 1]), c)
    ensures Lives(acts, Run(acts), c)
  {
    var n := Run(acts[..|acts| - 1]);
    PostedId(acts[..|acts| - 1], c);
    if c < |n.w.calls| { assert CallOk(n, c); }
  }

  lemma {:induction false} EndLives(acts: seq<Act>, c: nat)
    requires acts != [] && acts[|acts| - 1].EndRun?
    requires Inv(Run(acts[..|acts| - 1])) && Lives(acts[..|acts| - 1], Run(acts[..|acts| - 1]), c)
    ensures Lives(acts, Run(acts), c)
  {
    var n := Run(acts[..|acts| - 1]);
    PostedId(acts[..|acts| - 1], c);
    if c < |n.w.calls| { assert CallOk(n, c); }
  }

  lemma {:induction false} ReplyLives(acts: seq<Act>, c: nat)
    requires acts != [] && acts[|acts| - 1].HandlerSettles?
    requires Inv(Run(acts[..|acts| - 1])) && Lives(acts[..|acts| - 1], Run(acts[..|acts| - 1]), c)
    ensures Lives(acts, Run(acts), c)
  {
    PostedId(acts[..|acts| - 1], c);
  }

  lemma {:induction false} OtherLives(acts: seq<Act>, c: nat)
    requires acts != [] && !acts[|acts| - 1].Deliver? && !acts[|acts| - 1].EndRun? && !acts[|acts| - 1].HandlerSettles?
    requires Inv(Run(acts[..|acts| - 1])) && Lives(acts[..|acts| - 1], Run(acts[..|acts| - 1]), c)
    ensures Lives(acts, Run(acts), c)
  {
    PostedId(acts[..|acts| - 1], c);
  }

  // ---------------------------------------------------------------------------
  // Main results
  // ---------------------------------------------------------------------------

  /** Over all runs and all response orders: a call is settled at most once, and an
      answered call got exactly what the handler of its own id answered. */
  lemma {:induction false} SettledOnceByOwnAnswer(acts: seq<Act>, c: nat)
    requires c < |Run(acts).w.calls|
    ensures var n := Run(acts);
      var ss := n.w.calls[c].settlements;
      && |ss| <= 1
      && (ss != [] && ss[0].Answered? ==> c in n.replies && n.replies[c] == Response(c, ss[0].ok, ss[0].value))
  {
    RunKeepsInv(acts);
    assert CallOk(Run(acts), c);
  }

  /** When a run ends, every call issued so far is settled and nothing is pending. */
  lemma {:induction false} RunEndSettlesAll(acts: seq<Act>, c: nat)
    requires c < |Run(acts).w.calls|
    ensures Run(acts + [EndRun]).w.pending == map[]
    ensures |Run(acts + [EndRun]).w.calls| == |Run(acts).w.calls| && |Run(acts + [EndRun]).w.calls[c].settlements| == 1
  {
    assert (acts + [EndRun])[..|acts|] == acts;
    RunKeepsInv(acts);
    EndKeepsInv(Run(acts));
  }

  /** Delivering a response can settle only the call that posted its id. In particular
      a late response to a call of an ended run settles nothing at all: no call of a later
      run, and not its own call a second time. */
  lemma {:induction false} ResponseTouchesOnlyItsCall(acts: seq<Act>, r: Response, c: nat)
    requires c < |Run(acts).w.calls|
    ensures var n, n' := Run(acts), Step(Run(acts), Deliver(r));
      && |n'.w.calls| == |n.w.calls|
      && (n'.w.calls[c] != n.w.calls[c] ==> c == r.id && n.w.calls[c].settlements == [])
  {
    RunKeepsInv(acts);
    var n := Run(acts);
    assert CallOk(n, c);
    if r in n.responses && r.id in n.w.pending { assert CallOk(n, r.id); }
  }

  /** A response that is on the way to an unsettled call settles it with what it carries. */
  lemma {:induction false} DeliverySettles(acts: seq<Act>, r: Response)
    requires r in Run(acts).responses
    ensures r.id < |Run(acts).w.calls| == |Run(acts + [Deliver(r)]).w.calls|
    ensures Run(acts).w.calls[r.id].settlements == [] ==>
      Run(acts + [Deliver(r)]).w.calls[r.id].settlements == [Answered(r.ok, r.value)]
  {
    assert (acts + [Deliver(r)])[..|acts|] == acts;
    RunKeepsInv(acts);
    assert CallOk(Run(acts), r.id);
  }

  /** A run ended after call `c` was issued and before act `l`. */
  ghost predicate EndedBefore(acts: seq<Act>, l: nat, c: nat) {
    exists e: nat :: EndsAt(acts, l, e, c)
  }

  ghost predicate EndsAt(acts: seq<Act>, l: nat, e: nat, c: nat) {
    e < l && e < |acts| && acts[e].EndRun? && c < Issued(acts[..e])
  }

  /** Act `l` delivers the answer of the handler of its own call, as posted before. */
  ghost predicate Arrives(acts: seq<Act>, l: nat, r: Response) {
    l < |acts| && acts[l] == Deliver(r) && Posted(acts[..l], r.id) == Some(r)
  }

  ghost predicate InTime(acts: seq<Act>, l: nat, r: Response) { Arrives(acts, l, r) && !EndedBefore(acts, l, r.id) }

  ghost predicate EverInTime(acts: seq<Act>, r: Response) { exists l: nat :: InTime(acts, l, r) }

  lemma {:induction false} PrefixReads(acts: seq<Act>, l: nat, r: Response)
    requires acts != [] && l < |acts|
    ensures EndedBefore(acts, l, r.id) <==> EndedBefore(acts[..|acts| - 1], l, r.id)
    ensures l < |acts| - 1 ==> (InTime(acts, l, r) <==> InTime(acts[..|acts| - 1], l, r))
  {
    var n := |acts| - 1;
    forall e: nat | e < n ensures EndsAt(acts, l, e, r.id) <==> EndsAt(acts[..n], l, e, r.id) {
      assert acts[..n][..e] == acts[..e];
    }
    if e: nat :| EndsAt(acts, l, e, r.id) { assert EndsAt(acts[..n], l, e, r.id); }
    if e: nat :| EndsAt(acts[..n], l, e, r.id) { assert EndsAt(acts, l, e, r.id); }
    if l < n { assert acts[..n][..l] == acts[..l]; }
  }

  lemma {:induction false} EndingBacked(acts: seq<Act>, c: nat)
    ensures Ending(acts, c).None? ==> !EndedBefore(acts, |acts|, c)
    ensures Ending(acts, c) == Some(Abandoned) ==> EndedBefore(acts, |acts|, c)
    ensures Ending(acts, c).Some? && Ending(acts, c).value.Answered? ==>
      Posted(acts, c) == Some(Response(c, Ending(acts, c).value.ok, Ending(acts, c).value.value))
  {
    if acts != [] {
      var n := |acts| - 1;
      EndingBacked(acts[..n], c);
      PostedId(acts[..n], c);
      EndedSnoc(acts, c);
    }
  }

  lemma {:induction false} EndedSnoc(acts: seq<Act>, c: nat)
    requires acts != []
    ensures var n := |acts| - 1;
      EndedBefore(acts, |acts|, c) <==> EndedBefore(acts[..n], n, c) || (acts[n].EndRun? && c < Issued(acts[..n]))
  {
    var n := |acts| - 1;
    forall e: nat | e < n ensures EndsAt(acts, |acts|, e, c) <==> EndsAt(acts[..n], n, e, c) {
      assert acts[..n][..e] == acts[..e];
    }
    if e: nat :| EndsAt(acts, |acts|, e, c) { assert e < n ==> EndsAt(acts[..n], n, e, c); }
    if e: nat :| EndsAt(acts[..n], n, e, c) { assert EndsAt(acts, |acts|, e, c); }
    if acts[n].EndRun? && c < Issued(acts[..n]) { assert EndsAt(acts, |acts|, n, c); }
  }

  lemma {:induction false} SameResponse(r: Response, q: Response)
    ensures r == q <==> r.id == q.id && r.ok == q.ok && r.value == q.value
  {
  }

  lemma {:induction false} AnsweredInTime(acts: seq<Act>, r: Response)
    ensures Ending(acts, r.id) == Some(Answered(r.ok, r.value)) <==> EverInTime(acts, r)
  {
    if acts != [] {
      var n := |acts| - 1;
      AnsweredInTime(acts[..n], r);
      EndingBacked(acts[..n], r.id);
      PostedId(acts[..n], r.id);
      PrefixReads(acts, n, r);
      if EverInTime(acts[..n], r) {
        var l: nat :| InTime(acts[..n], l, r);
        PrefixReads(acts, l, r);
      }
      if l: nat :| InTime(acts, l, r) && l < n { PrefixReads(acts, l, r); assert InTime(acts[..n], l, r); }
      assert EverInTime(acts, r) <==> EverInTime(acts[..n], r) || InTime(acts, n, r);
      var p, e := Posted(acts[..n], r.id), Ending(acts[..n], r.id);
      if p.Some? { SameResponse(p.value, r); }
      assert e.Some? && e.value.Answered? ==> e.value == Answered(e.value.ok, e.value.value);
      assert e.None? || e.value == Abandoned || e.value.Answered?;
    }
  }

  /** Over all histories a call is answered with `ok` and `value` exactly when its handler's
      first reply, made before any disposal, said so and reached the worker before a run
      ended; it is abandoned exactly when a run ended and no such answer had come; otherwise
      it is unsettled. All of this is read off the acts. */
  lemma {:induction false} AnsweredIffDelivered(acts: seq<Act>, r: Response)
    requires r.id < Issued(acts)
    ensures |Run(acts).w.calls| == Issued(acts)
    ensures var ss := Run(acts).w.calls[r.id].settlements;
      && (ss == [Answered(r.ok, r.value)] <==> EverInTime(acts, r))
      && (ss == [] ==> !EndedBefore(acts, |acts|, r.id))
      && (ss == [Abandoned] ==> EndedBefore(acts, |acts|, r.id))
      && |ss| <= 1
  {
    CallLives(acts, r.id);
    AnsweredInTime(acts, r);
    EndingBacked(acts, r.id);
  }

  /** What is posted for a call is what a `HandlerSettles` act for it said. */
  lemma {:induction false} PostedMeans(acts: seq<Act>, r: Response)
    ensures Posted(acts, r.id) == Some(r) <==> exists m: nat :: Replies(acts, m, r)
  {
    if acts != [] {
      var n := |acts| - 1;
      PostedMeans(acts[..n], r);
      PostedId(acts[..n], r.id);
      if m: nat :| Replies(acts[..n], m, r) { assert acts[..n][..m] == acts[..m]; assert Replies(acts, m, r); }
      if m: nat :| Replies(acts, m, r) && m < n { assert acts[..n][..m] == acts[..m]; assert Replies(acts[..n], m, r); }
      assert Replies(acts, n, r) <==> acts[n] == HandlerSettles(r.id, r.ok, r.value) && FirstReply(acts[..n], r.id);
    }
  }

  /** The handler of call `c` may still reply, and its reply will be posted. */
  ghost predicate FirstReply(acts: seq<Act>, c: nat) { Taken(acts, c) && Handled(acts, c).None? && !Disposed(acts) }

  ghost predicate Replies(acts: seq<Act>, m: nat, r: Response) {
    m < |acts| && acts[m] == HandlerSettles(r.id, r.ok, r.value) && FirstReply(acts[..m], r.id)
  }
}
