/** packages/runtime/src/event-store.ts: events accumulate per invocation, a terminal
    event moves the whole accumulated list into one commit batch, a batch is inserted
    with retry, whole invocations are pruned, and shutdown drains what is left.

    Concurrency is explicit: records, insert attempts, prunes and drain steps of
    different invocations interleave freely. `batches`, `log` and `live` are history: they
    remember what was accepted, what was submitted and which submitted batches are in the
    table now. */
module EventStore {
  import opened Basics
  import opened Events

  /** A `SandboxEvent` widened with the invocation identity. `tenant` stands for owner,
      repo, workflow and workflowSha, which are always copied together. */
  datatype InvEvent = InvEvent(id: nat, base: SandboxEvent, tenant: string, dispatch: Option<string>)

  /** All events of one batch have this id. */
  datatype Batch = Batch(id: nat, events: seq<InvEvent>)

  datatype Status = Trying(attempt: nat) | Committed | Dropped

  /** What the driver reports for one insert. It may report a failure although the
      statement took effect. `pkLike` says whether the message matches the
      primary-key pattern. */
  datatype Outcome = Succeeds | Fails(pkLike: bool) | FailsAfterEffect(pkLike: bool)

  datatype Store = Store(
    acc: map<nat, seq<InvEvent>>, stopped: bool, rows: seq<InvEvent>,
    batches: seq<Batch>, status: seq<Status>, landed: seq<bool>, live: seq<nat>, log: seq<InvEvent>)

  const Empty := Store(map[], false, [], [], [], [], [], [])

  /** Kinds that close out an invocation. */
  predicate TerminalKind(kind: string) {
    kind in {"trigger.response", "trigger.error", "trigger.exception", "trigger.rejection", "system.upload"}
  }

  predicate Terminal(e: InvEvent) { TerminalKind(e.base.kind) }

  function AccOf(s: Store, id: nat): seq<InvEvent> { if id in s.acc then s.acc[id] else [] }

  // ---------------------------------------------------------------------------
  // Steps
  // ---------------------------------------------------------------------------

  /** `commitInvocation`: evict the entry and submit it as one batch. */
  function Submit(s: Store, id: nat): Store {
    if AccOf(s, id) == [] then s
    else s.(acc := s.acc - {id}, batches := s.batches + [Batch(id, s.acc[id])],
            status := s.status + [Trying(0)], landed := s.landed + [false])
  }

  function Append(s: Store, e: InvEvent): Store {
    s.(acc := s.acc[e.id := AccOf(s, e.id) + [e]], log := s.log + [e])
  }

  function Record(s: Store, e: InvEvent): Store {
    if s.stopped then s
    else if Terminal(e) then Submit(Append(s, e), e.id)
    else Append(s, e)
  }

  /** Same primary key (id, seq). */
  predicate SameKey(a: InvEvent, b: InvEvent) { a.id == b.id && a.base.seqNo == b.base.seqNo }

  predicate KeysDistinct(es: seq<InvEvent>) { forall i, j :: 0 <= i < j < |es| ==> !SameKey(es[i], es[j]) }

  predicate CanSubmit(s: Store, b: nat) { b < |s.batches| == |s.status| == |s.landed| && s.status[b].Trying? }

  /** One insert statement puts in the whole batch, or nothing. */
  function Insert(s: Store, b: nat): Store
    requires b < |s.batches| && b < |s.landed|
  {
    s.(rows := s.rows + s.batches[b].events, live := s.live + [b], landed := s.landed[b := true])
  }

  function AfterError(st: Status, pkLike: bool, maxRetries: nat): Status
    requires st.Trying?
  {
    if pkLike then Dropped else if st.attempt < maxRetries then Trying(st.attempt + 1) else Dropped
  }

  /** A clashing insert has no effect. An undisturbed driver reports the violation, which
      matches the pattern; a disturbed one reports something else. */
  function ClashPkLike(o: Outcome): bool { o.Succeeds? || o.pkLike }

  /** One iteration of the retry loop for batch `b`. */
  function Attempt(s: Store, b: nat, o: Outcome, maxRetries: nat): Store {
    if !CanSubmit(s, b) then s
    else if !KeysDistinct(s.rows + s.batches[b].events)
      then s.(status := s.status[b := AfterError(s.status[b], ClashPkLike(o), maxRetries)])
    else match o
      case Succeeds => Insert(s, b).(status := s.status[b := Committed])
      case Fails(pk) => s.(status := s.status[b := AfterError(s.status[b], pk, maxRetries)])
      case FailsAfterEffect(pk) => Insert(s, b).(status := s.status[b := AfterError(s.status[b], pk, maxRetries)])
  }

  /** The most recent event of the invocation is not older than the cutoff. */
  predicate Recent(rows: seq<InvEvent>, id: nat, cutoff: int) {
    exists i :: 0 <= i < |rows| && rows[i].id == id && rows[i].base.at >= cutoff
  }

  function KeepRows(es: seq<InvEvent>, rows: seq<InvEvent>, cutoff: int): seq<InvEvent> {
    if es == [] then []
    else
      var n := |es| - 1;
      if Recent(rows, es[n].id, cutoff) then KeepRows(es[..n], rows, cutoff) + [es[n]] else KeepRows(es[..n], rows, cutoff)
  }

  function KeepLive(live: seq<nat>, batches: seq<Batch>, rows: seq<InvEvent>, cutoff: int): seq<nat> {
    if live == [] then []
    else
      var n := |live| - 1;
      var init := KeepLive(live[..n], batches, rows, cutoff);
      if live[n] < |batches| && Recent(rows, batches[live[n]].id, cutoff) then init + [live[n]] else init
  }

  /** Delete every invocation whose newest event is older than the cutoff. */
  function Prune(s: Store, cutoff: int): Store {
    s.(rows := KeepRows(s.rows, s.rows, cutoff), live := KeepLive(s.live, s.batches, s.rows, cutoff))
  }

  /** The terminal event that shutdown adds to an unfinished invocation. */
  function Shutdown(es: seq<InvEvent>, id: nat, now: int): InvEvent
    requires es != []
  {
    var (first, last) := (es[0], es[|es| - 1]);
    InvEvent(id,
      SandboxEvent("trigger.error", last.base.seqNo + 1, None, now, last.base.ts, first.base.name,
                   None, None, Some("runtime shutting down")),
      first.tenant, None)
  }

  function DrainOne(s: Store, id: nat, now: int): Store {
    if !s.stopped || AccOf(s, id) == [] then s
    else Submit(Append(s, Shutdown(s.acc[id], id, now)), id)
  }

  datatype Act =
    | RecordAct(e: InvEvent)
    | AttemptAct(b: nat, outcome: Outcome)
    | PruneAct(cutoff: int)
    | StopAct
    | DrainAct(id: nat, now: int)

  function Step(s: Store, a: Act, maxRetries: nat): Store {
    match a
    case RecordAct(e) => Record(s, e)
    case AttemptAct(b, o) => Attempt(s, b, o, maxRetries)
    case PruneAct(c) => Prune(s, c)
    case StopAct => s.(stopped := true)
    case DrainAct(id, now) => DrainOne(s, id, now)
  }

  function Run(acts: seq<Act>, maxRetries: nat): Store {
    if acts == [] then Empty else Step(Run(acts[..|acts| - 1], maxRetries), acts[|acts| - 1], maxRetries)
  }

  /** The retry loop as a whole: outcomes are consumed until the batch is settled. */
  function AttemptAll(s: Store, b: nat, os: seq<Outcome>, maxRetries: nat): Store {
    if os == [] then s else Attempt(AttemptAll(s, b, os[..|os| - 1], maxRetries), b, os[|os| - 1], maxRetries)
  }

  lemma {:induction false} AttemptAllSnoc(s: Store, b: nat, os: seq<Outcome>, n: nat, maxRetries: nat)
    requires n < |os|
    ensures AttemptAll(s, b, os[..n + 1], maxRetries) == Attempt(AttemptAll(s, b, os[..n], maxRetries), b, os[n], maxRetries)
  {
    assert os[..n + 1][..n] == os[..n];
  }

  /** Draining the first `n` of the listed invocations, with the clock read before each. */
  function DrainTo(s: Store, ids: seq<nat>, clock: seq<int>, n: nat): Store
    requires n <= |ids| && n <= |clock|
  {
    if n == 0 then s else DrainOne(DrainTo(s, ids, clock, n - 1), ids[n - 1], clock[n - 1])
  }

  /** A key leaves the insertion-ordered map. */
  function DropKey(keys: seq<nat>, id: nat): seq<nat> {
    if keys == [] then [] else if keys[0] == id then keys[1..] else [keys[0]] + DropKey(keys[1..], id)
  }

  lemma {:induction false} DropKeyMeans(keys: seq<nat>, acc: map<nat, seq<InvEvent>>, id: nat)
    requires multiset(keys) == multiset(acc.Keys) && id in acc
    ensures multiset(DropKey(keys, id)) == multiset((acc - {id}).Keys)
  {
    DropOne(keys, id);
    assert (acc - {id}).Keys == acc.Keys - {id};
    assert multiset(acc.Keys - {id}) == multiset(acc.Keys) - multiset{id};
  }

  lemma {:induction false} DropOne(keys: seq<nat>, id: nat)
    ensures multiset(DropKey(keys, id)) == multiset(keys) - multiset{id}
  {
    if keys != [] {
      assert keys == [keys[0]] + keys[1..];
      DropOne(keys[1..], id);
    }
  }

  lemma {:induction false} AddKeyMeans(keys: seq<nat>, acc: map<nat, seq<InvEvent>>, id: nat, es: seq<InvEvent>)
    requires multiset(keys) == multiset(acc.Keys)
    ensures multiset(if id in acc then keys else keys + [id]) == multiset(acc[id := es].Keys)
  {
    assert acc[id := es].Keys == acc.Keys + {id};
  }

  /** The store object. The retry loop and the drain loop run here without interruption;
      the interleaved history is `Run` below. `keys` is the insertion order of the
      accumulator's entries. */
  class Archive {
    const maxRetries: nat
    var accumulator: map<nat, seq<InvEvent>>
    var keys: seq<nat>
    var stopped: bool
    var rows: seq<InvEvent>
    var batches: seq<Batch>
    var status: seq<Status>
    var landed: seq<bool>
    var live: seq<nat>
    var log: seq<InvEvent>

    function Abs(): Store reads this {
      Store(accumulator, stopped, rows, batches, status, landed, live, log)
    }

    ghost predicate Valid() reads this {
      multiset(keys) == multiset(accumulator.Keys) && forall id :: id in accumulator ==> accumulator[id] != []
    }

    constructor (retries: nat)
      ensures Valid() && Abs() == Empty && maxRetries == retries
    {
      maxRetries := retries;
      accumulator, keys, stopped, rows, batches, status, landed, live, log := map[], [], false, [], [], [], [], [], [];
    }

    method AppendToAccumulator(e: InvEvent)
      requires Valid()
      modifies this
      ensures Valid() && Abs() == Append(old(Abs()), e)
      ensures keys == if e.id in old(accumulator) then old(keys) else old(keys) + [e.id]
    {
      var events := if e.id in accumulator then accumulator[e.id] else [];
      AddKeyMeans(keys, accumulator, e.id, events + [e]);
      if e.id !in accumulator { keys := keys + [e.id]; }
      accumulator := accumulator[e.id := events + [e]];
      log := log + [e];
    }

    method CommitInvocation(id: nat)
      requires Valid()
      modifies this
      ensures Valid() && Abs() == Submit(old(Abs()), id)
      ensures keys == if id in old(accumulator) then DropKey(old(keys), id) else old(keys)
    {
      if id !in accumulator || accumulator[id] == [] { return; }
      var events := accumulator[id];
      DropKeyMeans(keys, accumulator, id);
      accumulator, keys := accumulator - {id}, DropKey(keys, id);
      batches, status, landed := batches + [Batch(id, events)], status + [Trying(0)], landed + [false];
    }

    method RecordEvent(e: InvEvent)
      requires Valid()
      modifies this
      ensures Valid() && Abs() == Record(old(Abs()), e)
    {
      if stopped { return; }
      AppendToAccumulator(e);
      if Terminal(e) { CommitInvocation(e.id); }
    }

    /** The loop ends with the batch settled; it reports success exactly when the last
        insert did, and uses at most `maxRetries + 1` inserts. */
    method CommitWithRetry(b: nat, outcomes: seq<Outcome>) returns (ok: bool, used: nat)
      requires CanSubmit(Abs(), b) && status[b] == Trying(0) && |outcomes| == maxRetries + 1
      modifies this
      ensures used <= |outcomes| && Abs() == AttemptAll(old(Abs()), b, outcomes[..used], maxRetries)
      ensures b < |status| && !status[b].Trying? && ok == status[b].Committed? && batches == old(batches)
      ensures ok ==> b < |batches| && exists before :: rows == before + batches[b].events
    {
      used := 0;
      while used <= maxRetries
        invariant used <= maxRetries + 1
        invariant Abs() == AttemptAll(old(Abs()), b, outcomes[..used], maxRetries)
        invariant b < |status| == |batches| == |landed| && batches == old(batches)
        invariant if used <= maxRetries then status[b] == Trying(used) else status[b] == Dropped
      {
        AttemptAllSnoc(old(Abs()), b, outcomes, used, maxRetries);
        TryOnce(b, outcomes[used]);
        used := used + 1;
        if !status[b].Trying? { return status[b].Committed?, used; }
      }
      ok := false;
    }

    /** One iteration of the loop: the insert, then the status it leaves. */
    method TryOnce(b: nat, o: Outcome)
      requires CanSubmit(Abs(), b)
      modifies this
      ensures Abs() == Attempt(old(Abs()), b, o, maxRetries)
      ensures b < |status| == |batches| == |landed| && batches == old(batches)
      ensures rows == if !o.Fails? && KeysDistinct(old(rows) + batches[b].events) then old(rows) + batches[b].events else old(rows)
      ensures status[b].Committed? <==> o.Succeeds? && KeysDistinct(old(rows) + batches[b].events)
      ensures status[b].Trying? ==> status[b].attempt == old(status[b].attempt) + 1 <= maxRetries
    {
      var clash := !KeysDistinct(rows + batches[b].events);
      if !clash && !o.Fails? {
        rows, live, landed := rows + batches[b].events, live + [b], landed[b := true];
      }
      if !clash && o.Succeeds? {
        status := status[b := Committed];
      } else if (clash && o.Succeeds?) || o.pkLike || status[b].attempt >= maxRetries {
        status := status[b := Dropped];
      } else {
        status := status[b := Trying(status[b].attempt + 1)];
      }
    }

    /** Shutdown: in insertion order every accumulated invocation gets its terminal event
        and is submitted, until the deadline passes. */
    method Drain(deadline: int, clock: seq<int>) returns (n: nat)
      requires Valid() && |clock| > |keys|
      modifies this
      ensures Valid() && n <= |old(keys)| && keys == old(keys)[n..]
      ensures Abs() == DrainTo(old(Abs()).(stopped := true), old(keys), clock, n)
      ensures n == |old(keys)| || clock[n] >= deadline
      ensures forall i :: 0 <= i < n ==> clock[i] < deadline
    {
      stopped := true;
      ghost var start := Abs();
      var order := keys;
      n := 0;
      while n < |order| && clock[n] < deadline
        invariant n <= |order| && keys == order[n..] && Valid() && stopped
        invariant Abs() == DrainTo(start, order, clock, n)
        invariant forall i :: 0 <= i < n ==> clock[i] < deadline
      {
        DrainFirst(clock[n]);
        n := n + 1;
      }
    }

    /** One turn of the drain loop. */
    method DrainFirst(now: int)
      requires Valid() && stopped && keys != []
      modifies this
      ensures Valid() && stopped && keys == old(keys)[1..] && Abs() == DrainOne(old(Abs()), old(keys)[0], now)
    {
      var id := keys[0];
      assert id in multiset(keys) && id in multiset(accumulator.Keys);
      AppendToAccumulator(Shutdown(accumulator[id], id, now));
      CommitInvocation(id);
    }
  }

  // ---------------------------------------------------------------------------
  // Reference meaning: what one invocation's accepted events must turn into
  // ---------------------------------------------------------------------------

  function Filter(log: seq<InvEvent>, id: nat): seq<InvEvent> {
    if log == [] then []
    else
      var n := |log| - 1;
      if log[n].id == id then Filter(log[..n], id) + [log[n]] else Filter(log[..n], id)
  }

  /** Events after the last terminal one. */
  function Rest(es: seq<InvEvent>): seq<InvEvent> {
    if es == [] || Terminal(es[|es| - 1]) then [] else Rest(es[..|es| - 1]) + [es[|es| - 1]]
  }

  /** The stream cut after every terminal event. */
  function Chunks(es: seq<InvEvent>): seq<seq<InvEvent>> {
    if es == [] then []
    else
      var n := |es| - 1;
      if Terminal(es[n]) then Chunks(es[..n]) + [Rest(es[..n]) + [es[n]]] else Chunks(es[..n])
  }

  function Concat(cs: seq<seq<InvEvent>>): seq<InvEvent> {
    if cs == [] then [] else Concat(cs[..|cs| - 1]) + cs[|cs| - 1]
  }

  /** The batches submitted for one invocation, in order. */
  function BatchesOf(bs: seq<Batch>, id: nat): seq<seq<InvEvent>> {
    if bs == [] then []
    else
      var n := |bs| - 1;
      if bs[n].id == id then BatchesOf(bs[..n], id) + [bs[n].events] else BatchesOf(bs[..n], id)
  }

  /** The rows of the batches that are in the table now. */
  function Rows(bs: seq<Batch>, live: seq<nat>): seq<InvEvent> {
    if live == [] then []
    else
      var n := |live| - 1;
      if live[n] < |bs| then Rows(bs, live[..n]) + bs[live[n]].events else Rows(bs, live[..n])
  }

  ghost predicate BatchOk(b: Batch) {
    b.events != [] && forall i :: 0 <= i < |b.events| ==> b.events[i].id == b.id
  }

  ghost predicate AccOk(s: Store, id: nat) {
    && AccOf(s, id) == Rest(Filter(s.log, id))
    && BatchesOf(s.batches, id) == Chunks(Filter(s.log, id))
    && (id in s.acc ==> s.acc[id] != [])
    && AllOf(AccOf(s, id), id)
  }

  predicate AllOf(es: seq<InvEvent>, id: nat) { forall i :: 0 <= i < |es| ==> es[i].id == id }

  ghost predicate LiveOk(s: Store) {
    && s.rows == Rows(s.batches, s.live) && KeysDistinct(s.rows)
    && (forall k :: 0 <= k < |s.live| ==> s.live[k] < |s.landed| && s.landed[s.live[k]])
  }

  ghost predicate Inv(s: Store, maxRetries: nat) {
    && |s.batches| == |s.status| == |s.landed|
    && (forall b :: 0 <= b < |s.batches| ==> BatchOk(s.batches[b]))
    && (forall id: nat :: AccOk(s, id))
    && LiveOk(s)
    && (forall b :: 0 <= b < |s.batches| ==> (s.status[b] == Committed ==> s.landed[b]))
    && (forall b :: 0 <= b < |s.batches| ==> (s.status[b].Trying? ==> s.status[b].attempt <= maxRetries))
  }

  // ---------------------------------------------------------------------------
  // Facts about the reference functions
  // ---------------------------------------------------------------------------

  lemma {:induction false} FilterAppend(log: seq<InvEvent>, e: InvEvent, id: nat)
    ensures Filter(log + [e], id) == if e.id == id then Filter(log, id) + [e] else Filter(log, id)
  {
    assert (log + [e])[..|log|] == log;
  }

  lemma {:induction false} RestChunksAppend(es: seq<InvEvent>, e: InvEvent)
    ensures Rest(es + [e]) == if Terminal(e) then [] else Rest(es) + [e]
    ensures Chunks(es + [e]) == if Terminal(e) then Chunks(es) + [Rest(es) + [e]] else Chunks(es)
  {
    assert (es + [e])[..|es|] == es;
  }

  lemma {:induction false} BatchesOfAppend(bs: seq<Batch>, b: Batch, id: nat)
    ensures BatchesOf(bs + [b], id) == if b.id == id then BatchesOf(bs, id) + [b.events] else BatchesOf(bs, id)
  {
    assert (bs + [b])[..|bs|] == bs;
  }

  lemma {:induction false} RowsGrow(bs: seq<Batch>, b: Batch, live: seq<nat>)
    requires forall k :: 0 <= k < |live| ==> live[k] < |bs|
    ensures Rows(bs + [b], live) == Rows(bs, live)
  {
    if live != [] { RowsGrow(bs, b, live[..|live| - 1]); }
  }

  lemma {:induction false} RowsAppend(bs: seq<Batch>, live: seq<nat>, b: nat)
    requires b < |bs|
    ensures Rows(bs, live + [b]) == Rows(bs, live) + bs[b].events
  {
    assert (live + [b])[..|live|] == live;
  }

  lemma {:induction false} ConcatSnoc(cs: seq<seq<InvEvent>>, c: seq<InvEvent>)
    ensures Concat(cs + [c]) == Concat(cs) + c
  {
    assert (cs + [c])[..|cs|] == cs;
  }

  /** Cutting a stream after its terminal events loses and duplicates nothing. */
  lemma {:induction false} ChunksPartition(es: seq<InvEvent>)
    ensures Concat(Chunks(es)) + Rest(es) == es
  {
    if es != [] {
      var u, e := es[..|es| - 1], es[|es| - 1];
      assert es == u + [e];
      ChunksPartition(u);
      PartitionSnoc(u, e);
    }
  }

  lemma {:induction false} PartitionSnoc(u: seq<InvEvent>, e: InvEvent)
    requires Concat(Chunks(u)) + Rest(u) == u
    ensures Concat(Chunks(u + [e])) + Rest(u + [e]) == u + [e]
  {
    RestChunksAppend(u, e);
    LastChunk(Chunks(u), Rest(u), u, e);
  }

  lemma {:induction false} LastChunk(cs: seq<seq<InvEvent>>, r: seq<InvEvent>, u: seq<InvEvent>, e: InvEvent)
    requires Concat(cs) + r == u
    ensures Concat(cs + [r + [e]]) + [] == u + [e] && Concat(cs) + (r + [e]) == u + [e]
  {
    ConcatSnoc(cs, r + [e]);
  }

  /** Only the last event is terminal. */
  ghost predicate EndsOnce(es: seq<InvEvent>) {
    es != [] && Terminal(es[|es| - 1]) && forall i :: 0 <= i < |es| - 1 ==> !Terminal(es[i])
  }

  lemma {:induction false} RestHasNoTerminal(es: seq<InvEvent>)
    ensures forall i :: 0 <= i < |Rest(es)| ==> !Terminal(Rest(es)[i])
    ensures |Rest(es)| <= |es|
    ensures |Rest(es)| == |es| <==> forall i :: 0 <= i < |es| ==> !Terminal(es[i])
  {
    if es != [] { RestHasNoTerminal(es[..|es| - 1]); }
  }

  lemma {:induction false} NoTerminalNoChunk(es: seq<InvEvent>)
    requires forall i :: 0 <= i < |es| ==> !Terminal(es[i])
    ensures Chunks(es) == [] && Rest(es) == es
  {
    if es != [] {
      NoTerminalNoChunk(es[..|es| - 1]);
      assert es == es[..|es| - 1] + [es[|es| - 1]];
    }
  }

  lemma {:induction false} RestAfterTerminal(es: seq<InvEvent>)
    requires es != [] && Terminal(es[|es| - 1])
    ensures Rest(es) == []
  {
  }

  /** Every batch ends with its only terminal event. */
  lemma {:induction false} ChunksEndOnce(es: seq<InvEvent>, k: nat)
    requires k < |Chunks(es)|
    ensures EndsOnce(Chunks(es)[k])
  {
    var n := |es| - 1;
    if k < |Chunks(es[..n])| {
      ChunksEndOnce(es[..n], k);
    } else {
      RestHasNoTerminal(es[..n]);
    }
  }

  /** An invocation is stored as exactly one batch holding all its events if and only if
      its terminal event is the last one. */
  lemma {:induction false} SingleBatchIff(es: seq<InvEvent>)
    requires es != []
    ensures Chunks(es) == [es] <==> EndsOnce(es)
  {
    var n := |es| - 1;
    assert es == es[..n] + [es[n]];
    if EndsOnce(es) {
      NoTerminalNoChunk(es[..n]);
    }
    if Chunks(es) == [es] {
      ChunksEndOnce(es, 0);
    }
  }

  // ---------------------------------------------------------------------------
  // The invariant is kept
  // ---------------------------------------------------------------------------

  lemma {:induction false} AppendAcc(s: Store, e: InvEvent, id: nat)
    requires AccOk(s, id) && !Terminal(e)
    ensures AccOk(Append(s, e), id)
  {
    var t := Append(s, e);
    FilterAppend(s.log, e, id);
    if id == e.id {
      var es := Filter(s.log, id);
      assert AccOf(t, id) == AccOf(s, id) + [e];
      assert Rest(es + [e]) == Rest(es) + [e] && Chunks(es + [e]) == Chunks(es) by { RestChunksAppend(es, e); }
      assert AllOf(AccOf(s, id) + [e], id);
    } else {
      assert AccOf(t, id) == AccOf(s, id);
    }
  }

  lemma {:induction false} SubmitAcc(s: Store, e: InvEvent, id: nat)
    requires AccOk(s, id) && AccOk(s, e.id) && Terminal(e)
    ensures AccOk(Submit(Append(s, e), e.id), id)
  {
    var b := Batch(e.id, AccOf(s, e.id) + [e]);
    var t := Submit(Append(s, e), e.id);
    assert t.batches == s.batches + [b];
    FilterAppend(s.log, e, id);
    BatchesOfAppend(s.batches, b, id);
    if id == e.id {
      var es := Filter(s.log, id);
      assert Rest(es + [e]) == [] && Chunks(es + [e]) == Chunks(es) + [Rest(es) + [e]] by { RestChunksAppend(es, e); }
      assert AccOf(t, id) == [];
    } else {
      assert AccOf(t, id) == AccOf(s, id);
    }
  }

  lemma {:induction false} AppendKeepsInv(s: Store, e: InvEvent, mr: nat)
    requires Inv(s, mr) && !Terminal(e)
    ensures Inv(Append(s, e), mr)
  {
    forall id: nat ensures AccOk(Append(s, e), id) { AppendAcc(s, e, id); }
  }

  lemma {:induction false} SubmitKeepsInv(s: Store, e: InvEvent, mr: nat)
    requires Inv(s, mr) && Terminal(e)
    ensures Inv(Submit(Append(s, e), e.id), mr)
  {
    var s' := Submit(Append(s, e), e.id);
    var b := Batch(e.id, AccOf(s, e.id) + [e]);
    assert AccOk(s, e.id);
    assert s'.batches == s.batches + [b] && BatchOk(b);
    forall id: nat ensures AccOk(s', id) { SubmitAcc(s, e, id); }
    RowsGrow(s.batches, b, s.live);
  }

  lemma {:induction false} SameAcc(s: Store, s': Store, id: nat)
    requires AccOk(s, id) && s'.acc == s.acc && s'.log == s.log && s'.batches == s.batches
    ensures AccOk(s', id)
  {
  }

  lemma {:induction false} InsertKeepsInv(s: Store, b: nat, mr: nat)
    requires Inv(s, mr) && b < |s.batches| && KeysDistinct(s.rows + s.batches[b].events)
    ensures Inv(Insert(s, b), mr)
  {
    forall id: nat ensures AccOk(Insert(s, b), id) { SameAcc(s, Insert(s, b), id); }
    RowsAppend(s.batches, s.live, b);
  }

  lemma {:induction false} StatusKeepsInv(s: Store, b: nat, st: Status, mr: nat)
    requires Inv(s, mr) && b < |s.batches|
    requires (st == Committed ==> s.landed[b]) && (st.Trying? ==> st.attempt <= mr)
    ensures Inv(s.(status := s.status[b := st]), mr)
  {
    var s' := s.(status := s.status[b := st]);
    forall id: nat ensures AccOk(s', id) { SameAcc(s, s', id); }
  }

  lemma {:induction false} AttemptKeepsInv(s: Store, b: nat, o: Outcome, mr: nat)
    requires Inv(s, mr)
    ensures Inv(Attempt(s, b, o, mr), mr)
  {
    if CanSubmit(s, b) {
      if !KeysDistinct(s.rows + s.batches[b].events) {
        StatusKeepsInv(s, b, AfterError(s.status[b], ClashPkLike(o), mr), mr);
      } else {
        InsertKeepsInv(s, b, mr);
        match o
        case Succeeds => StatusKeepsInv(Insert(s, b), b, Committed, mr);
        case Fails(pk) => StatusKeepsInv(s, b, AfterError(s.status[b], pk, mr), mr);
        case FailsAfterEffect(pk) => StatusKeepsInv(Insert(s, b), b, AfterError(s.status[b], pk, mr), mr);
      }
    }
  }

  lemma {:induction false} KeepRowsConcat(a: seq<InvEvent>, b: seq<InvEvent>, rows: seq<InvEvent>, cutoff: int)
    ensures KeepRows(a + b, rows, cutoff) == KeepRows(a, rows, cutoff) + KeepRows(b, rows, cutoff)
  {
    if b == [] {
      assert a + b == a;
    } else {
      var n := |b| - 1;
      KeepRowsConcat(a, b[..n], rows, cutoff);
      assert (a + b)[..|a| + n] == a + b[..n];
    }
  }

  lemma {:induction false} KeepRowsOfOne(es: seq<InvEvent>, id: nat, rows: seq<InvEvent>, cutoff: int)
    requires forall i :: 0 <= i < |es| ==> es[i].id == id
    ensures KeepRows(es, rows, cutoff) == if Recent(rows, id, cutoff) then es else []
  {
    if es != [] {
      KeepRowsOfOne(es[..|es| - 1], id, rows, cutoff);
      assert es == es[..|es| - 1] + [es[|es| - 1]];
    }
  }

  lemma {:induction false} KeepLiveSubset(live: seq<nat>, bs: seq<Batch>, rows: seq<InvEvent>, cutoff: int, k: nat)
    requires k < |KeepLive(live, bs, rows, cutoff)|
    ensures KeepLive(live, bs, rows, cutoff)[k] in live
  {
    var n := |live| - 1;
    assert live == live[..n] + [live[n]];
    if k < |KeepLive(live[..n], bs, rows, cutoff)| { KeepLiveSubset(live[..n], bs, rows, cutoff, k); }
  }

  /** Pruning deletes whole batches. */
  lemma {:induction false} PruneByBatch(bs: seq<Batch>, live: seq<nat>, rows: seq<InvEvent>, cutoff: int)
    requires forall b :: 0 <= b < |bs| ==> BatchOk(bs[b])
    requires forall k :: 0 <= k < |live| ==> live[k] < |bs|
    ensures KeepRows(Rows(bs, live), rows, cutoff) == Rows(bs, KeepLive(live, bs, rows, cutoff))
  {
    if live != [] {
      var n := |live| - 1;
      PruneByBatch(bs, live[..n], rows, cutoff);
      var b := bs[live[n]];
      assert BatchOk(b);
      KeepRowsConcat(Rows(bs, live[..n]), b.events, rows, cutoff);
      KeepRowsOfOne(b.events, b.id, rows, cutoff);
      var kept := KeepLive(live[..n], bs, rows, cutoff);
      if Recent(rows, b.id, cutoff) { RowsAppend(bs, kept, live[n]); } else { assert Rows(bs, kept) + [] == Rows(bs, kept); }
    }
  }

  lemma {:induction false} KeepRowsMember(es: seq<InvEvent>, rows: seq<InvEvent>, cutoff: int, x: InvEvent)
    ensures x in KeepRows(es, rows, cutoff) <==> x in es && Recent(rows, x.id, cutoff)
  {
    if es != [] {
      KeepRowsMember(es[..|es| - 1], rows, cutoff, x);
      assert es == es[..|es| - 1] + [es[|es| - 1]];
    }
  }

  lemma {:induction false} KeepRowsDistinct(es: seq<InvEvent>, rows: seq<InvEvent>, cutoff: int)
    requires KeysDistinct(es)
    ensures KeysDistinct(KeepRows(es, rows, cutoff))
  {
    if es != [] {
      var n := |es| - 1;
      KeepRowsDistinct(es[..n], rows, cutoff);
      var init := KeepRows(es[..n], rows, cutoff);
      forall i | 0 <= i < |init| ensures !SameKey(init[i], es[n]) {
        KeepRowsMember(es[..n], rows, cutoff, init[i]);
        var j :| 0 <= j < n && es[..n][j] == init[i];
        assert !SameKey(es[j], es[n]);
      }
    }
  }

  lemma {:induction false} PruneKeepsInv(s: Store, cutoff: int, mr: nat)
    requires Inv(s, mr)
    ensures Inv(Prune(s, cutoff), mr)
  {
    var s' := Prune(s, cutoff);
    forall id: nat ensures AccOk(s', id) { SameAcc(s, s', id); }
    PruneByBatch(s.batches, s.live, s.rows, cutoff);
    KeepRowsDistinct(s.rows, s.rows, cutoff);
    forall k | 0 <= k < |s'.live| ensures s'.live[k] < |s'.landed| && s'.landed[s'.live[k]] {
      KeepLiveSubset(s.live, s.batches, s.rows, cutoff, k);
    }
  }

  lemma {:induction false} StepKeepsInv(s: Store, a: Act, mr: nat)
    requires Inv(s, mr)
    ensures Inv(Step(s, a, mr), mr)
  {
    match a
    case RecordAct(e) =>
      if !s.stopped { if Terminal(e) { SubmitKeepsInv(s, e, mr); } else { AppendKeepsInv(s, e, mr); } }
    case AttemptAct(b, o) => AttemptKeepsInv(s, b, o, mr);
    case PruneAct(c) => PruneKeepsInv(s, c, mr);
    case StopAct => forall id: nat ensures AccOk(Step(s, a, mr), id) { SameAcc(s, Step(s, a, mr), id); }
    case DrainAct(id, now) =>
      if s.stopped && AccOf(s, id) != [] { SubmitKeepsInv(s, Shutdown(s.acc[id], id, now), mr); }
  }

  lemma {:induction false} RunKeepsInv(acts: seq<Act>, mr: nat)
    ensures Inv(Run(acts, mr), mr)
  {
    if acts != [] {
      RunKeepsInv(acts[..|acts| - 1], mr);
      StepKeepsInv(Run(acts[..|acts| - 1], mr), acts[|acts| - 1], mr);
    } else {
      forall id: nat ensures AccOk(Empty, id) { assert Filter([], id) == []; }
    }
  }

  // ---------------------------------------------------------------------------
  // The accepted events, read off the acts
  // ---------------------------------------------------------------------------

  function Stops(acts: seq<Act>): bool {
    acts != [] && (Stops(acts[..|acts| - 1]) || acts[|acts| - 1].StopAct?)
  }

  /** The events recorded before the store was stopped. */
  function Accepted(acts: seq<Act>): seq<InvEvent> {
    if acts == [] then []
    else
      var n := |acts| - 1;
      if acts[n].RecordAct? && !Stops(acts[..n]) then Accepted(acts[..n]) + [acts[n].e] else Accepted(acts[..n])
  }

  /** The clock at the first drain step of an invocation after the stop. */
  function DrainedAt(acts: seq<Act>, id: nat): Option<int> {
    if acts == [] then None
    else
      var n := |acts| - 1;
      if DrainedAt(acts[..n], id).None? && acts[n].DrainAct? && acts[n].id == id && Stops(acts[..n])
      then Some(acts[n].now) else DrainedAt(acts[..n], id)
  }

  /** What one invocation is made of: its events recorded before the stop and, if those
      left it unfinished and it was drained, one shutdown event. */
  function Stream(acts: seq<Act>, id: nat): seq<InvEvent> {
    Ended(Filter(Accepted(acts), id), DrainedAt(acts, id), id)
  }

  function Ended(es: seq<InvEvent>, drained: Option<int>, id: nat): seq<InvEvent> {
    if drained.Some? && Rest(es) != [] then es + [Shutdown(Rest(es), id, drained.value)] else es
  }

  lemma {:induction false} EndedRest(es: seq<InvEvent>, now: int, id: nat)
    ensures Rest(Ended(es, Some(now), id)) == []
  {
    if Rest(es) != [] { RestChunksAppend(es, Shutdown(Rest(es), id, now)); }
  }

  lemma {:induction false} LogStep(s: Store, a: Act, mr: nat)
    ensures Step(s, a, mr).stopped == (s.stopped || a.StopAct?)
    ensures Step(s, a, mr).log ==
      if a.RecordAct? && !s.stopped then s.log + [a.e]
      else if a.DrainAct? && s.stopped && AccOf(s, a.id) != [] then s.log + [Shutdown(s.acc[a.id], a.id, a.now)]
      else s.log
  {
  }

  lemma {:induction false} DrainStream(s: Store, es: seq<InvEvent>, drained: Option<int>, a: Act, id: nat)
    requires AccOk(s, id) && s.stopped && a.DrainAct? && Filter(s.log, id) == Ended(es, drained, id)
    ensures var d := if drained.None? && a.id == id then Some(a.now) else drained;
      Filter(DrainOne(s, a.id, a.now).log, id) == Ended(es, d, id)
  {
    if AccOf(s, a.id) != [] { FilterAppend(s.log, Shutdown(s.acc[a.id], a.id, a.now), id); }
    if a.id == id && drained.Some? { EndedRest(es, drained.value, id); }
  }

  lemma {:induction false} BeforeStop(acts: seq<Act>, id: nat)
    requires !Stops(acts)
    ensures DrainedAt(acts, id).None?
  {
    if acts != [] { BeforeStop(acts[..|acts| - 1], id); }
  }

  /** The store's log is what the acts say: everything recorded before the stop, in order,
      and per invocation at most the one shutdown event besides. */
  lemma {:induction false} LogIsAccepted(acts: seq<Act>, mr: nat, id: nat)
    ensures var s := Run(acts, mr);
      && s.stopped == Stops(acts)
      && Accepted(acts) <= s.log && (!Stops(acts) ==> s.log == Accepted(acts))
      && Filter(s.log, id) == Stream(acts, id)
  {
    if acts != [] {
      var n := |acts| - 1;
      var s, a := Run(acts[..n], mr), acts[n];
      LogIsAccepted(acts[..n], mr, id);
      RunKeepsInv(acts[..n], mr);
      LogStep(s, a, mr);
      if a.RecordAct? && !s.stopped {
        FilterAppend(Accepted(acts[..n]), a.e, id);
        BeforeStop(acts[..n], id);
      } else if a.DrainAct? && s.stopped {
        assert AccOk(s, id);
        DrainStream(s, Filter(Accepted(acts[..n]), id), DrainedAt(acts[..n], id), a, id);
      }
    }
  }

  // ---------------------------------------------------------------------------
  // Main results
  // ---------------------------------------------------------------------------

  /** Event conservation, for every interleaving of records, inserts, prunes and drain
      steps and for every invocation: the submitted batches followed by what is still
      accumulated are the invocation's events as the acts give them, once each and in
      order; and the batches are that stream cut after its terminal events. */
  lemma {:induction false} EventsConserved(acts: seq<Act>, mr: nat, id: nat)
    ensures var s := Run(acts, mr);
      && Filter(s.log, id) == Stream(acts, id)
      && Concat(BatchesOf(s.batches, id)) + AccOf(s, id) == Stream(acts, id)
      && BatchesOf(s.batches, id) == Chunks(Stream(acts, id))
  {
    LogIsAccepted(acts, mr, id);
    RunKeepsInv(acts, mr);
    assert AccOk(Run(acts, mr), id);
    ChunksPartition(Filter(Run(acts, mr).log, id));
  }

  /** The table is always a concatenation of whole submitted batches, each once, and a
      primary key never occurs twice. A batch is in it exactly if an insert of it went
      through that no later prune undid; a batch reported as committed did land; no batch is
      tried more than `mr + 1` times. */
  lemma {:induction false} BatchesLandWhole(acts: seq<Act>, mr: nat)
    ensures var s := Run(acts, mr);
      && s.rows == Rows(s.batches, s.live) && KeysDistinct(s.rows) && Distinct(s.live)
      && (forall b: nat :: b in s.live <==> Stored(acts, mr, b))
      && |s.status| == |s.landed| == |s.batches|
      && (forall b: nat :: Stored(acts, mr, b) ==> b < |s.batches| && InTable(s.rows, s.batches[b].events))
      && forall b :: 0 <= b < |s.batches| ==>
           (s.status[b] == Committed ==> s.landed[b]) && (s.status[b].Trying? ==> s.status[b].attempt <= mr)
  {
    RunKeepsInv(acts, mr);
    LiveOnce(acts, mr);
    var s := Run(acts, mr);
    forall b: nat ensures b in s.live <==> Stored(acts, mr, b) { LiveIffStored(acts, mr, b); }
    forall b: nat | Stored(acts, mr, b) ensures b < |s.batches| && InTable(s.rows, s.batches[b].events) {
      var k :| 0 <= k < |s.live| && s.live[k] == b;
      LiveInTable(s.batches, s.live, k);
    }
  }

  /** Without prunes, committed means stored as a whole. */
  lemma {:induction false} CommittedIsStored(acts: seq<Act>, mr: nat, b: nat)
    requires b < |Run(acts, mr).status| && Run(acts, mr).status[b].Committed?
    requires forall i :: 0 <= i < |acts| ==> !acts[i].PruneAct?
    ensures b < |Run(acts, mr).batches| && InTable(Run(acts, mr).rows, Run(acts, mr).batches[b].events)
  {
    StatusMeansAttempts(acts, mr, b);
    var k: nat :| CommitsAt(acts, mr, b, k);
    assert InsertedForGood(acts, mr, b, k);
    BatchesLandWhole(acts, mr);
    assert Stored(acts, mr, b);
  }

  // ---------------------------------------------------------------------------
  // What is stored, read off the inserts and prunes
  // ---------------------------------------------------------------------------

  /** Act `k` put the rows of batch `b` in: an insert that would go through was made and the
      driver carried it out. */
  ghost predicate InsertedAt(acts: seq<Act>, mr: nat, b: nat, k: nat) {
    k < |acts| && Inserts(Run(acts[..k], mr), acts[k], b)
  }

  ghost predicate Inserts(s: Store, a: Act, b: nat) {
    a.AttemptAct? && a.b == b && !a.outcome.Fails? && WouldLand(s, b)
  }

  /** Act `m` pruned the invocation of batch `b`: it found no row of it at or after the cutoff. */
  ghost predicate PrunedAt(acts: seq<Act>, mr: nat, b: nat, m: nat) {
    m < |acts| && Prunes(Run(acts[..m], mr), acts[m], b)
  }

  ghost predicate Prunes(s: Store, a: Act, b: nat) {
    && a.PruneAct? && b < |s.batches|
    && forall i :: 0 <= i < |s.rows| && s.rows[i].id == s.batches[b].id ==> s.rows[i].base.at < a.cutoff
  }

  /** An insert of `b` that no later prune undid. */
  ghost predicate InsertedForGood(acts: seq<Act>, mr: nat, b: nat, k: nat) {
    InsertedAt(acts, mr, b, k) && forall m: nat :: k < m ==> !PrunedAt(acts, mr, b, m)
  }

  ghost predicate Stored(acts: seq<Act>, mr: nat, b: nat) { exists k: nat :: InsertedForGood(acts, mr, b, k) }

  lemma {:induction false} KeepLiveMember(live: seq<nat>, bs: seq<Batch>, rows: seq<InvEvent>, cutoff: int, b: nat)
    ensures b in KeepLive(live, bs, rows, cutoff) <==> b in live && b < |bs| && Recent(rows, bs[b].id, cutoff)
  {
    if live != [] {
      KeepLiveMember(live[..|live| - 1], bs, rows, cutoff, b);
      assert live == live[..|live| - 1] + [live[|live| - 1]];
    }
  }

  lemma {:induction false} LiveStep(s: Store, a: Act, mr: nat, b: nat)
    requires Inv(s, mr)
    ensures b in Step(s, a, mr).live <==> Inserts(s, a, b) || (b in s.live && !Prunes(s, a, b))
  {
    if a.PruneAct? {
      KeepLiveMember(s.live, s.batches, s.rows, a.cutoff, b);
      assert b in s.live ==> b < |s.batches|;
      if b < |s.batches| { assert Recent(s.rows, s.batches[b].id, a.cutoff) <==> !Prunes(s, a, b); }
    } else if a.AttemptAct? {
      AttemptLive(s, a, mr, b);
    }
  }

  lemma {:induction false} AttemptLive(s: Store, a: Act, mr: nat, b: nat)
    requires a.AttemptAct?
    ensures b in Attempt(s, a.b, a.outcome, mr).live <==> Inserts(s, a, b) || b in s.live
  {
  }

  lemma {:induction false} SamePast(acts: seq<Act>, mr: nat, b: nat, k: nat)
    requires acts != [] && k < |acts| - 1
    ensures InsertedAt(acts, mr, b, k) <==> InsertedAt(acts[..|acts| - 1], mr, b, k)
    ensures PrunedAt(acts, mr, b, k) <==> PrunedAt(acts[..|acts| - 1], mr, b, k)
  {
    assert acts[..|acts| - 1][..k] == acts[..k];
  }

  lemma {:induction false} GoodBefore(acts: seq<Act>, mr: nat, b: nat, k: nat)
    requires acts != [] && k < |acts| - 1
    ensures var n := |acts| - 1;
      InsertedForGood(acts, mr, b, k) <==> InsertedForGood(acts[..n], mr, b, k) && !PrunedAt(acts, mr, b, n)
  {
    var n := |acts| - 1;
    SamePast(acts, mr, b, k);
    forall m: nat | m < n ensures PrunedAt(acts, mr, b, m) <==> PrunedAt(acts[..n], mr, b, m) { SamePast(acts, mr, b, m); }
  }

  lemma {:induction false} StoredSnoc(acts: seq<Act>, mr: nat, b: nat)
    requires acts != []
    ensures var n := |acts| - 1;
      Stored(acts, mr, b) <==> InsertedAt(acts, mr, b, n) || (Stored(acts[..n], mr, b) && !PrunedAt(acts, mr, b, n))
  {
    var n := |acts| - 1;
    if Stored(acts, mr, b) {
      var k: nat :| InsertedForGood(acts, mr, b, k);
      if k < n { GoodBefore(acts, mr, b, k); }
    }
    if InsertedAt(acts, mr, b, n) { assert InsertedForGood(acts, mr, b, n); }
    if Stored(acts[..n], mr, b) && !PrunedAt(acts, mr, b, n) {
      var k: nat :| InsertedForGood(acts[..n], mr, b, k);
      GoodBefore(acts, mr, b, k);
    }
  }

  lemma {:induction false} LiveIffStored(acts: seq<Act>, mr: nat, b: nat)
    ensures b in Run(acts, mr).live <==> Stored(acts, mr, b)
  {
    if acts != [] {
      var n := |acts| - 1;
      LiveIffStored(acts[..n], mr, b);
      StoredSnoc(acts, mr, b);
      RunKeepsInv(acts[..n], mr);
      LiveStep(Run(acts[..n], mr), acts[n], mr, b);
    }
  }

  /** The events are in the table, side by side. */
  ghost predicate InTable(rows: seq<InvEvent>, es: seq<InvEvent>) { exists i: nat :: PlacedAt(rows, es, i) }

  ghost predicate PlacedAt(rows: seq<InvEvent>, es: seq<InvEvent>, i: nat) {
    i + |es| <= |rows| && rows[i..i + |es|] == es
  }

  lemma {:induction false} LiveInTable(bs: seq<Batch>, live: seq<nat>, k: nat)
    requires k < |live| && live[k] < |bs|
    ensures InTable(Rows(bs, live), bs[live[k]].events)
  {
    var n := |live| - 1;
    var before, es, all := Rows(bs, live[..n]), bs[live[k]].events, Rows(bs, live);
    if k == n {
      assert PlacedAt(all, es, |before|);
    } else {
      LiveInTable(bs, live[..n], k);
      assert live[..n][k] == live[k];
      var i: nat :| PlacedAt(before, es, i);
      PlacedStays(before, all, es, i);
    }
  }

  lemma {:induction false} PlacedStays(rows: seq<InvEvent>, more: seq<InvEvent>, es: seq<InvEvent>, i: nat)
    requires PlacedAt(rows, es, i) && rows <= more
    ensures PlacedAt(more, es, i)
  {
    assert more[i..i + |es|] == rows[i..i + |es|];
  }

  /** No batch is in the table twice. */
  lemma {:induction false} LiveOnce(acts: seq<Act>, mr: nat)
    ensures Distinct(Run(acts, mr).live)
  {
    if acts != [] {
      var n := |acts| - 1;
      var s := Run(acts[..n], mr);
      LiveOnce(acts[..n], mr);
      RunKeepsInv(acts[..n], mr);
      if acts[n].PruneAct? { KeepLiveDistinct(s.live, s.batches, s.rows, acts[n].cutoff); }
      if acts[n].AttemptAct? { AttemptLiveOnce(s, acts[n], mr); }
    }
  }

  lemma {:induction false} KeepLiveDistinct(live: seq<nat>, bs: seq<Batch>, rows: seq<InvEvent>, cutoff: int)
    requires Distinct(live)
    ensures Distinct(KeepLive(live, bs, rows, cutoff))
  {
    if live != [] {
      var n := |live| - 1;
      KeepLiveDistinct(live[..n], bs, rows, cutoff);
      KeepLiveMember(live[..n], bs, rows, cutoff, live[n]);
    }
  }

  lemma {:induction false} AttemptLiveOnce(s: Store, a: Act, mr: nat)
    requires Inv(s, mr) && Distinct(s.live) && a.AttemptAct?
    ensures Distinct(Attempt(s, a.b, a.outcome, mr).live)
  {
    if k :| 0 <= k < |s.live| && s.live[k] == a.b { LiveClashes(s, mr, k); }
  }

  /** A batch that is in the table cannot be put in again. */
  lemma {:induction false} LiveClashes(s: Store, mr: nat, k: nat)
    requires Inv(s, mr) && k < |s.live|
    ensures !WouldLand(s, s.live[k])
  {
    var b := s.live[k];
    var es := s.batches[b].events;
    assert BatchOk(s.batches[b]);
    LiveInTable(s.batches, s.live, k);
    var i: nat :| PlacedAt(s.rows, es, i);
    var both := s.rows + es;
    assert both[i] == s.rows[i..i + |es|][0] == es[0] == both[|s.rows|];
    assert SameKey(both[i], both[|s.rows|]);
  }

  // ---------------------------------------------------------------------------
  // What is reported, read off the attempts
  // ---------------------------------------------------------------------------

  ghost predicate Tries(s: Store, a: Act, b: nat) { a.AttemptAct? && a.b == b && CanSubmit(s, b) }

  /** How often an insert of batch `b` was made. */
  ghost function TriesOf(acts: seq<Act>, mr: nat, b: nat): nat {
    if acts == [] then 0
    else
      var before := acts[..|acts| - 1];
      TriesOf(before, mr, b) + if Tries(Run(before, mr), acts[|acts| - 1], b) then 1 else 0
  }

  /** The insert went through and was reported so. */
  ghost predicate CommitsAt(acts: seq<Act>, mr: nat, b: nat, k: nat) {
    k < |acts| && Commits(Run(acts[..k], mr), acts[k], b)
  }

  ghost predicate Commits(s: Store, a: Act, b: nat) { Tries(s, a, b) && a.outcome.Succeeds? && WouldLand(s, b) }

  /** The insert failed for good: on what looks like the primary key, or as the last retry. */
  ghost predicate GivesUpAt(acts: seq<Act>, mr: nat, b: nat, k: nat) {
    k < |acts| && GivesUp(Run(acts[..k], mr), acts[k], b, TriesOf(acts[..k], mr, b) == mr)
  }

  ghost predicate GivesUp(s: Store, a: Act, b: nat, last: bool) {
    Tries(s, a, b) && !Commits(s, a, b) && (a.outcome.Succeeds? || a.outcome.pkLike || last)
  }

  ghost function AfterTry(s: Store, a: Act, b: nat, attempt: nat, mr: nat): Status {
    if Commits(s, a, b) then Committed else if GivesUp(s, a, b, attempt == mr) then Dropped else Trying(attempt + 1)
  }

  lemma {:induction false} StatusStep(s: Store, a: Act, mr: nat, b: nat)
    requires Inv(s, mr)
    ensures var t := Step(s, a, mr);
      && |t.status| >= |s.status|
      && (b < |s.status| && !Tries(s, a, b) ==> t.status[b] == s.status[b])
      && (b < |s.status| && Tries(s, a, b) ==> t.status[b] == AfterTry(s, a, b, s.status[b].attempt, mr))
      && (|s.status| <= b < |t.status| ==> t.status[b] == Trying(0))
  {
    if a.AttemptAct? { TryStep(s, a, mr, b); }
  }

  lemma {:induction false} TryStep(s: Store, a: Act, mr: nat, b: nat)
    requires Inv(s, mr) && a.AttemptAct?
    ensures var t := Step(s, a, mr);
      && |t.status| == |s.status|
      && (b < |s.status| && !Tries(s, a, b) ==> t.status[b] == s.status[b])
      && (b < |s.status| && Tries(s, a, b) ==> t.status[b] == AfterTry(s, a, b, s.status[b].attempt, mr))
  {
  }

  ghost predicate StatusOk(acts: seq<Act>, mr: nat, b: nat) {
    var s := Run(acts, mr);
    if b >= |s.status| then TriesOf(acts, mr, b) == 0 && !EverCommits(acts, mr, b) && !EverGivesUp(acts, mr, b)
    else
      && (s.status[b].Trying? ==> s.status[b].attempt == TriesOf(acts, mr, b))
      && (s.status[b].Committed? <==> EverCommits(acts, mr, b))
      && (s.status[b].Dropped? <==> EverGivesUp(acts, mr, b))
      && TriesOf(acts, mr, b) <= mr + 1
  }

  ghost predicate EverCommits(acts: seq<Act>, mr: nat, b: nat) { exists k: nat :: CommitsAt(acts, mr, b, k) }

  ghost predicate EverGivesUp(acts: seq<Act>, mr: nat, b: nat) { exists k: nat :: GivesUpAt(acts, mr, b, k) }

  lemma {:induction false} CommitsSnoc(acts: seq<Act>, mr: nat, b: nat)
    requires acts != []
    ensures EverCommits(acts, mr, b) <==> EverCommits(acts[..|acts| - 1], mr, b) || CommitsAt(acts, mr, b, |acts| - 1)
  {
    var n := |acts| - 1;
    if k: nat :| CommitsAt(acts, mr, b, k) && k != n { SameTry(acts, mr, b, k); }
    if k: nat :| CommitsAt(acts[..n], mr, b, k) { SameTry(acts, mr, b, k); }
  }

  lemma {:induction false} GivesUpSnoc(acts: seq<Act>, mr: nat, b: nat)
    requires acts != []
    ensures EverGivesUp(acts, mr, b) <==> EverGivesUp(acts[..|acts| - 1], mr, b) || GivesUpAt(acts, mr, b, |acts| - 1)
  {
    var n := |acts| - 1;
    if k: nat :| GivesUpAt(acts, mr, b, k) && k != n { SameTry(acts, mr, b, k); }
    if k: nat :| GivesUpAt(acts[..n], mr, b, k) { SameTry(acts, mr, b, k); }
  }

  lemma {:induction false} SameTry(acts: seq<Act>, mr: nat, b: nat, k: nat)
    requires k < |acts| - 1
    ensures CommitsAt(acts, mr, b, k) <==> CommitsAt(acts[..|acts| - 1], mr, b, k)
    ensures GivesUpAt(acts, mr, b, k) <==> GivesUpAt(acts[..|acts| - 1], mr, b, k)
  {
    assert acts[..|acts| - 1][..k] == acts[..k];
  }

  /** The status of a batch says how its inserts went: still trying after that many of them,
      committed exactly if one went through and was reported so, dropped exactly if one
      failed on the primary key or as the last of `mr + 1`. */
  lemma {:induction false} StatusMeansAttempts(acts: seq<Act>, mr: nat, b: nat)
    ensures StatusOk(acts, mr, b)
  {
    if acts != [] {
      var n := |acts| - 1;
      StatusMeansAttempts(acts[..n], mr, b);
      CommitsSnoc(acts, mr, b);
      GivesUpSnoc(acts, mr, b);
      RunKeepsInv(acts[..n], mr);
      StatusStep(Run(acts[..n], mr), acts[n], mr, b);
    }
  }

  // ---------------------------------------------------------------------------
  // What recording does, kind by kind
  // ---------------------------------------------------------------------------

  /** The five kinds of events that end an invocation. */
  predicate ClosingKind(kind: string) {
    || kind == "trigger.response" || kind == "trigger.error" || kind == "trigger.exception"
    || kind == "trigger.rejection" || kind == "system.upload"
  }

  /** Before the stop, recording an event of one of the five closing kinds submits the whole
      invocation as the next batch; recording any other only accumulates it. */
  lemma {:induction false} RecordSubmitsIff(acts: seq<Act>, mr: nat, e: InvEvent)
    requires !Stops(acts)
    ensures var s, t := Run(acts, mr), Run(acts + [RecordAct(e)], mr);
      var all := AccOf(s, e.id) + [e];
      if ClosingKind(e.base.kind)
      then t.batches == s.batches + [Batch(e.id, all)] && t.status == s.status + [Trying(0)] && AccOf(t, e.id) == []
      else t.batches == s.batches && AccOf(t, e.id) == all
  {
    RunSnoc(acts, RecordAct(e), mr);
    LogIsAccepted(acts, mr, e.id);
    assert AccOf(Append(Run(acts, mr), e), e.id) == AccOf(Run(acts, mr), e.id) + [e];
  }

  ghost predicate Unreported(s: Store, b: nat) {
    b < |s.status| && b < |s.landed| && s.landed[b] && s.status[b] != Committed
  }

  ghost predicate SilentEffect(a: Act, b: nat) { a.AttemptAct? && a.b == b && a.outcome.FailsAfterEffect? }

  /** An insert of batch `b` that would go through. */
  ghost predicate WouldLand(s: Store, b: nat) { CanSubmit(s, b) && KeysDistinct(s.rows + s.batches[b].events) }

  /** Act `k` put the rows of batch `b` in and reported failure. */
  ghost predicate StoredSilently(acts: seq<Act>, mr: nat, b: nat, k: nat) {
    k < |acts| && SilentEffect(acts[k], b) && WouldLand(Run(acts[..k], mr), b)
  }

  /** One step: a batch is unreported afterwards iff it is not committed and was unreported
      before or was just stored silently. */
  lemma {:induction false} UnreportedStep(s: Store, a: Act, mr: nat, b: nat)
    requires Inv(s, mr)
    ensures var t := Step(s, a, mr);
      Unreported(t, b) <==>
        b < |t.status| && t.status[b] != Committed && (Unreported(s, b) || (SilentEffect(a, b) && WouldLand(s, b)))
  {
    if a.AttemptAct? && CanSubmit(s, a.b) && KeysDistinct(s.rows + s.batches[a.b].events) {
      assert a.outcome.Succeeds? ==> Step(s, a, mr).status[a.b] == Committed;
    }
  }

  /** Committed is final. */
  lemma {:induction false} CommittedStays(s: Store, a: Act, mr: nat, b: nat)
    requires Inv(s, mr) && b < |s.status| && s.status[b] == Committed
    ensures var t := Step(s, a, mr); b < |t.status| && t.status[b] == Committed
  {
  }

  /** A batch that is not reported as committed is stored nevertheless if and only if some
      insert of it that went through reported failure after taking effect. */
  lemma {:induction false} UnreportedIffSilentEffect(acts: seq<Act>, mr: nat, b: nat)
    ensures var s := Run(acts, mr);
      Unreported(s, b) <==> b < |s.status| && s.status[b] != Committed && exists k: nat :: StoredSilently(acts, mr, b, k)
    ensures (exists k: nat :: StoredSilently(acts, mr, b, k)) ==> b < |Run(acts, mr).status|
  {
    if acts != [] {
      var n := |acts| - 1;
      var u := acts[..n];
      UnreportedIffSilentEffect(u, mr, b);
      SilentlySnoc(acts, mr, b);
      RunKeepsInv(u, mr);
      UnreportedCarries(Run(u, mr), acts[n], mr, b);
    }
  }

  /** What one step does to the three facts about a batch. */
  lemma {:induction false} UnreportedCarries(s: Store, a: Act, mr: nat, b: nat)
    requires Inv(s, mr)
    ensures var t := Step(s, a, mr); |t.status| >= |s.status|
    ensures var t := Step(s, a, mr); b < |s.status| && s.status[b] == Committed ==> t.status[b] == Committed
    ensures var t := Step(s, a, mr);
      Unreported(t, b) <==>
        b < |t.status| && t.status[b] != Committed && (Unreported(s, b) || (SilentEffect(a, b) && WouldLand(s, b)))
  {
    UnreportedStep(s, a, mr, b);
    if b < |s.status| && s.status[b] == Committed { CommittedStays(s, a, mr, b); }
  }

  lemma {:induction false} SilentlySnoc(acts: seq<Act>, mr: nat, b: nat)
    requires acts != []
    ensures var n := |acts| - 1; (exists k: nat :: StoredSilently(acts, mr, b, k)) <==>
      (exists k: nat :: StoredSilently(acts[..n], mr, b, k)) || (SilentEffect(acts[n], b) && WouldLand(Run(acts[..n], mr), b))
  {
    var n := |acts| - 1;
    forall k: nat | k < n ensures StoredSilently(acts, mr, b, k) <==> StoredSilently(acts[..n], mr, b, k) {
      assert acts[..n][..k] == acts[..k] && acts[..n][k] == acts[k];
    }
    if k: nat :| StoredSilently(acts, mr, b, k) { if k == n { assert acts[..k] == acts[..n]; } }
    if SilentEffect(acts[n], b) && WouldLand(Run(acts[..n], mr), b) { assert StoredSilently(acts, mr, b, n); }
  }

  lemma {:induction false} RunSnoc(acts: seq<Act>, a: Act, mr: nat)
    ensures Run(acts + [a], mr) == Step(Run(acts, mr), a, mr)
  {
    assert (acts + [a])[..|acts|] == acts;
  }

  /** That does happen: the retry after a silently successful insert hits the primary
      key, so the batch is logged as dropped although its rows are stored. */
  lemma {:induction false} SilentSuccessReportedDropped(e: InvEvent, mr: nat)
    requires Terminal(e) && mr > 0
    ensures
      var s := Run([RecordAct(e)] + [AttemptAct(0, FailsAfterEffect(false))] + [AttemptAct(0, Succeeds)], mr);
      s.rows == [e] && s.status == [Dropped] && s.landed == [true]
  {
    var a, b := [RecordAct(e)], [RecordAct(e)] + [AttemptAct(0, FailsAfterEffect(false))];
    assert [] + [RecordAct(e)] == a;
    RunSnoc([], RecordAct(e), mr);
    RunSnoc(a, AttemptAct(0, FailsAfterEffect(false)), mr);
    RunSnoc(b, AttemptAct(0, Succeeds), mr);
    RecordOneTerminal(e);
    SilentInsert(Run(a, mr), e, mr);
    RetryClashes(Run(b, mr), e, mr);
  }

  /** One batch in the given state, with the rows it has put in. */
  ghost predicate Single(s: Store, e: InvEvent, st: Status, landed: bool) {
    s.batches == [Batch(e.id, [e])] && s.status == [st] && s.landed == [landed] && s.rows == if landed then [e] else []
  }

  lemma {:induction false} RecordOneTerminal(e: InvEvent)
    requires Terminal(e)
    ensures Single(Record(Empty, e), e, Trying(0), false)
  {
    assert AccOf(Append(Empty, e), e.id) == [e];
  }

  lemma {:induction false} SilentInsert(s: Store, e: InvEvent, mr: nat)
    requires Single(s, e, Trying(0), false) && mr > 0
    ensures Single(Attempt(s, 0, FailsAfterEffect(false), mr), e, Trying(1), true)
  {
    assert s.rows + s.batches[0].events == [e];
  }

  lemma {:induction false} RetryClashes(s: Store, e: InvEvent, mr: nat)
    requires Single(s, e, Trying(1), true)
    ensures Single(Attempt(s, 0, Succeeds, mr), e, Dropped, true)
  {
    var both := s.rows + s.batches[0].events;
    assert both == [e, e] && SameKey(both[0], both[1]);
  }

  /** Pruning keeps a row exactly when some row of the same invocation is recent: a call
      graph that straddles the cutoff stays whole. */
  lemma {:induction false} PruneKeepsRecentInvocations(s: Store, cutoff: int, x: InvEvent)
    ensures x in Prune(s, cutoff).rows <==>
      x in s.rows && exists i :: 0 <= i < |s.rows| && s.rows[i].id == x.id && s.rows[i].base.at >= cutoff
  {
    KeepRowsMember(s.rows, s.rows, cutoff, x);
  }

  ghost predicate Numbered(es: seq<InvEvent>) { forall i :: 0 <= i < |es| ==> es[i].base.seqNo == i }

  /** The last event of an invocation that shutdown ends: named and owned like its first. */
  ghost predicate ClosesOut(e: InvEvent, es: seq<InvEvent>, now: int) {
    && es != [] && Terminal(e) && e.base.kind == "trigger.error" && e.base.error == Some("runtime shutting down")
    && e.base.seqNo == es[|es| - 1].base.seqNo + 1 && e.base.ref == None
    && e.base.at == now && e.base.ts == es[|es| - 1].base.ts && e.base.name == es[0].base.name
    && e.tenant == es[0].tenant && e.dispatch == None
  }

  /** Draining an unfinished invocation adds one terminal event with the next number and
      submits everything that was accumulated; the accumulator no longer holds it. */
  lemma {:induction false} DrainCompletes(acts: seq<Act>, mr: nat, id: nat, now: int)
    requires Run(acts, mr).stopped && AccOf(Run(acts, mr), id) != []
    ensures var s, s' := Run(acts, mr), DrainOne(Run(acts, mr), id, now);
      && AccOf(s', id) == [] && (forall j: nat :: j != id ==> AccOf(s', j) == AccOf(s, j))
      && |Filter(s'.log, id)| == |Filter(s.log, id)| + 1 && Filter(s.log, id) <= Filter(s'.log, id)
      && ClosesOut(Filter(s'.log, id)[|Filter(s.log, id)|], AccOf(s, id), now)
      && (Numbered(Filter(s.log, id)) ==> Numbered(Filter(s'.log, id)))
  {
    RunKeepsInv(acts, mr);
    var s := Run(acts, mr);
    assert AccOk(s, id);
    var es := Filter(s.log, id);
    FilterAppend(s.log, Shutdown(s.acc[id], id, now), id);
    ChunksPartition(es);
    assert es[|es| - 1] == Rest(es)[|Rest(es)| - 1];
  }
}
