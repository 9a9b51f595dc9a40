/** packages/runtime/src/queue-store-lifecycle.ts: what happens to queued rows when the
    manifest of an (owner, repo) is replaced, and at boot. A manifest is reduced to the queue
    names each of its workflows declares. */
module QueueLifecycle {
  import opened Basics
  import opened QueueStore

  type Manifest = map<string, seq<string>>

  datatype WorkflowDiff = WorkflowDiff(workflow: string, removed: seq<string>)

  predicate Declared(m: Manifest, workflow: string, queue: string) { workflow in m && queue in m[workflow] }

  // ---------------------------------------------------------------------------
  // The diff
  // ---------------------------------------------------------------------------

  predicate WorkflowGone(was: Manifest, now: Manifest, workflow: string) { workflow in was && workflow !in now }

  predicate QueueGone(was: Manifest, now: Manifest, workflow: string, queue: string) {
    workflow in now && Declared(was, workflow, queue) && !Declared(now, workflow, queue)
  }

  predicate Listed(per: seq<WorkflowDiff>, workflow: string, queue: string) {
    exists i :: 0 <= i < |per| && per[i].workflow == workflow && queue in per[i].removed
  }

  method RemovedQueues(was: seq<string>, now: seq<string>) returns (removed: seq<string>)
    ensures forall q :: q in removed <==> q in was && q !in now
  {
    removed := [];
    for i := 0 to |was|
      invariant forall q :: q in removed <==> q in was[..i] && q !in now
    {
      assert was[..i + 1] == was[..i] + [was[i]];
      if was[i] !in now && was[i] !in removed { removed := removed + [was[i]]; }
    }
    assert was[..|was|] == was;
  }

  method DiffManifests(was: Manifest, now: Manifest) returns (gone: seq<string>, per: seq<WorkflowDiff>)
    ensures forall w :: w in gone <==> WorkflowGone(was, now, w)
    ensures forall w, q :: Listed(per, w, q) <==> QueueGone(was, now, w, q)
  {
    gone := [];
    var todo := was.Keys;
    while todo != {}
      invariant todo <= was.Keys
      invariant forall w :: w in gone <==> WorkflowGone(was, now, w) && w !in todo
      decreases |todo|
    {
      var name :| name in todo;
      if name !in now { gone := gone + [name]; }
      todo := todo - {name};
    }
    per := [];
    todo := now.Keys;
    while todo != {}
      invariant todo <= now.Keys
      invariant forall w, q :: Listed(per, w, q) <==> QueueGone(was, now, w, q) && w !in todo
      decreases |todo|
    {
      var name :| name in todo;
      if name in was {
        var removed := RemovedQueues(was[name], now[name]);
        if removed != [] {
          ListedMore(per, WorkflowDiff(name, removed));
          per := per + [WorkflowDiff(name, removed)];
        } else {
          assert forall q :: q !in removed;
        }
      }
      todo := todo - {name};
    }
  }

  lemma {:induction false} ListedMore(per: seq<WorkflowDiff>, d: WorkflowDiff)
    ensures forall w, q :: Listed(per + [d], w, q) <==> Listed(per, w, q) || (w == d.workflow && q in d.removed)
  {
    forall w, q ensures Listed(per + [d], w, q) <==> Listed(per, w, q) || (w == d.workflow && q in d.removed) {
      if Listed(per, w, q) {
        var i :| 0 <= i < |per| && per[i].workflow == w && q in per[i].removed;
        assert (per + [d])[i] == per[i];
      }
      if w == d.workflow && q in d.removed { assert (per + [d])[|per|] == d; }
    }
  }

  // ---------------------------------------------------------------------------
  // Applying it
  // ---------------------------------------------------------------------------

  function DeleteEach(t: Table, ops: seq<Where>): Table {
    if ops == [] then t else DeleteWhere(DeleteEach(t, ops[..|ops| - 1]), ops[|ops| - 1])
  }

  predicate Hit(ops: seq<Where>, r: Row) { exists i :: 0 <= i < |ops| && Match(ops[i], r) }

  lemma {:induction false} DeleteEachKeeps(t: Table, ops: seq<Where>)
    ensures forall k :: k in DeleteEach(t, ops).rows <==> k in t.rows && !Hit(ops, t.rows[k])
    ensures forall k :: k in DeleteEach(t, ops).rows ==> DeleteEach(t, ops).rows[k] == t.rows[k]
    ensures DeleteEach(t, ops).next == t.next
  {
    if ops != [] {
      var n := |ops| - 1;
      DeleteEachKeeps(t, ops[..n]);
      forall r: Row ensures Hit(ops, r) <==> Hit(ops[..n], r) || Match(ops[n], r) {
        if Hit(ops[..n], r) { var i :| 0 <= i < n && Match(ops[..n][i], r); assert Match(ops[i], r); }
        if Hit(ops, r) && !Match(ops[n], r) { var i :| 0 <= i < |ops| && Match(ops[i], r); assert Match(ops[..n][i], r); }
      }
    }
  }

  /** The deletions commute: concurrent completion order does not matter. */
  lemma {:induction false} AnyOrderSame(t: Table, a: seq<Where>, b: seq<Where>)
    requires multiset(a) == multiset(b)
    ensures DeleteEach(t, a) == DeleteEach(t, b)
  {
    DeleteEachKeeps(t, a);
    DeleteEachKeeps(t, b);
    forall r: Row ensures Hit(a, r) <==> Hit(b, r) {
      if Hit(a, r) { HitMoves(a, b, r); }
      if Hit(b, r) { HitMoves(b, a, r); }
    }
    assert DeleteEach(t, a).rows == DeleteEach(t, b).rows;
  }

  lemma {:induction false} HitMoves(a: seq<Where>, b: seq<Where>, r: Row)
    requires multiset(a) == multiset(b) && Hit(a, r)
    ensures Hit(b, r)
  {
    var i :| 0 <= i < |a| && Match(a[i], r);
    assert a[i] in multiset(b);
    var j :| 0 <= j < |b| && b[j] == a[i];
    assert Match(b[j], r);
  }

  /** The deletions of one upload, listed in any order. */
  ghost predicate UploadOps(owner: string, repo: string, was: Manifest, now: Manifest, ops: seq<Where>) {
    && (forall w :: WorkflowGone(was, now, w) <==> Workflow(owner, repo, w) in ops)
    && (forall w, q :: QueueGone(was, now, w, q) <==> Queue(Scope(owner, repo, w, q)) in ops)
    && (forall i :: 0 <= i < |ops| ==> OpOf(ops[i], owner, repo))
  }

  predicate OpOf(op: Where, owner: string, repo: string) {
    match op
    case Workflow(o, r, _) => o == owner && r == repo
    case Queue(s) => s.owner == owner && s.repo == repo
    case Partition(_, _) => false
  }

  predicate OfRepo(r: Row, owner: string, repo: string) { r.scope.owner == owner && r.scope.repo == repo }

  /** Declared by neither manifest, and its workflow is not being removed. */
  predicate Stray(r: Row, was: Manifest, now: Manifest) {
    !Declared(was, r.scope.workflow, r.scope.queue) && !Declared(now, r.scope.workflow, r.scope.queue)
      && !WorkflowGone(was, now, r.scope.workflow)
  }

  lemma {:induction false} UploadHits(owner: string, repo: string, was: Manifest, now: Manifest, ops: seq<Where>, r: Row)
    requires UploadOps(owner, repo, was, now, ops)
    ensures OfRepo(r, owner, repo) ==>
      (Hit(ops, r) <==> WorkflowGone(was, now, r.scope.workflow) || QueueGone(was, now, r.scope.workflow, r.scope.queue))
    ensures !OfRepo(r, owner, repo) ==> !Hit(ops, r)
  {
    var w, q := r.scope.workflow, r.scope.queue;
    if OfRepo(r, owner, repo) && WorkflowGone(was, now, w) {
      var i :| 0 <= i < |ops| && ops[i] == Workflow(owner, repo, w);
      assert Match(ops[i], r);
    }
    if OfRepo(r, owner, repo) && QueueGone(was, now, w, q) {
      var i :| 0 <= i < |ops| && ops[i] == Queue(Scope(owner, repo, w, q));
      assert Match(ops[i], r);
    }
    if Hit(ops, r) {
      var i :| 0 <= i < |ops| && Match(ops[i], r);
      assert OpOf(ops[i], owner, repo) && ops[i] in ops;
      if ops[i].Workflow? { assert ops[i] == Workflow(owner, repo, w); } else { assert ops[i] == Queue(Scope(owner, repo, w, q)); }
    }
  }

  /** An upload never touches another repo, never deletes a row of a queue that the new
      manifest declares, and leaves exactly those of the repo when, and only when, no row
      was stray before. */
  lemma {:induction false} UploadKeepsDeclared(owner: string, repo: string, was: Manifest, now: Manifest, ops: seq<Where>, t: Table)
    requires UploadOps(owner, repo, was, now, ops)
    ensures var u := DeleteEach(t, ops).rows;
      && (forall k :: k in t.rows && !OfRepo(t.rows[k], owner, repo) ==> k in u)
      && (forall k :: k in t.rows && Declared(now, t.rows[k].scope.workflow, t.rows[k].scope.queue) ==> k in u)
      && (forall k :: k in u ==> k in t.rows && u[k] == t.rows[k])
      && ((forall k :: k in t.rows && k in u && OfRepo(t.rows[k], owner, repo) ==>
        Declared(now, t.rows[k].scope.workflow, t.rows[k].scope.queue))
          <==> (forall k :: k in t.rows && OfRepo(t.rows[k], owner, repo) ==> !Stray(t.rows[k], was, now)))
  {
    DeleteEachKeeps(t, ops);
    forall r: Row { UploadHits(owner, repo, was, now, ops, r); }
    var u := DeleteEach(t, ops).rows;
    forall k | k in t.rows && OfRepo(t.rows[k], owner, repo)
      ensures k in u <==> Declared(now, t.rows[k].scope.workflow, t.rows[k].scope.queue) || Stray(t.rows[k], was, now)
    {
    }
  }

  function WorkflowOps(owner: string, repo: string, gone: seq<string>): (r: seq<Where>)
    ensures |r| == |gone| && forall i :: 0 <= i < |gone| ==> r[i] == Workflow(owner, repo, gone[i])
  {
    seq(|gone|, i requires 0 <= i < |gone| => Workflow(owner, repo, gone[i]))
  }

  function QueueOps(owner: string, repo: string, workflow: string, removed: seq<string>): (r: seq<Where>)
    ensures |r| == |removed| && forall i :: 0 <= i < |removed| ==> r[i] == Queue(Scope(owner, repo, workflow, removed[i]))
  {
    seq(|removed|, i requires 0 <= i < |removed| => Queue(Scope(owner, repo, workflow, removed[i])))
  }

  /** `flatMap` over the per-workflow diffs. */
  function AllQueueOps(owner: string, repo: string, per: seq<WorkflowDiff>): seq<Where> {
    if per == [] then []
    else AllQueueOps(owner, repo, per[..|per| - 1]) + QueueOps(owner, repo, per[|per| - 1].workflow, per[|per| - 1].removed)
  }

  function DiffOps(owner: string, repo: string, gone: seq<string>, per: seq<WorkflowDiff>): seq<Where> {
    WorkflowOps(owner, repo, gone) + AllQueueOps(owner, repo, per)
  }

  lemma {:induction false} AllQueueOpsListed(owner: string, repo: string, per: seq<WorkflowDiff>, op: Where)
    ensures op in AllQueueOps(owner, repo, per) <==>
      op.Queue? && op.scope.owner == owner && op.scope.repo == repo && Listed(per, op.scope.workflow, op.scope.queue)
  {
    if per != [] {
      var n := |per| - 1;
      assert per == per[..n] + [per[n]];
      AllQueueOpsListed(owner, repo, per[..n], op);
      ListedMore(per[..n], per[n]);
      var last := QueueOps(owner, repo, per[n].workflow, per[n].removed);
      if op.Queue? && op.scope.owner == owner && op.scope.repo == repo && op.scope.workflow == per[n].workflow
        && op.scope.queue in per[n].removed
      {
        var i :| 0 <= i < |per[n].removed| && per[n].removed[i] == op.scope.queue;
        assert last[i] == op;
      }
    }
  }

  lemma {:induction false} DiffIsUpload(owner: string, repo: string, was: Manifest, now: Manifest, gone: seq<string>,
    per: seq<WorkflowDiff>)
    requires forall w :: w in gone <==> WorkflowGone(was, now, w)
    requires forall w, q :: Listed(per, w, q) <==> QueueGone(was, now, w, q)
    ensures UploadOps(owner, repo, was, now, DiffOps(owner, repo, gone, per))
  {
    var a, b := WorkflowOps(owner, repo, gone), AllQueueOps(owner, repo, per);
    var ops := DiffOps(owner, repo, gone, per);
    forall op: Where { AllQueueOpsListed(owner, repo, per, op); }
    forall w ensures WorkflowGone(was, now, w) <==> Workflow(owner, repo, w) in ops {
      if w in gone {
        var i :| 0 <= i < |gone| && gone[i] == w;
        assert a[i] == Workflow(owner, repo, w);
      }
    }
    forall w, q ensures QueueGone(was, now, w, q) <==> Queue(Scope(owner, repo, w, q)) in ops {
      assert Queue(Scope(owner, repo, w, q)) in b <==> Listed(per, w, q);
    }
    forall i | 0 <= i < |ops| ensures OpOf(ops[i], owner, repo) {
      if i >= |a| { assert ops[i] == b[i - |a|] && ops[i] in b; }
    }
  }

  lemma {:induction false} DeleteEachConcat(t: Table, a: seq<Where>, b: seq<Where>)
    ensures DeleteEach(t, a + b) == DeleteEach(DeleteEach(t, a), b)
  {
    if b == [] {
      assert a + b == a;
    } else {
      var n := |b| - 1;
      assert (a + b)[..|a| + n] == a + b[..n];
      DeleteEachConcat(t, a, b[..n]);
    }
  }

  lemma {:induction false} DeleteNext(t: Table, ops: seq<Where>, n: nat)
    requires n < |ops|
    ensures DeleteEach(t, ops[..n + 1]) == DeleteWhere(DeleteEach(t, ops[..n]), ops[n])
  {
    assert ops[..n + 1][..n] == ops[..n];
  }

  method RemoveWorkflows(store: Store, owner: string, repo: string, gone: seq<string>)
    modifies store`rows
    ensures store.Abs() == DeleteEach(old(store.Abs()), WorkflowOps(owner, repo, gone))
  {
    ghost var ops := WorkflowOps(owner, repo, gone);
    assert ops[..0] == [];
    for i := 0 to |gone|
      invariant store.Abs() == DeleteEach(old(store.Abs()), ops[..i])
    {
      var _ := store.RemoveDeclaration(owner, repo, gone[i], None);
      DeleteNext(old(store.Abs()), ops, i);
    }
    assert ops[..|gone|] == ops;
  }

  method RemoveQueues(store: Store, owner: string, repo: string, d: WorkflowDiff)
    modifies store`rows
    ensures store.Abs() == DeleteEach(old(store.Abs()), QueueOps(owner, repo, d.workflow, d.removed))
  {
    ghost var ops := QueueOps(owner, repo, d.workflow, d.removed);
    assert ops[..0] == [];
    for j := 0 to |d.removed|
      invariant store.Abs() == DeleteEach(old(store.Abs()), ops[..j])
    {
      var _ := store.RemoveDeclaration(owner, repo, d.workflow, Some(d.removed[j]));
      DeleteNext(old(store.Abs()), ops, j);
    }
    assert ops[..|d.removed|] == ops;
  }

  /** One DELETE per entry of the diff, here in list order. */
  method ApplyQueueDiff(store: Store, owner: string, repo: string, gone: seq<string>, per: seq<WorkflowDiff>)
    modifies store`rows
    ensures store.Abs() == DeleteEach(old(store.Abs()), DiffOps(owner, repo, gone, per))
  {
    RemoveWorkflows(store, owner, repo, gone);
    ghost var mid := store.Abs();
    assert per[..0] == [];
    for i := 0 to |per|
      invariant store.Abs() == DeleteEach(mid, AllQueueOps(owner, repo, per[..i]))
    {
      RemoveQueues(store, owner, repo, per[i]);
      NextDiff(mid, owner, repo, per, i);
    }
    assert per[..|per|] == per;
    DeleteEachConcat(old(store.Abs()), WorkflowOps(owner, repo, gone), AllQueueOps(owner, repo, per));
  }

  lemma {:induction false} NextDiff(t: Table, owner: string, repo: string, per: seq<WorkflowDiff>, i: nat)
    requires i < |per|
    ensures DeleteEach(t, AllQueueOps(owner, repo, per[..i + 1]))
         == DeleteEach(DeleteEach(t, AllQueueOps(owner, repo, per[..i])), QueueOps(owner, repo, per[i].workflow, per[i].removed))
  {
    assert per[..i + 1][..i] == per[..i];
    DeleteEachConcat(t, AllQueueOps(owner, repo, per[..i]), QueueOps(owner, repo, per[i].workflow, per[i].removed));
  }

  // ---------------------------------------------------------------------------
  // Boot
  // ---------------------------------------------------------------------------

  type Loaded = map<string, map<string, Manifest>>

  predicate LoadedHas(l: Loaded, s: Scope) {
    s.owner in l && s.repo in l[s.owner] && Declared(l[s.owner][s.repo], s.workflow, s.queue)
  }

  method RepoTuples(owner: string, repo: string, m: Manifest) returns (tuples: seq<Scope>)
    ensures forall s :: s in tuples <==> s.owner == owner && s.repo == repo && Declared(m, s.workflow, s.queue)
  {
    tuples := [];
    var todo := m.Keys;
    while todo != {}
      invariant todo <= m.Keys
      invariant forall s :: s in tuples <==> s.owner == owner && s.repo == repo && s.workflow !in todo && Declared(m, s.workflow, s.queue)
      decreases |todo|
    {
      var w :| w in todo;
      var mine := WorkflowTuples(owner, repo, w, m[w]);
      tuples := tuples + mine;
      todo := todo - {w};
    }
  }

  method WorkflowTuples(owner: string, repo: string, w: string, queues: seq<string>) returns (tuples: seq<Scope>)
    ensures forall s :: s in tuples <==> s.owner == owner && s.repo == repo && s.workflow == w && s.queue in queues
  {
    tuples := [];
    for i := 0 to |queues|
      invariant forall s :: s in tuples <==> s.owner == owner && s.repo == repo && s.workflow == w && s.queue in queues[..i]
    {
      tuples := tuples + [Scope(owner, repo, w, queues[i])];
    }
    assert queues[..|queues|] == queues;
  }

  method OwnerTuples(owner: string, repos: map<string, Manifest>) returns (tuples: seq<Scope>)
    ensures forall s :: s in tuples <==> s.owner == owner && s.repo in repos && Declared(repos[s.repo], s.workflow, s.queue)
  {
    tuples := [];
    var todo := repos.Keys;
    while todo != {}
      invariant todo <= repos.Keys
      invariant forall s :: s in tuples <==>
        s.owner == owner && s.repo in repos && s.repo !in todo && Declared(repos[s.repo], s.workflow, s.queue)
      decreases |todo|
    {
      var repo :| repo in todo;
      var mine := RepoTuples(owner, repo, repos[repo]);
      tuples := tuples + mine;
      todo := todo - {repo};
    }
  }

  method LoadedTuples(l: Loaded) returns (tuples: seq<Scope>)
    ensures forall s :: s in tuples <==> LoadedHas(l, s)
  {
    tuples := [];
    var todo := l.Keys;
    while todo != {}
      invariant todo <= l.Keys
      invariant forall s :: s in tuples <==> LoadedHas(l, s) && s.owner !in todo
      decreases |todo|
    {
      var owner :| owner in todo;
      var mine := OwnerTuples(owner, l[owner]);
      tuples := tuples + mine;
      todo := todo - {owner};
    }
  }

  /** Boot deletes no row of a loaded queue, and every other row if names are plain. */
  method ReconcileOnBoot(store: Store, l: Loaded) returns (removed: nat)
    modifies store`rows
    ensures forall k :: k in old(store.rows) && LoadedHas(l, old(store.rows)[k].scope) ==> k in store.rows
    ensures forall k :: k in store.rows ==> k in old(store.rows) && store.rows[k] == old(store.rows)[k]
    ensures (forall k :: k in old(store.rows) ==> Plain(old(store.rows)[k].scope)) && (forall s :: LoadedHas(l, s) ==> Plain(s)) ==>
      forall k :: k in store.rows ==> LoadedHas(l, store.rows[k].scope)
    ensures removed == |old(store.rows)| - |store.rows|
  {
    var tuples := LoadedTuples(l);
    removed := store.ReconcileTuples(tuples);
    forall k | k in old(store.rows) ensures LoadedHas(l, old(store.rows)[k].scope) ==> k in store.rows {
      var s := old(store.rows)[k].scope;
      if s in tuples { var i :| 0 <= i < |tuples| && tuples[i] == s; assert TupleKey(tuples[i]) in KeysOf(tuples); }
    }
    if (forall k :: k in old(store.rows) ==> Plain(old(store.rows)[k].scope)) && (forall s :: LoadedHas(l, s) ==> Plain(s)) {
      forall k | k in store.rows ensures LoadedHas(l, store.rows[k].scope) {
        forall i | 0 <= i < |tuples| ensures Plain(tuples[i]) { assert tuples[i] in tuples; }
        ReconcileKeepsDeclared(old(store.Abs()), tuples, k);
      }
    }
  }

  /** If every row was declared by what was loaded before, then after an upload every row is
      declared by what is loaded now, so a boot right after it removes nothing. */
  lemma {:induction false} UploadLeavesNothingToBoot(t: Table, l: Loaded, owner: string, repo: string, now: Manifest,
    ops: seq<Where>, tuples: seq<Scope>)
    requires owner in l && repo in l[owner] && UploadOps(owner, repo, l[owner][repo], now, ops)
    requires forall k :: k in t.rows ==> LoadedHas(l, t.rows[k].scope)
    requires forall s :: s in tuples <==> LoadedHas(l[owner := l[owner][repo := now]], s)
    ensures Reconcile(DeleteEach(t, ops), KeysOf(tuples)) == DeleteEach(t, ops)
  {
    var u := DeleteEach(t, ops);
    UploadKeepsDeclared(owner, repo, l[owner][repo], now, ops, t);
    forall k | k in u.rows ensures DeclaredKey(KeysOf(tuples), u.rows[k]) {
      var s := u.rows[k].scope;
      assert LoadedHas(l, s);
      assert !Stray(t.rows[k], l[owner][repo], now) || !OfRepo(t.rows[k], owner, repo);
      assert s in tuples;
      var i :| 0 <= i < |tuples| && tuples[i] == s;
      assert TupleKey(tuples[i]) in KeysOf(tuples);
    }
    assert Undeclared(u.rows, KeysOf(tuples)) == {};
  }

  /** A row put under a queue name that neither manifest declares outlives the upload and
      is deleted by the next boot. */
  lemma {:induction false} StrayRowOutlivesUpload(owner: string, repo: string, m: Manifest, ops: seq<Where>, t: Table, k: nat,
    tuples: seq<Scope>)
    requires UploadOps(owner, repo, m, m, ops) && k in t.rows && OfRepo(t.rows[k], owner, repo)
    requires !Declared(m, t.rows[k].scope.workflow, t.rows[k].scope.queue) && Plain(t.rows[k].scope)
    requires (forall i :: 0 <= i < |tuples| ==> Plain(tuples[i])) && t.rows[k].scope !in tuples
    ensures k in DeleteEach(t, ops).rows && k !in Reconcile(DeleteEach(t, ops), KeysOf(tuples)).rows
  {
    DeleteEachKeeps(t, ops);
    UploadHits(owner, repo, m, m, ops, t.rows[k]);
    ReconcileKeepsDeclared(DeleteEach(t, ops), tuples, k);
  }

  /** For the rows of the uploaded repo the incremental deletions and a full reconcile agree
      exactly when no row was stray. */
  lemma {:induction false} IncrementalIsReconcile(t: Table, owner: string, repo: string, was: Manifest, now: Manifest,
    ops: seq<Where>, tuples: seq<Scope>)
    requires UploadOps(owner, repo, was, now, ops)
    requires (forall i :: 0 <= i < |tuples| ==> Plain(tuples[i])) && (forall k :: k in t.rows ==> Plain(t.rows[k].scope))
    requires forall w, q :: Scope(owner, repo, w, q) in tuples <==> Declared(now, w, q)
    ensures (forall k :: k in t.rows && OfRepo(t.rows[k], owner, repo) ==>
      (k in DeleteEach(t, ops).rows <==> k in Reconcile(t, KeysOf(tuples)).rows))
       <==> (forall k :: k in t.rows && OfRepo(t.rows[k], owner, repo) ==> !Stray(t.rows[k], was, now))
  {
    DeleteEachKeeps(t, ops);
    forall k | k in t.rows && OfRepo(t.rows[k], owner, repo)
      ensures (k in DeleteEach(t, ops).rows <==> k in Reconcile(t, KeysOf(tuples)).rows) <==> !Stray(t.rows[k], was, now)
    {
      var s := t.rows[k].scope;
      UploadHits(owner, repo, was, now, ops, t.rows[k]);
      ReconcileKeepsDeclared(t, tuples, k);
      assert s == Scope(owner, repo, s.workflow, s.queue);
    }
  }
}
