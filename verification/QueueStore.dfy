/** packages/runtime/src/queue-store.ts: durable FIFO queues in one table.

    The table is an unordered map from `seq` to row; `next` is the AUTOINCREMENT counter,
    which never goes back. `View` lists the rows a WHERE clause selects in `seq` order, and
    the results say that each (queue, key) partition of the table behaves as a FIFO. */
module QueueStore {
  import opened Basics

  datatype Scope = Scope(owner: string, repo: string, workflow: string, queue: string)
  datatype Producer = Producer(enqueuedAt: string, invocationId: string, triggerKind: string, triggerName: string)
  datatype Row = Row(scope: Scope, key: string, item: string, producer: Producer)
  datatype Stored = Stored(seqNo: nat, row: Row)

  /** The WHERE clauses in use. */
  datatype Where =
    | Partition(scope: Scope, key: string)
    | Queue(scope: Scope)
    | Workflow(owner: string, repo: string, workflow: string)

  datatype Table = Table(rows: map<nat, Row>, next: nat)

  const Empty := Table(map[], 0)
  const MaxItemBytes: nat := 1024

  predicate Match(w: Where, r: Row) {
    match w
    case Partition(s, k) => r.scope == s && r.key == k
    case Queue(s) => r.scope == s
    case Workflow(o, p, f) => r.scope.owner == o && r.scope.repo == p && r.scope.workflow == f
  }

  function PartitionOf(r: Row): Where { Partition(r.scope, r.key) }
  function WorkflowOf(r: Row): Where { Workflow(r.scope.owner, r.scope.repo, r.scope.workflow) }

  predicate Valid(t: Table) { forall k :: k in t.rows ==> k < t.next }

  // ---------------------------------------------------------------------------
  // Rows in seq order
  // ---------------------------------------------------------------------------

  /** Selected rows with `seq` below `n`, ascending. */
  function ViewTo(rows: map<nat, Row>, w: Where, n: nat): seq<Stored> {
    if n == 0 then []
    else if n - 1 in rows && Match(w, rows[n - 1]) then ViewTo(rows, w, n - 1) + [Stored(n - 1, rows[n - 1])]
    else ViewTo(rows, w, n - 1)
  }

  function View(t: Table, w: Where): seq<Stored> { ViewTo(t.rows, w, t.next) }

  lemma {:induction false} ViewMember(rows: map<nat, Row>, w: Where, n: nat, e: Stored)
    ensures e in ViewTo(rows, w, n) <==> e.seqNo < n && e.seqNo in rows && rows[e.seqNo] == e.row && Match(w, e.row)
  {
    if n > 0 { ViewMember(rows, w, n - 1, e); }
  }

  lemma {:induction false} ViewAscending(rows: map<nat, Row>, w: Where, n: nat)
    ensures forall i, j :: 0 <= i < j < |ViewTo(rows, w, n)| ==> ViewTo(rows, w, n)[i].seqNo < ViewTo(rows, w, n)[j].seqNo
  {
    if n > 0 {
      ViewAscending(rows, w, n - 1);
      var v := ViewTo(rows, w, n - 1);
      forall i | 0 <= i < |v| ensures v[i].seqNo < n - 1 { ViewMember(rows, w, n - 1, v[i]); }
    }
  }

  predicate SameBelow(a: map<nat, Row>, b: map<nat, Row>, w: Where, n: nat) {
    forall k: nat :: k < n ==> (k in a && Match(w, a[k]) <==> k in b && Match(w, b[k])) && (k in a && Match(w, a[k]) ==> b[k] == a[k])
  }

  lemma {:induction false} ViewAgrees(a: map<nat, Row>, b: map<nat, Row>, w: Where, n: nat)
    requires SameBelow(a, b, w, n)
    ensures ViewTo(a, w, n) == ViewTo(b, w, n)
  {
    if n > 0 { ViewAgrees(a, b, w, n - 1); }
  }

  /** The seq numbers a WHERE clause selects. */
  function Selected(rows: map<nat, Row>, w: Where): set<nat> { set k | k in rows && Match(w, rows[k]) }

  lemma {:induction false} ViewSize(rows: map<nat, Row>, w: Where, n: nat)
    ensures |ViewTo(rows, w, n)| == |set k | k in Selected(rows, w) && k < n|
  {
    var s := set k | k in Selected(rows, w) && k < n;
    if n == 0 {
      assert s == {};
    } else {
      ViewSize(rows, w, n - 1);
      var s1 := set k | k in Selected(rows, w) && k < n - 1;
      assert s == if n - 1 in Selected(rows, w) then s1 + {n - 1} else s1;
    }
  }

  // ---------------------------------------------------------------------------
  // Statements
  // ---------------------------------------------------------------------------

  function Insert(t: Table, r: Row): Table { Table(t.rows[t.next := r], t.next + 1) }

  function Delete(t: Table, gone: set<nat>): Table { t.(rows := t.rows - gone) }

  /** DELETE of the smallest selected seq, with the row it returns. */
  function Pop(t: Table, w: Where): (Table, Option<Row>) {
    var v := View(t, w);
    if v == [] then (t, None) else (Delete(t, {v[0].seqNo}), Some(v[0].row))
  }

  function DeleteWhere(t: Table, w: Where): Table { Delete(t, Selected(t.rows, w)) }

  /** The head of the view is MIN(seq). */
  lemma {:induction false} HeadIsMin(t: Table, w: Where)
    requires Valid(t)
    ensures View(t, w) == [] <==> Selected(t.rows, w) == {}
    ensures View(t, w) != [] ==> View(t, w)[0].seqNo in Selected(t.rows, w) && forall k :: k in Selected(t.rows, w) ==>
      View(t, w)[0].seqNo <= k
  {
    var v := View(t, w);
    ViewAscending(t.rows, w, t.next);
    if v != [] {
      ViewMember(t.rows, w, t.next, v[0]);
      assert v[0] in v && v[0].seqNo in Selected(t.rows, w);
    }
    forall k | k in Selected(t.rows, w) ensures v != [] && v[0].seqNo <= k {
      ViewMember(t.rows, w, t.next, Stored(k, t.rows[k]));
      var i :| 0 <= i < |v| && v[i] == Stored(k, t.rows[k]);
    }
    assert v == [] ==> Selected(t.rows, w) == {};
  }

  /** An insert appends to every view that selects the row and leaves the others alone. */
  lemma {:induction false} InsertAppends(t: Table, r: Row, w: Where)
    requires Valid(t)
    ensures Valid(Insert(t, r))
    ensures View(Insert(t, r), w) == if Match(w, r) then View(t, w) + [Stored(t.next, r)] else View(t, w)
  {
    ViewAgrees(t.rows, Insert(t, r).rows, w, t.next);
  }

  /** Deleting rows that a view does not select leaves it alone. */
  lemma {:induction false} DeleteElsewhere(t: Table, gone: set<nat>, w: Where)
    requires Valid(t) && forall k :: k in gone && k in t.rows ==> !Match(w, t.rows[k])
    ensures Valid(Delete(t, gone)) && View(Delete(t, gone), w) == View(t, w)
  {
    ViewAgrees(t.rows, Delete(t, gone).rows, w, t.next);
  }

  lemma {:induction false} DeleteAll(t: Table, gone: set<nat>, w: Where)
    requires Valid(t) && forall k :: k in t.rows && Match(w, t.rows[k]) ==> k in gone
    ensures Valid(Delete(t, gone)) && View(Delete(t, gone), w) == []
  {
    var u := Delete(t, gone);
    assert Selected(u.rows, w) == {};
    HeadIsMin(u, w);
  }

  lemma {:induction false} DeleteHead(rows: map<nat, Row>, w: Where, n: nat)
    requires ViewTo(rows, w, n) != []
    ensures ViewTo(rows - {ViewTo(rows, w, n)[0].seqNo}, w, n) == ViewTo(rows, w, n)[1..]
  {
    var v := ViewTo(rows, w, n);
    var m := v[0].seqNo;
    var u := ViewTo(rows, w, n - 1);
    if u == [] {
      assert m == n - 1;
      ViewAgrees(rows, rows - {m}, w, n - 1);
    } else {
      DeleteHead(rows, w, n - 1);
      ViewMember(rows, w, n - 1, u[0]);
      if |v| > |u| { assert v[1..] == u[1..] + [v[|v| - 1]]; }
    }
  }

  /** `get`: the head of its own partition leaves, every other partition stays. */
  lemma {:induction false} PopTakesHead(t: Table, p: Where, q: Where)
    requires Valid(t) && p.Partition? && q.Partition?
    ensures var (u, r) := Pop(t, p); Valid(u) && u.next == t.next
    ensures var (u, r) := Pop(t, p); r.None? <==> View(t, p) == []
    ensures var (u, r) := Pop(t, p); r.Some? ==> r.value == View(t, p)[0].row && View(u, p) == View(t, p)[1..]
    ensures var (u, r) := Pop(t, p); q != p || r.None? ==> View(u, q) == View(t, q)
  {
    var v := View(t, p);
    if v != [] {
      DeleteHead(t.rows, p, t.next);
      ViewMember(t.rows, p, t.next, v[0]);
      if q != p { DeleteElsewhere(t, {v[0].seqNo}, q); }
    }
  }

  // ---------------------------------------------------------------------------
  // `count` and `list`
  // ---------------------------------------------------------------------------

  function Count(t: Table, scope: Scope): nat { |Selected(t.rows, Queue(scope))| }

  function Clip(n: nat, bound: nat): nat { if n <= bound then n else bound }

  /** ORDER BY seq OFFSET offset LIMIT limit. */
  function List(t: Table, scope: Scope, offset: nat, limit: nat): seq<Stored> {
    var v := View(t, Queue(scope));
    var from := Clip(offset, |v|);
    v[from..from + Clip(limit, |v| - from)]
  }

  /** Entries with the given key, order kept. */
  function OfKey(v: seq<Stored>, key: string): seq<Stored> {
    if v == [] then []
    else if v[|v| - 1].row.key == key then OfKey(v[..|v| - 1], key) + [v[|v| - 1]]
    else OfKey(v[..|v| - 1], key)
  }

  lemma {:induction false} PartitionOfQueue(rows: map<nat, Row>, scope: Scope, key: string, n: nat)
    ensures ViewTo(rows, Partition(scope, key), n) == OfKey(ViewTo(rows, Queue(scope), n), key)
  {
    if n > 0 {
      PartitionOfQueue(rows, scope, key, n - 1);
      var v, u := ViewTo(rows, Queue(scope), n), ViewTo(rows, Queue(scope), n - 1);
      if v != u { assert v[..|v| - 1] == u; }
    }
  }

  /** `count` is the length of the queue's merged sequence; listing pages one after the
      other walks through it; each partition is the subsequence with its key. */
  lemma {:induction false} CountAndListAgree(t: Table, scope: Scope, key: string, a: nat, b: nat, c: nat)
    requires Valid(t)
    ensures Count(t, scope) == |View(t, Queue(scope))|
    ensures List(t, scope, 0, Count(t, scope)) == View(t, Queue(scope))
    ensures List(t, scope, a, b) + List(t, scope, a + b, c) == List(t, scope, a, b + c)
    ensures View(t, Partition(scope, key)) == OfKey(View(t, Queue(scope)), key)
  {
    ViewSize(t.rows, Queue(scope), t.next);
    assert Selected(t.rows, Queue(scope)) == set k | k in Selected(t.rows, Queue(scope)) && k < t.next;
    PartitionOfQueue(t.rows, scope, key, t.next);
    PagesJoin(t, scope, a, b, c);
    assert List(t, scope, 0, Count(t, scope)) == View(t, Queue(scope)) by { PageIs(t, scope, 0, Count(t, scope)); }
  }

  lemma {:induction false} PagesJoin(t: Table, scope: Scope, a: nat, b: nat, c: nat)
    ensures List(t, scope, a, b) + List(t, scope, a + b, c) == List(t, scope, a, b + c)
  {
    PageIs(t, scope, a, b);
    PageIs(t, scope, a + b, c);
    PageIs(t, scope, a, b + c);
  }

  /** A page holds as many rows as are left, up to the limit, and they are the ones at the
      offset and after it. */
  lemma {:induction false} PageIs(t: Table, scope: Scope, offset: nat, limit: nat)
    ensures var v, page := View(t, Queue(scope)), List(t, scope, offset, limit);
      && (offset >= |v| ==> page == [])
      && (offset < |v| ==> |page| == if limit <= |v| - offset then limit else |v| - offset)
      && (forall i :: 0 <= i < |page| ==> page[i] == v[offset + i])
  {
  }

  // ---------------------------------------------------------------------------
  // Tuple keys and reconcile
  // ---------------------------------------------------------------------------

  function TupleKey(s: Scope): string { s.owner + " " + s.repo + " " + s.workflow + " " + s.queue }

  predicate NoSpace(s: string) { ' ' !in s }

  lemma {:induction false} FirstFieldAgrees(a: string, x: string, b: string, y: string)
    requires NoSpace(a) && NoSpace(b) && a + " " + x == b + " " + y
    ensures a == b && x == y
  {
    var s, t := a + " " + x, b + " " + y;
    assert s[|a|] == ' ' && t[|b|] == ' ';
    forall i | 0 <= i < |a| ensures s[i] != ' ' { assert s[i] == a[i]; }
    forall i | 0 <= i < |b| ensures t[i] != ' ' { assert t[i] == b[i]; }
    assert |a| == |b|;
    assert a == s[..|a|] && b == t[..|b|];
    assert x == s[|a| + 1..] && y == t[|b| + 1..];
  }

  lemma {:induction false} LastFieldAgrees(x: string, a: string, y: string, b: string)
    requires NoSpace(a) && NoSpace(b) && x + " " + a == y + " " + b
    ensures a == b && x == y
  {
    var s, t := x + " " + a, y + " " + b;
    assert s[|x|] == ' ' && t[|y|] == ' ';
    forall i | |x| < i < |s| ensures s[i] != ' ' { assert s[i] == a[i - |x| - 1]; }
    forall i | |y| < i < |t| ensures t[i] != ' ' { assert t[i] == b[i - |y| - 1]; }
    assert |x| == |y|;
    assert x == s[..|x|] && y == t[..|y|];
    assert a == s[|x| + 1..] && b == t[|y| + 1..];
  }

  predicate Plain(s: Scope) { NoSpace(s.owner) && NoSpace(s.repo) && NoSpace(s.queue) }

  /** Workflow names may contain spaces. */
  lemma {:induction false} TupleKeyInjective(s: Scope, t: Scope)
    requires Plain(s) && Plain(t)
    ensures TupleKey(s) == TupleKey(t) <==> s == t
  {
    if TupleKey(s) == TupleKey(t) {
      var s1, t1 := s.repo + " " + s.workflow + " " + s.queue, t.repo + " " + t.workflow + " " + t.queue;
      assert TupleKey(s) == s.owner + " " + s1 && TupleKey(t) == t.owner + " " + t1;
      FirstFieldAgrees(s.owner, s1, t.owner, t1);
      var s2, t2 := s.workflow + " " + s.queue, t.workflow + " " + t.queue;
      assert s1 == s.repo + " " + s2 && t1 == t.repo + " " + t2;
      FirstFieldAgrees(s.repo, s2, t.repo, t2);
      LastFieldAgrees(s.workflow, s.queue, t.workflow, t.queue);
    }
  }

  /** With a space in the queue name two queues share a key. */
  lemma {:induction false} TupleKeyCollides(o: string, r: string, w: string, x: string, y: string)
    ensures TupleKey(Scope(o, r, w, x + " " + y)) == TupleKey(Scope(o, r, w + " " + x, y))
    ensures Scope(o, r, w, x + " " + y) != Scope(o, r, w + " " + x, y)
  {
    var a := o + " " + r + " " + w + " ";
    assert a + (x + " " + y) == a + x + " " + y;
    assert o + " " + r + " " + (w + " " + x) + " " + y == a + x + " " + y;
    assert |w + " " + x| > |w|;
  }

  function Spaces(s: string): nat {
    if s == "" then 0 else (if s[0] == ' ' then 1 else 0) + Spaces(s[1..])
  }

  lemma {:induction false} SpacesConcat(a: string, b: string)
    ensures Spaces(a + b) == Spaces(a) + Spaces(b)
  {
    if a == "" {
      assert a + b == b;
    } else {
      assert (a + b)[1..] == a[1..] + b;
      SpacesConcat(a[1..], b);
    }
  }

  lemma {:induction false} SpacesOfPlain(a: string)
    requires NoSpace(a)
    ensures Spaces(a) == 0
  {
    if a != "" { SpacesOfPlain(a[1..]); }
  }

  lemma {:induction false} FieldSpaces(a: string, x: string)
    ensures Spaces(a + " " + x) == Spaces(a) + 1 + Spaces(x)
  {
    SpacesConcat(a + " ", x);
    SpacesConcat(a, " ");
    assert " "[1..] == "" && Spaces(" ") == 1;
  }

  /** The field before the first space, and the rest. */
  lemma {:induction false} CutFirst(k: string) returns (a: string, x: string)
    requires Spaces(k) > 0
    ensures NoSpace(a) && k == a + " " + x && Spaces(x) == Spaces(k) - 1
  {
    if k[0] == ' ' {
      a, x := "", k[1..];
    } else {
      var b, y := CutFirst(k[1..]);
      a, x := [k[0]] + b, y;
      assert k == [k[0]] + k[1..];
    }
    SpacesOfPlain(a);
    FieldSpaces(a, x);
  }

  /** The field after the last space, and what comes before. */
  lemma {:induction false} CutLast(k: string) returns (x: string, a: string)
    requires Spaces(k) > 0
    ensures NoSpace(a) && k == x + " " + a
  {
    if Spaces(k[1..]) > 0 {
      var y, b := CutLast(k[1..]);
      x, a := [k[0]] + y, b;
      assert k == [k[0]] + k[1..];
    } else {
      x, a := "", k[1..];
      NoSpacesPlain(a);
    }
  }

  lemma {:induction false} NoSpacesPlain(a: string)
    requires Spaces(a) == 0
    ensures NoSpace(a)
  {
    if a != "" {
      NoSpacesPlain(a[1..]);
      assert a == [a[0]] + a[1..];
    }
  }

  lemma {:induction false} ThreeSpaces(s: Scope)
    ensures Spaces(TupleKey(s)) >= 3
  {
    FieldSpaces(s.owner + " " + s.repo + " " + s.workflow, s.queue);
    FieldSpaces(s.owner + " " + s.repo, s.workflow);
    FieldSpaces(s.owner, s.repo);
  }

  /** Every tuple key can be read as that of a queue with plain names. */
  lemma {:induction false} PlainReading(s: Scope) returns (t: Scope)
    ensures Plain(t) && TupleKey(t) == TupleKey(s)
  {
    var key := TupleKey(s);
    ThreeSpaces(s);
    var owner, x := CutFirst(key);
    var repo, y := CutFirst(x);
    var workflow, queue := CutLast(y);
    t := Scope(owner, repo, workflow, queue);
    assert key == owner + " " + (repo + " " + (workflow + " " + queue)) == TupleKey(t);
  }

  /** The exact condition: a queue has its key to itself among queues with plain names if and
      only if its own owner, repo and queue hold no space. */
  lemma {:induction false} TupleKeyUniqueIffPlain(s: Scope)
    ensures Plain(s) <==> forall t :: Plain(t) && TupleKey(t) == TupleKey(s) ==> t == s
  {
    if Plain(s) {
      forall t | Plain(t) && TupleKey(t) == TupleKey(s) ensures t == s { TupleKeyInjective(t, s); }
    } else {
      var t := PlainReading(s);
    }
  }

  predicate DeclaredKey(declared: set<string>, r: Row) { TupleKey(r.scope) in declared }

  /** What `reconcile` leaves: the rows whose tuple key was declared. */
  function Reconcile(t: Table, declared: set<string>): Table { Delete(t, Undeclared(t.rows, declared)) }

  function Undeclared(rows: map<nat, Row>, declared: set<string>): set<nat> {
    set k | k in rows && !DeclaredKey(declared, rows[k])
  }

  /** With plain names on both sides, reconcile keeps exactly the rows of declared queues. */
  lemma {:induction false} ReconcileKeepsDeclared(t: Table, tuples: seq<Scope>, k: nat)
    requires k in t.rows && Plain(t.rows[k].scope) && forall i :: 0 <= i < |tuples| ==> Plain(tuples[i])
    ensures k in Reconcile(t, KeysOf(tuples)).rows <==> t.rows[k].scope in tuples
  {
    var s := t.rows[k].scope;
    if TupleKey(s) in KeysOf(tuples) {
      var i :| 0 <= i < |tuples| && TupleKey(tuples[i]) == TupleKey(s);
      TupleKeyInjective(tuples[i], s);
    }
    if s in tuples { var i :| 0 <= i < |tuples| && tuples[i] == s; assert TupleKey(tuples[i]) in KeysOf(tuples); }
  }

  function KeysOf(tuples: seq<Scope>): set<string> { set i | 0 <= i < |tuples| :: TupleKey(tuples[i]) }

  // ---------------------------------------------------------------------------
  // Histories
  // ---------------------------------------------------------------------------

  /** UTF-8 length. */
  function ByteLength(s: string): nat {
    if s == "" then 0
    else
      var c := s[|s| - 1] as int;
      ByteLength(s[..|s| - 1]) + (if c < 0x80 then 1 else if c < 0x800 then 2 else if c < 0x10000 then 3 else 4)
  }

  /** Lengths add up, and one character takes one to four bytes by its range. */
  lemma {:induction false} BytesAdd(a: string, b: string)
    ensures ByteLength(a + b) == ByteLength(a) + ByteLength(b)
  {
    if b == "" {
      assert a + b == a;
    } else {
      var n := |b| - 1;
      BytesAdd(a, b[..n]);
      assert (a + b)[..|a| + n] == a + b[..n];
    }
  }

  lemma {:induction false} BytesOfChar(c: char)
    ensures '\0' <= c <= '\U{7F}' ==> ByteLength([c]) == 1
    ensures '\U{80}' <= c <= '\U{7FF}' ==> ByteLength([c]) == 2
    ensures '\U{800}' <= c <= '\U{FFFF}' ==> ByteLength([c]) == 3
    ensures '\U{10000}' <= c ==> ByteLength([c]) == 4
  {
    assert [c][..0] == "";
  }

  /** `inserting`: puts that passed the depth check and whose INSERT is still to come. */
  datatype State = State(table: Table, inserting: seq<Row>)

  datatype Act =
    | Check(row: Row)
    | Commit(i: nat)
    | Take(scope: Scope, key: string)
    | Remove(sel: Where)
    | Boot(declared: set<string>)

  function Depth(t: Table, w: Where): nat { |View(t, w)| }

  predicate Admits(t: Table, r: Row, cap: nat) {
    ByteLength(r.item) <= MaxItemBytes && Depth(t, WorkflowOf(r)) < cap
  }

  function Step(s: State, a: Act, cap: nat): State {
    match a
    case Check(r) => if Admits(s.table, r, cap) then s.(inserting := s.inserting + [r]) else s
    case Commit(i) => if i < |s.inserting| then State(Insert(s.table, s.inserting[i]), RemoveAt(s.inserting, i)) else s
    case Take(scope, key) => s.(table := Pop(s.table, Partition(scope, key)).0)
    case Remove(sel) => s.(table := DeleteWhere(s.table, sel))
    case Boot(declared) => s.(table := Reconcile(s.table, declared))
  }

  function Run(acts: seq<Act>, cap: nat): State {
    if acts == [] then State(Empty, []) else Step(Run(acts[..|acts| - 1], cap), acts[|acts| - 1], cap)
  }

  /** A put passes its checks exactly when the item has at most 1024 bytes and the workflow
      holds fewer rows than the cap; then its row is the next to wait for its insert. */
  lemma {:induction false} PutAdmittedIff(acts: seq<Act>, cap: nat, r: Row)
    ensures var s, t := Run(acts, cap), Run(acts + [Check(r)], cap);
      var held := set k | k in s.table.rows && SameWorkflow(s.table.rows[k].scope, r.scope);
      && t.table == s.table
      && t.inserting == if ByteLength(r.item) <= 1024 && |held| < cap then s.inserting + [r] else s.inserting
  {
    assert (acts + [Check(r)])[..|acts|] == acts;
    var t := Run(acts, cap).table;
    RunValid(acts, cap);
    ViewSize(t.rows, WorkflowOf(r), t.next);
    assert (set k | k in t.rows && SameWorkflow(t.rows[k].scope, r.scope))
      == set k | k in Selected(t.rows, WorkflowOf(r)) && k < t.next;
  }

  predicate SameWorkflow(a: Scope, b: Scope) { a.owner == b.owner && a.repo == b.repo && a.workflow == b.workflow }

  /** Every row of partition `p` is selected by `sel`. */
  predicate Covers(sel: Where, p: Where)
    requires p.Partition?
  {
    match sel
    case Partition(_, _) => sel == p
    case Queue(s) => s == p.scope
    case Workflow(o, r, f) => o == p.scope.owner && r == p.scope.repo && f == p.scope.workflow
  }

  /** The reference queue of partition `p` under one act. */
  function QueueStep(q: seq<Row>, s: State, a: Act, p: Where): seq<Row>
    requires p.Partition?
  {
    match a
    case Check(_) => q
    case Commit(i) => if i < |s.inserting| && PartitionOf(s.inserting[i]) == p then q + [s.inserting[i]] else q
    case Take(scope, key) => if p == Partition(scope, key) && q != [] then q[1..] else q
    case Remove(sel) => if Covers(sel, p) then [] else q
    case Boot(declared) => if TupleKey(p.scope) in declared then q else []
  }

  function QueueAfter(acts: seq<Act>, cap: nat, p: Where): seq<Row>
    requires p.Partition?
  {
    if acts == [] then []
    else
      var n := |acts| - 1;
      QueueStep(QueueAfter(acts[..n], cap, p), Run(acts[..n], cap), acts[n], p)
  }

  function RowsOf(v: seq<Stored>): (r: seq<Row>)
    ensures |r| == |v| && forall i :: 0 <= i < |v| ==> r[i] == v[i].row
  {
    seq(|v|, i requires 0 <= i < |v| => v[i].row)
  }

  lemma {:induction false} CommitStep(s: State, i: nat, cap: nat, p: Where)
    requires p.Partition? && Valid(s.table)
    ensures Valid(Step(s, Commit(i), cap).table)
    ensures RowsOf(View(Step(s, Commit(i), cap).table, p)) == QueueStep(RowsOf(View(s.table, p)), s, Commit(i), p)
  {
    if i < |s.inserting| {
      var r := s.inserting[i];
      InsertAppends(s.table, r, p);
      assert Match(p, r) <==> PartitionOf(r) == p;
    }
  }

  lemma {:induction false} TakeStep(s: State, scope: Scope, key: string, cap: nat, p: Where)
    requires p.Partition? && Valid(s.table)
    ensures Valid(Step(s, Take(scope, key), cap).table)
    ensures RowsOf(View(Step(s, Take(scope, key), cap).table, p)) == QueueStep(RowsOf(View(s.table, p)), s, Take(scope, key), p)
  {
    PopTakesHead(s.table, Partition(scope, key), p);
  }

  lemma {:induction false} RemoveStep(s: State, sel: Where, cap: nat, p: Where)
    requires p.Partition? && Valid(s.table)
    ensures Valid(Step(s, Remove(sel), cap).table)
    ensures RowsOf(View(Step(s, Remove(sel), cap).table, p)) == QueueStep(RowsOf(View(s.table, p)), s, Remove(sel), p)
  {
    var gone := Selected(s.table.rows, sel);
    if Covers(sel, p) { DeleteAll(s.table, gone, p); } else { DeleteElsewhere(s.table, gone, p); }
  }

  lemma {:induction false} BootStep(s: State, declared: set<string>, cap: nat, p: Where)
    requires p.Partition? && Valid(s.table)
    ensures Valid(Step(s, Boot(declared), cap).table)
    ensures RowsOf(View(Step(s, Boot(declared), cap).table, p)) == QueueStep(RowsOf(View(s.table, p)), s, Boot(declared), p)
  {
    var gone := Undeclared(s.table.rows, declared);
    if TupleKey(p.scope) in declared { DeleteElsewhere(s.table, gone, p); } else { DeleteAll(s.table, gone, p); }
  }

  /** Refinement: after every history, each partition of the table holds exactly the rows of
      its own FIFO, in order; a `get` returns the head of that FIFO, or nothing when empty. */
  lemma {:induction false} TableIsQueues(acts: seq<Act>, cap: nat, p: Where)
    requires p.Partition?
    ensures Valid(Run(acts, cap).table)
    ensures RowsOf(View(Run(acts, cap).table, p)) == QueueAfter(acts, cap, p)
    ensures Pop(Run(acts, cap).table, p).1 == if QueueAfter(acts, cap, p) == [] then None else Some(QueueAfter(acts, cap, p)[0])
  {
    if acts != [] {
      var n := |acts| - 1;
      TableIsQueues(acts[..n], cap, p);
      var s := Run(acts[..n], cap);
      match acts[n] {
        case Check(_) =>
        case Commit(i) => CommitStep(s, i, cap, p);
        case Take(scope, key) => TakeStep(s, scope, key, cap, p);
        case Remove(sel) => RemoveStep(s, sel, cap, p);
        case Boot(declared) => BootStep(s, declared, cap, p);
      }
    }
  }

  // ---------------------------------------------------------------------------
  // The depth cap under interleaving
  // ---------------------------------------------------------------------------

  /** Puts of workflow `w` between their check and their insert. */
  function Waiting(inserting: seq<Row>, w: Where): nat {
    if inserting == [] then 0
    else Waiting(inserting[..|inserting| - 1], w) + if Match(w, inserting[|inserting| - 1]) then 1 else 0
  }

  lemma {:induction false} WaitingConcat(a: seq<Row>, b: seq<Row>, w: Where)
    ensures Waiting(a + b, w) == Waiting(a, w) + Waiting(b, w)
  {
    if b == [] {
      assert a + b == a;
    } else {
      var n := |b| - 1;
      assert (a + b)[..|a| + n] == a + b[..n];
      WaitingConcat(a, b[..n], w);
    }
  }

  lemma {:induction false} WaitingRemoved(s: seq<Row>, i: nat, w: Where)
    requires i < |s|
    ensures Waiting(s, w) == Waiting(RemoveAt(s, i), w) + if Match(w, s[i]) then 1 else 0
  {
    assert s == s[..i] + ([s[i]] + s[i + 1..]);
    WaitingConcat(s[..i], [s[i]] + s[i + 1..], w);
    WaitingConcat([s[i]], s[i + 1..], w);
    WaitingConcat(s[..i], s[i + 1..], w);
    assert [s[i]][..0] == [];
  }

  lemma {:induction false} DeleteShrinks(rows: map<nat, Row>, gone: set<nat>, w: Where, n: nat)
    ensures |ViewTo(rows - gone, w, n)| <= |ViewTo(rows, w, n)|
  {
    if n > 0 { DeleteShrinks(rows, gone, w, n - 1); }
  }

  /** At no moment so far were more than `k` puts of `w` between check and insert. */
  ghost predicate AtMostWaiting(acts: seq<Act>, cap: nat, w: Where, k: nat) {
    Waiting(Run(acts, cap).inserting, w) <= k && (acts == [] || AtMostWaiting(acts[..|acts| - 1], cap, w, k))
  }

  predicate WithinBound(s: State, cap: nat, w: Where, k: nat) {
    var sum := Depth(s.table, w) + Waiting(s.inserting, w); sum == 0 || sum <= cap - 1 + k
  }

  lemma {:induction false} StepWithinBound(s: State, a: Act, cap: nat, w: Where, k: nat)
    requires w.Workflow? && Valid(s.table) && WithinBound(s, cap, w, k) && Waiting(Step(s, a, cap).inserting, w) <= k
    ensures WithinBound(Step(s, a, cap), cap, w, k)
  {
    var t := s.table;
    match a {
      case Check(r) =>
        if Admits(t, r, cap) {
          WaitingConcat(s.inserting, [r], w);
          assert [r][..0] == [];
          assert Match(w, r) ==> WorkflowOf(r) == w;
        }
      case Commit(i) =>
        if i < |s.inserting| {
          InsertAppends(t, s.inserting[i], w);
          WaitingRemoved(s.inserting, i, w);
        }
      case Take(scope, key) =>
        var v := View(t, Partition(scope, key));
        if v != [] { DeleteShrinks(t.rows, {v[0].seqNo}, w, t.next); }
      case Remove(sel) => DeleteShrinks(t.rows, Selected(t.rows, sel), w, t.next);
      case Boot(declared) => DeleteShrinks(t.rows, Undeclared(t.rows, declared), w, t.next);
    }
  }

  lemma {:induction false} RunValid(acts: seq<Act>, cap: nat)
    ensures Valid(Run(acts, cap).table)
  {
    TableIsQueues(acts, cap, Partition(Scope("", "", "", ""), ""));
  }

  lemma {:induction false} RunWithinBound(acts: seq<Act>, cap: nat, w: Where, k: nat)
    requires w.Workflow? && AtMostWaiting(acts, cap, w, k)
    ensures WithinBound(Run(acts, cap), cap, w, k)
  {
    if acts != [] {
      var n := |acts| - 1;
      RunWithinBound(acts[..n], cap, w, k);
      RunValid(acts[..n], cap);
      StepWithinBound(Run(acts[..n], cap), acts[n], cap, w, k);
    }
  }

  /** If never more than `k` puts of a workflow overlap, it never holds more than
      cap - 1 + k rows, whatever queue names and keys are used. */
  lemma {:induction false} DepthBounded(acts: seq<Act>, cap: nat, w: Where, k: nat)
    requires w.Workflow? && AtMostWaiting(acts, cap, w, k)
    ensures Depth(Run(acts, cap).table, w) <= (if cap + k == 0 then 0 else cap - 1 + k)
  {
    RunWithinBound(acts, cap, w, k);
  }

  function Fill(r: Row, m: nat): seq<Act> { if m == 0 then [] else Fill(r, m - 1) + [Check(r)] + [Commit(0)] }
  function Crowd(r: Row, m: nat, j: nat): seq<Act> { if j == 0 then Fill(r, m) else Crowd(r, m, j - 1) + [Check(r)] }
  function Burst(r: Row, m: nat, k: nat, j: nat): seq<Act> { if j == 0 then Crowd(r, m, k) else Burst(r, m, k, j - 1) + [Commit(0)] }

  ghost predicate Reaches(acts: seq<Act>, cap: nat, r: Row, depth: nat, waiting: nat, k: nat) {
    var s := Run(acts, cap);
    && Valid(s.table) && Depth(s.table, WorkflowOf(r)) == depth && AtMostWaiting(acts, cap, WorkflowOf(r), k)
    && s.inserting == seq(waiting, _ => r)
  }

  lemma {:induction false} WaitingCopies(r: Row, n: nat)
    ensures Waiting(seq(n, _ => r), WorkflowOf(r)) == n
  {
    if n > 0 {
      WaitingCopies(r, n - 1);
      assert seq(n, _ => r)[..n - 1] == seq(n - 1, _ => r);
    }
  }

  lemma {:induction false} CheckReaches(acts: seq<Act>, cap: nat, r: Row, depth: nat, waiting: nat, k: nat)
    requires Reaches(acts, cap, r, depth, waiting, k) && depth < cap && waiting < k && ByteLength(r.item) <= MaxItemBytes
    ensures Reaches(acts + [Check(r)], cap, r, depth, waiting + 1, k)
  {
    assert (acts + [Check(r)])[..|acts|] == acts;
    assert Admits(Run(acts, cap).table, r, cap);
    assert seq(waiting, _ => r) + [r] == seq(waiting + 1, _ => r);
    WaitingCopies(r, waiting + 1);
  }

  lemma {:induction false} CommitReaches(acts: seq<Act>, cap: nat, r: Row, depth: nat, waiting: nat, k: nat)
    requires Reaches(acts, cap, r, depth, waiting + 1, k) && waiting < k
    ensures Reaches(acts + [Commit(0)], cap, r, depth + 1, waiting, k)
  {
    assert (acts + [Commit(0)])[..|acts|] == acts;
    var s := Run(acts, cap);
    InsertAppends(s.table, r, WorkflowOf(r));
    assert RemoveAt(s.inserting, 0) == seq(waiting, _ => r);
    WaitingCopies(r, waiting);
  }

  /** The bound is tight: `k` overlapping puts do reach it. */
  lemma {:induction false} DepthBoundAttained(cap: nat, k: nat, r: Row)
    requires cap > 0 && k > 0 && ByteLength(r.item) <= MaxItemBytes
    ensures exists acts :: AtMostWaiting(acts, cap, WorkflowOf(r), k) && Depth(Run(acts, cap).table, WorkflowOf(r)) == cap - 1 + k
  {
    BurstReaches(cap, k, r, k);
  }

  lemma {:induction false} FillReaches(cap: nat, k: nat, r: Row, m: nat)
    requires m < cap && k > 0 && ByteLength(r.item) <= MaxItemBytes
    ensures Reaches(Fill(r, m), cap, r, m, 0, k)
  {
    if m > 0 {
      FillReaches(cap, k, r, m - 1);
      CheckReaches(Fill(r, m - 1), cap, r, m - 1, 0, k);
      CommitReaches(Fill(r, m - 1) + [Check(r)], cap, r, m - 1, 0, k);
    }
  }

  lemma {:induction false} CrowdReaches(cap: nat, k: nat, r: Row, j: nat)
    requires cap > 0 && j <= k && k > 0 && ByteLength(r.item) <= MaxItemBytes
    ensures Reaches(Crowd(r, cap - 1, j), cap, r, cap - 1, j, k)
  {
    if j == 0 {
      FillReaches(cap, k, r, cap - 1);
    } else {
      CrowdReaches(cap, k, r, j - 1);
      CheckReaches(Crowd(r, cap - 1, j - 1), cap, r, cap - 1, j - 1, k);
    }
  }

  lemma {:induction false} BurstReaches(cap: nat, k: nat, r: Row, j: nat)
    requires cap > 0 && j <= k && k > 0 && ByteLength(r.item) <= MaxItemBytes
    ensures Reaches(Burst(r, cap - 1, k, j), cap, r, cap - 1 + j, k - j, k)
  {
    if j == 0 {
      CrowdReaches(cap, k, r, k);
    } else {
      BurstReaches(cap, k, r, j - 1);
      CommitReaches(Burst(r, cap - 1, k, j - 1), cap, r, cap - 1 + j - 1, k - j, k);
    }
  }

  // ---------------------------------------------------------------------------
  // The store object
  // ---------------------------------------------------------------------------

  datatype PutResult = Queued(seqNo: nat) | ItemTooLarge(bytes: nat) | Full

  class Store {
    const cap: nat
    var rows: map<nat, Row>
    var next: nat

    function Abs(): Table reads this { Table(rows, next) }

    constructor (maxWorkflowDepth: nat)
      ensures Abs() == Empty && cap == maxWorkflowDepth
    {
      cap, rows, next := maxWorkflowDepth, map[], 0;
    }

    method CountWhere(w: Where) returns (c: nat)
      requires Valid(Abs())
      ensures c == |View(Abs(), w)|
    {
      ViewSize(rows, w, next);
      assert Selected(rows, w) == set k | k in Selected(rows, w) && k < next;
      c := |Selected(rows, w)|;
    }

    /** A put that nothing comes between; `json` is None where JSON.stringify gives undefined. */
    method Put(scope: Scope, json: Option<string>, key: string, producer: Producer) returns (r: PutResult)
      requires Valid(Abs())
      modifies this
      ensures Valid(Abs())
      ensures json.None? ==> r == ItemTooLarge(0)
      ensures json.Some? && ByteLength(json.value) > MaxItemBytes ==> r == ItemTooLarge(ByteLength(json.value))
      ensures r.Queued? <==> json.Some? && Admits(old(Abs()), Row(scope, key, json.value, producer), cap)
      ensures r.Queued? ==> r.seqNo == old(next) && Abs() == Insert(old(Abs()), Row(scope, key, json.value, producer))
      ensures !r.Queued? ==> Abs() == old(Abs())
    {
      if json.None? { return ItemTooLarge(0); }
      var bytes := ByteLength(json.value);
      if bytes > MaxItemBytes { return ItemTooLarge(bytes); }
      var depth := CountWhere(Workflow(scope.owner, scope.repo, scope.workflow));
      if depth >= cap { return Full; }
      InsertAppends(Abs(), Row(scope, key, json.value, producer), Queue(scope));
      rows := rows[next := Row(scope, key, json.value, producer)];
      next := next + 1;
      r := Queued(next - 1);
    }

    /** DELETE WHERE seq = (SELECT MIN(seq) ...) RETURNING. */
    method Get(scope: Scope, key: string) returns (r: Option<Row>)
      requires Valid(Abs())
      modifies this`rows
      ensures (Abs(), r) == Pop(old(Abs()), Partition(scope, key))
    {
      var w := Partition(scope, key);
      HeadIsMin(Abs(), w);
      var selected := Selected(rows, w);
      if selected == {} { return None; }
      ghost var head := View(Abs(), w)[0];
      assert rows[head.seqNo] == head.row by { ViewMember(rows, w, next, head); assert head in View(Abs(), w); }
      var m :| m in selected && forall k :: k in selected ==> m <= k;
      assert m == head.seqNo;
      r := Some(rows[m]);
      rows := rows - {m};
    }

    /** Without a queue name every queue of the workflow goes. */
    method RemoveDeclaration(owner: string, repo: string, workflow: string, queue: Option<string>) returns (removed: nat)
      modifies this`rows
      ensures Abs() == DeleteWhere(old(Abs()), Declaration(owner, repo, workflow, queue))
      ensures removed == |old(rows)| - |rows|
    {
      var gone := Selected(rows, Declaration(owner, repo, workflow, queue));
      RemovedCount(rows, gone);
      rows := rows - gone;
      removed := |gone|;
    }

    /** One DELETE per orphan tuple, in any order. */
    method ReconcileTuples(tuples: seq<Scope>) returns (removed: nat)
      modifies this`rows
      ensures Abs() == Reconcile(old(Abs()), KeysOf(tuples))
      ensures removed == |old(rows)| - |rows|
    {
      var declared := KeysOf(tuples);
      var orphans := set k | k in rows && TupleKey(rows[k].scope) !in declared :: rows[k].scope;
      removed := 0;
      while orphans != {}
        invariant PartlyReconciled(old(rows), rows, declared, orphans)
        invariant removed == |old(rows)| - |rows|
        decreases |orphans|
      {
        var o :| o in orphans;
        ReconcileOne(old(rows), rows, declared, orphans, o);
        var n := RemoveDeclaration(o.owner, o.repo, o.workflow, Some(o.queue));
        removed := removed + n;
        orphans := orphans - {o};
      }
      assert rows == Reconcile(old(Abs()), declared).rows;
    }
  }

  /** Only the orphans not yet handled are still there. */
  ghost predicate PartlyReconciled(was: map<nat, Row>, rows: map<nat, Row>, declared: set<string>, orphans: set<Scope>) {
    && (forall o :: o in orphans ==> TupleKey(o) !in declared)
    && (forall k :: k in rows <==> k in was && (DeclaredKey(declared, was[k]) || was[k].scope in orphans))
    && (forall k :: k in rows ==> rows[k] == was[k])
  }

  lemma {:induction false} ReconcileOne(was: map<nat, Row>, rows: map<nat, Row>, declared: set<string>, orphans: set<Scope>, o: Scope)
    requires PartlyReconciled(was, rows, declared, orphans) && o in orphans
    ensures PartlyReconciled(was, rows - Selected(rows, Queue(o)), declared, orphans - {o})
  {
  }

  function Declaration(owner: string, repo: string, workflow: string, queue: Option<string>): Where {
    if queue.Some? then Queue(Scope(owner, repo, workflow, queue.value)) else Workflow(owner, repo, workflow)
  }

  lemma {:induction false} RemovedCount(rows: map<nat, Row>, gone: set<nat>)
    requires gone <= rows.Keys
    ensures |rows - gone| == |rows| - |gone|
  {
    assert (rows - gone).Keys == rows.Keys - gone;
    assert |(rows - gone).Keys| == |rows - gone| && |rows.Keys| == |rows|;
  }
}
