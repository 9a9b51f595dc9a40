/** packages/sandbox/src/plugin-compose.ts: plugin descriptors are checked and put in
    dependency order before the worker starts. A descriptor is reduced to its name and
    its `dependsOn` list (absent means empty).

    `Log(ds, k)` is everything the work queue has ever held after `k` rounds of the
    `while` loop: `ordered` is its first `k` entries, `ready` the rest. */
module PluginCompose {
  import opened Basics

  datatype Name = Name(text: string)
  datatype Plugin = Plugin(name: Name, deps: seq<Name>)
  datatype Checked = Accepted | NameCollision(name: Name) | MissingDependency(name: Name, dep: Name)
  datatype Outcome = Sorted(order: seq<Plugin>) | Cycle(path: seq<Name>)

  // ---------------------------------------------------------------------------
  // The dependency graph
  // ---------------------------------------------------------------------------

  function Names(ds: seq<Plugin>): (r: seq<Name>)
    ensures |r| == |ds| && forall i :: 0 <= i < |ds| ==> r[i] == ds[i].name
  {
    seq(|ds|, i requires 0 <= i < |ds| => ds[i].name)
  }

  predicate DepsExist(ds: seq<Plugin>) {
    forall i, x :: 0 <= i < |ds| && x in ds[i].deps ==> x in Names(ds)
  }

  predicate Checks(ds: seq<Plugin>) { Distinct(Names(ds)) && DepsExist(ds) }

  /** No plugin lists a dependency twice. Nothing in the source checks this. */
  predicate DepsListedOnce(ds: seq<Plugin>) { forall i :: 0 <= i < |ds| ==> Distinct(ds[i].deps) }

  /** Plugin `x` lists `y` in its `dependsOn`. */
  predicate Edge(ds: seq<Plugin>, x: Name, y: Name) {
    exists i :: 0 <= i < |ds| && ds[i].name == x && y in ds[i].deps
  }

  lemma {:induction false} EdgeOfName(ds: seq<Plugin>, i: nat, y: Name)
    requires i < |ds| && Distinct(Names(ds))
    ensures Edge(ds, ds[i].name, y) <==> y in ds[i].deps
  {
    if Edge(ds, ds[i].name, y) {
      var j :| 0 <= j < |ds| && ds[j].name == ds[i].name && y in ds[j].deps;
      assert Names(ds)[j] == Names(ds)[i];
    }
  }

  /** A walk along `dependsOn` edges back to where it started. */
  predicate ClosedWalk(ds: seq<Plugin>, w: seq<Name>) {
    |w| >= 2 && w[0] == w[|w| - 1] &&
    forall i :: 0 <= i < |w| - 1 ==> Edge(ds, w[i], w[i + 1])
  }

  ghost predicate Acyclic(ds: seq<Plugin>) { forall w :: !ClosedWalk(ds, w) }

  /** `x` starts a chain of `n` dependency edges: its depth is at least `n`. */
  ghost predicate HasChain(ds: seq<Plugin>, x: Name, n: nat)
    decreases n
  {
    n == 0 || exists y :: Edge(ds, x, y) && HasChain(ds, y, n - 1)
  }

  // ---------------------------------------------------------------------------
  // Checks before the worker starts
  // ---------------------------------------------------------------------------

  method SerializeDescriptors(ds: seq<Plugin>) returns (r: Checked)
    ensures r == Accepted <==> Checks(ds)
    ensures r.NameCollision? ==> exists i, j :: 0 <= i < j < |ds| && ds[i].name == r.name == ds[j].name
    ensures r.MissingDependency? ==>
      Distinct(Names(ds)) && r.dep !in Names(ds) && exists i :: 0 <= i < |ds| && ds[i].name == r.name && r.dep in ds[i].deps
  {
    var seen: set<Name> := {};
    for i := 0 to |ds|
      invariant seen == set x | x in Names(ds)[..i]
      invariant Distinct(Names(ds)[..i])
    {
      if ds[i].name in seen {
        var j :| 0 <= j < i && Names(ds)[j] == ds[i].name;
        assert ds[j].name == ds[i].name && Names(ds)[j] == Names(ds)[i];
        return NameCollision(ds[i].name);
      }
      assert Names(ds)[..i + 1] == Names(ds)[..i] + [ds[i].name];
      seen := seen + {ds[i].name};
    }
    assert Names(ds)[..|ds|] == Names(ds);
    for i := 0 to |ds|
      invariant forall k, x :: 0 <= k < i && x in ds[k].deps ==> x in Names(ds)
    {
      for j := 0 to |ds[i].deps|
        invariant forall x :: x in ds[i].deps[..j] ==> x in Names(ds)
      {
        if ds[i].deps[j] !in seen { return MissingDependency(ds[i].name, ds[i].deps[j]); }
        assert ds[i].deps[..j + 1] == ds[i].deps[..j] + [ds[i].deps[j]];
      }
      assert ds[i].deps[..|ds[i].deps|] == ds[i].deps;
    }
    r := Accepted;
  }

  // ---------------------------------------------------------------------------
  // The work queue as a function
  // ---------------------------------------------------------------------------

  /** `s` without the elements of `gone`, order kept. */
  function Keep(s: seq<Name>, gone: set<Name>): (r: seq<Name>)
    ensures forall x :: x in r <==> x in s && x !in gone
  {
    if s == [] then []
    else
      var n := |s| - 1;
      assert s == s[..n] + [s[n]];
      if s[n] in gone then Keep(s[..n], gone) else Keep(s[..n], gone) + [s[n]]
  }

  /** The elements of `new Set(s)` in insertion order. */
  function Dedup(s: seq<Name>): (r: seq<Name>)
    ensures forall x :: x in r <==> x in s
  {
    if s == [] then []
    else
      var n := |s| - 1;
      assert s == s[..n] + [s[n]];
      if s[n] in s[..n] then Dedup(s[..n]) else Dedup(s[..n]) + [s[n]]
  }

  function ToSet(s: seq<Name>): set<Name> { set x | x in s }

  function Copies(n: nat, x: Name): seq<Name> { seq(n, _ => x) }

  /** Who waits for `x` among the first `n` plugins: one entry per listing, in input order. */
  function WaitingFor(ds: seq<Plugin>, x: Name, n: nat): seq<Name>
    requires n <= |ds|
  {
    if n == 0 then [] else WaitingFor(ds, x, n - 1) + Copies(multiset(ds[n - 1].deps)[x], ds[n - 1].name)
  }

  function Dependents(ds: seq<Plugin>, x: Name): seq<Name> { WaitingFor(ds, x, |ds|) }

  ghost predicate Enabled(ds: seq<Plugin>, x: Name, done: set<Name>) { forall y :: Edge(ds, x, y) ==> y in done }

  /** Those of the first `n` names whose dependencies are all done. */
  ghost function Select(ds: seq<Plugin>, names: seq<Name>, done: set<Name>, n: nat): seq<Name>
    requires n <= |names|
  {
    if n == 0 then []
    else if Enabled(ds, names[n - 1], done) then Select(ds, names, done, n - 1) + [names[n - 1]]
    else Select(ds, names, done, n - 1)
  }

  ghost function Roots(ds: seq<Plugin>): seq<Name> { Select(ds, Names(ds), {}, |ds|) }

  /** What the turn of `cur` appends to the queue, when `done` holds the names taken so far. */
  ghost function Pushes(ds: seq<Plugin>, cur: Name, done: set<Name>): seq<Name> {
    Select(ds, Dependents(ds, cur), done, |Dependents(ds, cur)|)
  }

  ghost function Log(ds: seq<Plugin>, k: nat): (r: seq<Name>) {
    if k == 0 then Roots(ds)
    else
      var l := Log(ds, k - 1);
      if k <= |l| then l + Pushes(ds, l[k - 1], ToSet(l[..k])) else l
  }

  // ---------------------------------------------------------------------------
  // The methods
  // ---------------------------------------------------------------------------

  method BuildTopoState(ds: seq<Plugin>)
    returns (byName: map<Name, Plugin>, pendingDeps: map<Name, seq<Name>>, dependents: map<Name, seq<Name>>)
    requires Distinct(Names(ds))
    ensures byName.Keys == dependents.Keys == ToSet(Names(ds))
    ensures forall i :: 0 <= i < |ds| ==> byName[ds[i].name] == ds[i]
    ensures Pending(ds, pendingDeps, {})
    ensures forall x :: x in dependents ==> dependents[x] == Dependents(ds, x)
  {
    byName, pendingDeps, dependents := map[], map[], map[];
    for i := 0 to |ds|
      invariant Registered(ds, byName, pendingDeps, i)
      invariant dependents.Keys == byName.Keys && forall x :: x in dependents ==> dependents[x] == []
    {
      RegisterOne(ds, byName, pendingDeps, i);
      byName := byName[ds[i].name := ds[i]];
      pendingDeps := pendingDeps[ds[i].name := Dedup(ds[i].deps)];
      dependents := dependents[ds[i].name := []];
    }
    AllRegistered(ds, byName, pendingDeps);
    dependents := EnlistAll(ds, dependents);
  }

  /** The maps after the first `n` plugins. */
  ghost predicate Registered(ds: seq<Plugin>, byName: map<Name, Plugin>, pend: map<Name, seq<Name>>, n: nat) {
    && n <= |ds| && byName.Keys == pend.Keys
    && (forall k :: 0 <= k < n ==> ds[k].name in byName)
    && (forall x :: x in byName ==> exists k :: 0 <= k < n && ds[k].name == x)
    && (forall k :: 0 <= k < n ==> byName[ds[k].name] == ds[k])
    && (forall k, y :: 0 <= k < n ==> (y in pend[ds[k].name] <==> y in ds[k].deps))
  }

  lemma {:induction false} RegisterOne(ds: seq<Plugin>, byName: map<Name, Plugin>, pend: map<Name, seq<Name>>, i: nat)
    requires Distinct(Names(ds)) && i < |ds| && Registered(ds, byName, pend, i)
    ensures Registered(ds, byName[ds[i].name := ds[i]], pend[ds[i].name := Dedup(ds[i].deps)], i + 1)
  {
    forall k | 0 <= k < i ensures ds[k].name != ds[i].name { assert Names(ds)[k] != Names(ds)[i]; }
    var d := Dedup(ds[i].deps);
    assert forall y :: y in d <==> y in ds[i].deps;
  }

  lemma {:induction false} AllRegistered(ds: seq<Plugin>, byName: map<Name, Plugin>, pend: map<Name, seq<Name>>)
    requires Distinct(Names(ds)) && Registered(ds, byName, pend, |ds|)
    ensures Pending(ds, pend, {}) && byName.Keys == ToSet(Names(ds))
  {
    forall x ensures x in pend <==> x in Names(ds) {
      if x in pend {
        var k :| 0 <= k < |ds| && ds[k].name == x;
        assert Names(ds)[k] == x;
      }
    }
    forall x, y | x in pend ensures y in pend[x] <==> Edge(ds, x, y) {
      var k :| 0 <= k < |ds| && ds[k].name == x;
      EdgeOfName(ds, k, y);
    }
  }

  /** The second loop of `buildTopoState`. */
  method EnlistAll(ds: seq<Plugin>, empty: map<Name, seq<Name>>) returns (dependents: map<Name, seq<Name>>)
    requires forall x :: x in empty ==> empty[x] == []
    ensures dependents.Keys == empty.Keys
    ensures forall x :: x in dependents ==> dependents[x] == Dependents(ds, x)
  {
    dependents := empty;
    for i := 0 to |ds|
      invariant dependents.Keys == empty.Keys
      invariant forall x :: x in dependents ==> dependents[x] == WaitingFor(ds, x, i)
    {
      dependents := Enlist(ds[i], dependents);
    }
  }

  /** Its inner loop: every listing of a dependency puts the plugin on that list once more. */
  method Enlist(p: Plugin, before: map<Name, seq<Name>>) returns (dependents: map<Name, seq<Name>>)
    ensures dependents.Keys == before.Keys
    ensures forall x :: x in before ==> dependents[x] == before[x] + Copies(multiset(p.deps)[x], p.name)
  {
    dependents := before;
    for j := 0 to |p.deps|
      invariant Enlisted(p, before, dependents, j)
    {
      EnlistOne(p, before, dependents, j);
      var dep := p.deps[j];
      if dep in dependents {
        dependents := dependents[dep := dependents[dep] + [p.name]];
      }
    }
    assert p.deps[..|p.deps|] == p.deps;
  }

  ghost predicate Enlisted(p: Plugin, before: map<Name, seq<Name>>, after: map<Name, seq<Name>>, j: nat) {
    j <= |p.deps| && after.Keys == before.Keys &&
    forall x :: x in before ==> after[x] == before[x] + Copies(multiset(p.deps[..j])[x], p.name)
  }

  lemma {:induction false} EnlistOne(p: Plugin, before: map<Name, seq<Name>>, after: map<Name, seq<Name>>, j: nat)
    requires Enlisted(p, before, after, j) && j < |p.deps|
    ensures var dep := p.deps[j];
      if dep in after then Enlisted(p, before, after[dep := after[dep] + [p.name]], j + 1) else Enlisted(p, before, after, j + 1)
  {
    var dep := p.deps[j];
    ListedOnceMore(p.deps, j);
    if dep in after { CopiesGrow(before[dep], multiset(p.deps[..j])[dep], p.name); }
  }

  lemma {:induction false} ListedOnceMore(deps: seq<Name>, j: nat)
    requires j < |deps|
    ensures multiset(deps[..j + 1])[deps[j]] == multiset(deps[..j])[deps[j]] + 1
    ensures forall x :: x != deps[j] ==> multiset(deps[..j + 1])[x] == multiset(deps[..j])[x]
  {
    assert deps[..j + 1] == deps[..j] + [deps[j]];
  }

  lemma {:induction false} CopiesGrow(before: seq<Name>, n: nat, x: Name)
    ensures before + Copies(n + 1, x) == before + Copies(n, x) + [x]
  {
    assert Copies(n + 1, x) == Copies(n, x) + [x];
  }

  /** What `pendingDeps` holds once the plugins in `done` are ordered. */
  ghost predicate Pending(ds: seq<Plugin>, pend: map<Name, seq<Name>>, done: set<Name>) {
    pend.Keys == ToSet(Names(ds)) && forall x, y :: x in pend ==> (y in pend[x] <==> Edge(ds, x, y) && y !in done)
  }

  lemma {:induction false} PendingEmpty(ds: seq<Plugin>, pend: map<Name, seq<Name>>, x: Name, done: set<Name>)
    requires x in pend && forall y :: y in pend[x] <==> Edge(ds, x, y) && y !in done
    ensures pend[x] == [] <==> Enabled(ds, x, done)
  {
    if pend[x] != [] { assert pend[x][0] in pend[x]; }
  }

  method InitialReadyQueue(ds: seq<Plugin>, pend: map<Name, seq<Name>>) returns (ready: seq<Name>)
    requires Pending(ds, pend, {})
    ensures ready == Roots(ds)
  {
    ready := [];
    for i := 0 to |ds|
      invariant ready == Select(ds, Names(ds), {}, i)
    {
      var x := ds[i].name;
      assert x == Names(ds)[i];
      assert x in pend && (pend[x] == [] <==> Enabled(ds, x, {})) by { PendingEmpty(ds, pend, x, {}); }
      if x in pend && pend[x] == [] { ready := ready + [x]; }
    }
  }

  lemma {:induction false} DependentsMeaning(ds: seq<Plugin>, y: Name, x: Name)
    ensures x in Dependents(ds, y) <==> Edge(ds, x, y)
    ensures Edge(ds, x, y) ==> x in Names(ds)
  {
    WaitingNames(ds, y, x, |ds|);
    if i :| 0 <= i < |ds| && ds[i].name == x && y in ds[i].deps { assert x == Names(ds)[i]; }
  }

  lemma {:induction false} WaitingNames(ds: seq<Plugin>, y: Name, x: Name, n: nat)
    requires n <= |ds|
    ensures x in WaitingFor(ds, y, n) <==> exists i: nat :: i < n && ds[i].name == x && y in ds[i].deps
  {
    if n > 0 {
      WaitingNames(ds, y, x, n - 1);
      var c := Copies(multiset(ds[n - 1].deps)[y], ds[n - 1].name);
      if y in ds[n - 1].deps { assert c[0] == ds[n - 1].name; }
    }
  }

  /** `pendingDeps` after the first `i` waiting plugins had `cur` deleted. */
  ghost predicate Halfway(ds: seq<Plugin>, pend: map<Name, seq<Name>>, cur: Name, done: set<Name>, i: nat) {
    && i <= |Dependents(ds, cur)|
    && pend.Keys == ToSet(Names(ds))
    && (forall x, y :: x in pend && y != cur ==> (y in pend[x] <==> Edge(ds, x, y) && y !in done))
    && (forall x :: x in pend && cur in pend[x] ==> x !in Dependents(ds, cur)[..i] && Edge(ds, x, cur))
  }

  lemma {:induction false} DeleteOne(ds: seq<Plugin>, pend: map<Name, seq<Name>>, cur: Name, done: set<Name>, i: nat)
    requires Halfway(ds, pend, cur, done, i) && i < |Dependents(ds, cur)|
    ensures var x := Dependents(ds, cur)[i]; x in pend && Halfway(ds, pend[x := Keep(pend[x], {cur})], cur, done, i + 1)
    ensures var x := Dependents(ds, cur)[i]; Keep(pend[x], {cur}) == [] <==> Enabled(ds, x, done + {cur})
  {
    var w := Dependents(ds, cur);
    var x := w[i];
    DependentsMeaning(ds, cur, x);
    assert w[..i + 1] == w[..i] + [x];
    var after := pend[x := Keep(pend[x], {cur})];
    PendingEmpty(ds, after, x, done + {cur});
  }

  /** One turn of the work loop after `current` was shifted off. */
  method Release(ds: seq<Plugin>, current: Name, waiting: seq<Name>, before: map<Name, seq<Name>>, ghost done: set<Name>)
    returns (pend: map<Name, seq<Name>>, pushed: seq<Name>)
    requires Pending(ds, before, done)
    requires waiting == Dependents(ds, current)
    ensures Pending(ds, pend, done + {current})
    ensures pushed == Pushes(ds, current, done + {current})
  {
    pend, pushed := before, [];
    assert Halfway(ds, pend, current, done, 0);
    for i := 0 to |waiting|
      invariant Halfway(ds, pend, current, done, i)
      invariant pushed == Select(ds, waiting, done + {current}, i)
    {
      var x := waiting[i];
      DeleteOne(ds, pend, current, done, i);
      pend := pend[x := Keep(pend[x], {current})];
      if pend[x] == [] { pushed := pushed + [x]; }
    }
    AllDeleted(ds, pend, current, done);
  }

  lemma {:induction false} AllDeleted(ds: seq<Plugin>, pend: map<Name, seq<Name>>, cur: Name, done: set<Name>)
    requires Halfway(ds, pend, cur, done, |Dependents(ds, cur)|)
    ensures Pending(ds, pend, done + {cur})
  {
    var w := Dependents(ds, cur);
    assert w[..|w|] == w;
    forall x | x in pend ensures cur !in pend[x] { DependentsMeaning(ds, cur, x); }
  }

  // ---------------------------------------------------------------------------
  // What the queue holds
  // ---------------------------------------------------------------------------

  lemma {:induction false} SelectMeaning(ds: seq<Plugin>, names: seq<Name>, done: set<Name>, n: nat, x: Name)
    requires n <= |names|
    ensures x in Select(ds, names, done, n) <==> x in names[..n] && Enabled(ds, x, done)
  {
    if n > 0 {
      SelectMeaning(ds, names, done, n - 1, x);
      assert names[..n] == names[..n - 1] + [names[n - 1]];
    }
  }

  lemma {:induction false} PushesMeaning(ds: seq<Plugin>, cur: Name, done: set<Name>, x: Name)
    ensures x in Pushes(ds, cur, done) <==> Edge(ds, x, cur) && Enabled(ds, x, done)
  {
    var w := Dependents(ds, cur);
    SelectMeaning(ds, w, done, |w|, x);
    assert w[..|w|] == w;
    DependentsMeaning(ds, cur, x);
  }

  lemma {:induction false} RootsMeaning(ds: seq<Plugin>, x: Name)
    ensures x in Roots(ds) <==> x in Names(ds) && Enabled(ds, x, {})
  {
    SelectMeaning(ds, Names(ds), {}, |ds|, x);
    assert Names(ds)[..|ds|] == Names(ds);
  }

  /** A plugin is in the queue exactly when all its dependencies have been taken from it. */
  ghost predicate HoldsEnabled(ds: seq<Plugin>, log: seq<Name>, k: nat) {
    k <= |log| && forall x :: x in log <==> x in Names(ds) && Enabled(ds, x, ToSet(log[..k]))
  }

  lemma {:induction false} TakenNext(ds: seq<Plugin>, log: seq<Name>, k: nat, x: Name)
    requires k < |log|
    ensures Enabled(ds, x, ToSet(log[..k + 1])) <==>
      Enabled(ds, x, ToSet(log[..k])) || (Edge(ds, x, log[k]) && Enabled(ds, x, ToSet(log[..k + 1])))
  {
    assert log[..k + 1] == log[..k] + [log[k]];
  }

  /** Whatever dependencies are listed how often. */
  lemma {:induction false} LogHoldsEnabled(ds: seq<Plugin>, k: nat)
    requires k == 0 || k <= |Log(ds, k - 1)|
    ensures HoldsEnabled(ds, Log(ds, k), k)
  {
    var log := Log(ds, k);
    if k == 0 {
      assert log[..0] == [] && ToSet(log[..0]) == {};
      forall x { RootsMeaning(ds, x); }
    } else {
      var l := Log(ds, k - 1);
      LogShorter(ds, k - 1);
      LogHoldsEnabled(ds, k - 1);
      TurnHoldsEnabled(ds, l, k);
    }
  }

  lemma {:induction false} TurnHoldsEnabled(ds: seq<Plugin>, l: seq<Name>, k: nat)
    requires 0 < k <= |l| && HoldsEnabled(ds, l, k - 1)
    ensures HoldsEnabled(ds, l + Pushes(ds, l[k - 1], ToSet(l[..k])), k)
  {
    var done := ToSet(l[..k]);
    var log := l + Pushes(ds, l[k - 1], done);
    assert log[..k] == l[..k];
    forall x ensures x in log <==> x in Names(ds) && Enabled(ds, x, done) {
      PushesMeaning(ds, l[k - 1], done, x);
      TakenNext(ds, l, k - 1, x);
    }
  }

  lemma {:induction false} LogGrows(ds: seq<Plugin>, j: nat, k: nat)
    requires j <= k
    ensures Log(ds, j) <= Log(ds, k)
  {
    if j < k { LogGrows(ds, j, k - 1); }
  }

  /** Rounds run one at a time. */
  lemma {:induction false} LogShorter(ds: seq<Plugin>, k: nat)
    requires k < |Log(ds, k)|
    ensures k == 0 || k <= |Log(ds, k - 1)|
  {
  }

  // ---------------------------------------------------------------------------
  // The exact order
  // ---------------------------------------------------------------------------

  /** Position of the last of the first `n` entries that is one of `deps`, or -1. */
  function Latest(log: seq<Name>, deps: seq<Name>, n: nat): (i: int)
    requires n <= |log|
    ensures -1 <= i < n && (i >= 0 ==> log[i] in deps) && forall k :: i < k < n ==> log[k] !in deps
  {
    if n == 0 then -1 else if log[n - 1] in deps then n - 1 else Latest(log, deps, n - 1)
  }

  lemma LatestOfPrefix(l: seq<Name>, p: seq<Name>, deps: seq<Name>, n: nat)
    requires n <= |l|
    ensures Latest(l + p, deps, n) == Latest(l, deps, n)
  {
  }

  /** Whose last dependency is taken first, goes first; input order decides among plugins
      that share it, or that have none. */
  predicate Precedes(ds: seq<Plugin>, log: seq<Name>, k: nat, a: nat, b: nat)
    requires a < |ds| && b < |ds| && k <= |log|
  {
    var la, lb := Latest(log, ds[a].deps, k), Latest(log, ds[b].deps, k);
    la < lb || (la == lb && a < b)
  }

  ghost predicate QueueOrder(ds: seq<Plugin>, log: seq<Name>, k: nat) {
    k <= |log| &&
    forall i, j, a: nat, b: nat :: 0 <= i < j < |log| && a < |ds| && b < |ds| && ds[a].name == log[i] && ds[b].name == log[j] ==>
      Precedes(ds, log, k, a, b)
  }

  /** Every plugin named `x` is listed before every plugin named `y`. */
  ghost predicate Ahead(ds: seq<Plugin>, x: Name, y: Name) {
    forall a: nat, b: nat :: a < |ds| && b < |ds| && ds[a].name == x && ds[b].name == y ==> a < b
  }

  /** Entries are plugin names in input order. */
  ghost predicate InputOrder(ds: seq<Plugin>, s: seq<Name>) {
    forall i, j :: 0 <= i < j < |s| ==> Ahead(ds, s[i], s[j])
  }

  lemma {:induction false} OrderSnoc(ds: seq<Plugin>, s: seq<Name>, x: Name)
    requires InputOrder(ds, s) && forall i :: 0 <= i < |s| ==> Ahead(ds, s[i], x)
    ensures InputOrder(ds, s + [x])
  {
  }

  lemma {:induction false} WaitingInOrder(ds: seq<Plugin>, y: Name, n: nat)
    requires Distinct(Names(ds)) && DepsListedOnce(ds) && n <= |ds|
    ensures InputOrder(ds, WaitingFor(ds, y, n))
  {
    if n > 0 {
      WaitingInOrder(ds, y, n - 1);
      var w, x, t := WaitingFor(ds, y, n - 1), ds[n - 1].name, multiset(ds[n - 1].deps)[y];
      forall i | 0 <= i < |w| ensures Ahead(ds, w[i], x) { WaitingAhead(ds, y, n - 1, w[i]); }
      OrderSnoc(ds, w, x);
      assert t <= 1 by { CountDistinct(ds[n - 1].deps, y); }
      if t == 1 { assert Copies(t, x) == [x]; } else { assert w + Copies(t, x) == w; }
    }
  }

  lemma {:induction false} WaitingAhead(ds: seq<Plugin>, y: Name, n: nat, x: Name)
    requires Distinct(Names(ds)) && n < |ds| && x in WaitingFor(ds, y, n)
    ensures Ahead(ds, x, ds[n].name)
  {
    WaitingNames(ds, y, x, n);
    var i: nat :| i < n && ds[i].name == x && y in ds[i].deps;
    forall a: nat, b: nat | a < |ds| && b < |ds| && ds[a].name == x && ds[b].name == ds[n].name ensures a < b {
      assert Names(ds)[a] == Names(ds)[i] && Names(ds)[b] == Names(ds)[n];
    }
  }

  lemma {:induction false} CountDistinct<T>(s: seq<T>, x: T)
    requires Distinct(s)
    ensures multiset(s)[x] == if x in s then 1 else 0
  {
    if s != [] {
      var n := |s| - 1;
      assert s == s[..n] + [s[n]];
      CountDistinct(s[..n], x);
    }
  }

  lemma {:induction false} SelectInOrder(ds: seq<Plugin>, names: seq<Name>, done: set<Name>, n: nat)
    requires n <= |names| && InputOrder(ds, names)
    ensures InputOrder(ds, Select(ds, names, done, n))
  {
    if n > 0 {
      SelectInOrder(ds, names, done, n - 1);
      var s := Select(ds, names, done, n - 1);
      forall i | 0 <= i < |s| ensures Ahead(ds, s[i], names[n - 1]) {
        SelectMeaning(ds, names, done, n - 1, s[i]);
        var p :| 0 <= p < n - 1 && names[p] == s[i];
      }
      OrderSnoc(ds, s, names[n - 1]);
    }
  }

  lemma {:induction false} AppendedInOrder(ds: seq<Plugin>, l: seq<Name>, cur: Name)
    requires Distinct(Names(ds)) && DepsListedOnce(ds)
    ensures InputOrder(ds, Pushes(ds, cur, ToSet(l))) && InputOrder(ds, Roots(ds))
  {
    WaitingInOrder(ds, cur, |ds|);
    SelectInOrder(ds, Dependents(ds, cur), ToSet(l), |Dependents(ds, cur)|);
    assert InputOrder(ds, Names(ds)) by {
      forall i, j, a: nat, b: nat | 0 <= i < j < |ds| && a < |ds| && b < |ds| && ds[a].name == Names(ds)[i]
        && ds[b].name == Names(ds)[j]
        ensures a < b
      {
        assert Names(ds)[a] == Names(ds)[i] && Names(ds)[b] == Names(ds)[j];
      }
    }
    SelectInOrder(ds, Names(ds), {}, |ds|);
  }

  lemma {:induction false} InputOrderDistinct(ds: seq<Plugin>, s: seq<Name>)
    requires InputOrder(ds, s) && forall x :: x in s ==> x in Names(ds)
    ensures Distinct(s)
  {
    forall i, j | 0 <= i < j < |s| ensures s[i] != s[j] {
      assert s[i] in s && Ahead(ds, s[i], s[j]);
      var a: nat :| a < |Names(ds)| && Names(ds)[a] == s[i];
      assert ds[a].name == s[i];
    }
  }

  /** A turn appends only new names, whose last dependency is the entry of that turn. */
  lemma {:induction false} TurnAppendsNew(ds: seq<Plugin>, l: seq<Name>, k: nat)
    requires Distinct(Names(ds)) && Distinct(l) && HoldsEnabled(ds, l, k) && k < |l|
    ensures forall x :: x in Pushes(ds, l[k], ToSet(l[..k + 1])) ==> x !in l && x in Names(ds) && Edge(ds, x, l[k])
  {
    forall x | x in Pushes(ds, l[k], ToSet(l[..k + 1])) ensures x !in l && x in Names(ds) && Edge(ds, x, l[k]) {
      PushesMeaning(ds, l[k], ToSet(l[..k + 1]), x);
      DependentsMeaning(ds, l[k], x);
      assert l[k] !in l[..k];
    }
  }

  lemma {:induction false} LogStep(ds: seq<Plugin>, k: nat)
    requires k < |Log(ds, k)|
    ensures Log(ds, k + 1) == Log(ds, k) + Pushes(ds, Log(ds, k)[k], ToSet(Log(ds, k)[..k + 1]))
  {
  }

  lemma {:induction false} DistinctAppend(a: seq<Name>, b: seq<Name>)
    requires Distinct(a) && Distinct(b) && forall x :: x in b ==> x !in a
    ensures Distinct(a + b)
  {
    forall i, j | 0 <= i < j < |a + b| ensures (a + b)[i] != (a + b)[j] {
      if i < |a| <= j { assert b[j - |a|] in b; }
    }
  }

  lemma {:induction false} LogInOrder(ds: seq<Plugin>, k: nat)
    requires Distinct(Names(ds)) && DepsListedOnce(ds)
    requires k == 0 || k <= |Log(ds, k - 1)|
    ensures Distinct(Log(ds, k)) && QueueOrder(ds, Log(ds, k), k)
  {
    if k == 0 {
      RootsInOrder(ds);
    } else {
      LogShorter(ds, k - 1);
      LogInOrder(ds, k - 1);
      LogHoldsEnabled(ds, k - 1);
      LogStep(ds, k - 1);
      TurnInOrder(ds, Log(ds, k - 1), k);
    }
  }

  lemma {:induction false} RootsInOrder(ds: seq<Plugin>)
    requires Distinct(Names(ds)) && DepsListedOnce(ds)
    ensures Distinct(Roots(ds)) && QueueOrder(ds, Roots(ds), 0)
  {
    AppendedInOrder(ds, [], Name(""));
    forall x { RootsMeaning(ds, x); }
    InputOrderDistinct(ds, Roots(ds));
  }

  lemma {:induction false} TurnInOrder(ds: seq<Plugin>, l: seq<Name>, k: nat)
    requires Distinct(Names(ds)) && DepsListedOnce(ds)
    requires 0 < k <= |l| && Distinct(l) && HoldsEnabled(ds, l, k - 1) && QueueOrder(ds, l, k - 1)
    ensures var log := l + Pushes(ds, l[k - 1], ToSet(l[..k])); Distinct(log) && QueueOrder(ds, log, k)
  {
    var p := Pushes(ds, l[k - 1], ToSet(l[..k]));
    TurnAppendsNew(ds, l, k - 1);
    AppendedInOrder(ds, l[..k], l[k - 1]);
    assert Distinct(l + p) by { InputOrderDistinct(ds, p); DistinctAppend(l, p); }
    OrderAfterTurn(ds, l, p, k);
  }

  lemma {:induction false} OrderAfterTurn(ds: seq<Plugin>, l: seq<Name>, p: seq<Name>, k: nat)
    requires Distinct(Names(ds)) && 0 < k <= |l| && Distinct(l) && HoldsEnabled(ds, l, k - 1) && QueueOrder(ds, l, k - 1)
    requires InputOrder(ds, p) && forall x :: x in p ==> Edge(ds, x, l[k - 1])
    ensures QueueOrder(ds, l + p, k)
  {
    var log := l + p;
    forall i, j, a: nat, b: nat | 0 <= i < j < |log| && a < |ds| && b < |ds| && ds[a].name == log[i] && ds[b].name == log[j]
      ensures Precedes(ds, log, k, a, b)
    {
      if i < |l| { KeyUnchanged(ds, l, p, k, a); } else { KeyOfPushed(ds, l, p, k, a, i - |l|); }
      if j < |l| {
        KeyUnchanged(ds, l, p, k, b);
        assert Precedes(ds, l, k - 1, a, b);
      } else {
        KeyOfPushed(ds, l, p, k, b, j - |l|);
      }
    }
  }

  lemma {:induction false} KeyOfPushed(ds: seq<Plugin>, l: seq<Name>, p: seq<Name>, k: nat, a: nat, i: nat)
    requires Distinct(Names(ds)) && 0 < k <= |l| && forall x :: x in p ==> Edge(ds, x, l[k - 1])
    requires a < |ds| && i < |p| && ds[a].name == p[i]
    ensures Latest(l + p, ds[a].deps, k) == k - 1
  {
    assert p[i] in p;
    EdgeOfName(ds, a, l[k - 1]);
  }

  lemma {:induction false} KeyUnchanged(ds: seq<Plugin>, l: seq<Name>, p: seq<Name>, k: nat, a: nat)
    requires Distinct(Names(ds)) && 0 < k <= |l| && Distinct(l) && HoldsEnabled(ds, l, k - 1)
    requires a < |ds| && ds[a].name in l
    ensures Latest(l + p, ds[a].deps, k) == Latest(l, ds[a].deps, k - 1)
  {
    EdgeOfName(ds, a, l[k - 1]);
    assert l[k - 1] !in l[..k - 1];
    LatestOfPrefix(l, p, ds[a].deps, k);
  }

  // ---------------------------------------------------------------------------
  // Sorting and the cycle witness
  // ---------------------------------------------------------------------------

  /** Every plugin comes after all its dependencies. */
  predicate DepsFirst(ds: seq<Plugin>, order: seq<Name>) {
    forall i, j :: 0 <= i < |ds| && 0 <= j < |order| && ds[i].name == order[j] ==> forall y :: y in ds[i].deps ==> y in order[..j]
  }

  lemma {:induction false} SubsetSize(s: seq<Name>, names: set<Name>)
    requires Distinct(s) && forall x :: x in s ==> x in names
    ensures |s| <= |names| && (|s| == |names| ==> ToSet(s) == names)
  {
    if s != [] {
      var n := |s| - 1;
      assert s == s[..n] + [s[n]];
      assert s[n] !in s[..n];
      SubsetSize(s[..n], names - {s[n]});
      assert ToSet(s) == ToSet(s[..n]) + {s[n]};
    }
  }

  lemma {:induction false} NamesCount(ds: seq<Plugin>)
    requires Distinct(Names(ds))
    ensures |ToSet(Names(ds))| == |ds|
  {
    SetSize(Names(ds));
  }

  lemma {:induction false} SetSize(s: seq<Name>)
    requires Distinct(s)
    ensures |ToSet(s)| == |s|
  {
    if s == [] {
      assert ToSet(s) == {};
    } else {
      var n := |s| - 1;
      assert s == s[..n] + [s[n]];
      SetSize(s[..n]);
      assert ToSet(s) == ToSet(s[..n]) + {s[n]};
    }
  }

  lemma {:induction false} LogFits(ds: seq<Plugin>, k: nat)
    requires Distinct(Names(ds)) && DepsListedOnce(ds)
    requires k == 0 || k <= |Log(ds, k - 1)|
    ensures |Log(ds, k)| <= |ds|
    ensures |Log(ds, k)| == |ds| ==> ToSet(Log(ds, k)) == ToSet(Names(ds))
  {
    LogInOrder(ds, k);
    LogHoldsEnabled(ds, k);
    NamesCount(ds);
    SubsetSize(Log(ds, k), ToSet(Names(ds)));
  }

  /** Each entry was enabled by what was taken strictly before it. */
  lemma {:induction false} LogDepsFirst(ds: seq<Plugin>, k: nat, j: nat)
    requires k == 0 || k <= |Log(ds, k - 1)|
    requires j < |Log(ds, k)|
    ensures Enabled(ds, Log(ds, k)[j], ToSet(Log(ds, k)[..j]))
  {
    if k <= j {
      LogHoldsEnabled(ds, k);
      EnabledLater(ds, Log(ds, k), k, j);
    } else {
      LogShorter(ds, k - 1);
      LogGrows(ds, k - 1, k);
      LogDepsFirst(ds, k - 1, j);
      assert Log(ds, k - 1)[..j] == Log(ds, k)[..j];
    }
  }

  lemma {:induction false} EnabledLater(ds: seq<Plugin>, log: seq<Name>, k: nat, j: nat)
    requires HoldsEnabled(ds, log, k) && k <= j < |log|
    ensures Enabled(ds, log[j], ToSet(log[..j]))
  {
    assert log[j] in log;
    assert forall y :: y in log[..k] ==> y in log[..j];
  }

  /** Leftover plugins only wait for leftover plugins. */
  predicate Stuck(pend: map<Name, seq<Name>>) {
    forall x, y :: x in pend && y in pend[x] ==> y in pend && pend[y] != []
  }

  /** Consecutive names are linked by the first pending dependency. */
  predicate Linked(pend: map<Name, seq<Name>>, path: seq<Name>) {
    forall i :: 0 <= i < |path| - 1 ==> path[i] in pend && pend[path[i]] != [] && path[i + 1] == pend[path[i]][0]
  }

  method IndexOf(path: seq<Name>, x: Name) returns (i: nat)
    requires x in path
    ensures i < |path| && path[i] == x
  {
    i := 0;
    while path[i] != x
      invariant i < |path| && x !in path[..i]
      decreases |path| - i
    {
      i := i + 1;
    }
  }

  method FirstPending(ds: seq<Plugin>, pend: map<Name, seq<Name>>) returns (s: nat)
    ensures s <= |ds| && (s < |ds| ==> ds[s].name in pend && pend[ds[s].name] != [])
    ensures forall i :: 0 <= i < s ==> ds[i].name !in pend || pend[ds[i].name] == []
  {
    s := 0;
    while s < |ds| && (ds[s].name !in pend || pend[ds[s].name] == [])
      invariant s <= |ds| && forall i :: 0 <= i < s ==> ds[i].name !in pend || pend[ds[i].name] == []
    {
      s := s + 1;
    }
  }

  method FindCycle(ds: seq<Plugin>, pend: map<Name, seq<Name>>) returns (cycle: seq<Name>)
    ensures (forall i :: 0 <= i < |ds| && ds[i].name in pend ==> pend[ds[i].name] == []) ==> cycle == []
    ensures Stuck(pend) && SomeoneLeft(ds, pend) ==>
      |cycle| >= 2 && cycle[0] == cycle[|cycle| - 1] && Linked(pend, cycle) && Distinct(cycle[1..])
    ensures Stuck(pend) && SomeoneLeft(ds, pend) ==> exists s :: FirstLeft(ds, pend, s) && FirstRepeat(pend, ds[s].name, cycle)
  {
    var s := FirstPending(ds, pend);
    if s == |ds| { return []; }
    var path: seq<Name> := [];
    var current := ds[s].name;
    while current !in path
      invariant Walking(pend, path, current) && (path + [current])[0] == ds[s].name
      decreases |pend.Keys - ToSet(path)| + 1
    {
      if current !in pend || pend[current] == [] { return path + [current]; }
      WalkGrows(pend, path, current);
      path, current := path + [current], pend[current][0];
    }
    var at := IndexOf(path, current);
    cycle := path[at..] + [current];
    CycleOf(pend, path, at);
    assert RepeatsAt(pend, ds[s].name, cycle, path, at);
  }

  /** The first plugin in input order that still waits. */
  ghost predicate FirstLeft(ds: seq<Plugin>, pend: map<Name, seq<Name>>, s: int) {
    && 0 <= s < |ds| && ds[s].name in pend && pend[ds[s].name] != []
    && forall i :: 0 <= i < s ==> ds[i].name !in pend || pend[ds[i].name] == []
  }

  /** `cycle` is where the walk along first pending dependencies from `x` first comes back. */
  ghost predicate FirstRepeat(pend: map<Name, seq<Name>>, x: Name, cycle: seq<Name>) {
    exists path, at :: RepeatsAt(pend, x, cycle, path, at)
  }

  ghost predicate RepeatsAt(pend: map<Name, seq<Name>>, x: Name, cycle: seq<Name>, path: seq<Name>, at: int) {
    0 <= at < |path| && path[0] == x && Distinct(path) && Linked(pend, path + [path[at]]) && cycle == path[at..] + [path[at]]
  }

  /** The walk so far never repeated a plugin and never left the leftovers. */
  ghost predicate Walking(pend: map<Name, seq<Name>>, path: seq<Name>, current: Name) {
    Distinct(path) && Linked(pend, path + [current]) && (Stuck(pend) ==> current in pend && pend[current] != [])
  }

  lemma {:induction false} WalkGrows(pend: map<Name, seq<Name>>, path: seq<Name>, current: Name)
    requires Walking(pend, path, current) && current !in path && current in pend && pend[current] != []
    ensures Walking(pend, path + [current], pend[current][0])
    ensures |pend.Keys - ToSet(path + [current])| < |pend.Keys - ToSet(path)|
  {
    assert pend.Keys - ToSet(path + [current]) == pend.Keys - ToSet(path) - {current};
    assert Distinct(path + [current]);
    assert Linked(pend, path + [current] + [pend[current][0]]) by { LinkedGrows(pend, path + [current], pend[current][0]); }
    assert pend[current][0] in pend[current];
  }

  lemma {:induction false} LinkedGrows(pend: map<Name, seq<Name>>, p: seq<Name>, x: Name)
    requires Linked(pend, p) && p != [] && p[|p| - 1] in pend && pend[p[|p| - 1]] != [] && x == pend[p[|p| - 1]][0]
    ensures Linked(pend, p + [x])
  {
    var q := p + [x];
    forall i | 0 <= i < |q| - 1 ensures q[i] in pend && pend[q[i]] != [] && q[i + 1] == pend[q[i]][0] {
      if i < |p| - 1 { assert q[i] == p[i] && q[i + 1] == p[i + 1]; }
    }
  }

  lemma {:induction false} CycleOf(pend: map<Name, seq<Name>>, path: seq<Name>, at: nat)
    requires at < |path| && Distinct(path) && Linked(pend, path + [path[at]])
    ensures Linked(pend, path[at..] + [path[at]]) && Distinct((path[at..] + [path[at]])[1..])
  {
    var c := path[at..] + [path[at]];
    forall i | 0 <= i < |c| - 1 ensures c[i] in pend && pend[c[i]] != [] && c[i + 1] == pend[c[i]][0] {
      assert c[i] == (path + [path[at]])[at + i] && c[i + 1] == (path + [path[at]])[at + i + 1];
    }
  }

  /** When the queue runs dry, what still has pending dependencies is stuck. */
  lemma {:induction false} DryQueueStuck(ds: seq<Plugin>, log: seq<Name>, pend: map<Name, seq<Name>>)
    requires DepsExist(ds) && HoldsEnabled(ds, log, |log|) && Pending(ds, pend, ToSet(log))
    ensures Stuck(pend)
    ensures forall x :: x in pend ==> (pend[x] == [] <==> x in log)
  {
    forall x | x in pend ensures pend[x] == [] <==> x in log { PendingIsMissing(ds, log, pend, x); }
    forall x, y | x in pend && y in pend[x] ensures y in pend && pend[y] != [] {
      EdgeToName(ds, x, y);
    }
  }

  lemma {:induction false} PendingIsMissing(ds: seq<Plugin>, log: seq<Name>, pend: map<Name, seq<Name>>, x: Name)
    requires HoldsEnabled(ds, log, |log|) && Pending(ds, pend, ToSet(log)) && x in pend
    ensures pend[x] == [] <==> x in log
  {
    assert log[..|log|] == log;
    PendingEmpty(ds, pend, x, ToSet(log));
  }

  lemma {:induction false} EdgeToName(ds: seq<Plugin>, x: Name, y: Name)
    requires DepsExist(ds) && Edge(ds, x, y)
    ensures y in Names(ds)
  {
  }

  lemma {:induction false} LinkedIsClosedWalk(ds: seq<Plugin>, pend: map<Name, seq<Name>>, done: set<Name>, c: seq<Name>)
    requires Pending(ds, pend, done) && Linked(pend, c) && |c| >= 2 && c[0] == c[|c| - 1]
    ensures ClosedWalk(ds, c)
  {
  }

  /** The work loop after `k` rounds. */
  ghost predicate Working(ds: seq<Plugin>, log: seq<Name>, k: nat, pend: map<Name, seq<Name>>) {
    Reached(ds, k) && log == Log(ds, k) && k <= |log| && Pending(ds, pend, ToSet(log[..k]))
  }

  lemma {:induction false} OneRound(ds: seq<Plugin>, log: seq<Name>, k: nat, pend: map<Name, seq<Name>>, after: map<Name, seq<Name>>)
    requires Working(ds, log, k, pend) && k < |log| && Pending(ds, after, ToSet(log[..k]) + {log[k]})
    ensures Working(ds, log + Pushes(ds, log[k], ToSet(log[..k]) + {log[k]}), k + 1, after)
  {
    var p := Pushes(ds, log[k], ToSet(log[..k]) + {log[k]});
    TakeNext(log, p, k);
    LogStep(ds, k);
  }

  lemma {:induction false} TakeNext(log: seq<Name>, p: seq<Name>, k: nat)
    requires k < |log|
    ensures ToSet(log[..k + 1]) == ToSet(log[..k]) + {log[k]} && (log + p)[..k + 1] == log[..k + 1]
  {
    assert log[..k + 1] == log[..k] + [log[k]];
  }

  lemma {:induction false} EntryIsName(ds: seq<Plugin>, log: seq<Name>, k: nat, pend: map<Name, seq<Name>>)
    requires Working(ds, log, k, pend) && k < |log|
    ensures log[k] in Names(ds)
  {
    LogHoldsEnabled(ds, k);
    assert log[k] in log;
  }

  lemma {:induction false} StartsWorking(ds: seq<Plugin>, pend: map<Name, seq<Name>>)
    requires Pending(ds, pend, {})
    ensures Working(ds, Roots(ds), 0, pend)
  {
    assert ToSet(Roots(ds)[..0]) == {};
  }

  /** One turn of the `while` loop; `log` is `ordered` followed by `ready`. */
  method Round(ds: seq<Plugin>, byName: map<Name, Plugin>, dependents: map<Name, seq<Name>>, pend: map<Name, seq<Name>>,
    ready: seq<Name>, ordered: seq<Plugin>, ghost log: seq<Name>)
    returns (pend': map<Name, seq<Name>>, ready': seq<Name>, ordered': seq<Plugin>, ghost log': seq<Name>)
    requires ready != [] && byName.Keys == dependents.Keys == ToSet(Names(ds))
    requires forall i :: 0 <= i < |ds| ==> byName[ds[i].name] == ds[i]
    requires forall x :: x in dependents ==> dependents[x] == Dependents(ds, x)
    requires log == Names(ordered) + ready && Working(ds, log, |ordered|, pend)
    requires forall p :: p in ordered ==> p in ds
    ensures log' == Names(ordered') + ready' && Working(ds, log', |ordered'|, pend')
    ensures |ordered'| == |ordered| + 1 && forall p :: p in ordered' ==> p in ds
  {
    var current := ready[0];
    ghost var k, done := |ordered|, ToSet(log[..|ordered|]);
    assert current == log[k] && current in Names(ds) by { EntryIsName(ds, log, k, pend); }
    var pushed;
    pend', pushed := Release(ds, current, dependents[current], pend, done);
    log' := log + pushed;
    assert Working(ds, log', k + 1, pend') by { OneRound(ds, log, k, pend, pend'); }
    ordered' := Taken(ds, byName, ordered, current);
    ready' := ready[1..] + pushed;
    Shifted(Names(ordered), ready, pushed);
  }

  lemma {:induction false} Shifted(taken: seq<Name>, ready: seq<Name>, pushed: seq<Name>)
    requires ready != []
    ensures taken + ready + pushed == (taken + [ready[0]]) + (ready[1..] + pushed)
  {
  }

  method Taken(ds: seq<Plugin>, byName: map<Name, Plugin>, ordered: seq<Plugin>, current: Name) returns (r: seq<Plugin>)
    requires current in Names(ds) && byName.Keys == ToSet(Names(ds))
    requires forall i :: 0 <= i < |ds| ==> byName[ds[i].name] == ds[i]
    requires forall p :: p in ordered ==> p in ds
    ensures Names(r) == Names(ordered) + [current]
    ensures forall p :: p in r ==> p in ds
  {
    ghost var i: nat :| i < |ds| && Names(ds)[i] == current;
    assert byName[ds[i].name] == ds[i];
    r := ordered + [byName[current]];
  }

  /** `topoSortPlugins` up to the end of its loop, which ends even where dependencies are
      listed more than once. */
  method RunQueue(ds: seq<Plugin>) returns (ordered: seq<Plugin>, pend: map<Name, seq<Name>>)
    requires Checks(ds)
    ensures Dry(ds, Names(ordered), pend)
    ensures forall p :: p in ordered ==> p in ds
  {
    var byName, dependents;
    byName, pend, dependents := BuildTopoState(ds);
    var ready := InitialReadyQueue(ds, pend);
    ordered := [];
    ghost var log := ready;
    StartsWorking(ds, pend);
    ghost var bound := QueueBound(ds);
    while ready != []
      invariant log == Names(ordered) + ready && Working(ds, log, |ordered|, pend)
      invariant forall p :: p in ordered ==> p in ds
      invariant |log| <= bound
      decreases bound - |ordered|
    {
      pend, ready, ordered, log := Round(ds, byName, dependents, pend, ready, ordered, log);
      WithinQueueBound(ds, log, |ordered|, pend, bound);
    }
    assert log == Names(ordered) && log[..|log|] == log;
  }

  lemma {:induction false} QueueBound(ds: seq<Plugin>) returns (bound: nat)
    requires Distinct(Names(ds))
    ensures forall k: nat :: Reached(ds, k) ==> |Log(ds, k)| <= bound
    ensures |Roots(ds)| <= bound
  {
    var o := OnceOrder(ds);
    bound := Growth(Listings(ds, |ds|), |o|);
    forall k: nat | Reached(ds, k) ensures |Log(ds, k)| <= bound { LogBounded(ds, o, k); }
    assert Reached(ds, 0) && Log(ds, 0) == Roots(ds);
  }

  lemma {:induction false} WithinQueueBound(ds: seq<Plugin>, log: seq<Name>, k: nat, pend: map<Name, seq<Name>>, bound: nat)
    requires Working(ds, log, k, pend) && forall k: nat :: Reached(ds, k) ==> |Log(ds, k)| <= bound
    ensures |log| <= bound
  {
  }

  /** The queue ran dry after holding exactly `log`. */
  ghost predicate Dry(ds: seq<Plugin>, log: seq<Name>, pend: map<Name, seq<Name>>) {
    Reached(ds, |log|) && log == Log(ds, |log|) && Pending(ds, pend, ToSet(log))
  }

  /** What a successful sort promises. */
  ghost predicate SortOf(ds: seq<Plugin>, order: seq<Plugin>) {
    && multiset(order) == multiset(ds)
    && DepsFirst(ds, Names(order))
    && QueueOrder(ds, Names(order), |order|)
  }

  /** The sort succeeds exactly when the queue held as many entries as there are plugins.
      Where no plugin that is taken repeats the last of its dependencies, in particular where
      nothing is listed twice, that is exactly when there is no cycle, and then the order is
      the proper one. Otherwise an acyclic input is reported as a cycle without members, and
      a cyclic one may pass (see RepeatHidesCycle). A reported cycle with members is one. */
  method TopoSort(ds: seq<Plugin>) returns (r: Outcome)
    requires Checks(ds)
    ensures r.Sorted? <==> |Log(ds, |ds|)| == |ds|
    ensures TakenLastOnce(ds, Log(Once(ds), |ds|)) ==> (r.Sorted? <==> Acyclic(ds)) && (r.Sorted? ==> SortOf(ds, r.order))
    ensures DepsListedOnce(ds) ==> TakenLastOnce(ds, Log(Once(ds), |ds|))
    ensures Acyclic(ds) ==> (r.Sorted? <==> TakenLastOnce(ds, Log(Once(ds), |ds|))) && (r.Cycle? ==> r.path == [])
    ensures r.Cycle? && r.path != [] ==> ClosedWalk(ds, r.path) && Distinct(r.path[1..])
    ensures r.Cycle? && r.path == [] ==> Acyclic(ds) && !DepsListedOnce(ds)
    ensures r.Sorted? ==> DepsFirst(ds, Names(r.order)) && Names(r.order) == Log(ds, |ds|)
    ensures Acyclic(ds) && r.Sorted? ==> Names(r.order) == Log(Once(ds), |ds|) && Distinct(Names(r.order))
  {
    var ordered, pend := RunQueue(ds);
    ListedOnceTaken(ds, Log(Once(ds), |ds|));
    SizeOutcome(ds, Names(ordered), pend);
    if |ordered| != |ds| {
      var path := FindCycle(ds, pend);
      CycleOutcome(ds, Names(ordered), pend, path);
      r := Cycle(path);
    } else {
      SortedOutcome(ds, ordered, pend);
      r := Sorted(ordered);
    }
  }

  lemma {:induction false} ListedOnceTaken(ds: seq<Plugin>, o: seq<Name>)
    ensures DepsListedOnce(ds) ==> TakenLastOnce(ds, o)
  {
    if DepsListedOnce(ds) {
      forall i | 0 <= i < |ds| && ds[i].name in o ensures ListsLastOnce(ds[i].deps, o) {
        var t := Latest(o, ds[i].deps, |o|);
        if t >= 0 { CountDistinct(ds[i].deps, o[t]); }
      }
    }
  }

  /** What the length of the queue's history says. */
  lemma {:induction false} SizeOutcome(ds: seq<Plugin>, log: seq<Name>, pend: map<Name, seq<Name>>)
    requires Checks(ds) && Dry(ds, log, pend)
    ensures |log| == |ds| <==> |Log(ds, |ds|)| == |ds|
    ensures TakenLastOnce(ds, Log(Once(ds), |ds|)) ==> (|log| == |ds| <==> Acyclic(ds))
    ensures Acyclic(ds) ==> (|log| == |ds| <==> TakenLastOnce(ds, Log(Once(ds), |ds|)))
    ensures Acyclic(ds) ==> !SomeoneLeft(ds, pend)
  {
    if |Log(ds, |ds|)| == |ds| { DryMeets(ds, |ds|, |log|); }
    var o := Log(Once(ds), |ds|);
    RepeatedListings(ds, o, log);
    DryMeans(ds, log, pend);
    HeldIffAcyclic(ds, log, pend);
    LengthMeans(ds, log);
  }

  lemma {:induction false} HeldIffAcyclic(ds: seq<Plugin>, log: seq<Name>, pend: map<Name, seq<Name>>)
    requires Checks(ds) && Dry(ds, log, pend)
    ensures Acyclic(ds) <==> HoldsEvery(ds, log)
  {
    if Acyclic(ds) { AcyclicHoldsAll(ds, log, pend); }
    if HoldsEvery(ds, log) { AllHeldAcyclic(ds, log); }
  }

  ghost predicate HoldsEvery(ds: seq<Plugin>, log: seq<Name>) { forall i :: 0 <= i < |ds| ==> ds[i].name in log }

  /** Of three facts about a history of plugin names, two give the third: it holds every
      plugin, it holds none twice, it is as long as the input. */
  lemma {:induction false} LengthMeans(ds: seq<Plugin>, log: seq<Name>)
    requires Distinct(Names(ds)) && HoldsEnabled(ds, log, |log|)
    ensures HoldsEvery(ds, log) ==> (|log| == |ds| <==> Distinct(log))
    ensures Distinct(log) ==> (|log| == |ds| <==> HoldsEvery(ds, log))
  {
    NamesCount(ds);
    if HoldsEvery(ds, log) { SubsetSizes(ds, log); }
    if Distinct(log) {
      SubsetSize(log, ToSet(Names(ds)));
      if |log| == |ds| {
        forall i | 0 <= i < |ds| ensures ds[i].name in log { assert Names(ds)[i] in ToSet(log); }
      }
    }
  }

  /** Whoever is left starts a closed walk. */
  lemma {:induction false} LeftoverCycle(ds: seq<Plugin>, pend: map<Name, seq<Name>>, done: set<Name>, path: seq<Name>,
    current: Name) returns (w: seq<Name>)
    requires Pending(ds, pend, done) && Stuck(pend) && Walking(pend, path, current)
    ensures ClosedWalk(ds, w)
    decreases |pend.Keys - ToSet(path)|
  {
    if current in path {
      var at :| 0 <= at < |path| && path[at] == current;
      w := path[at..] + [current];
      CycleOf(pend, path, at);
      LinkedIsClosedWalk(ds, pend, done, w);
    } else {
      WalkGrows(pend, path, current);
      w := LeftoverCycle(ds, pend, done, path + [current], pend[current][0]);
    }
  }

  /** On an acyclic input every plugin is taken. */
  lemma {:induction false} AcyclicHoldsAll(ds: seq<Plugin>, log: seq<Name>, pend: map<Name, seq<Name>>)
    requires Checks(ds) && Dry(ds, log, pend) && Acyclic(ds)
    ensures forall i :: 0 <= i < |ds| ==> ds[i].name in log
  {
    DryMeans(ds, log, pend);
    if SomeoneLeft(ds, pend) { LeftoverNotAcyclic(ds, pend, ToSet(log)); }
  }

  lemma {:induction false} LeftoverNotAcyclic(ds: seq<Plugin>, pend: map<Name, seq<Name>>, done: set<Name>)
    requires Pending(ds, pend, done) && Stuck(pend) && SomeoneLeft(ds, pend)
    ensures !Acyclic(ds)
  {
    var i :| 0 <= i < |ds| && ds[i].name in pend && pend[ds[i].name] != [];
    var w := LeftoverCycle(ds, pend, done, [], ds[i].name);
  }

  /** A history that holds every plugin is at least as long as the input, and longer if it
      holds one twice. */
  lemma {:induction false} SubsetSizes(ds: seq<Plugin>, log: seq<Name>)
    requires Distinct(Names(ds)) && (forall i :: 0 <= i < |ds| ==> ds[i].name in log) && forall x :: x in log ==> x in Names(ds)
    ensures |log| >= |ds| && (|log| == |ds| ==> Distinct(log))
  {
    NamesCount(ds);
    assert ToSet(log) == ToSet(Names(ds)) by {
      forall x | x in Names(ds) ensures x in log { var i :| 0 <= i < |ds| && Names(ds)[i] == x; }
    }
    FewerIfRepeated(log);
  }

  lemma {:induction false} FewerIfRepeated(s: seq<Name>)
    ensures |ToSet(s)| <= |s| && (|ToSet(s)| == |s| ==> Distinct(s))
  {
    if s == [] {
      assert ToSet(s) == {};
    } else {
      var n := |s| - 1;
      assert s == s[..n] + [s[n]];
      FewerIfRepeated(s[..n]);
      assert ToSet(s) == ToSet(s[..n]) + {s[n]};
      if |ToSet(s)| == |s| { assert s[n] !in ToSet(s[..n]); }
    }
  }

  ghost predicate SomeoneLeft(ds: seq<Plugin>, pend: map<Name, seq<Name>>) {
    exists i :: 0 <= i < |ds| && ds[i].name in pend && pend[ds[i].name] != []
  }

  lemma {:induction false} DryMeans(ds: seq<Plugin>, log: seq<Name>, pend: map<Name, seq<Name>>)
    requires Checks(ds) && Dry(ds, log, pend)
    ensures Stuck(pend) && HoldsEnabled(ds, log, |log|)
    ensures SomeoneLeft(ds, pend) <==> exists i :: 0 <= i < |ds| && ds[i].name !in log
  {
    LogHoldsEnabled(ds, |log|);
    DryQueueStuck(ds, log, pend);
    forall i | 0 <= i < |ds| ensures ds[i].name in pend { assert Names(ds)[i] in pend; }
  }

  lemma {:induction false} CycleOutcome(ds: seq<Plugin>, log: seq<Name>, pend: map<Name, seq<Name>>, path: seq<Name>)
    requires Checks(ds) && Dry(ds, log, pend) && |log| != |ds|
    requires (forall i :: 0 <= i < |ds| && ds[i].name in pend ==> pend[ds[i].name] == []) ==> path == []
    requires Stuck(pend) && SomeoneLeft(ds, pend) ==>
      |path| >= 2 && path[0] == path[|path| - 1] && Linked(pend, path) && Distinct(path[1..])
    ensures path != [] ==> ClosedWalk(ds, path) && Distinct(path[1..])
    ensures path == [] ==> Acyclic(ds)
  {
    DryMeans(ds, log, pend);
    if SomeoneLeft(ds, pend) {
      LinkedIsClosedWalk(ds, pend, ToSet(log), path);
    } else {
      AllHeldAcyclic(ds, log);
    }
  }

  /** If every plugin was taken there is no closed walk. */
  lemma {:induction false} AllHeldAcyclic(ds: seq<Plugin>, log: seq<Name>)
    requires Checks(ds) && Reached(ds, |log|) && log == Log(ds, |log|) && forall i :: 0 <= i < |ds| ==> ds[i].name in log
    ensures Acyclic(ds)
  {
    var o := OnceOrder(ds);
    forall x ensures x in o <==> x in Names(ds) {
      if x in Names(ds) {
        var i :| 0 <= i < |ds| && Names(ds)[i] == x;
        var j :| 0 <= j < |log| && log[j] == ds[i].name;
        HeldOnce(ds, o, |log|, j);
      }
    }
    LayeredDepsFirst(ds, o);
    OrderedIsAcyclic(ds, o);
  }

  lemma {:induction false} LayeredDepsFirst(ds: seq<Plugin>, o: seq<Name>)
    requires Distinct(Names(ds)) && forall j :: 0 <= j < |o| ==> Enabled(ds, o[j], ToSet(o[..j]))
    ensures DepsFirst(ds, o)
  {
    forall i, j, y | 0 <= i < |ds| && 0 <= j < |o| && ds[i].name == o[j] && y in ds[i].deps ensures y in o[..j] { EdgeOfName(ds, i, y); }
  }

  lemma {:induction false} SortedOutcome(ds: seq<Plugin>, order: seq<Plugin>, pend: map<Name, seq<Name>>)
    requires Checks(ds) && Dry(ds, Names(order), pend) && |order| == |ds| && forall p :: p in order ==> p in ds
    ensures DepsFirst(ds, Names(order)) && Names(order) == Log(ds, |ds|)
    ensures TakenLastOnce(ds, Log(Once(ds), |ds|)) ==> SortOf(ds, order) && Names(order) == Log(Once(ds), |ds|) && Distinct(Names(order))
  {
    var log, o := Names(order), Log(Once(ds), |ds|);
    forall j | 0 <= j < |log| ensures Enabled(ds, log[j], ToSet(log[..j])) { LogDepsFirst(ds, |log|, j); }
    LayeredDepsFirst(ds, log);
    if TakenLastOnce(ds, o) {
      RepeatedListings(ds, o, log);
      assert QueueOrder(ds, log, |log|) by { OnceInOrder(ds, |ds|); }
      assert ToSet(log) == ToSet(Names(ds)) by {
        LogHoldsEnabled(ds, |log|);
        NamesCount(ds);
        SubsetSize(log, ToSet(Names(ds)));
      }
      SameNamesSamePlugins(ds, order);
    }
  }

  /** Repeated listings do not move the last dependency. */
  lemma {:induction false} OnceInOrder(ds: seq<Plugin>, n: nat)
    requires Distinct(Names(ds)) && |Log(Once(ds), n)| == n
    ensures QueueOrder(ds, Log(Once(ds), n), n)
  {
    var es, o := Once(ds), Log(Once(ds), n);
    OnceMeaning(ds);
    assert Reached(es, n) by { if n > 0 { StillBusy(es, n - 1, n); } }
    LogInOrder(es, n);
    forall i, j, a: nat, b: nat | 0 <= i < j < |o| && a < |ds| && b < |ds| && ds[a].name == o[i] && ds[b].name == o[j]
      ensures Precedes(ds, o, n, a, b)
    {
      assert es[a].name == o[i] && es[b].name == o[j];
      assert Precedes(es, o, n, a, b);
      LatestOfDedup(o, ds[a].deps, n);
      LatestOfDedup(o, ds[b].deps, n);
    }
  }

  lemma {:induction false} LatestOfDedup(o: seq<Name>, deps: seq<Name>, n: nat)
    requires n <= |o|
    ensures Latest(o, Dedup(deps), n) == Latest(o, deps, n)
  {
    if n > 0 { LatestOfDedup(o, deps, n - 1); }
  }

  lemma {:induction false} SameNamesSamePlugins(ds: seq<Plugin>, order: seq<Plugin>)
    requires Distinct(Names(ds)) && Distinct(Names(order)) && forall p :: p in order ==> p in ds
    requires ToSet(Names(order)) == ToSet(Names(ds))
    ensures multiset(order) == multiset(ds)
  {
    forall p ensures multiset(order)[p] == multiset(ds)[p] {
      CountPlugin(order, p);
      CountPlugin(ds, p);
      if p in ds {
        var i :| 0 <= i < |ds| && ds[i] == p;
        assert Names(ds)[i] == p.name && p.name in ToSet(Names(order));
        var j :| 0 <= j < |order| && Names(order)[j] == p.name;
        assert order[j] in order;
        var k :| 0 <= k < |ds| && ds[k] == order[j];
        assert Names(ds)[k] == Names(ds)[i];
      }
    }
  }

  lemma {:induction false} CountPlugin(s: seq<Plugin>, p: Plugin)
    requires Distinct(Names(s))
    ensures multiset(s)[p] == if p in s then 1 else 0
  {
    forall i, j | 0 <= i < j < |s| ensures s[i] != s[j] { assert Names(s)[i] != Names(s)[j]; }
    CountDistinct(s, p);
  }

  /** Along a walk in a sorted order positions only go down, so it never comes back. */
  lemma {:induction false} OrderedIsAcyclic(ds: seq<Plugin>, order: seq<Name>)
    requires Distinct(Names(ds)) && DepsFirst(ds, order) && Distinct(order) && ToSet(order) == ToSet(Names(ds))
    ensures Acyclic(ds)
  {
    forall w ensures !ClosedWalk(ds, w) {
      if ClosedWalk(ds, w) {
        WalkGoesDown(ds, order, w, |w| - 1);
        assert false;
      }
    }
  }

  lemma {:induction false} WalkGoesDown(ds: seq<Plugin>, order: seq<Name>, w: seq<Name>, n: nat)
    requires DepsFirst(ds, order) && Distinct(order) && ToSet(order) == ToSet(Names(ds))
    requires 0 < n < |w| && forall i :: 0 <= i < |w| - 1 ==> Edge(ds, w[i], w[i + 1])
    ensures exists p, q :: 0 <= p < q < |order| && order[p] == w[n] && order[q] == w[0]
  {
    if n == 1 {
      EdgeGoesDown(ds, order, w[0], w[1]);
    } else {
      WalkGoesDown(ds, order, w, n - 1);
      var p, q :| 0 <= p < q < |order| && order[p] == w[n - 1] && order[q] == w[0];
      EdgeGoesDown(ds, order, w[n - 1], w[n]);
      var p', q' :| 0 <= p' < q' < |order| && order[p'] == w[n] && order[q'] == w[n - 1];
    }
  }

  lemma {:induction false} EdgeGoesDown(ds: seq<Plugin>, order: seq<Name>, x: Name, y: Name)
    requires DepsFirst(ds, order) && ToSet(order) == ToSet(Names(ds)) && Edge(ds, x, y)
    ensures exists p, q :: 0 <= p < q < |order| && order[p] == y && order[q] == x
  {
    var i :| 0 <= i < |ds| && ds[i].name == x && y in ds[i].deps;
    assert Names(ds)[i] == x && x in ToSet(order);
    var q :| 0 <= q < |order| && order[q] == x;
    var p :| 0 <= p < q && order[p] == y;
  }

  // ---------------------------------------------------------------------------
  // What the order means
  // ---------------------------------------------------------------------------

  lemma LatestReaches(order: seq<Name>, deps: seq<Name>, n: nat, p: nat)
    requires p < n <= |order| && order[p] in deps
    ensures p <= Latest(order, deps, n)
  {
  }

  /** Every dependency of an entry is matched, no earlier, by one of each later entry. */
  lemma {:induction false} LaterDependency(ds: seq<Plugin>, order: seq<Plugin>, i: nat, j: nat, y: Name) returns (p: nat, q: nat)
    requires SortOf(ds, order) && i < j < |order| && Edge(ds, order[i].name, y)
    ensures p <= q < |order| && order[p].name == y && Edge(ds, order[j].name, order[q].name)
  {
    var o := Names(order);
    var a: nat :| a < |ds| && ds[a].name == order[i].name && y in ds[a].deps;
    assert o[i] == ds[a].name && y in o[..i];
    p :| p < i && o[p] == y;
    var b := PlaceOf(ds, order, j);
    assert Precedes(ds, o, |o|, a, b);
    LatestReaches(o, ds[a].deps, |o|, p);
    q := Latest(o, ds[b].deps, |o|);
  }

  lemma {:induction false} ChainHead(ds: seq<Plugin>, x: Name, n: nat) returns (y: Name)
    requires n > 0 && HasChain(ds, x, n)
    ensures Edge(ds, x, y) && HasChain(ds, y, n - 1)
  {
    y :| Edge(ds, x, y) && HasChain(ds, y, n - 1);
  }

  lemma {:induction false} ChainGrows(ds: seq<Plugin>, x: Name, y: Name, n: nat)
    requires n > 0 && Edge(ds, x, y) && HasChain(ds, y, n - 1)
    ensures HasChain(ds, x, n)
  {
  }

  ghost predicate MatchedNoEarlier(ds: seq<Plugin>, o: seq<Name>, j: nat, y: Name) {
    j < |o| && exists p, q :: 0 <= p <= q < |o| && o[p] == y && Edge(ds, o[j], o[q])
  }

  lemma {:induction false} ChainsMatched(ds: seq<Plugin>, o: seq<Name>, i: nat, j: nat, n: nat)
    requires forall i, j, y :: 0 <= i < j < |o| && Edge(ds, o[i], y) ==> MatchedNoEarlier(ds, o, j, y)
    requires i <= j < |o| && HasChain(ds, o[i], n)
    ensures HasChain(ds, o[j], n)
    decreases n
  {
    if n > 0 && i < j {
      var y := ChainHead(ds, o[i], n);
      assert MatchedNoEarlier(ds, o, j, y);
      var p, q :| 0 <= p <= q < |o| && o[p] == y && Edge(ds, o[j], o[q]);
      ChainsMatched(ds, o, p, q, n - 1);
      ChainGrows(ds, o[j], o[q], n);
    }
  }

  /** Non-decreasing in depth: whoever starts a chain of `n` dependencies has only such
      plugins behind it. */
  lemma {:induction false} DeeperNeverEarlier(ds: seq<Plugin>, order: seq<Plugin>, i: nat, j: nat, n: nat)
    requires i <= j < |order|
    ensures SortOf(ds, order) && HasChain(ds, order[i].name, n) ==> HasChain(ds, order[j].name, n)
  {
    if SortOf(ds, order) && HasChain(ds, order[i].name, n) {
      var o := Names(order);
      forall i, j, y | 0 <= i < j < |o| && Edge(ds, o[i], y) ensures MatchedNoEarlier(ds, o, j, y) {
        var p, q := LaterDependency(ds, order, i, j, y);
        assert o[p] == y && Edge(ds, o[j], o[q]);
      }
      ChainsMatched(ds, o, i, j, n);
    }
  }

  /** Plugins without dependencies keep their input order and come before all others. */
  lemma {:induction false} RootsKeepInputOrder(ds: seq<Plugin>, order: seq<Plugin>, i: nat, j: nat, a: nat, b: nat)
    requires SortOf(ds, order) && i < j < |order| && a < |ds| && b < |ds| && order[i] == ds[a] && order[j] == ds[b]
    ensures ds[b].deps == [] ==> ds[a].deps == [] && a < b
  {
    var o := Names(order);
    if ds[a].deps != [] {
      var y := ds[a].deps[0];
      assert o[i] == ds[a].name && y in o[..i];
      var p: nat :| p < i && o[p] == y;
      LatestReaches(o, ds[a].deps, |o|, p);
    }
    assert Precedes(ds, o, |o|, a, b);
  }

  /** `DepsFirst` and `QueueOrder` leave no freedom: there is one such order. */
  lemma {:induction false} OrderIsUnique(ds: seq<Plugin>, s: seq<Plugin>, t: seq<Plugin>, n: nat)
    requires Checks(ds) && SortOf(ds, s) && SortOf(ds, t) && n <= |ds|
    ensures |s| == |t| == |ds| && s[..n] == t[..n]
  {
    assert |s| == |multiset(s)| == |ds| && |t| == |multiset(t)|;
    if n > 0 {
      OrderIsUnique(ds, s, t, n - 1);
      var i := n - 1;
      NextAgrees(ds, s, t, i);
      assert s[..n] == s[..i] + [s[i]] && t[..n] == t[..i] + [t[i]];
    }
  }

  lemma {:induction false} NextAgrees(ds: seq<Plugin>, s: seq<Plugin>, t: seq<Plugin>, i: nat)
    requires Distinct(Names(ds)) && SortOf(ds, s) && SortOf(ds, t) && i < |s| && i < |t| && s[..i] == t[..i]
    ensures s[i] == t[i]
  {
    var a := PlaceOf(ds, s, i);
    var b := PlaceOf(ds, t, i);
    if a != b {
      NextGoesFirst(ds, s, t, i, a, b);
      NextGoesFirst(ds, t, s, i, b, a);
      SameNamesBefore(s, t, i);
      LatestPrefixOnly(Names(s), Names(t), ds[a].deps, i);
      LatestPrefixOnly(Names(s), Names(t), ds[b].deps, i);
      assert false;
    }
  }

  lemma {:induction false} SameNamesBefore(s: seq<Plugin>, t: seq<Plugin>, i: nat)
    requires i <= |s| && i <= |t| && s[..i] == t[..i]
    ensures Names(s)[..i] == Names(t)[..i]
  {
    forall k | 0 <= k < i ensures Names(s)[k] == Names(t)[k] { assert s[..i][k] == t[..i][k]; }
  }

  lemma {:induction false} PlaceOf(ds: seq<Plugin>, s: seq<Plugin>, i: nat) returns (a: nat)
    requires multiset(s) == multiset(ds) && i < |s|
    ensures a < |ds| && ds[a] == s[i]
  {
    assert s[i] in multiset(ds);
    a :| a < |ds| && ds[a] == s[i];
  }

  lemma {:induction false} PermutedNamesDistinct(ds: seq<Plugin>, s: seq<Plugin>)
    requires Distinct(Names(ds)) && multiset(s) == multiset(ds)
    ensures Distinct(Names(s))
  {
    forall i, j | 0 <= i < j < |s| ensures Names(s)[i] != Names(s)[j] {
      var a := PlaceOf(ds, s, i);
      var b := PlaceOf(ds, s, j);
      CountPlugin(ds, s[j]);
      if a == b {
        RepeatCounts(s, i, j);
      } else {
        assert Names(ds)[a] != Names(ds)[b];
      }
    }
  }

  lemma {:induction false} RepeatCounts(s: seq<Plugin>, i: nat, j: nat)
    requires i < j < |s| && s[i] == s[j]
    ensures multiset(s)[s[j]] >= 2
  {
    assert s == s[..j] + [s[j]] + s[j + 1..];
    assert s[i] in s[..j];
  }

  lemma {:induction false} NotBefore(s: seq<Plugin>, t: seq<Plugin>, i: nat, j: nat)
    requires j < i < |t| && i <= |s| && s[..i] == t[..i] && Distinct(Names(t))
    ensures s[j] != t[i]
  {
    assert s[..i][j] == t[..i][j];
    assert Names(t)[j] != Names(t)[i];
  }

  lemma {:induction false} DepsBefore(ds: seq<Plugin>, s: seq<Plugin>, i: nat, a: nat)
    requires DepsFirst(ds, Names(s)) && i < |s| && a < |ds| && s[i] == ds[a]
    ensures forall y :: y in ds[a].deps ==> y in Names(s)[..i]
  {
    assert Names(s)[i] == ds[a].name;
  }

  /** Where two sorts of the same plugins part ways, each puts its own choice before the other's. */
  lemma {:induction false} NextGoesFirst(ds: seq<Plugin>, s: seq<Plugin>, t: seq<Plugin>, i: nat, a: nat, b: nat)
    requires Distinct(Names(ds)) && SortOf(ds, s) && SortOf(ds, t) && i < |s| && i < |t| && s[..i] == t[..i]
    requires a < |ds| && b < |ds| && a != b && s[i] == ds[a] && t[i] == ds[b]
    ensures var o := Names(s);
      || Latest(o, ds[a].deps, i) < Latest(o, ds[b].deps, i)
      || (Latest(o, ds[a].deps, i) == Latest(o, ds[b].deps, i) && a < b)
  {
    var o, u := Names(s), Names(t);
    PermutedNamesDistinct(ds, s);
    PermutedNamesDistinct(ds, t);
    assert ds[a].name != ds[b].name by { assert Names(ds)[a] != Names(ds)[b]; }
    assert t[i] in multiset(s);
    var j: nat :| j < |s| && s[j] == t[i];
    if j < i { NotBefore(s, t, i, j); }
    SameNamesBefore(s, t, i);
    DepsBefore(ds, s, i, a);
    DepsBefore(ds, t, i, b);
    KeysOnPrefix(ds, o, i, j, a, b);
  }

  lemma {:induction false} KeysOnPrefix(ds: seq<Plugin>, o: seq<Name>, i: nat, j: nat, a: nat, b: nat)
    requires QueueOrder(ds, o, |o|) && Distinct(o) && i < j < |o| && a < |ds| && b < |ds| && ds[a].name == o[i] && ds[b].name == o[j]
    requires (forall y :: y in ds[a].deps ==> y in o[..i]) && (forall y :: y in ds[b].deps ==> y in o[..i])
    ensures Latest(o, ds[a].deps, i) < Latest(o, ds[b].deps, i) || (Latest(o, ds[a].deps, i) == Latest(o, ds[b].deps, i) && a < b)
  {
    assert Precedes(ds, o, |o|, a, b);
    LatestAgrees(o, o, ds[a].deps, i, |o|);
    LatestAgrees(o, o, ds[b].deps, i, |o|);
  }

  lemma {:induction false} LatestAgrees(s: seq<Name>, t: seq<Name>, deps: seq<Name>, i: nat, n: nat)
    requires i <= n <= |s| && n <= |t| && s[..i] == t[..i] && Distinct(s) && forall y :: y in deps ==> y in s[..i]
    ensures Latest(s, deps, n) == Latest(s, deps, i) == Latest(t, deps, i)
  {
    if n > i {
      assert s[n - 1] !in s[..i];
      LatestAgrees(s, t, deps, i, n - 1);
    } else if i > 0 {
      LatestPrefixOnly(s, t, deps, i);
    }
  }

  lemma {:induction false} LatestPrefixOnly(s: seq<Name>, t: seq<Name>, deps: seq<Name>, i: nat)
    requires i <= |s| && i <= |t| && s[..i] == t[..i]
    ensures Latest(s, deps, i) == Latest(t, deps, i)
  {
    if i > 0 {
      assert s[i - 1] == s[..i][i - 1] && t[i - 1] == t[..i][i - 1];
      assert s[..i - 1] == s[..i][..i - 1] && t[..i - 1] == t[..i][..i - 1];
    }
  }

  // ---------------------------------------------------------------------------
  // When tiers keep their input order
  // ---------------------------------------------------------------------------

  /** The longest dependency chain from `x` has `n` edges. */
  ghost predicate AtDepth(ds: seq<Plugin>, x: Name, n: nat) { HasChain(ds, x, n) && !HasChain(ds, x, n + 1) }

  ghost predicate DepthIs(ds: seq<Plugin>, a: nat, n: nat) { a < |ds| && AtDepth(ds, ds[a].name, n) }

  /** `ds[a]` comes out before `ds[b]`. */
  ghost predicate KeepsOrder(ds: seq<Plugin>, order: seq<Plugin>, a: nat, b: nat)
    requires a < |ds| && b < |ds|
  {
    forall i: nat, j: nat :: i < |order| && j < |order| && order[i] == ds[a] && order[j] == ds[b] ==> i < j
  }

  /** Plugins of depth `n` come out in input order. */
  ghost predicate TierStable(ds: seq<Plugin>, order: seq<Plugin>, n: nat) {
    forall a: nat, b: nat :: a < b && DepthIs(ds, a, n) && DepthIs(ds, b, n) ==> KeepsOrder(ds, order, a, b)
  }

  /** Input position, below `m`, of the last dependency of `ds[a]` that has depth `n`, or -1. */
  ghost function LastDepAt(ds: seq<Plugin>, a: nat, n: nat, m: nat): (k: int)
    requires a < |ds| && m <= |ds|
    ensures -1 <= k < m && (k >= 0 ==> ds[k].name in ds[a].deps && DepthIs(ds, k, n))
    ensures forall j: nat :: k < j < m && ds[j].name in ds[a].deps ==> !DepthIs(ds, j, n)
  {
    if m == 0 then -1
    else if ds[m - 1].name in ds[a].deps && DepthIs(ds, m - 1, n) then m - 1
    else LastDepAt(ds, a, n, m - 1)
  }

  /** Of two plugins of depth `n + 1` the one listed first has no later last dependency of
      depth `n`. This looks at the input only. */
  ghost predicate TierMonotone(ds: seq<Plugin>, n: nat) {
    forall a: nat, b: nat :: a < b && DepthIs(ds, a, n + 1) && DepthIs(ds, b, n + 1) ==> LastDepNoLater(ds, n, a, b)
  }

  ghost predicate LastDepNoLater(ds: seq<Plugin>, n: nat, a: nat, b: nat)
    requires a < |ds| && b < |ds|
  {
    LastDepAt(ds, a, n, |ds|) <= LastDepAt(ds, b, n, |ds|)
  }

  /** The dependency of a plugin that is taken last is one of the deepest. */
  lemma {:induction false} LastTakenDepth(ds: seq<Plugin>, order: seq<Plugin>, a: nat, n: nat)
    requires Checks(ds) && SortOf(ds, order) && DepthIs(ds, a, n + 1)
    ensures var q := Latest(Names(order), ds[a].deps, |order|); q >= 0 && AtDepth(ds, order[q].name, n)
  {
    var o := Names(order);
    var q := Latest(o, ds[a].deps, |o|);
    var y := ChainHead(ds, ds[a].name, n + 1);
    EdgeOfName(ds, a, y);
    var p := PlaceOfName(ds, order, y);
    LatestReaches(o, ds[a].deps, |o|, p);
    DeeperNeverEarlier(ds, order, p, q, n);
    EdgeOfName(ds, a, o[q]);
    NotDeeper(ds, ds[a].name, o[q], n);
  }

  lemma {:induction false} NotDeeper(ds: seq<Plugin>, x: Name, y: Name, n: nat)
    requires Edge(ds, x, y) && !HasChain(ds, x, n + 2)
    ensures !HasChain(ds, y, n + 1)
  {
  }

  lemma {:induction false} PlaceOfName(ds: seq<Plugin>, order: seq<Plugin>, y: Name) returns (p: nat)
    requires multiset(order) == multiset(ds) && y in Names(ds)
    ensures p < |order| && order[p].name == y
  {
    var i :| 0 <= i < |ds| && Names(ds)[i] == y;
    assert ds[i] in multiset(order);
    p :| p < |order| && order[p] == ds[i];
  }

  /** Where the tier below keeps its input order, that dependency is also the last listed. */
  lemma {:induction false} LastTakenIsLastListed(ds: seq<Plugin>, order: seq<Plugin>, a: nat, n: nat)
    requires Checks(ds) && SortOf(ds, order) && DepthIs(ds, a, n + 1) && TierStable(ds, order, n)
    ensures var q, k := Latest(Names(order), ds[a].deps, |order|), LastDepAt(ds, a, n, |ds|); q >= 0 && k >= 0 && order[q] == ds[k]
  {
    var o := Names(order);
    var q, k := Latest(o, ds[a].deps, |o|), LastDepAt(ds, a, n, |ds|);
    LastTakenDepth(ds, order, a, n);
    var k' := PlaceOf(ds, order, q);
    assert DepthIs(ds, k', n) && ds[k'].name in ds[a].deps;
    if k' < k {
      assert KeepsOrder(ds, order, k', k);
      var p := PlaceIn(ds, order, k);
      LatestReaches(o, ds[a].deps, |o|, p);
    }
  }

  lemma {:induction false} PlaceIn(ds: seq<Plugin>, order: seq<Plugin>, a: nat) returns (p: nat)
    requires multiset(order) == multiset(ds) && a < |ds|
    ensures p < |order| && order[p] == ds[a]
  {
    assert ds[a] in multiset(order);
    p :| p < |order| && order[p] == ds[a];
  }

  /** Two plugins come out as their last taken dependencies and input positions say. */
  lemma {:induction false} OrderDecided(ds: seq<Plugin>, order: seq<Plugin>, a: nat, b: nat)
    requires Checks(ds) && SortOf(ds, order) && a < b < |ds|
    ensures KeepsOrder(ds, order, a, b) <==> Latest(Names(order), ds[a].deps, |order|) <= Latest(Names(order), ds[b].deps, |order|)
  {
    var o := Names(order);
    PermutedNamesDistinct(ds, order);
    var i := PlaceIn(ds, order, a);
    var j := PlaceIn(ds, order, b);
    assert o[i] == ds[a].name && o[j] == ds[b].name;
    assert i != j by { assert Names(ds)[a] != Names(ds)[b]; }
    if i < j { assert Precedes(ds, o, |o|, a, b); } else { assert Precedes(ds, o, |o|, b, a); }
    forall i': nat, j': nat | i' < |order| && j' < |order| && order[i'] == ds[a] && order[j'] == ds[b] ensures i' == i && j' == j {
      assert o[i'] == o[i] && o[j'] == o[j];
    }
  }

  /** One tier up: stable exactly when the input is monotone there. */
  lemma {:induction false} NextTier(ds: seq<Plugin>, order: seq<Plugin>, n: nat)
    requires Checks(ds) && SortOf(ds, order) && TierStable(ds, order, n)
    ensures TierStable(ds, order, n + 1) <==> TierMonotone(ds, n)
  {
    forall a: nat, b: nat | a < b && DepthIs(ds, a, n + 1) && DepthIs(ds, b, n + 1)
      ensures KeepsOrder(ds, order, a, b) <==> LastDepNoLater(ds, n, a, b)
    {
      NextTierPair(ds, order, n, a, b);
    }
  }

  lemma {:induction false} NextTierPair(ds: seq<Plugin>, order: seq<Plugin>, n: nat, a: nat, b: nat)
    requires Checks(ds) && SortOf(ds, order) && TierStable(ds, order, n)
    requires a < b && DepthIs(ds, a, n + 1) && DepthIs(ds, b, n + 1)
    ensures KeepsOrder(ds, order, a, b) <==> LastDepNoLater(ds, n, a, b)
  {
    OrderDecided(ds, order, a, b);
    LastTakenIsLastListed(ds, order, a, n);
    LastTakenIsLastListed(ds, order, b, n);
    var p, q := Latest(Names(order), ds[a].deps, |order|), Latest(Names(order), ds[b].deps, |order|);
    var k, l := LastDepAt(ds, a, n, |ds|), LastDepAt(ds, b, n, |ds|);
    if k < l { assert KeepsOrder(ds, order, k, l); }
    if l < k { assert KeepsOrder(ds, order, l, k); }
    if k == l { PermutedNamesDistinct(ds, order); assert Names(order)[p] == Names(order)[q]; }
  }

  lemma {:induction false} TierZeroStable(ds: seq<Plugin>, order: seq<Plugin>)
    requires Checks(ds) && SortOf(ds, order)
    ensures TierStable(ds, order, 0)
  {
    forall a: nat, b: nat | a < b && DepthIs(ds, a, 0) && DepthIs(ds, b, 0) ensures KeepsOrder(ds, order, a, b) {
      NoDeps(ds, a);
      NoDeps(ds, b);
      OrderDecided(ds, order, a, b);
    }
  }

  lemma {:induction false} NoDeps(ds: seq<Plugin>, a: nat)
    requires DepthIs(ds, a, 0)
    ensures ds[a].deps == []
  {
    if ds[a].deps != [] {
      var y := ds[a].deps[0];
      assert Edge(ds, ds[a].name, y);
      ChainGrows(ds, ds[a].name, y, 1);
    }
  }

  ghost predicate AllTiersStable(ds: seq<Plugin>, order: seq<Plugin>) { forall n: nat :: TierStable(ds, order, n) }

  ghost predicate AllTiersMonotone(ds: seq<Plugin>) { forall n: nat :: TierMonotone(ds, n) }

  lemma {:induction false} ClimbTiers(ds: seq<Plugin>, order: seq<Plugin>, n: nat)
    requires Checks(ds) && SortOf(ds, order) && AllTiersMonotone(ds)
    ensures TierStable(ds, order, n)
  {
    TierZeroStable(ds, order);
    var k: nat := 0;
    while k < n
      invariant k <= n && TierStable(ds, order, k)
    {
      StableAbove(ds, order, k);
      k := k + 1;
    }
  }

  lemma {:induction false} StableAbove(ds: seq<Plugin>, order: seq<Plugin>, n: nat)
    requires Checks(ds) && SortOf(ds, order) && AllTiersMonotone(ds) && TierStable(ds, order, n)
    ensures TierStable(ds, order, n + 1)
  {
    assert TierMonotone(ds, n);
    NextTier(ds, order, n);
  }

  lemma {:induction false} MonotoneStable(ds: seq<Plugin>, order: seq<Plugin>)
    requires Checks(ds) && SortOf(ds, order) && AllTiersMonotone(ds)
    ensures AllTiersStable(ds, order)
  {
    forall n: nat ensures TierStable(ds, order, n) { ClimbTiers(ds, order, n); }
  }

  lemma {:induction false} StableMonotone(ds: seq<Plugin>, order: seq<Plugin>)
    requires Checks(ds) && SortOf(ds, order) && AllTiersStable(ds, order)
    ensures AllTiersMonotone(ds)
  {
    forall n: nat ensures TierMonotone(ds, n) { NextTier(ds, order, n); }
  }

  /** The exact condition under which the order is stable within every tier, read off the
      input alone. */
  lemma {:induction false} TiersStableIff(ds: seq<Plugin>, order: seq<Plugin>)
    requires Checks(ds) && SortOf(ds, order)
    ensures AllTiersStable(ds, order) <==> AllTiersMonotone(ds)
  {
    if AllTiersMonotone(ds) { MonotoneStable(ds, order); }
    if AllTiersStable(ds, order) { StableMonotone(ds, order); }
  }

  // ---------------------------------------------------------------------------
  // A dependency listed twice
  // ---------------------------------------------------------------------------

  /** The same plugins with every repeated listing removed. */
  function Once(ds: seq<Plugin>): (r: seq<Plugin>)
    ensures |r| == |ds| && forall i :: 0 <= i < |ds| ==> r[i] == Plugin(ds[i].name, Dedup(ds[i].deps))
  {
    seq(|ds|, i requires 0 <= i < |ds| => Plugin(ds[i].name, Dedup(ds[i].deps)))
  }

  lemma {:induction false} DedupDistinct(s: seq<Name>)
    ensures Distinct(Dedup(s))
  {
    if s != [] { DedupDistinct(s[..|s| - 1]); }
  }

  lemma {:induction false} OnceMeaning(ds: seq<Plugin>)
    ensures Names(Once(ds)) == Names(ds) && DepsListedOnce(Once(ds))
    ensures forall x, y :: Edge(Once(ds), x, y) <==> Edge(ds, x, y)
  {
    forall i | 0 <= i < |ds| ensures Distinct(Once(ds)[i].deps) { DedupDistinct(ds[i].deps); }
    forall x, y ensures Edge(Once(ds), x, y) <==> Edge(ds, x, y) {
      if Edge(ds, x, y) {
        var i :| 0 <= i < |ds| && ds[i].name == x && y in ds[i].deps;
        assert Once(ds)[i].name == x && y in Once(ds)[i].deps;
      }
    }
  }

  /** Times plugin `i` is put in the queue by the turn of `cur`. */
  ghost function Times(ds: seq<Plugin>, cur: Name, done: set<Name>, i: nat): nat
    requires i < |ds|
  {
    if Enabled(ds, ds[i].name, done) then multiset(ds[i].deps)[cur] else 0
  }

  /** The turn of `cur` puts no plugin in the queue twice. */
  ghost predicate SinglePushes(ds: seq<Plugin>, cur: Name, done: set<Name>) {
    forall i :: 0 <= i < |ds| ==> Times(ds, cur, done, i) <= 1
  }

  ghost function Appended(ds: seq<Plugin>, cur: Name, done: set<Name>, n: nat): seq<Name>
    requires n <= |ds|
  {
    if n == 0 then [] else Appended(ds, cur, done, n - 1) + Copies(Times(ds, cur, done, n - 1), ds[n - 1].name)
  }

  lemma {:induction false} SelectPrefix(ds: seq<Plugin>, a: seq<Name>, b: seq<Name>, done: set<Name>, n: nat)
    requires n <= |a|
    ensures Select(ds, a + b, done, n) == Select(ds, a, done, n)
  {
    if n > 0 { SelectPrefix(ds, a, b, done, n - 1); }
  }

  lemma {:induction false} SelectCopies(ds: seq<Plugin>, a: seq<Name>, x: Name, c: nat, done: set<Name>, m: nat)
    requires m <= c
    ensures Select(ds, a + Copies(c, x), done, |a| + m) == Select(ds, a, done, |a|) + Copies(if Enabled(ds, x, done) then m else 0, x)
  {
    if m == 0 {
      SelectPrefix(ds, a, Copies(c, x), done, |a|);
    } else {
      SelectCopies(ds, a, x, c, done, m - 1);
      assert (a + Copies(c, x))[|a| + m - 1] == x;
      CopiesGrow(Select(ds, a, done, |a|), m - 1, x);
    }
  }

  lemma {:induction false} PushesAre(ds: seq<Plugin>, cur: Name, done: set<Name>, n: nat)
    requires n <= |ds|
    ensures Select(ds, WaitingFor(ds, cur, n), done, |WaitingFor(ds, cur, n)|) == Appended(ds, cur, done, n)
  {
    if n > 0 {
      PushesAre(ds, cur, done, n - 1);
      var c := multiset(ds[n - 1].deps)[cur];
      SelectCopies(ds, WaitingFor(ds, cur, n - 1), ds[n - 1].name, c, done, c);
    }
  }

  lemma {:induction false} AppendedAgree(ds: seq<Plugin>, es: seq<Plugin>, cur: Name, done: set<Name>, n: nat)
    requires n <= |ds| == |es|
    requires forall i :: 0 <= i < |ds| ==> es[i].name == ds[i].name && Times(es, cur, done, i) == Times(ds, cur, done, i)
    ensures Appended(es, cur, done, n) == Appended(ds, cur, done, n)
  {
    if n > 0 { AppendedAgree(ds, es, cur, done, n - 1); }
  }

  lemma {:induction false} TimesOnce(ds: seq<Plugin>, cur: Name, done: set<Name>, i: nat)
    requires i < |ds| && Times(ds, cur, done, i) <= 1
    ensures Times(Once(ds), cur, done, i) == Times(ds, cur, done, i)
  {
    var deps := ds[i].deps;
    assert multiset(Dedup(deps))[cur] == if cur in deps then 1 else 0 by { DedupDistinct(deps); CountDistinct(Dedup(deps), cur); }
    assert Enabled(ds, ds[i].name, done) <==> Enabled(Once(ds), ds[i].name, done) by { OnceMeaning(ds); }
  }

  lemma {:induction false} RepeatAppended(ds: seq<Plugin>, cur: Name, done: set<Name>, n: nat, i: nat)
    requires i < n <= |ds| && Times(ds, cur, done, i) >= 2
    ensures !Distinct(Appended(ds, cur, done, n))
  {
    var a, c := Appended(ds, cur, done, n - 1), Copies(Times(ds, cur, done, n - 1), ds[n - 1].name);
    if i < n - 1 {
      RepeatAppended(ds, cur, done, n - 1, i);
      var p, q :| 0 <= p < q < |a| && a[p] == a[q];
      assert (a + c)[p] == (a + c)[q];
    } else {
      assert (a + c)[|a|] == (a + c)[|a| + 1];
    }
  }

  lemma {:induction false} PushesOnce(ds: seq<Plugin>, cur: Name, done: set<Name>)
    ensures Distinct(Pushes(ds, cur, done)) ==> SinglePushes(ds, cur, done)
    ensures SinglePushes(ds, cur, done) ==> Pushes(Once(ds), cur, done) == Pushes(ds, cur, done)
  {
    PushesAre(ds, cur, done, |ds|);
    PushesAre(Once(ds), cur, done, |ds|);
    if i :| 0 <= i < |ds| && Times(ds, cur, done, i) > 1 {
      RepeatAppended(ds, cur, done, |ds|, i);
    } else {
      forall i | 0 <= i < |ds| ensures Times(Once(ds), cur, done, i) == Times(ds, cur, done, i) { TimesOnce(ds, cur, done, i); }
      AppendedAgree(ds, Once(ds), cur, done, |ds|);
    }
  }

  lemma {:induction false} RootsOnce(ds: seq<Plugin>)
    ensures Roots(Once(ds)) == Roots(ds)
  {
    OnceMeaning(ds);
    forall x ensures Enabled(Once(ds), x, {}) <==> Enabled(ds, x, {}) {}
    SelectAgree(ds, Once(ds), Names(ds), {}, |ds|);
  }

  lemma {:induction false} SelectAgree(ds: seq<Plugin>, es: seq<Plugin>, names: seq<Name>, done: set<Name>, n: nat)
    requires n <= |names| && forall x :: Enabled(es, x, done) <==> Enabled(ds, x, done)
    ensures Select(es, names, done, n) == Select(ds, names, done, n)
  {
    if n > 0 { SelectAgree(ds, es, names, done, n - 1); }
  }

  /** While no turn repeats a name, repeated listings make no difference. */
  lemma {:induction false} SameWhileDistinct(ds: seq<Plugin>, k: nat)
    requires forall j: nat :: j < k && j < |Log(ds, j)| ==> NoRepeat(ds, Log(ds, j), j)
    ensures Log(Once(ds), k) == Log(ds, k)
  {
    if k == 0 {
      RootsOnce(ds);
    } else {
      SameWhileDistinct(ds, k - 1);
      var l := Log(ds, k - 1);
      if k <= |l| {
        assert NoRepeat(ds, l, k - 1);
        PushesOnce(ds, l[k - 1], ToSet(l[..k]));
      }
    }
  }

  ghost predicate NoRepeat(ds: seq<Plugin>, log: seq<Name>, k: nat) {
    k < |log| && SinglePushes(ds, log[k], ToSet(log[..k + 1]))
  }

  /** Checkable on the order `o` that the plugins would have with every listing made once: no
      plugin in it lists the last of its dependencies more than once. */
  ghost predicate TakenLastOnce(ds: seq<Plugin>, o: seq<Name>) {
    forall i :: 0 <= i < |ds| && ds[i].name in o ==> ListsLastOnce(ds[i].deps, o)
  }

  predicate ListsLastOnce(deps: seq<Name>, o: seq<Name>) {
    var t := Latest(o, deps, |o|); t >= 0 ==> multiset(deps)[o[t]] == 1
  }

  lemma {:induction false} NoRepeatIf(ds: seq<Plugin>, o: seq<Name>, k: nat)
    requires Distinct(Names(ds)) && Distinct(o) && k < |o| && TakenLastOnce(ds, o) && HoldsEnabled(ds, o, |o|)
    ensures NoRepeat(ds, o, k)
  {
    var cur, done := o[k], ToSet(o[..k + 1]);
    forall i | 0 <= i < |ds| ensures Times(ds, cur, done, i) <= 1 {
      if Enabled(ds, ds[i].name, done) && cur in ds[i].deps {
        EnabledIsTaken(ds, o, k, i);
        LastAtTurn(ds, o, k, i);
      }
    }
  }

  lemma {:induction false} EnabledIsTaken(ds: seq<Plugin>, o: seq<Name>, k: nat, i: nat)
    requires k < |o| && i < |ds| && HoldsEnabled(ds, o, |o|) && Enabled(ds, ds[i].name, ToSet(o[..k + 1]))
    ensures ds[i].name in o
  {
    assert o[..|o|] == o && ds[i].name == Names(ds)[i];
    assert Enabled(ds, ds[i].name, ToSet(o));
  }

  /** A plugin that a turn enables has the entry of that turn as its last dependency. */
  lemma {:induction false} LastAtTurn(ds: seq<Plugin>, o: seq<Name>, k: nat, i: nat)
    requires Distinct(Names(ds)) && Distinct(o) && k < |o| && i < |ds|
    requires Enabled(ds, ds[i].name, ToSet(o[..k + 1])) && o[k] in ds[i].deps
    ensures Latest(o, ds[i].deps, |o|) == k
  {
    var t := Latest(o, ds[i].deps, |o|);
    LatestReaches(o, ds[i].deps, |o|, k);
    EdgeOfName(ds, i, o[t]);
    assert o[t] in o[..k + 1];
  }

  lemma {:induction false} OnlyIfNoRepeat(ds: seq<Plugin>, o: seq<Name>, i: nat)
    requires Checks(ds) && HoldsEnabled(ds, o, |o|) && i < |ds| && ds[i].name in o
    requires forall k :: 0 <= k < |o| ==> NoRepeat(ds, o, k)
    ensures ListsLastOnce(ds[i].deps, o)
  {
    var deps := ds[i].deps;
    var t := Latest(o, deps, |o|);
    if t >= 0 {
      assert NoRepeat(ds, o, t);
      var cur, done := o[t], ToSet(o[..t + 1]);
      assert Enabled(ds, ds[i].name, done) by { EnabledByLast(ds, o, i); }
      assert Times(ds, cur, done, i) <= 1;
    }
  }

  lemma {:induction false} EnabledByLast(ds: seq<Plugin>, o: seq<Name>, i: nat)
    requires Distinct(Names(ds)) && HoldsEnabled(ds, o, |o|) && i < |ds| && ds[i].name in o
    ensures var t := Latest(o, ds[i].deps, |o|); t >= 0 ==> Enabled(ds, ds[i].name, ToSet(o[..t + 1]))
  {
    var t := Latest(o, ds[i].deps, |o|);
    assert o[..|o|] == o;
    if t >= 0 {
      forall y | Edge(ds, ds[i].name, y) ensures y in o[..t + 1] {
        EdgeOfName(ds, i, y);
        assert y in ToSet(o);
        var p :| 0 <= p < |o| && o[p] == y;
        LatestReaches(o, ds[i].deps, |o|, p);
      }
    }
  }

  /** What the loop gives with every listing made once: it runs dry within `|ds|` rounds. */
  ghost predicate OnceDry(ds: seq<Plugin>, o: seq<Name>) {
    && Distinct(o) && |o| <= |ds| && HoldsEnabled(ds, o, |o|) && o == Log(Once(ds), |o|)
    && forall j: nat :: j < |o| ==> OnTrack(ds, o, j)
  }

  lemma {:induction false} OnceRun(ds: seq<Plugin>, o: seq<Name>)
    requires Distinct(Names(ds)) && o == Log(Once(ds), |ds|)
    ensures OnceDry(ds, o)
  {
    var es := Once(ds);
    OnceMeaning(ds);
    var n := RunsDry(es, 0);
    LogFits(es, n);
    StaysDry(es, n, |ds|);
    LogInOrder(es, n);
    assert HoldsEnabled(ds, o, |o|) by { OnceHolds(ds, n); }
    forall j: nat | j < |o| ensures OnTrack(ds, o, j) {
      StillBusy(es, j, n);
      LogGrows(es, j, n);
    }
  }

  lemma {:induction false} OnceHolds(ds: seq<Plugin>, n: nat)
    requires Reached(Once(ds), n)
    ensures HoldsEnabled(ds, Log(Once(ds), n), n)
  {
    OnceMeaning(ds);
    LogHoldsEnabled(Once(ds), n);
    forall x, done: set<Name> ensures Enabled(Once(ds), x, done) <==> Enabled(ds, x, done) {}
  }

  /** `o`: what the loop orders with every listing made once; `log`: what it orders with the
      plugins as they are, cyclic or not. The two are the same exactly when no plugin taken
      repeats the last of its dependencies; otherwise some plugin is ordered twice. */
  lemma {:induction false} RepeatedListings(ds: seq<Plugin>, o: seq<Name>, log: seq<Name>)
    requires Checks(ds) && o == Log(Once(ds), |ds|) && Reached(ds, |log|) && log == Log(ds, |log|)
    ensures TakenLastOnce(ds, o) <==> Distinct(log)
    ensures TakenLastOnce(ds, o) ==> log == o
  {
    OnceRun(ds, o);
    if TakenLastOnce(ds, o) {
      SameIfLastOnce(ds, o, |o|);
      DryMeets(ds, |o|, |log|);
    } else if Distinct(log) {
      DistinctMeansLastOnce(ds, o, log);
    }
  }

  /** The loop runs dry once. */
  lemma {:induction false} DryMeets(ds: seq<Plugin>, a: nat, b: nat)
    requires |Log(ds, a)| == a && |Log(ds, b)| == b
    ensures Log(ds, a) == Log(ds, b)
  {
    if a <= b { StaysDry(ds, a, b); } else { StaysDry(ds, b, a); }
  }

  lemma {:induction false} DistinctMeansLastOnce(ds: seq<Plugin>, o: seq<Name>, log: seq<Name>)
    requires Checks(ds) && OnceDry(ds, o) && Reached(ds, |log|) && log == Log(ds, |log|) && Distinct(log)
    ensures TakenLastOnce(ds, o)
  {
    assert log == o by {
      forall j: nat | j < |log| && j < |Log(ds, j)| ensures NoRepeat(ds, Log(ds, j), j) { DistinctNoRepeat(ds, j, |log|); }
      SameWhileDistinct(ds, |log|);
      DryMeets(Once(ds), |log|, |o|);
    }
    forall j | 0 <= j < |o| ensures NoRepeat(ds, o, j) { EveryTurnSingle(ds, log, j); }
    forall i | 0 <= i < |ds| && ds[i].name in o ensures ListsLastOnce(ds[i].deps, o) { OnlyIfNoRepeat(ds, o, i); }
  }

  lemma {:induction false} EveryTurnSingle(ds: seq<Plugin>, log: seq<Name>, j: nat)
    requires log == Log(ds, |log|) && j < |log| && Distinct(log)
    ensures NoRepeat(ds, log, j)
  {
    StillBusy(ds, j, |log|);
    DistinctNoRepeat(ds, j, |log|);
    PrefixNoRepeat(ds, j, |log|);
  }

  /** Once the queue is dry it stays dry. */
  lemma {:induction false} StillBusy(ds: seq<Plugin>, j: nat, n: nat)
    requires j < n <= |Log(ds, n)|
    ensures j < |Log(ds, j)|
  {
    if |Log(ds, j)| <= j { StaysDry(ds, j, n); }
  }

  lemma {:induction false} StaysDry(ds: seq<Plugin>, j: nat, n: nat)
    requires |Log(ds, j)| <= j <= n
    ensures Log(ds, n) == Log(ds, j)
  {
    if j < n { StaysDry(ds, j, n - 1); }
  }

  /** Round `j` over the plugins with every listing made once, on the way to `o`. */
  ghost predicate OnTrack(ds: seq<Plugin>, o: seq<Name>, j: nat) { j < |Log(Once(ds), j)| && Log(Once(ds), j) <= o }

  lemma {:induction false} SameIfLastOnce(ds: seq<Plugin>, o: seq<Name>, k: nat)
    requires Distinct(Names(ds)) && Distinct(o) && TakenLastOnce(ds, o) && HoldsEnabled(ds, o, |o|)
    requires forall j: nat :: j < k ==> OnTrack(ds, o, j)
    ensures Log(ds, k) == Log(Once(ds), k)
  {
    SameStart(ds);
    var j: nat := 0;
    while j < k
      invariant j <= k && Log(ds, j) == Log(Once(ds), j)
    {
      assert OnTrack(ds, o, j);
      SameRound(ds, o, j + 1);
      j := j + 1;
    }
  }

  lemma {:induction false} SameStart(ds: seq<Plugin>)
    ensures Log(ds, 0) == Log(Once(ds), 0)
  {
    RootsOnce(ds);
  }

  lemma {:induction false} SameRound(ds: seq<Plugin>, o: seq<Name>, k: nat)
    requires Distinct(Names(ds)) && Distinct(o) && TakenLastOnce(ds, o) && HoldsEnabled(ds, o, |o|)
    requires 0 < k && Log(ds, k - 1) == Log(Once(ds), k - 1) <= o && k <= |Log(ds, k - 1)|
    ensures Log(ds, k) == Log(Once(ds), k)
  {
    SameTurn(ds, o, Log(ds, k - 1), k);
  }

  lemma {:induction false} SameTurn(ds: seq<Plugin>, o: seq<Name>, l: seq<Name>, k: nat)
    requires Distinct(Names(ds)) && Distinct(o) && TakenLastOnce(ds, o) && HoldsEnabled(ds, o, |o|) && l <= o && 0 < k <= |l|
    ensures Pushes(Once(ds), l[k - 1], ToSet(l[..k])) == Pushes(ds, l[k - 1], ToSet(l[..k]))
  {
    var cur, done := l[k - 1], ToSet(l[..k]);
    assert SinglePushes(ds, cur, done) by {
      assert l[..k] == o[..k] && cur == o[k - 1];
      NoRepeatIf(ds, o, k - 1);
    }
    PushesOnce(ds, cur, done);
  }

  lemma {:induction false} DistinctNoRepeat(ds: seq<Plugin>, j: nat, k: nat)
    requires j < k && j < |Log(ds, j)| && Distinct(Log(ds, k))
    ensures NoRepeat(ds, Log(ds, j), j)
  {
    var l := Log(ds, j);
    LogGrows(ds, j + 1, k);
    LogStep(ds, j);
    var p := Pushes(ds, l[j], ToSet(l[..j + 1]));
    forall a, b | 0 <= a < b < |p| ensures p[a] != p[b] {
      assert Log(ds, k)[|l| + a] == p[a] && Log(ds, k)[|l| + b] == p[b];
    }
    PushesOnce(ds, l[j], ToSet(l[..j + 1]));
  }

  lemma {:induction false} PrefixNoRepeat(ds: seq<Plugin>, j: nat, n: nat)
    requires j < n && j < |Log(ds, j)| && NoRepeat(ds, Log(ds, j), j)
    ensures NoRepeat(ds, Log(ds, n), j)
  {
    LogGrows(ds, j, n);
    assert Log(ds, n)[..j + 1] == Log(ds, j)[..j + 1];
  }

  /** A repeated listing can even hide a cycle: the loop stops with as many entries as there
      are plugins, so by TopoSort's contract the sort succeeds, with `d` twice and without `x`. */
  lemma {:induction false} RepeatHidesCycle(a: Name, d: Name, x: Name)
    requires a != d && a != x && d != x
    ensures var ds := [Plugin(a, []), Plugin(d, [a, a]), Plugin(x, [x])];
      Checks(ds) && ClosedWalk(ds, [x, x]) && !Acyclic(ds) && Log(ds, |ds|) == [a, d, d]
  {
    var ds := [Plugin(a, []), Plugin(d, [a, a]), Plugin(x, [x])];
    assert Names(ds) == [a, d, x];
    assert ds[2].name == x && x in ds[2].deps;
    assert ClosedWalk(ds, [x, x]) by { assert Edge(ds, x, x); }
    HiddenCycleRoots(ds, a, d, x);
    HiddenCycleTurns(ds, a, d, x);
    var zero, one := [a], [a, d, d];
    assert Log(ds, 0) == zero && zero[..1] == zero && ToSet(zero) == {a};
    assert Log(ds, 1) == one;
    assert Log(ds, 2) == one;
    assert Log(ds, 3) == one && |ds| == 3;
  }

  /** The same at the sort: success on a cyclic input. */
  method SortHidesCycle(a: Name, d: Name, x: Name) returns (r: Outcome)
    requires a != d && a != x && d != x
    ensures r.Sorted? && Names(r.order) == [a, d, d] && !Acyclic([Plugin(a, []), Plugin(d, [a, a]), Plugin(x, [x])])
  {
    RepeatHidesCycle(a, d, x);
    r := TopoSort([Plugin(a, []), Plugin(d, [a, a]), Plugin(x, [x])]);
  }

  lemma {:induction false} HiddenCycleRoots(ds: seq<Plugin>, a: Name, d: Name, x: Name)
    requires a != d && a != x && d != x && ds == [Plugin(a, []), Plugin(d, [a, a]), Plugin(x, [x])]
    ensures Roots(ds) == [a]
  {
    assert Edge(ds, x, x) by { assert ds[2].name == x && x in ds[2].deps; }
    assert Edge(ds, d, a) by { assert ds[1].name == d && a in ds[1].deps; }
    var names := [a, d, x];
    assert Names(ds) == names;
    assert Select(ds, names, {}, 0) == [];
    assert Enabled(ds, a, {}) && Select(ds, names, {}, 1) == [a];
    assert Select(ds, names, {}, 2) == [a];
    assert Select(ds, names, {}, 3) == [a];
  }

  lemma {:induction false} HiddenCycleTurns(ds: seq<Plugin>, a: Name, d: Name, x: Name)
    requires a != d && a != x && d != x && ds == [Plugin(a, []), Plugin(d, [a, a]), Plugin(x, [x])]
    ensures Pushes(ds, a, {a}) == [d, d] && forall done: set<Name> :: Pushes(ds, d, done) == []
  {
    assert Enabled(ds, d, {a});
    assert Times(ds, a, {a}, 0) == 0 && Times(ds, a, {a}, 1) == 2 && Times(ds, a, {a}, 2) == 0;
    TurnOfThree(ds, a, {a});
    forall done: set<Name> ensures Pushes(ds, d, done) == [] {
      assert Times(ds, d, done, 0) == 0 && Times(ds, d, done, 1) == 0 && Times(ds, d, done, 2) == 0;
      TurnOfThree(ds, d, done);
    }
  }

  lemma {:induction false} TurnOfThree(ds: seq<Plugin>, cur: Name, done: set<Name>)
    requires |ds| == 3 && Times(ds, cur, done, 0) == 0 && Times(ds, cur, done, 2) == 0
    ensures Pushes(ds, cur, done) == Copies(Times(ds, cur, done, 1), ds[1].name)
  {
    PushesAre(ds, cur, done, 3);
    assert Appended(ds, cur, done, 0) == [];
    assert Appended(ds, cur, done, 1) == [];
    assert Appended(ds, cur, done, 2) == Copies(Times(ds, cur, done, 1), ds[1].name);
  }

  /** It can also make an acyclic input fail: by TopoSort's contract this one is reported as
      a cycle without members. */
  lemma {:induction false} RepeatReportsEmptyCycle(a: Name, d: Name)
    requires a != d
    ensures var ds := [Plugin(a, []), Plugin(d, [a, a])]; Checks(ds) && Acyclic(ds) && !TakenLastOnce(ds, Log(Once(ds), |ds|))
  {
    var ds := [Plugin(a, []), Plugin(d, [a, a])];
    var o := [a, d];
    PairOnce(ds, a, d);
    PairLog([Plugin(a, []), Plugin(d, [a])], a, d);
    PairAcyclic(ds, o, a, d);
    assert !ListsLastOnce(ds[1].deps, o) by { PairRepeats(o, a, d); }
  }

  /** The same at the sort: failure on an acyclic input. */
  method SortReportsEmptyCycle(a: Name, d: Name) returns (r: Outcome)
    requires a != d
    ensures r == Cycle([]) && Acyclic([Plugin(a, []), Plugin(d, [a, a])])
  {
    RepeatReportsEmptyCycle(a, d);
    r := TopoSort([Plugin(a, []), Plugin(d, [a, a])]);
  }

  lemma {:induction false} PairOnce(ds: seq<Plugin>, a: Name, d: Name)
    requires ds == [Plugin(a, []), Plugin(d, [a, a])]
    ensures Once(ds) == [Plugin(a, []), Plugin(d, [a])]
  {
    assert [a, a][..1] == [a] && [a][..0] == [];
    assert Dedup([]) == [] && Dedup([a]) == [a] && Dedup([a, a]) == [a];
  }

  lemma {:induction false} PairAcyclic(ds: seq<Plugin>, o: seq<Name>, a: Name, d: Name)
    requires a != d && ds == [Plugin(a, []), Plugin(d, [a, a])] && o == [a, d]
    ensures Checks(ds) && Acyclic(ds)
  {
    assert Names(ds) == o;
    assert DepsFirst(ds, o) by { assert o[..1] == [a]; }
    OrderedIsAcyclic(ds, o);
  }

  lemma {:induction false} PairRepeats(o: seq<Name>, a: Name, d: Name)
    requires a != d && o == [a, d]
    ensures !ListsLastOnce([a, a], o)
  {
    LatestReaches(o, [a, a], 2, 0);
    assert multiset([a, a])[a] == 2;
  }

  /** A plugin and one that depends on it. */
  lemma {:induction false} PairLog(es: seq<Plugin>, a: Name, d: Name)
    requires a != d && es == [Plugin(a, []), Plugin(d, [a])]
    ensures Log(es, 2) == [a, d]
  {
    PairRoots(es, a, d);
    PairTurns(es, a, d);
    PairRounds(es, a, d);
  }

  lemma {:induction false} PairRoots(es: seq<Plugin>, a: Name, d: Name)
    requires a != d && es == [Plugin(a, []), Plugin(d, [a])]
    ensures Roots(es) == [a]
  {
    assert Edge(es, d, a) by { assert es[1].name == d && a in es[1].deps; }
    var names := [a, d];
    assert Names(es) == names;
    assert Select(es, names, {}, 0) == [] && Enabled(es, a, {}) && Select(es, names, {}, 1) == [a];
  }

  lemma {:induction false} PairRounds(es: seq<Plugin>, a: Name, d: Name)
    requires Roots(es) == [a] && Pushes(es, a, {a}) == [d] && forall done: set<Name> :: Pushes(es, d, done) == []
    ensures Log(es, 2) == [a, d]
  {
    var zero := [a];
    assert Log(es, 0) == zero && zero[..1] == zero && ToSet(zero) == {a};
    assert Log(es, 1) == [a, d];
  }

  lemma {:induction false} PairTurns(es: seq<Plugin>, a: Name, d: Name)
    requires a != d && es == [Plugin(a, []), Plugin(d, [a])]
    ensures Pushes(es, a, {a}) == [d] && forall done: set<Name> :: Pushes(es, d, done) == []
  {
    assert Enabled(es, d, {a});
    forall cur: Name, done: set<Name> ensures Pushes(es, cur, done) == Copies(Times(es, cur, done, 1), d) {
      PushesAre(es, cur, done, 2);
      assert Times(es, cur, done, 0) == 0;
      assert Appended(es, cur, done, 0) == [] && Appended(es, cur, done, 1) == [];
    }
    assert Times(es, a, {a}, 1) == 1 && forall done: set<Name> :: Times(es, d, done, 1) == 0;
  }

  /** Within one tier the input order can be turned around: `x` and `y` both have depth one. */
  lemma {:induction false} TierNotStable(a: Name, b: Name, x: Name, y: Name, order: seq<Plugin>)
    requires b != a && b != x && b != y && a != x && a != y && x != y
    ensures SortOf([Plugin(b, []), Plugin(a, []), Plugin(x, [a]), Plugin(y, [b])], order) <==>
      order == [Plugin(b, []), Plugin(a, []), Plugin(y, [b]), Plugin(x, [a])]
  {
    var ds := [Plugin(b, []), Plugin(a, []), Plugin(x, [a]), Plugin(y, [b])];
    var t := [Plugin(b, []), Plugin(a, []), Plugin(y, [b]), Plugin(x, [a])];
    TurnedTierSorts(ds, t, a, b, x, y);
    assert Checks(ds) by { assert Names(ds) == [b, a, x, y]; }
    OnlyOneSort(ds, t, order);
  }

  lemma {:induction false} OnlyOneSort(ds: seq<Plugin>, t: seq<Plugin>, order: seq<Plugin>)
    requires Checks(ds) && SortOf(ds, t)
    ensures SortOf(ds, order) <==> order == t
  {
    if SortOf(ds, order) {
      OrderIsUnique(ds, t, order, |ds|);
      assert t[..|ds|] == t && order[..|ds|] == order;
    }
  }

  lemma {:induction false} TurnedTierSorts(ds: seq<Plugin>, t: seq<Plugin>, a: Name, b: Name, x: Name, y: Name)
    requires b != a && b != x && b != y && a != x && a != y && x != y
    requires ds == [Plugin(b, []), Plugin(a, []), Plugin(x, [a]), Plugin(y, [b])]
    requires t == [Plugin(b, []), Plugin(a, []), Plugin(y, [b]), Plugin(x, [a])]
    ensures SortOf(ds, t)
  {
    var o := [b, a, y, x];
    assert Names(t) == o;
    assert t == [ds[0], ds[1], ds[3], ds[2]];
    assert multiset(t) == multiset(ds);
    TurnedTierQueue(ds, o, a, b, x, y);
    TurnedTierDeps(ds, o, a, b, x, y);
  }

  lemma {:induction false} TurnedTierDeps(ds: seq<Plugin>, o: seq<Name>, a: Name, b: Name, x: Name, y: Name)
    requires b != a && b != x && b != y && a != x && a != y && x != y
    requires ds == [Plugin(b, []), Plugin(a, []), Plugin(x, [a]), Plugin(y, [b])] && o == [b, a, y, x]
    ensures DepsFirst(ds, o)
  {
    assert o[..2] == [b, a] && o[..3] == [b, a, y];
  }

  lemma {:induction false} TurnedTierQueue(ds: seq<Plugin>, o: seq<Name>, a: Name, b: Name, x: Name, y: Name)
    requires b != a && b != x && b != y && a != x && a != y && x != y
    requires ds == [Plugin(b, []), Plugin(a, []), Plugin(x, [a]), Plugin(y, [b])] && o == [b, a, y, x]
    ensures QueueOrder(ds, o, 4)
  {
    var none := Latest(o, [], 4);
    LatestReaches(o, [a], 4, 1);
    LatestReaches(o, [b], 4, 0);
    forall i, j, p: nat, q: nat | 0 <= i < j < 4 && p < 4 && q < 4 && ds[p].name == o[i] && ds[q].name == o[j]
      ensures Precedes(ds, o, 4, p, q)
    {
      assert p == (if i < 2 then i else 5 - i) && q == (if j < 2 then j else 5 - j);
    }
  }

  // ---------------------------------------------------------------------------
  // The loop ends, however often dependencies are listed
  // ---------------------------------------------------------------------------

  /** How many of the first `n` entries are in `s`. */
  function CountIn(log: seq<Name>, s: set<Name>, n: nat): (c: nat)
    requires n <= |log|
    ensures c <= n
  {
    if n == 0 then 0 else CountIn(log, s, n - 1) + if log[n - 1] in s then 1 else 0
  }

  function CountAll(log: seq<Name>, s: set<Name>): nat { CountIn(log, s, |log|) }

  lemma {:induction false} CountInConcat(a: seq<Name>, b: seq<Name>, s: set<Name>, n: nat)
    requires n <= |a + b|
    ensures CountIn(a + b, s, n) == if n <= |a| then CountIn(a, s, n) else CountAll(a, s) + CountIn(b, s, n - |a|)
  {
    if n > 0 { CountInConcat(a, b, s, n - 1); }
  }

  lemma {:induction false} CountInSplit(log: seq<Name>, s: set<Name>, x: Name, n: nat)
    requires n <= |log| && x !in s
    ensures CountIn(log, s + {x}, n) == CountIn(log, s, n) + CountIn(log, {x}, n)
  {
    if n > 0 { CountInSplit(log, s, x, n - 1); }
  }

  lemma {:induction false} CountInGrows(log: seq<Name>, s: set<Name>, m: nat, n: nat)
    requires m <= n <= |log|
    ensures CountIn(log, s, m) <= CountIn(log, s, n)
  {
    if m < n { CountInGrows(log, s, m, n - 1); }
  }

  lemma {:induction false} CountInAll(log: seq<Name>, s: set<Name>, n: nat)
    requires n <= |log|
    ensures (forall i :: 0 <= i < n ==> log[i] in s) ==> CountIn(log, s, n) == n
    ensures (forall i :: 0 <= i < n ==> log[i] !in s) ==> CountIn(log, s, n) == 0
  {
    if n > 0 { CountInAll(log, s, n - 1); }
  }

  lemma {:induction false} CountDistinctNames(names: seq<Name>, x: Name, n: nat)
    requires Distinct(names) && n <= |names|
    ensures CountIn(names, {x}, n) <= 1
  {
    if n > 0 {
      CountDistinctNames(names, x, n - 1);
      if names[n - 1] == x { CountInAll(names, {x}, n - 1); }
    }
  }

  lemma {:induction false} SelectCount(ds: seq<Plugin>, names: seq<Name>, done: set<Name>, n: nat, x: Name)
    requires n <= |names|
    ensures CountAll(Select(ds, names, done, n), {x}) <= CountIn(names, {x}, n)
  {
    if n > 0 {
      SelectCount(ds, names, done, n - 1, x);
      var s := Select(ds, names, done, n - 1);
      CountInConcat(s, [names[n - 1]], {x}, |s| + 1);
    }
  }

  function Listings(ds: seq<Plugin>, n: nat): nat
    requires n <= |ds|
  {
    if n == 0 then 0 else Listings(ds, n - 1) + |ds[n - 1].deps|
  }

  lemma {:induction false} TimesBounded(ds: seq<Plugin>, cur: Name, done: set<Name>, i: nat, n: nat)
    requires i < n <= |ds|
    ensures Times(ds, cur, done, i) <= Listings(ds, n)
  {
    if i < n - 1 { TimesBounded(ds, cur, done, i, n - 1); } else { assert multiset(ds[i].deps)[cur] <= |multiset(ds[i].deps)|; }
  }

  lemma {:induction false} AppendedCount(ds: seq<Plugin>, cur: Name, done: set<Name>, n: nat, x: Name)
    requires Distinct(Names(ds)) && n <= |ds|
    ensures CountAll(Appended(ds, cur, done, n), {x}) <= Listings(ds, |ds|)
    ensures (forall i :: 0 <= i < n ==> ds[i].name != x) ==> CountAll(Appended(ds, cur, done, n), {x}) == 0
  {
    if n > 0 {
      AppendedCount(ds, cur, done, n - 1, x);
      var a, y, t := Appended(ds, cur, done, n - 1), ds[n - 1].name, Times(ds, cur, done, n - 1);
      CountCopies(a, t, x, y);
      TimesBounded(ds, cur, done, n - 1, |ds|);
      forall i | 0 <= i < n - 1 ensures ds[i].name != y { assert Names(ds)[i] != Names(ds)[n - 1]; }
    }
  }

  lemma {:induction false} CountCopies(a: seq<Name>, t: nat, x: Name, y: Name)
    ensures CountAll(a + Copies(t, y), {x}) == CountAll(a, {x}) + if x == y then t else 0
  {
    var c := Copies(t, y);
    CountInConcat(a, c, {x}, |a + c|);
    CountInAll(c, {x}, |c|);
  }

  lemma {:induction false} TurnAdds(ds: seq<Plugin>, cur: Name, done: set<Name>, x: Name)
    requires Distinct(Names(ds))
    ensures CountAll(Pushes(ds, cur, done), {x}) <= if Edge(ds, x, cur) then Listings(ds, |ds|) else 0
  {
    var p := Pushes(ds, cur, done);
    PushesAre(ds, cur, done, |ds|);
    AppendedCount(ds, cur, done, |ds|, x);
    PushesMeaning(ds, cur, done, x);
    if !Edge(ds, x, cur) {
      forall i | 0 <= i < |p| ensures p[i] !in {x} { assert p[i] in p; }
      CountInAll(p, {x}, |p|);
    }
  }

  /** The loop gets as far as `k` rounds. */
  ghost predicate Reached(ds: seq<Plugin>, k: nat) { k == 0 || k <= |Log(ds, k - 1)| }

  lemma {:induction false} ReachedFits(ds: seq<Plugin>, k: nat)
    requires Reached(ds, k)
    ensures k <= |Log(ds, k)| && (k > 0 ==> Reached(ds, k - 1))
  {
    LogHoldsEnabled(ds, k);
    if k > 0 { LogShorter(ds, k - 1); }
  }

  /** One, and `c` for each of the first `n` entries in `s`. */
  function Budget(c: nat, log: seq<Name>, s: set<Name>, n: nat): nat
    requires n <= |log|
  {
    if n == 0 then 1 else Budget(c, log, s, n - 1) + if log[n - 1] in s then c else 0
  }

  lemma {:induction false} BudgetIs(c: nat, log: seq<Name>, s: set<Name>, n: nat)
    requires n <= |log|
    ensures Budget(c, log, s, n) == 1 + c * CountIn(log, s, n)
  {
    if n > 0 {
      BudgetIs(c, log, s, n - 1);
      assert c * (CountIn(log, s, n - 1) + 1) == c * CountIn(log, s, n - 1) + c;
    }
  }

  lemma {:induction false} BudgetOfPrefix(c: nat, a: seq<Name>, b: seq<Name>, s: set<Name>, n: nat)
    requires n <= |a|
    ensures Budget(c, a + b, s, n) == Budget(c, a, s, n)
  {
    if n > 0 { BudgetOfPrefix(c, a, b, s, n - 1); }
  }

  /** A plugin enters the queue at most once for each listing of an entry it depends on. */
  lemma {:induction false} CopiesBounded(ds: seq<Plugin>, x: Name, s: set<Name>, k: nat)
    requires Distinct(Names(ds)) && Reached(ds, k) && forall y :: Edge(ds, x, y) ==> y in s
    ensures k <= |Log(ds, k)| && CountAll(Log(ds, k), {x}) <= Budget(Listings(ds, |ds|), Log(ds, k), s, k)
  {
    ReachedFits(ds, k);
    if k == 0 {
      SelectCount(ds, Names(ds), {}, |ds|, x);
      CountDistinctNames(Names(ds), x, |ds|);
    } else {
      CopiesBounded(ds, x, s, k - 1);
      LogStep(ds, k - 1);
      OneMoreTurn(ds, x, s, Log(ds, k - 1), k);
    }
  }

  lemma {:induction false} OneMoreTurn(ds: seq<Plugin>, x: Name, s: set<Name>, l: seq<Name>, k: nat)
    requires Distinct(Names(ds)) && 0 < k <= |l| && forall y :: Edge(ds, x, y) ==> y in s
    requires CountAll(l, {x}) <= Budget(Listings(ds, |ds|), l, s, k - 1)
    ensures var log := l + Pushes(ds, l[k - 1], ToSet(l[..k])); CountAll(log, {x}) <= Budget(Listings(ds, |ds|), log, s, k)
  {
    var p, c := Pushes(ds, l[k - 1], ToSet(l[..k])), Listings(ds, |ds|);
    CountInConcat(l, p, {x}, |l + p|);
    BudgetOfPrefix(c, l, p, s, k);
    TurnAdds(ds, l[k - 1], ToSet(l[..k]), x);
  }

  function Growth(c: nat, i: nat): nat { if i == 0 then 0 else 1 + (c + 1) * Growth(c, i - 1) }

  lemma {:induction false} GrowthStep(c: nat, g: nat, t: nat, u: nat, n: nat)
    requires u <= t <= g && n <= 1 + c * u
    ensures t + n <= 1 + (c + 1) * g
  {
    assert c * u <= c * g by { assert c * (g - u) >= 0; assert c * g == c * u + c * (g - u); }
    assert (c + 1) * g == c * g + g;
  }

  /** `o`: distinct names, dependencies first. */
  ghost predicate Layered(ds: seq<Plugin>, o: seq<Name>) {
    Distinct(o) && forall i :: 0 <= i < |o| ==> Enabled(ds, o[i], ToSet(o[..i]))
  }

  lemma {:induction false} LayersBounded(ds: seq<Plugin>, o: seq<Name>, k: nat, i: nat)
    requires Distinct(Names(ds)) && Layered(ds, o) && Reached(ds, k) && k <= |Log(ds, k)| && i <= |o|
    ensures CountAll(Log(ds, k), ToSet(o[..i])) <= Growth(Listings(ds, |ds|), i)
  {
    var log, c := Log(ds, k), Listings(ds, |ds|);
    if i == 0 {
      assert o[..0] == [];
      CountInAll(log, {}, |log|);
      assert ToSet(o[..0]) == {};
    } else {
      LayersBounded(ds, o, k, i - 1);
      var s, x := ToSet(o[..i - 1]), o[i - 1];
      assert o[..i] == o[..i - 1] + [x];
      assert ToSet(o[..i]) == s + {x} && x !in s;
      CountInSplit(log, s, x, |log|);
      CopiesBounded(ds, x, s, k);
      BudgetIs(c, log, s, k);
      CountInGrows(log, s, k, |log|);
      GrowthStep(c, Growth(c, i - 1), CountAll(log, s), CountIn(log, s, k), CountAll(log, {x}));
    }
  }

  /** The loop over the plugins with every listing made once runs dry. */
  lemma {:induction false} RunsDry(ds: seq<Plugin>, k: nat) returns (n: nat)
    requires Distinct(Names(ds)) && DepsListedOnce(ds) && Reached(ds, k)
    ensures Reached(ds, n) && |Log(ds, n)| == n
    decreases |ds| - k
  {
    ReachedFits(ds, k);
    LogFits(ds, k);
    if |Log(ds, k)| == k { n := k; } else { n := RunsDry(ds, k + 1); }
  }

  /** What the loop ever holds, it holds with every listing made once. */
  lemma {:induction false} HeldOnce(ds: seq<Plugin>, o: seq<Name>, k: nat, j: nat)
    requires Reached(ds, k) && j < |Log(ds, k)| && HoldsEnabled(ds, o, |o|)
    ensures Log(ds, k)[j] in o
    decreases j
  {
    var log := Log(ds, k);
    LogDepsFirst(ds, k, j);
    forall y | Edge(ds, log[j], y) ensures y in o {
      var i :| 0 <= i < j && log[i] == y;
      HeldOnce(ds, o, k, i);
    }
    assert o[..|o|] == o;
    assert log[j] in Names(ds) by { LogHoldsEnabled(ds, k); assert log[j] in log; }
  }

  /** A dry queue of the plugins with every listing made once, in terms of the plugins as they are. */
  lemma {:induction false} OnceOrder(ds: seq<Plugin>) returns (o: seq<Name>)
    requires Distinct(Names(ds))
    ensures Layered(ds, o) && HoldsEnabled(ds, o, |o|)
  {
    var es := Once(ds);
    OnceMeaning(ds);
    var n := RunsDry(es, 0);
    o := Log(es, n);
    LogInOrder(es, n);
    LogHoldsEnabled(es, n);
    forall x, done: set<Name> ensures Enabled(es, x, done) <==> Enabled(ds, x, done) {}
    forall i | 0 <= i < |o| ensures Enabled(ds, o[i], ToSet(o[..i])) { LogDepsFirst(es, n, i); }
  }

  lemma {:induction false} LogBounded(ds: seq<Plugin>, o: seq<Name>, k: nat)
    requires Distinct(Names(ds)) && Layered(ds, o) && HoldsEnabled(ds, o, |o|) && Reached(ds, k)
    ensures |Log(ds, k)| <= Growth(Listings(ds, |ds|), |o|)
  {
    ReachedFits(ds, k);
    LayersBounded(ds, o, k, |o|);
    assert o[..|o|] == o;
    forall j | 0 <= j < |Log(ds, k)| ensures Log(ds, k)[j] in ToSet(o) { HeldOnce(ds, o, k, j); }
    CountInAll(Log(ds, k), ToSet(o), |Log(ds, k)|);
  }
}
