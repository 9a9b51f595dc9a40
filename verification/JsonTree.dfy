/** Structured values as the runtime walks them: only strings are rewritten. */
module JsonTree {
  datatype Json = Str(text: string) | Arr(items: seq<Json>) | Obj(entries: seq<Entry>) | Other(repr: string)
  datatype Entry = Entry(key: string, value: Json)

  /** `walkStrings` of packages/runtime/src/plugins/secrets.ts. */
  function Walk(v: Json, f: string -> string): Json {
    match v
    case Str(s) => Str(f(s))
    case Arr(items) => Arr(seq(|items|, i requires 0 <= i < |items| => Walk(items[i], f)))
    case Obj(es) => Obj(seq(|es|, i requires 0 <= i < |es| => Entry(es[i].key, Walk(es[i].value, f))))
    case Other(_) => v
  }

  function Width(v: Json): nat {
    match v case Arr(items) => |items| case Obj(es) => |es| case _ => 0
  }

  function Child(v: Json, i: nat): Json
    requires i < Width(v)
  {
    match v case Arr(items) => items[i] case Obj(es) => es[i].value
  }

  /** `path` picks an existing child at every level. */
  predicate Reaches(v: Json, path: seq<nat>)
    decreases |path|
  {
    path == [] || (path[0] < Width(v) && Reaches(Child(v, path[0]), path[1..]))
  }

  function At(v: Json, path: seq<nat>): Json
    requires Reaches(v, path)
    decreases |path|
  {
    if path == [] then v else At(Child(v, path[0]), path[1..])
  }

  lemma {:induction false} WalkChild(v: Json, f: string -> string, i: nat)
    requires i < Width(v)
    ensures Width(Walk(v, f)) == Width(v) && Child(Walk(v, f), i) == Walk(Child(v, i), f)
  {
  }

  /** The result has the same tree, and at every place the walked original: strings are
      rewritten, keys and other values are as they were. */
  lemma {:induction false} WalkEverywhere(v: Json, f: string -> string, path: seq<nat>)
    ensures Reaches(Walk(v, f), path) <==> Reaches(v, path)
    ensures Reaches(v, path) ==> At(Walk(v, f), path) == Walk(At(v, path), f)
    ensures Reaches(v, path) ==> Rewritten(At(v, path), At(Walk(v, f), path), f)
    decreases |path|
  {
    if path != [] && path[0] < Width(v) {
      WalkChild(v, f, path[0]);
      WalkEverywhere(Child(v, path[0]), f, path[1..]);
    }
  }

  /** A string is rewritten; an array or object keeps its size and its keys; the rest is the same. */
  ghost predicate Rewritten(v: Json, w: Json, f: string -> string) {
    match v
    case Str(s) => w == Str(f(s))
    case Arr(items) => w.Arr? && |w.items| == |items|
    case Obj(es) => w.Obj? && |w.entries| == |es| && forall i :: 0 <= i < |es| ==> w.entries[i].key == es[i].key
    case Other(_) => w == v
  }

  /** `done` is the walk of the first items, or of the first entries. */
  ghost predicate ItemsWalked(v: Json, f: string -> string, done: seq<Json>) {
    v.Arr? && |done| <= |v.items| && forall k :: 0 <= k < |done| ==> done[k] == Walk(v.items[k], f)
  }

  ghost predicate EntriesWalked(v: Json, f: string -> string, done: seq<Entry>) {
    v.Obj? && |done| <= |v.entries| && forall k :: 0 <= k < |done| ==> done[k] == Entry(v.entries[k].key, Walk(v.entries[k].value, f))
  }

  lemma {:induction false} WalkItem(v: Json, f: string -> string, done: seq<Json>, w: Json)
    requires ItemsWalked(v, f, done) && |done| < |v.items| && w == Walk(v.items[|done|], f)
    ensures ItemsWalked(v, f, done + [w])
  {
  }

  lemma {:induction false} WalkEntry(v: Json, f: string -> string, done: seq<Entry>, w: Json)
    requires EntriesWalked(v, f, done) && |done| < |v.entries| && w == Walk(v.entries[|done|].value, f)
    ensures EntriesWalked(v, f, done + [Entry(v.entries[|done|].key, w)])
  {
  }

  lemma {:induction false} WalkItems(v: Json, f: string -> string, done: seq<Json>)
    requires ItemsWalked(v, f, done) && |done| == |v.items|
    ensures Arr(done) == Walk(v, f)
  {
  }

  lemma {:induction false} WalkEntries(v: Json, f: string -> string, done: seq<Entry>)
    requires EntriesWalked(v, f, done) && |done| == |v.entries|
    ensures Obj(done) == Walk(v, f)
  {
  }

  lemma WalkIdentity(v: Json, f: string -> string)
    requires forall s :: f(s) == s
    ensures Walk(v, f) == v
  {
    match v {
      case Str(_) =>
      case Arr(items) => forall i | 0 <= i < |items| ensures Walk(items[i], f) == items[i] { WalkIdentity(items[i], f); }
      case Obj(es) => forall i | 0 <= i < |es| ensures Walk(es[i].value, f) == es[i].value { WalkIdentity(es[i].value, f); }
      case Other(_) =>
    }
  }
}
