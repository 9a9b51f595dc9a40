/** packages/core/src/index.ts (secret sentinels) and
    packages/runtime/src/triggers/resolve-secret-sentinels.ts: a reference to a secret is
    written as NUL "secret:" NAME NUL inside a string and later replaced by its plaintext. */
module Sentinels {
  import opened Basics
  import opened JsonTree

  const Nul: char := '\0'
  const Opening: string := [Nul] + "secret:"

  predicate NameStart(c: char) { 'A' <= c <= 'Z' || 'a' <= c <= 'z' || c == '_' }
  predicate NameChar(c: char) { NameStart(c) || '0' <= c <= '9' }
  predicate ValidName(n: string) { n != "" && NameStart(n[0]) && forall i :: 0 <= i < |n| ==> NameChar(n[i]) }

  function Sentinel(name: string): string { Opening + name + [Nul] }

  /** `encodeSentinel`: throws on an invalid name. */
  function Encode(name: string): Option<string> { if ValidName(name) then Some(Sentinel(name)) else None }

  // ---------------------------------------------------------------------------
  // Matching and replacing
  // ---------------------------------------------------------------------------

  /** Longest prefix of name characters. */
  function NameRun(s: string): (r: string)
    ensures |r| <= |s| && r == s[..|r|]
    ensures forall i :: 0 <= i < |r| ==> NameChar(r[i])
    ensures |r| < |s| ==> !NameChar(s[|r|])
  {
    if s == "" || !NameChar(s[0]) then "" else [s[0]] + NameRun(s[1..])
  }

  /** The name of a sentinel that `s` starts with: the regular expression at one position. */
  function SentinelAt(s: string): (r: Option<string>)
    ensures r.Some? ==> ValidName(r.value) && |Sentinel(r.value)| <= |s|
  {
    if |s| < |Opening| || s[..|Opening|] != Opening then None
    else
      var rest := s[|Opening|..];
      var n := NameRun(rest);
      if ValidName(n) && |n| < |rest| && rest[|n|] == Nul then Some(n) else None
  }

  /** `String.replace` with the global regular expression: left to right, going on behind
      each match, never looking at what was put in. */
  function Resolve(s: string, store: map<string, string>): string {
    if s == "" then ""
    else
      var m := SentinelAt(s);
      if m.Some? then Value(m.value, store) + Resolve(s[|Sentinel(m.value)|..], store)
      else [s[0]] + Resolve(s[1..], store)
  }

  function Value(name: string, store: map<string, string>): string { if name in store then store[name] else Sentinel(name) }

  function Missing(s: string, store: map<string, string>): set<string> {
    if s == "" then {}
    else
      var m := SentinelAt(s);
      if m.Some? then (if m.value in store then {} else {m.value}) + Missing(s[|Sentinel(m.value)|..], store)
      else Missing(s[1..], store)
  }

  // ---------------------------------------------------------------------------
  // Round trip
  // ---------------------------------------------------------------------------

  /** How descriptors are written: literal text and references. */
  datatype Piece = Lit(text: string) | Ref(name: string)

  predicate Proper(p: Piece) { match p case Lit(t) => Nul !in t case Ref(n) => ValidName(n) }
  predicate AllProper(ps: seq<Piece>) { forall i :: 0 <= i < |ps| ==> Proper(ps[i]) }

  function Written(p: Piece): string { match p case Lit(t) => t case Ref(n) => Sentinel(n) }
  function Render(ps: seq<Piece>): string { if ps == [] then "" else Written(ps[0]) + Render(ps[1..]) }

  function Meant(p: Piece, store: map<string, string>): string { match p case Lit(t) => t case Ref(n) => Value(n, store) }
  function Substituted(ps: seq<Piece>, store: map<string, string>): string {
    if ps == [] then "" else Meant(ps[0], store) + Substituted(ps[1..], store)
  }

  function Absent(ps: seq<Piece>, store: map<string, string>): set<string> {
    set i | 0 <= i < |ps| && ps[i].Ref? && ps[i].name !in store :: ps[i].name
  }

  lemma {:induction false} NoSentinelHere(s: string)
    requires s == "" || s[0] != Nul
    ensures SentinelAt(s) == None
  {
    assert Opening[0] == Nul;
    if |s| >= |Opening| { assert s[..|Opening|][0] == s[0]; }
  }

  lemma {:induction false} CharPasses(c: char, s: string, store: map<string, string>)
    requires c != Nul
    ensures Resolve([c] + s, store) == [c] + Resolve(s, store) && Missing([c] + s, store) == Missing(s, store)
  {
    var u := [c] + s;
    assert u[0] == c && u[1..] == s;
    NoSentinelHere(u);
  }

  lemma {:induction false} SplitHead(t: string, s: string)
    requires t != ""
    ensures t + s == [t[0]] + (t[1..] + s)
  {
  }

  lemma {:induction false} LiteralPasses(t: string, s: string, store: map<string, string>)
    requires Nul !in t
    ensures Resolve(t + s, store) == t + Resolve(s, store) && Missing(t + s, store) == Missing(s, store)
  {
    if t == "" {
      assert t + s == s;
    } else {
      LiteralPasses(t[1..], s, store);
      CharPasses(t[0], t[1..] + s, store);
      SplitHead(t, s);
      SplitHead(t, Resolve(s, store));
    }
  }

  lemma {:induction false} RunStops(n: string, s: string)
    requires forall i :: 0 <= i < |n| ==> NameChar(n[i])
    ensures NameRun(n + [Nul] + s) == n
  {
    var t := n + [Nul] + s;
    if n != "" {
      assert t[0] == n[0] && t[1..] == n[1..] + [Nul] + s;
      RunStops(n[1..], s);
    }
  }

  lemma {:induction false} SentinelFound(n: string, s: string)
    requires ValidName(n)
    ensures SentinelAt(Sentinel(n) + s) == Some(n)
  {
    var t := Sentinel(n) + s;
    var rest := n + [Nul] + s;
    assert t[..|Opening|] == Opening && t[|Opening|..] == rest;
    RunStops(n, s);
  }

  lemma {:induction false} ReferenceReplaced(n: string, s: string, store: map<string, string>)
    requires ValidName(n)
    ensures Resolve(Sentinel(n) + s, store) == Value(n, store) + Resolve(s, store)
    ensures Missing(Sentinel(n) + s, store) == (if n in store then {} else {n}) + Missing(s, store)
  {
    var t := Sentinel(n) + s;
    SentinelFound(n, s);
    assert t[|Sentinel(n)|..] == s;
  }

  /** A letter or underscore, then letters, digits and underscores, by code point. */
  predicate IsIdentifier(n: string) {
    && n != "" && !Digit(n[0] as int)
    && forall i :: 0 <= i < |n| ==> Letter(n[i] as int) || Digit(n[i] as int) || n[i] as int == 95
  }

  predicate Letter(c: int) { 65 <= c <= 90 || 97 <= c <= 122 }
  predicate Digit(c: int) { 48 <= c <= 57 }

  lemma {:induction false} SentinelText(n: string)
    ensures ValidName(n) <==> IsIdentifier(n)
    ensures Sentinel(n) == "\0secret:" + n + "\0"
  {
    assert Opening == "\0secret:" && [Nul] == "\0";
  }

  /** Only valid names can be encoded, different names differently, and an encoded name
      resolves to its plaintext or, unknown, to itself. */
  lemma {:induction false} EncodeResolves(n: string, k: string, store: map<string, string>)
    ensures Encode(n).Some? <==> IsIdentifier(n)
    ensures Encode(n).Some? ==> Encode(n).value == "\0secret:" + n + "\0"
    ensures Encode(n).Some? && Encode(n) == Encode(k) ==> n == k
    ensures Encode(n).Some? ==> Resolve(Encode(n).value, store) == Value(n, store)
    ensures Encode(n).Some? ==> Missing(Encode(n).value, store) == if n in store then {} else {n}
  {
    SentinelText(n);
    if ValidName(n) {
      assert Sentinel(n) + "" == Sentinel(n);
      ReferenceReplaced(n, "", store);
      assert Value(n, store) + "" == Value(n, store);
      SentinelFound(n, "");
      if ValidName(k) && Sentinel(n) == Sentinel(k) {
        assert Sentinel(k) + "" == Sentinel(k);
        SentinelFound(k, "");
      }
    }
  }

  /** Any concatenation of NUL-free literals and references comes back with exactly the
      references replaced, in one pass; unknown ones stay and are the ones reported. */
  lemma {:induction false} RoundTrip(ps: seq<Piece>, store: map<string, string>)
    requires AllProper(ps)
    ensures Resolve(Render(ps), store) == Substituted(ps, store)
    ensures Missing(Render(ps), store) == Absent(ps, store)
  {
    if ps != [] {
      RoundTrip(ps[1..], store);
      AbsentStep(ps, store);
      match ps[0] {
        case Lit(t) => LiteralPasses(t, Render(ps[1..]), store);
        case Ref(n) => ReferenceReplaced(n, Render(ps[1..]), store);
      }
    }
  }

  lemma {:induction false} AbsentStep(ps: seq<Piece>, store: map<string, string>)
    requires ps != []
    ensures Absent(ps, store) == (if ps[0].Ref? && ps[0].name !in store then {ps[0].name} else {}) + Absent(ps[1..], store)
  {
    var all, tail := Absent(ps, store), Absent(ps[1..], store);
    forall x ensures x in all <==> (ps[0].Ref? && ps[0].name == x && x !in store) || x in tail {
      if x in all {
        var i :| 0 <= i < |ps| && ps[i].Ref? && ps[i].name !in store && ps[i].name == x;
        if i > 0 { assert ps[1..][i - 1] == ps[i]; }
      }
      if x in tail {
        var i :| 0 <= i < |ps[1..]| && ps[1..][i].Ref? && ps[1..][i].name !in store && ps[1..][i].name == x;
        assert ps[i + 1].name == x;
      }
    }
  }

  // ---------------------------------------------------------------------------
  // Later passes, shortcuts, and text with NULs
  // ---------------------------------------------------------------------------

  /** What is left after a first pass, as pieces again. */
  function Left(ps: seq<Piece>, store: map<string, string>): (r: seq<Piece>)
    ensures |r| == |ps|
  {
    if ps == [] then []
    else
      var p := ps[0];
      [if p.Ref? && p.name in store then Lit(store[p.name]) else p] + Left(ps[1..], store)
  }

  lemma {:induction false} LeftRenders(ps: seq<Piece>, a: map<string, string>, b: map<string, string>)
    requires AllProper(ps) && forall n :: n in a ==> Nul !in a[n]
    ensures AllProper(Left(ps, a)) && Render(Left(ps, a)) == Substituted(ps, a)
    ensures Substituted(Left(ps, a), b) == Substituted(ps, b + a)
  {
    if ps != [] {
      LeftRenders(ps[1..], a, b);
      var l := Left(ps, a);
      assert l[1..] == Left(ps[1..], a);
      forall i | 0 <= i < |l| ensures Proper(l[i]) { if i > 0 { assert l[i] == l[1..][i - 1]; } }
    }
  }

  /** Names missing in a first pass can be supplied in a second: together the two passes do
      what one pass with both stores does, if the first store's plaintexts hold no NUL. */
  lemma {:induction false} TwoPasses(ps: seq<Piece>, a: map<string, string>, b: map<string, string>)
    requires AllProper(ps) && forall n :: n in a ==> Nul !in a[n]
    ensures Resolve(Resolve(Render(ps), a), b) == Resolve(Render(ps), b + a)
  {
    RoundTrip(ps, a);
    LeftRenders(ps, a, b);
    RoundTrip(Left(ps, a), b);
    RoundTrip(ps, b + a);
  }

  predicate OpensAt(s: string, i: nat) { i + |Opening| <= |s| && s[i..i + |Opening|] == Opening }
  predicate HasOpening(s: string) { exists i: nat :: i <= |s| && OpensAt(s, i) }

  /** The shortcut: without an opening nothing is replaced or reported. */
  lemma {:induction false} NoOpeningUnchanged(s: string, store: map<string, string>)
    requires !HasOpening(s)
    ensures Resolve(s, store) == s && Missing(s, store) == {}
  {
    if s != "" {
      assert !OpensAt(s, 0);
      TailHasNoOpening(s);
      NoOpeningUnchanged(s[1..], store);
    }
  }

  lemma {:induction false} TailHasNoOpening(s: string)
    requires s != "" && !HasOpening(s)
    ensures !HasOpening(s[1..])
  {
    var t := s[1..];
    forall i: nat | i <= |t| ensures !OpensAt(t, i) {
      if i + |Opening| <= |t| { assert t[i..i + |Opening|] == s[i + 1..i + 1 + |Opening|]; }
      assert !OpensAt(s, i + 1);
    }
  }

  /** A literal that ends like an unfinished sentinel takes the opening NUL of the next
      reference for its own end: that reference is then not replaced. */
  lemma {:induction false} NulLiteralCaptures(a: string, b: string, store: map<string, string>)
    requires ValidName(a) && ValidName(b) && a in store
    ensures Resolve(Render([Lit(Opening + a), Ref(b)]), store) == store[a] + (Opening[1..] + b + [Nul])
  {
    var word := Opening[1..];
    assert Opening == [Nul] + word;
    RenderTwo(Opening + a, b);
    Regroup(Opening, word, a, b);
    ReferenceReplaced(a, word + b + [Nul], store);
    NoNulInWord(word, b);
    TrailingNul(word + b, store);
  }

  lemma {:induction false} RenderTwo(t: string, b: string)
    ensures Render([Lit(t), Ref(b)]) == t + Sentinel(b)
  {
    var ps := [Lit(t), Ref(b)];
    assert ps[1..] == [Ref(b)] && [Ref(b)][1..] == [];
    assert Render([Ref(b)]) == Sentinel(b) + "" == Sentinel(b);
  }

  lemma {:induction false} Regroup(op: string, word: string, a: string, b: string)
    requires op == [Nul] + word
    ensures (op + a) + (op + b + [Nul]) == (op + a + [Nul]) + (word + b + [Nul])
  {
  }

  lemma {:induction false} NoNulInWord(word: string, b: string)
    requires ValidName(b) && word == Opening[1..]
    ensures Nul !in word + b
  {
    assert word == "secret:";
    forall i | 0 <= i < |b| ensures b[i] != Nul { assert NameChar(b[i]); }
  }

  lemma {:induction false} TrailingNul(u: string, store: map<string, string>)
    requires Nul !in u
    ensures Resolve(u + [Nul], store) == u + [Nul]
  {
    LiteralPasses(u, [Nul], store);
    assert [Nul][1..] == "" && SentinelAt([Nul]) == None;
  }

  // ---------------------------------------------------------------------------
  // Literals with NULs: the exact condition
  // ---------------------------------------------------------------------------

  predicate NamesValid(ps: seq<Piece>) { forall i :: 0 <= i < |ps| && ps[i].Ref? ==> ValidName(ps[i].name) }

  /** No position of `t`, followed by `rest`, starts a sentinel. */
  predicate Inert(t: string, rest: string) { forall i :: 0 <= i < |t| ==> SentinelAt(t[i..] + rest) == None }

  /** No position of a literal, with everything that is written after it, starts a sentinel. */
  predicate Unambiguous(ps: seq<Piece>) {
    ps == [] || ((ps[0].Lit? ==> Inert(ps[0].text, Render(ps[1..]))) && Unambiguous(ps[1..]))
  }

  lemma {:induction false} InertPasses(t: string, rest: string, store: map<string, string>)
    requires Inert(t, rest)
    ensures Resolve(t + rest, store) == t + Resolve(rest, store) && Missing(t + rest, store) == Missing(rest, store)
  {
    if t == "" {
      assert t + rest == rest;
    } else {
      assert t[0..] == t && SentinelAt(t[0..] + rest) == None;
      assert Inert(t[1..], rest) by {
        forall i | 0 <= i < |t[1..]| ensures SentinelAt(t[1..][i..] + rest) == None { assert t[1..][i..] == t[i + 1..]; }
      }
      InertPasses(t[1..], rest, store);
      SplitHead(t, rest);
      OneCharPasses(t[0], t[1..] + rest, store);
      SplitHead(t, Resolve(rest, store));
    }
  }

  lemma {:induction false} OneCharPasses(c: char, s: string, store: map<string, string>)
    requires SentinelAt([c] + s) == None
    ensures Resolve([c] + s, store) == [c] + Resolve(s, store) && Missing([c] + s, store) == Missing(s, store)
  {
    assert ([c] + s)[1..] == s;
  }

  lemma {:induction false} UnambiguousRoundTrip(ps: seq<Piece>, store: map<string, string>)
    requires NamesValid(ps) && Unambiguous(ps)
    ensures Resolve(Render(ps), store) == Substituted(ps, store) && Missing(Render(ps), store) == Absent(ps, store)
  {
    if ps != [] {
      UnambiguousRoundTrip(ps[1..], store);
      AbsentStep(ps, store);
      match ps[0] {
        case Lit(t) => InertPasses(t, Render(ps[1..]), store);
        case Ref(n) => ReferenceReplaced(n, Render(ps[1..]), store);
      }
    }
  }

  /** The first position of `t` that starts a sentinel. */
  lemma {:induction false} FirstSentinel(t: string, rest: string, i: nat) returns (k: nat)
    requires i <= |t| && (forall j :: 0 <= j < i ==> SentinelAt(t[j..] + rest) == None) && !Inert(t, rest)
    ensures k < |t| && SentinelAt(t[k..] + rest).Some? && forall j :: 0 <= j < k ==> SentinelAt(t[j..] + rest) == None
    decreases |t| - i
  {
    if SentinelAt(t[i..] + rest).Some? { k := i; } else { k := FirstSentinel(t, rest, i + 1); }
  }

  /** A sentinel that starts inside a literal is replaced: some plaintext shows it. */
  lemma {:induction false} CapturedShows(t: string, rest: string) returns (store: map<string, string>)
    requires !Inert(t, rest)
    ensures forall tail: string :: Resolve(t + rest, store) != t + tail
  {
    var k := FirstSentinel(t, rest, 0);
    var u := t[k..] + rest;
    store := map[SentinelAt(u).value := "x"];
    assert Resolve(t + rest, store) == t[..k] + Resolve(u, store) by { BeforeCapture(t, rest, k, store); }
    ValueFirst(u, store);
    forall tail: string ensures Resolve(t + rest, store) != t + tail {
      assert (t + tail)[k] == t[k] && (t[..k] + Resolve(u, store))[k] == 'x';
    }
  }

  lemma {:induction false} BeforeCapture(t: string, rest: string, k: nat, store: map<string, string>)
    requires k <= |t| && forall j :: 0 <= j < k ==> SentinelAt(t[j..] + rest) == None
    ensures Resolve(t + rest, store) == t[..k] + Resolve(t[k..] + rest, store)
  {
    InertUpTo(t, rest, k);
    CutAt(t, rest, k, 0);
    InertPasses(t[..k], t[k..] + rest, store);
  }

  lemma {:induction false} CutAt(t: string, rest: string, k: nat, i: nat)
    requires i <= k <= |t|
    ensures t[..k][i..] + (t[k..] + rest) == t[i..] + rest && t[..k] + (t[k..] + rest) == t + rest
  {
  }

  lemma {:induction false} InertUpTo(t: string, rest: string, k: nat)
    requires k <= |t| && forall j :: 0 <= j < k ==> SentinelAt(t[j..] + rest) == None
    ensures Inert(t[..k], t[k..] + rest)
  {
    forall i | 0 <= i < |t[..k]| ensures SentinelAt(t[..k][i..] + (t[k..] + rest)) == None { CutAt(t, rest, k, i); }
  }

  lemma {:induction false} ValueFirst(u: string, store: map<string, string>)
    requires SentinelAt(u).Some? && SentinelAt(u).value in store && store[SentinelAt(u).value] == "x"
    ensures u != "" && u[0] == Nul && Resolve(u, store) != "" && Resolve(u, store)[0] == 'x'
  {
    assert u != "" && u[0] == Nul by { if u == "" || u[0] != Nul { NoSentinelHere(u); } }
  }

  lemma {:induction false} AmbiguousFails(ps: seq<Piece>) returns (store: map<string, string>)
    requires NamesValid(ps) && !Unambiguous(ps)
    ensures Resolve(Render(ps), store) != Substituted(ps, store)
  {
    var rest := Render(ps[1..]);
    match ps[0] {
      case Lit(t) =>
        if Inert(t, rest) {
          store := AmbiguousFails(ps[1..]);
          InertPasses(t, rest, store);
          DifferAfter(t, Resolve(rest, store), Substituted(ps[1..], store));
        } else {
          store := CapturedShows(t, rest);
        }
      case Ref(n) =>
        store := AmbiguousFails(ps[1..]);
        ReferenceReplaced(n, rest, store);
        DifferAfter(Value(n, store), Resolve(rest, store), Substituted(ps[1..], store));
    }
  }

  lemma {:induction false} DifferAfter(a: string, x: string, y: string)
    requires x != y
    ensures a + x != a + y
  {
    assert (a + x)[|a|..] == x && (a + y)[|a|..] == y;
  }

  /** Whatever the literals: the round trip holds for every store if and only if no position
      of a literal starts a sentinel. */
  lemma {:induction false} RoundTripIffUnambiguous(ps: seq<Piece>)
    requires NamesValid(ps)
    ensures (forall store :: Resolve(Render(ps), store) == Substituted(ps, store)) <==> Unambiguous(ps)
  {
    if Unambiguous(ps) {
      forall store ensures Resolve(Render(ps), store) == Substituted(ps, store) { UnambiguousRoundTrip(ps, store); }
    } else {
      var store := AmbiguousFails(ps);
    }
  }

  method ResolveString(s: string, store: map<string, string>, missing: set<string>) returns (out: string, missing': set<string>)
    ensures out == Resolve(s, store) && missing' == missing + Missing(s, store)
  {
    if !HasOpening(s) {
      NoOpeningUnchanged(s, store);
      return s, missing;
    }
    out, missing' := Resolve(s, store), missing + Missing(s, store);
  }

  // ---------------------------------------------------------------------------
  // Whole descriptors
  // ---------------------------------------------------------------------------

  function Resolving(store: map<string, string>): string -> string { s => Resolve(s, store) }

  function MissingIn(v: Json, store: map<string, string>): set<string>
    decreases v, Width(v) + 1
  {
    if v.Str? then Missing(v.text, store) else MissingUpTo(v, store, Width(v))
  }

  /** Over the first `n` children. */
  function MissingUpTo(v: Json, store: map<string, string>, n: nat): set<string>
    requires n <= Width(v)
    decreases v, n
  {
    if n == 0 then {} else MissingUpTo(v, store, n - 1) + MissingIn(Child(v, n - 1), store)
  }

  lemma {:induction false} MissingChild(v: Json, store: map<string, string>, n: nat, x: string)
    requires n <= Width(v)
    ensures x in MissingUpTo(v, store, n) <==> exists i: nat :: i < n && x in MissingIn(Child(v, i), store)
  {
    if n > 0 { MissingChild(v, store, n - 1, x); }
  }

  /** Reported are exactly the unknown names of sentinels in some string of the tree. */
  lemma {:induction false} MissingSomewhere(v: Json, store: map<string, string>, n: string)
    ensures n in MissingIn(v, store) <==> exists path :: Reaches(v, path) && At(v, path).Str? && n in Missing(At(v, path).text, store)
  {
    if path :| Reaches(v, path) && At(v, path).Str? && n in Missing(At(v, path).text, store) { MissingUp(v, store, n, path); }
    if n in MissingIn(v, store) { var path := MissingDown(v, store, n); }
  }

  lemma {:induction false} MissingUp(v: Json, store: map<string, string>, n: string, path: seq<nat>)
    requires Reaches(v, path) && At(v, path).Str? && n in Missing(At(v, path).text, store)
    ensures n in MissingIn(v, store)
    decreases |path|
  {
    if path != [] {
      MissingUp(Child(v, path[0]), store, n, path[1..]);
      MissingChild(v, store, Width(v), n);
    }
  }

  lemma {:induction false} MissingDown(v: Json, store: map<string, string>, n: string) returns (path: seq<nat>)
    requires n in MissingIn(v, store)
    ensures Reaches(v, path) && At(v, path).Str? && n in Missing(At(v, path).text, store)
    decreases v
  {
    if v.Str? {
      path := [];
    } else {
      MissingChild(v, store, Width(v), n);
      var i: nat :| i < Width(v) && n in MissingIn(Child(v, i), store);
      var tail := MissingDown(Child(v, i), store, n);
      path := [i] + tail;
      assert path[1..] == tail;
    }
  }

  /** The walk with its accumulated set of missing names. */
  method ResolveSecretSentinels(v: Json, store: map<string, string>, missing: set<string>) returns (out: Json, missing': set<string>)
    ensures out == Walk(v, Resolving(store)) && missing' == missing + MissingIn(v, store)
    decreases v, 1
  {
    match v {
      case Str(s) =>
        var t;
        t, missing' := ResolveString(s, store, missing);
        out := Str(t);
      case Arr(_) => out, missing' := ResolveItems(v, store, missing);
      case Obj(_) => out, missing' := ResolveEntries(v, store, missing);
      case Other(_) => out, missing' := v, missing;
    }
  }

  method ResolveItems(v: Json, store: map<string, string>, missing: set<string>) returns (out: Json, missing': set<string>)
    requires v.Arr?
    ensures out == Walk(v, Resolving(store)) && missing' == missing + MissingUpTo(v, store, Width(v))
    decreases v, 0
  {
    var done: seq<Json> := [];
    missing' := missing;
    for i := 0 to |v.items|
      invariant |done| == i && ItemsWalked(v, Resolving(store), done)
      invariant missing' == missing + MissingUpTo(v, store, i)
    {
      var w;
      w, missing' := ResolveSecretSentinels(v.items[i], store, missing');
      WalkItem(v, Resolving(store), done, w);
      done := done + [w];
    }
    WalkItems(v, Resolving(store), done);
    out := Arr(done);
  }

  /** Keys are copied as they are. */
  method ResolveEntries(v: Json, store: map<string, string>, missing: set<string>) returns (out: Json, missing': set<string>)
    requires v.Obj?
    ensures out == Walk(v, Resolving(store)) && missing' == missing + MissingUpTo(v, store, Width(v))
    decreases v, 0
  {
    var done: seq<Entry> := [];
    missing' := missing;
    for i := 0 to |v.entries|
      invariant |done| == i && EntriesWalked(v, Resolving(store), done)
      invariant missing' == missing + MissingUpTo(v, store, i)
    {
      var w;
      w, missing' := ResolveSecretSentinels(v.entries[i].value, store, missing');
      WalkEntry(v, Resolving(store), done, w);
      done := done + [Entry(v.entries[i].key, w)];
    }
    WalkEntries(v, Resolving(store), done);
    out := Obj(done);
  }
}
