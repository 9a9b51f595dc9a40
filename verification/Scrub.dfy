/** packages/runtime/src/plugins/secrets.ts: plaintext secrets are replaced by a marker in
    every string of every message that leaves the worker.

    Results are stated for an arbitrary marker `m` and for plaintexts that cannot overlap it
    (`Safe`); `SafeForMarker` and `UnsafeLeaks` say what that means for the marker in use. */
module Scrub {
  import opened JsonTree

  const Marker: string := "[secret]"

  // ---------------------------------------------------------------------------
  // Occurrences and replacement
  // ---------------------------------------------------------------------------

  predicate OccursAt(s: string, p: string, i: nat) {
    i + |p| <= |s| && forall j :: 0 <= j < |p| ==> s[i + j] == p[j]
  }

  predicate Contains(s: string, p: string) { exists i: nat :: i <= |s| && OccursAt(s, p, i) }

  /** Leftmost, non-overlapping, not rescanning what was put in. */
  function ReplaceAll(s: string, q: string, m: string): string
    requires q != ""
  {
    if |s| < |q| then s
    else if OccursAt(s, q, 0) then m + ReplaceAll(s[|q|..], q, m)
    else [s[0]] + ReplaceAll(s[1..], q, m)
  }

  /** Laid over `m` with its start at offset `d`, `p` agrees with it wherever they overlap. */
  predicate Touches(p: string, m: string, d: int) {
    -|p| < d < |m| && forall j :: 0 <= j < |p| && 0 <= d + j < |m| ==> p[j] == m[d + j]
  }

  /** No occurrence of `p` can overlap an inserted `m`, whatever surrounds it. */
  ghost predicate Safe(p: string, m: string) { p != "" && forall d :: !Touches(p, m, d) }

  lemma {:induction false} ContainsTail(s: string, p: string, k: nat)
    requires k <= |s| && Contains(s[k..], p)
    ensures Contains(s, p)
  {
    var i: nat :| i <= |s[k..]| && OccursAt(s[k..], p, i);
    forall j | 0 <= j < |p| ensures s[k + i + j] == p[j] { assert s[k..][i + j] == p[j]; }
    assert OccursAt(s, p, k + i);
  }

  lemma {:induction false} StartTouches(t: string, m: string, p: string, o: nat)
    requires o < |p| && m != "" && OccursAt(m + t, p[o..], 0)
    ensures Touches(p, m, 0 - (o as int))
  {
    forall j | 0 <= j < |p| && 0 <= j - o < |m| ensures p[j] == m[j - o] { assert (m + t)[0 + (j - o)] == p[o..][j - o]; }
  }

  lemma {:induction false} OverlapTouches(t: string, m: string, p: string, i: nat)
    requires i < |m| && p != "" && OccursAt(m + t, p, i)
    ensures Touches(p, m, i)
  {
    forall j | 0 <= j < |p| && 0 <= i + j < |m| ensures p[j] == m[i + j] { assert (m + t)[i + j] == p[j]; }
  }

  /** What the output starts with, the input starts with. */
  lemma {:induction false} HeadIsLiteral(s: string, q: string, m: string, p: string, o: nat)
    requires q != "" && m != "" && Safe(p, m) && o <= |p| && OccursAt(ReplaceAll(s, q, m), p[o..], 0)
    ensures OccursAt(s, p[o..], 0)
    decreases |s|
  {
    var r := ReplaceAll(s, q, m);
    if o < |p| && |s| >= |q| {
      if OccursAt(s, q, 0) {
        StartTouches(ReplaceAll(s[|q|..], q, m), m, p, o);
      } else {
        var t := ReplaceAll(s[1..], q, m);
        assert r[0] == p[o..][0];
        forall j | 0 <= j < |p[o + 1..]| ensures t[j] == p[o + 1..][j] { assert r[j + 1] == p[o..][j + 1]; }
        HeadIsLiteral(s[1..], q, m, p, o + 1);
        forall j | 0 <= j < |p[o..]| ensures s[j] == p[o..][j] {
          if j > 0 { assert s[1..][j - 1] == p[o + 1..][j - 1]; }
        }
      }
    }
  }

  /** Replacing one plaintext never creates an occurrence of another. */
  lemma {:induction false} NothingCreated(s: string, q: string, m: string, p: string, i: nat)
    requires q != "" && m != "" && Safe(p, m) && OccursAt(ReplaceAll(s, q, m), p, i)
    ensures Contains(s, p)
    decreases |s|
  {
    var r := ReplaceAll(s, q, m);
    if |s| < |q| {
    } else if OccursAt(s, q, 0) {
      var t := ReplaceAll(s[|q|..], q, m);
      if i < |m| {
        OverlapTouches(t, m, p, i);
      } else {
        forall j | 0 <= j < |p| ensures t[i - |m| + j] == p[j] { assert r[i + j] == p[j]; }
        NothingCreated(s[|q|..], q, m, p, i - |m|);
        ContainsTail(s, p, |q|);
      }
    } else if i == 0 {
      assert p[0..] == p;
      HeadIsLiteral(s, q, m, p, 0);
    } else {
      var t := ReplaceAll(s[1..], q, m);
      forall j | 0 <= j < |p| ensures t[i - 1 + j] == p[j] { assert r[i + j] == p[j]; }
      NothingCreated(s[1..], q, m, p, i - 1);
      ContainsTail(s, p, 1);
    }
  }

  /** Replacing a plaintext removes it. */
  lemma {:induction false} OwnGone(s: string, q: string, m: string, i: nat)
    requires m != "" && Safe(q, m)
    ensures !OccursAt(ReplaceAll(s, q, m), q, i)
    decreases |s|
  {
    var r := ReplaceAll(s, q, m);
    if |s| >= |q| && OccursAt(r, q, i) {
      if OccursAt(s, q, 0) {
        var t := ReplaceAll(s[|q|..], q, m);
        if i < |m| {
          OverlapTouches(t, m, q, i);
        } else {
          forall j | 0 <= j < |q| ensures t[i - |m| + j] == q[j] { assert r[i + j] == q[j]; }
          OwnGone(s[|q|..], q, m, i - |m|);
        }
      } else if i == 0 {
        assert q[0..] == q;
        HeadIsLiteral(s, q, m, q, 0);
      } else {
        var t := ReplaceAll(s[1..], q, m);
        forall j | 0 <= j < |q| ensures t[i - 1 + j] == q[j] { assert r[i + j] == q[j]; }
        OwnGone(s[1..], q, m, i - 1);
      }
    }
  }

  lemma {:induction false} NothingToReplace(s: string, q: string, m: string)
    requires q != "" && !Contains(s, q)
    ensures ReplaceAll(s, q, m) == s
    decreases |s|
  {
    if |s| >= |q| {
      assert !OccursAt(s, q, 0);
      if Contains(s[1..], q) { ContainsTail(s, q, 1); }
      NothingToReplace(s[1..], q, m);
    }
  }

  // ---------------------------------------------------------------------------
  // Scrubbing a string
  // ---------------------------------------------------------------------------

  /** After the first `n` plaintexts. */
  function ScrubTo(s: string, pts: seq<string>, m: string, n: nat): string
    requires n <= |pts|
  {
    if n == 0 then s
    else
      var out := ScrubTo(s, pts, m, n - 1);
      if pts[n - 1] == "" then out else ReplaceAll(out, pts[n - 1], m)
  }

  function ScrubWith(s: string, pts: seq<string>, m: string): string { ScrubTo(s, pts, m, |pts|) }

  ghost predicate AllSafe(pts: seq<string>, m: string) { forall i :: 0 <= i < |pts| ==> Safe(pts[i], m) }

  /** Later replacements neither bring a plaintext back nor create one. */
  lemma {:induction false} NeverComesBack(s: string, pts: seq<string>, m: string, p: string, n: nat)
    requires n <= |pts| && m != "" && Safe(p, m) && Contains(ScrubTo(s, pts, m, n), p)
    ensures Contains(s, p) && forall k :: 0 <= k < n ==> pts[k] != p
  {
    if n > 0 {
      var out, q := ScrubTo(s, pts, m, n - 1), pts[n - 1];
      if q != "" {
        var i: nat :| i <= |ReplaceAll(out, q, m)| && OccursAt(ReplaceAll(out, q, m), p, i);
        if q == p { OwnGone(out, p, m, i); }
        NothingCreated(out, q, m, p, i);
      }
      NeverComesBack(s, pts, m, p, n - 1);
    }
  }

  /** No registered plaintext is left, whatever the string and the order of the list. */
  lemma {:induction false} NoPlaintextRemains(s: string, pts: seq<string>, m: string, p: string)
    requires m != "" && p in pts && Safe(p, m)
    ensures !Contains(ScrubWith(s, pts, m), p)
  {
    if Contains(ScrubWith(s, pts, m), p) { NeverComesBack(s, pts, m, p, |pts|); }
  }

  /** A string without plaintexts is not changed. */
  lemma {:induction false} CleanUnchanged(s: string, pts: seq<string>, m: string, n: nat)
    requires n <= |pts| && forall i :: 0 <= i < |pts| && pts[i] != "" ==> !Contains(s, pts[i])
    ensures ScrubTo(s, pts, m, n) == s
  {
    if n > 0 {
      CleanUnchanged(s, pts, m, n - 1);
      if pts[n - 1] != "" { NothingToReplace(s, pts[n - 1], m); }
    }
  }

  lemma {:induction false} Idempotent(s: string, pts: seq<string>, m: string)
    requires m != "" && AllSafe(pts, m)
    ensures ScrubWith(ScrubWith(s, pts, m), pts, m) == ScrubWith(s, pts, m)
  {
    forall i | 0 <= i < |pts| ensures !Contains(ScrubWith(s, pts, m), pts[i]) {
      NoPlaintextRemains(s, pts, m, pts[i]);
    }
    CleanUnchanged(ScrubWith(s, pts, m), pts, m, |pts|);
  }

  predicate LongestFirst(pts: seq<string>) { forall i, j :: 0 <= i < j < |pts| ==> |pts[i]| >= |pts[j]| }

  lemma {:induction false} ContainsNoLonger(s: string, p: string)
    requires Contains(s, p)
    ensures |p| <= |s| && (|p| == |s| ==> p == s)
  {
    var i: nat :| i <= |s| && OccursAt(s, p, i);
    if |p| == |s| { assert forall j :: 0 <= j < |p| ==> s[i + j] == s[j]; }
  }

  lemma {:induction false} SafeNotInMarker(p: string, m: string)
    requires Safe(p, m)
    ensures !Contains(m, p)
  {
    forall i: nat | i <= |m| ensures !OccursAt(m, p, i) {
      if OccursAt(m, p, i) {
        assert m + "" == m;
        OverlapTouches("", m, p, i);
      }
    }
  }

  lemma {:induction false} ReplaceWhole(p: string, m: string)
    requires p != ""
    ensures ReplaceAll(p, p, m) == m
  {
    assert OccursAt(p, p, 0);
    assert p[|p|..] == "" && ReplaceAll("", p, m) == "";
  }

  /** Longest first: a plaintext is redacted as a whole even if others are parts of it. */
  lemma {:induction false} WholePlaintextRedacted(pts: seq<string>, m: string, k: nat, n: nat)
    requires m != "" && AllSafe(pts, m) && LongestFirst(pts) && k < |pts| && n <= |pts|
    requires forall i :: 0 <= i < k ==> pts[i] != pts[k]
    ensures ScrubTo(pts[k], pts, m, n) == if n <= k then pts[k] else m
  {
    if n > 0 {
      WholePlaintextRedacted(pts, m, k, n - 1);
      var p, q := pts[k], pts[n - 1];
      if n - 1 < k {
        if Contains(p, q) { ContainsNoLonger(p, q); }
        NothingToReplace(p, q, m);
      } else if n - 1 == k {
        ReplaceWhole(p, m);
      } else {
        SafeNotInMarker(q, m);
        NothingToReplace(m, q, m);
      }
    }
  }

  /** The other way round the rest of the longer plaintext stays readable. */
  lemma {:induction false} ShortestFirstLeavesRest(p: string, rest: string, m: string)
    requires p != "" && m != "" && Safe(p + rest, m) && !Contains(rest, p)
    ensures ScrubWith(p + rest, [p, p + rest], m) == m + rest
  {
    var s := p + rest;
    assert OccursAt(s, p, 0) && s[|p|..] == rest;
    NothingToReplace(rest, p, m);
    var pts := [p, s];
    assert ScrubTo(s, pts, m, 0) == s && ScrubTo(s, pts, m, 1) == m + rest;
    assert !Contains(m + rest, s) by {
      if i: nat :| i <= |m + rest| && OccursAt(m + rest, s, i) {
        if i < |m| { OverlapTouches(rest, m, s, i); }
      }
    }
    NothingToReplace(m + rest, s, m);
  }

  // ---------------------------------------------------------------------------
  // The marker in use
  // ---------------------------------------------------------------------------

  /** No brackets and no part of the word between them: then it cannot overlap the marker. */
  lemma {:induction false} SafeForMarker(p: string, word: string)
    requires p != "" && '[' !in p && ']' !in p && !Contains(word, p)
    ensures Safe(p, "[" + word + "]")
  {
    var m := "[" + word + "]";
    forall d ensures !Touches(p, m, d) {
      if Touches(p, m, d) { TouchMeets(p, word, d); }
    }
  }

  lemma {:induction false} SafePlaintext(p: string)
    requires p != "" && '[' !in p && ']' !in p && !Contains("secret", p)
    ensures Safe(p, Marker)
  {
    assert Marker == "[" + "secret" + "]";
    SafeForMarker(p, "secret");
  }

  lemma {:induction false} TouchMeets(p: string, word: string, d: int)
    requires Touches(p, "[" + word + "]", d)
    ensures '[' in p || ']' in p || Contains(word, p)
  {
    var m := "[" + word + "]";
    var last := |m| - 1;
    if d <= 0 {
      assert p[0 - d] == m[d + (0 - d)] == '[';
    } else if d + |p| > last {
      assert p[last - d] == m[d + (last - d)] == ']';
    } else {
      forall j | 0 <= j < |p| ensures word[d - 1 + j] == p[j] { assert p[j] == m[d + j]; }
      assert OccursAt(word, p, d - 1);
    }
  }

  /** A plaintext that can overlap the marker does leak: with a shorter plaintext `[c]`
      beside it there is a string that shows it after scrubbing. */
  lemma {:induction false} UnsafeLeaks(p: string, m: string, d: int, c: char) returns (s: string)
    requires Touches(p, m, d) && |p| >= 2 && m != "" && c !in p && c !in m
    ensures LongestFirst([p, [c]]) && Contains(ScrubWith(s, [p, [c]], m), p)
  {
    var x := if d < 0 then p[..-d] else "";
    var y := if d + |p| > |m| then p[|m| - d..] else "";
    s := x + [c] + y;
    var pts := [p, [c]];
    assert !Contains(s, p) by {
      if i: nat :| i <= |s| && OccursAt(s, p, i) { MissesFresh(s, p, c, |x|, i); }
    }
    NothingToReplace(s, p, m);
    assert ScrubTo(s, pts, m, 0) == s && ScrubTo(s, pts, m, 1) == s;
    ReplaceFresh(x, c, y, m);
    LeakShows(p, m, d, x, y);
  }

  /** So does a plaintext that is one of the marker's characters. */
  lemma {:induction false} UnsafeCharLeaks(c: char, m: string)
    requires c in m
    ensures Contains(ScrubWith([c], [[c]], m), [c])
  {
    var pts := [[c]];
    ReplaceWhole([c], m);
    assert ScrubTo([c], pts, m, 0) == [c] && ScrubTo([c], pts, m, 1) == m;
    var i :| 0 <= i < |m| && m[i] == c;
    assert OccursAt(m, [c], i);
  }

  /** The exact condition, for a plaintext that leaves some character `c` unused: it never
      shows after scrubbing, whatever string and list, iff it cannot overlap the marker. */
  lemma {:induction false} SafeIffNeverShows(p: string, m: string, c: char)
    requires p != "" && m != "" && c !in p && c !in m
    ensures Safe(p, m) <==> forall s: string, pts: seq<string> :: LongestFirst(pts) && p in pts ==> !Contains(ScrubWith(s, pts, m), p)
  {
    if Safe(p, m) {
      forall s: string, pts: seq<string> | LongestFirst(pts) && p in pts ensures !Contains(ScrubWith(s, pts, m), p) {
        NoPlaintextRemains(s, pts, m, p);
      }
    } else {
      var d :| Touches(p, m, d);
      if |p| == 1 {
        assert p == [p[0]] && p[0] == m[d + 0];
        UnsafeCharLeaks(p[0], m);
        assert LongestFirst([p]) && p in [p];
      } else {
        var s := UnsafeLeaks(p, m, d, c);
        assert p in [p, [c]];
      }
    }
  }

  lemma {:induction false} MissesFresh(s: string, p: string, c: char, at: nat, i: nat)
    requires at < |s| && s[at] == c && c !in p && OccursAt(s, p, i)
    ensures i + |p| <= at || at < i
  {
    forall k | i <= k < i + |p| ensures s[k] != c { assert s[i + (k - i)] == p[k - i] && p[k - i] in p; }
  }

  lemma {:induction false} OccursChar(s: string, c: char, i: nat)
    ensures OccursAt(s, [c], i) ==> i < |s| && s[i] == c
  {
    if OccursAt(s, [c], i) { assert s[i + 0] == [c][0]; }
  }

  lemma {:induction false} ReplaceFresh(x: string, c: char, y: string, m: string)
    requires c !in x && c !in y
    ensures ReplaceAll(x + [c] + y, [c], m) == x + m + y
  {
    if x == "" {
      ReplaceFirst(c, y, m);
      assert "" + [c] + y == [c] + y && "" + m + y == m + y;
    } else {
      ReplaceFresh(x[1..], c, y, m);
      KeepFirst(x[0], x[1..] + [c] + y, c, m);
      HeadOff(x, [c], y);
      HeadOff(x, m, y);
    }
  }

  lemma {:induction false} HeadOff(x: string, z: string, y: string)
    requires x != ""
    ensures x + z + y == [x[0]] + (x[1..] + z + y)
  {
  }

  lemma {:induction false} ReplaceFirst(c: char, y: string, m: string)
    requires c !in y
    ensures ReplaceAll([c] + y, [c], m) == m + y
  {
    var s := [c] + y;
    assert OccursAt(s, [c], 0) && s[1..] == y;
    forall i: nat { OccursChar(y, c, i); }
    NothingToReplace(y, [c], m);
  }

  lemma {:induction false} KeepFirst(d: char, s: string, c: char, m: string)
    requires d != c
    ensures ReplaceAll([d] + s, [c], m) == [d] + ReplaceAll(s, [c], m)
  {
    OccursChar([d] + s, c, 0);
    assert ([d] + s)[1..] == s;
  }

  lemma {:induction false} LeakShows(p: string, m: string, d: int, x: string, y: string)
    requires Touches(p, m, d)
    requires x == (if d < 0 then p[..-d] else "") && y == (if d + |p| > |m| then p[|m| - d..] else "")
    ensures Contains(x + m + y, p)
  {
    var t := x + m + y;
    var at: nat := if d < 0 then 0 else d;
    forall j | 0 <= j < |p| ensures at + j < |t| && t[at + j] == p[j] {
      if d + j < 0 {
        assert t[at + j] == x[j];
      } else if d + j < |m| {
        assert t[at + j] == m[d + j];
      } else {
        assert t[at + j] == y[d + j - |m|];
      }
    }
    assert OccursAt(t, p, at);
  }

  // ---------------------------------------------------------------------------
  // Messages
  // ---------------------------------------------------------------------------

  /** `scrubString` as the transform of a walk. */
  function Scrubbing(pts: seq<string>, m: string): string -> string { s => ScrubWith(s, pts, m) }

  /** An object somewhere in the value has a key that contains `p`. */
  ghost predicate KeyShows(v: Json, p: string) {
    exists path, i: nat :: Reaches(v, path) && At(v, path).Obj? && i < |At(v, path).entries| && Contains(At(v, path).entries[i].key, p)
  }

  ghost predicate LeafShows(v: Json, p: string) {
    exists path :: Reaches(v, path) && At(v, path).Str? && Contains(At(v, path).text, p)
  }

  /** No string of a posted message shows a plaintext. */
  lemma {:induction false} NoLeafShows(v: Json, pts: seq<string>, m: string, p: string)
    requires m != "" && p in pts && Safe(p, m)
    ensures !LeafShows(Walk(v, Scrubbing(pts, m)), p)
  {
    var w := Walk(v, Scrubbing(pts, m));
    forall path | Reaches(w, path) && At(w, path).Str? ensures !Contains(At(w, path).text, p) {
      WalkEverywhere(v, Scrubbing(pts, m), path);
      NoPlaintextRemains(At(v, path).text, pts, m, p);
    }
  }

  /** Object keys are not walked: one that contains a plaintext still does afterwards, and
      that is the only way a message shows it. */
  lemma {:induction false} ShowsIffInKey(v: Json, pts: seq<string>, m: string, p: string)
    requires m != "" && p in pts && Safe(p, m)
    ensures LeafShows(Walk(v, Scrubbing(pts, m)), p) || KeyShows(Walk(v, Scrubbing(pts, m)), p) <==> KeyShows(v, p)
  {
    NoLeafShows(v, pts, m, p);
    var w := Walk(v, Scrubbing(pts, m));
    if KeyShows(v, p) {
      var path, i: nat :| Reaches(v, path) && At(v, path).Obj? && i < |At(v, path).entries| && Contains(At(v, path).entries[i].key, p);
      WalkEverywhere(v, Scrubbing(pts, m), path);
      assert At(w, path).entries[i].key == At(v, path).entries[i].key;
    }
    if KeyShows(w, p) {
      var path, i: nat :| Reaches(w, path) && At(w, path).Obj? && i < |At(w, path).entries| && Contains(At(w, path).entries[i].key, p);
      WalkEverywhere(v, Scrubbing(pts, m), path);
      assert At(w, path).entries[i].key == At(v, path).entries[i].key;
    }
  }

  // ---------------------------------------------------------------------------
  // The plugin's list
  // ---------------------------------------------------------------------------

  /** Stable insertion behind every entry that is at least as long. */
  function InsertByLength(pts: seq<string>, p: string): seq<string> {
    if pts == [] || |pts[|pts| - 1]| >= |p| then pts + [p]
    else InsertByLength(pts[..|pts| - 1], p) + [pts[|pts| - 1]]
  }

  function SortLongestFirst(pts: seq<string>): seq<string> {
    if pts == [] then [] else InsertByLength(SortLongestFirst(pts[..|pts| - 1]), pts[|pts| - 1])
  }

  lemma {:induction false} InsertAtLeast(pts: seq<string>, p: string, bound: nat)
    requires |p| >= bound && forall i :: 0 <= i < |pts| ==> |pts[i]| >= bound
    ensures forall i :: 0 <= i < |InsertByLength(pts, p)| ==> |InsertByLength(pts, p)[i]| >= bound
  {
    if pts != [] && |pts[|pts| - 1]| < |p| { InsertAtLeast(pts[..|pts| - 1], p, bound); }
  }

  lemma {:induction false} InsertKeepsAll(pts: seq<string>, p: string)
    ensures multiset(InsertByLength(pts, p)) == multiset(pts) + multiset{p}
  {
    if pts != [] && |pts[|pts| - 1]| < |p| {
      assert pts == pts[..|pts| - 1] + [pts[|pts| - 1]];
      InsertKeepsAll(pts[..|pts| - 1], p);
    }
  }

  lemma {:induction false} InsertSorts(pts: seq<string>, p: string)
    requires LongestFirst(pts)
    ensures LongestFirst(InsertByLength(pts, p))
  {
    if pts != [] && |pts[|pts| - 1]| < |p| {
      InsertSorts(pts[..|pts| - 1], p);
      InsertAtLeast(pts[..|pts| - 1], p, |pts[|pts| - 1]|);
    }
  }

  lemma {:induction false} SortSorts(pts: seq<string>)
    ensures LongestFirst(SortLongestFirst(pts)) && multiset(SortLongestFirst(pts)) == multiset(pts)
  {
    if pts != [] {
      var n := |pts| - 1;
      assert pts == pts[..n] + [pts[n]];
      SortSorts(pts[..n]);
      InsertSorts(SortLongestFirst(pts[..n]), pts[n]);
      InsertKeepsAll(SortLongestFirst(pts[..n]), pts[n]);
    }
  }

  lemma {:induction false} SortKeepsMembers(pts: seq<string>)
    ensures LongestFirst(SortLongestFirst(pts)) && multiset(SortLongestFirst(pts)) == multiset(pts)
    ensures forall p :: p in SortLongestFirst(pts) <==> p in pts
  {
    SortSorts(pts);
    forall p ensures p in SortLongestFirst(pts) <==> p in pts {
      assert p in SortLongestFirst(pts) <==> p in multiset(SortLongestFirst(pts));
      assert p in pts <==> p in multiset(pts);
    }
  }

  class Scrubber {
    var active: seq<string>

    ghost predicate Valid() reads this { LongestFirst(active) && "" !in active }

    constructor (plaintexts: seq<string>)
      ensures Valid() && forall p :: p in active <==> p in plaintexts && p != ""
    {
      var kept: seq<string> := [];
      for i := 0 to |plaintexts|
        invariant forall p :: p in kept <==> p in plaintexts[..i] && p != ""
      {
        if plaintexts[i] != "" { kept := kept + [plaintexts[i]]; }
      }
      assert plaintexts[..|plaintexts|] == plaintexts;
      SortKeepsMembers(kept);
      active := SortLongestFirst(kept);
    }

    /** Push and sort; nothing for an empty or known value. */
    method AddSecret(value: string)
      requires Valid()
      modifies this
      ensures Valid()
      ensures multiset(active) == if value == "" || value in old(active) then multiset(old(active))
        else multiset(old(active)) + multiset{value}
    {
      if value == "" || value in active { return; }
      SortKeepsMembers(active + [value]);
      active := SortLongestFirst(active + [value]);
    }

    method ScrubString(s: string) returns (out: string)
      requires Valid()
      ensures out == ScrubWith(s, active, Marker)
      ensures forall p :: p in active && Safe(p, Marker) ==> !Contains(out, p)
    {
      out := s;
      for i := 0 to |active|
        invariant out == ScrubTo(s, active, Marker, i)
      {
        var pt := active[i];
        if |pt| > 0 && Contains(out, pt) {
          out := ReplaceAll(out, pt, Marker);
        } else if |pt| > 0 {
          NothingToReplace(out, pt, Marker);
        }
      }
      forall p | p in active && Safe(p, Marker) ensures !Contains(out, p) { NoPlaintextRemains(s, active, Marker, p); }
    }

    method OnPost(msg: Json) returns (r: Json)
      requires Valid()
      ensures r == Walk(msg, Scrubbing(active, Marker))
      ensures forall p :: p in active && Safe(p, Marker) ==> !LeafShows(r, p)
    {
      if active == [] {
        WalkIdentity(msg, Scrubbing(active, Marker));
        return msg;
      }
      r := Walk(msg, Scrubbing(active, Marker));
      forall p | p in active && Safe(p, Marker) ensures !LeafShows(r, p) { NoLeafShows(msg, active, Marker, p); }
    }
  }
}
