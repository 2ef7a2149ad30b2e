/** Leftmost, non-overlapping substring search: the meaning of Python's
    `find`, `count` and `replace` on text and on bytes. The alphabet is arbitrary. */
module TextSearch {

  predicate OccursAt<T(==)>(s: seq<T>, p: seq<T>, i: int) {
    0 <= i && i + |p| <= |s| && s[i..i + |p|] == p
  }

  ghost predicate Absent<T>(s: seq<T>, p: seq<T>) {
    forall i :: !OccursAt(s, p, i)
  }

  /** `p` occurs in `s` at `i` and nowhere else, overlapping occurrences included. */
  ghost predicate OnlyAt<T>(s: seq<T>, p: seq<T>, i: int) {
    OccursAt(s, p, i) && forall j :: OccursAt(s, p, j) ==> j == i
  }

  /** Index of the leftmost occurrence, or -1. */
  function Find<T(==)>(s: seq<T>, p: seq<T>): (r: int)
    ensures -1 <= r
    ensures r >= 0 ==> OccursAt(s, p, r) && forall j :: j < r ==> !OccursAt(s, p, j)
    ensures r == -1 ==> Absent(s, p)
  {
    FindFrom(s, p, 0)
  }

  function FindFrom<T(==)>(s: seq<T>, p: seq<T>, from: nat): (r: int)
    ensures r == -1 || r >= from
    ensures r >= 0 ==> OccursAt(s, p, r)
    ensures forall j :: from <= j && (r == -1 || j < r) ==> !OccursAt(s, p, j)
    decreases |s| + 1 - from
  {
    if from + |p| > |s| then -1
    else if s[from..from + |p|] == p then from
    else FindFrom(s, p, from + 1)
  }

  /** Number of non-overlapping occurrences, scanned from the left. */
  function Count<T(==)>(s: seq<T>, p: seq<T>): nat
    requires p != []
    decreases |s|
  {
    var i := Find(s, p);
    if i == -1 then 0 else 1 + Count(s[i + |p|..], p)
  }

  /** Replace every non-overlapping occurrence, scanned from the left. */
  function Replace<T(==)>(s: seq<T>, p: seq<T>, q: seq<T>): seq<T>
    requires p != []
    decreases |s|
  {
    var i := Find(s, p);
    if i == -1 then s else s[..i] + q + Replace(s[i + |p|..], p, q)
  }

  lemma OccursInPrefix<T>(s: seq<T>, t: seq<T>, p: seq<T>, i: int, n: nat)
    requires n <= |s| && n <= |t| && s[..n] == t[..n]
    requires i + |p| <= n
    ensures OccursAt(s, p, i) == OccursAt(t, p, i)
  {
    if 0 <= i {
      assert s[i..i + |p|] == s[..n][i..i + |p|];
      assert t[i..i + |p|] == t[..n][i..i + |p|];
    }
  }

  lemma OccursInSuffix<T>(s: seq<T>, p: seq<T>, n: nat, i: int)
    requires n <= |s| && 0 <= i
    ensures OccursAt(s[n..], p, i) == OccursAt(s, p, n + i)
  {
    if i + |p| <= |s| - n {
      assert s[n..][i..i + |p|] == s[n + i..n + i + |p|];
    }
  }

  lemma OccursChars<T>(s: seq<T>, p: seq<T>, i: int)
    requires OccursAt(s, p, i)
    ensures p != [] ==> s[i] == p[0]
    ensures forall j :: i <= j < i + |p| ==> s[j] == p[j - i]
  {
    forall j | i <= j < i + |p| ensures s[j] == p[j - i] {
      assert s[j] == s[i..i + |p|][j - i];
    }
  }

  ghost predicate NoneBefore<T>(s: seq<T>, p: seq<T>, i: int) {
    forall j :: j < i ==> !OccursAt(s, p, j)
  }

  /** An occurrence of `p + q` is an occurrence of `p`. */
  lemma OccursShorter<T>(s: seq<T>, p: seq<T>, q: seq<T>, i: int)
    requires OccursAt(s, p + q, i)
    ensures OccursAt(s, p, i)
  {
    assert s[i..i + |p|] == s[i..i + |p + q|][..|p|];
  }

  lemma AbsentLonger<T>(s: seq<T>, p: seq<T>, q: seq<T>)
    requires Absent(s, p)
    ensures Absent(s, p + q)
  {
    forall j ensures !OccursAt(s, p + q, j) {
      if OccursAt(s, p + q, j) { OccursShorter(s, p, q, j); }
    }
  }

  /** Replace consumes `u + p` and emits `u + q` when `p` first occurs right after `u`. */
  lemma ReplaceStep<T>(u: seq<T>, p: seq<T>, rest: seq<T>, q: seq<T>)
    requires p != []
    requires NoneBefore(u + p + rest, p, |u|)
    ensures Replace(u + p + rest, p, q) == u + q + Replace(rest, p, q)
  {
    var s := u + p + rest;
    assert s[|u|..|u| + |p|] == p;
    assert OccursAt(s, p, |u|);
    assert Find(s, p) == |u|;
    assert s[..|u|] == u && s[|u| + |p|..] == rest;
  }

  /** If `x` first occurs after `u`, no match of `x + e` starts earlier in the grown text. */
  lemma NoEarlyMatch<T>(u: seq<T>, x: seq<T>, rest: seq<T>, e: seq<T>, grown: seq<T>)
    requires NoneBefore(u + x + rest, x, |u|)
    ensures NoneBefore(u + (x + e) + grown, x + e, |u|)
  {
    var c, c' := u + x + rest, u + (x + e) + grown;
    forall j | j < |u| ensures !OccursAt(c', x + e, j) {
      if OccursAt(c', x + e, j) {
        OccursShorter(c', x, e, j);
        assert c'[..|u + x|] == u + x == c[..|u + x|];
        OccursInPrefix(c', c, x, j, |u + x|);
        assert false;
      }
    }
  }

  /** Growing every occurrence of `x` by the suffix `e`, then shrinking it again, restores
      every input: no leftmost match can start inside untouched text or straddle a replacement. */
  lemma {:induction false} ReplaceExtensionUndone<T>(c: seq<T>, x: seq<T>, e: seq<T>)
    requires x != []
    ensures Replace(Replace(c, x, x + e), x + e, x) == c
    decreases |c|
  {
    var i := Find(c, x);
    if i == -1 {
      AbsentLonger(c, x, e);
    } else {
      var u, rest := c[..i], c[i + |x|..];
      var grown := Replace(rest, x, x + e);
      assert c == u + x + rest;
      ReplaceStep(u, x, rest, x + e);
      NoEarlyMatch(u, x, rest, e, grown);
      ReplaceStep(u, x + e, grown, x);
      ReplaceExtensionUndone(rest, x, e);
    }
  }

  // ----- exactly when the reverse call restores the text -----

  /** Piece by piece: where `x` first stands after a piece `u`, the first `y` in `u + y` is the one that
      replaces it; and no `y` stands in the last piece. */
  ghost predicate Undone<T>(c: seq<T>, x: seq<T>, y: seq<T>)
    requires x != []
    decreases |c|
  {
    var i := Find(c, x);
    if i == -1 then Absent(c, y)
    else NoneBefore(c[..i] + y, y, i) && Undone(c[i + |x|..], x, y)
  }

  /** Whether the first `y` in the grown text is the inserted one depends on the piece before it alone. */
  lemma FirstInserted<T>(u: seq<T>, y: seq<T>, grown: seq<T>)
    ensures NoneBefore(u + y + grown, y, |u|) <==> NoneBefore(u + y, y, |u|)
  {
    forall j | j < |u| ensures OccursAt(u + y + grown, y, j) <==> OccursAt(u + y, y, j) {
      assert (u + y + grown)[..|u + y|] == (u + y)[..|u + y|];
      OccursInPrefix(u + y + grown, u + y, y, j, |u + y|);
    }
  }

  /** Replacing the first `y` by `x` leaves an `x` at its place. */
  lemma FirstReplaced<T>(s: seq<T>, y: seq<T>, x: seq<T>, j: nat)
    requires y != [] && Find(s, y) == j
    ensures OccursAt(Replace(s, y, x), x, j)
  {
    var back, tail := Replace(s, y, x), Replace(s[j + |y|..], y, x);
    assert back == s[..j] + x + tail;
    assert (s[..j] + x + tail)[j..j + |x|] == x;
  }

  /** An earlier match of `y` leaves an `x` where `c` has none. */
  lemma EarlyMatchShows<T>(c: seq<T>, x: seq<T>, y: seq<T>, s: seq<T>, i: nat)
    requires y != [] && NoneBefore(c, x, i) && !NoneBefore(s, y, i)
    ensures Replace(s, y, x) != c
  {
    var j := Find(s, y);
    FirstReplaced(s, y, x, j);
  }

  /** The reverse call takes one inserted `y` back and goes on behind it. */
  lemma ReverseStep<T>(u: seq<T>, x: seq<T>, y: seq<T>, rest: seq<T>, grown: seq<T>)
    requires y != [] && NoneBefore(u + y, y, |u|)
    ensures Replace(u + y + grown, y, x) == u + x + rest <==> Replace(grown, y, x) == rest
  {
    FirstInserted(u, y, grown);
    ReplaceStep(u, y, grown, x);
    var back := Replace(grown, y, x);
    assert (u + x + back)[|u + x|..] == back && (u + x + rest)[|u + x|..] == rest;
  }

  /** Replacing x by y and then y by x restores a text exactly when every replacement is found again
      first and nothing else is. */
  lemma {:induction false} RestoredIff<T>(c: seq<T>, x: seq<T>, y: seq<T>)
    requires x != [] && y != []
    ensures Replace(Replace(c, x, y), y, x) == c <==> Undone(c, x, y)
    decreases |c|
  {
    var i := Find(c, x);
    if i == -1 {
      if !Absent(c, y) { FirstReplaced(c, y, x, Find(c, y)); }
    } else {
      var u, rest := c[..i], c[i + |x|..];
      var grown := Replace(rest, x, y);
      assert c == u + x + rest && Replace(c, x, y) == u + y + grown;
      RestoredIff(rest, x, y);
      if NoneBefore(u + y, y, i) {
        ReverseStep(u, x, y, rest, grown);
      } else {
        FirstInserted(u, y, grown);
        EarlyMatchShows(c, x, y, u + y + grown, i);
      }
    }
  }

  /** `y` contains `x`, and wherever a part `p` of `y` is followed by a prefix of `y` again, `p + x` holds
      an `x` that starts before its end. */
  ghost predicate AlwaysUndone<T(!new)>(x: seq<T>, y: seq<T>) {
    && !Absent(y, x)
    && forall p: seq<T>, q: seq<T> :: p != [] && q != [] && y == p + q && q <= y ==> !NoneBefore(p + x, x, |p|)
  }

  lemma OccursInside<T>(s: seq<T>, y: seq<T>, i: nat, x: seq<T>, k: nat)
    requires OccursAt(s, y, i) && OccursAt(y, x, k)
    ensures OccursAt(s, x, i + k)
  {
    forall m | 0 <= m < |x|
      ensures s[i + k + m] == x[m]
    {
      OccursChars(s, y, i);
      OccursChars(y, x, k);
    }
    assert s[i + k..i + k + |x|] == x;
  }

  /** No match of `y` starts inside a piece without `x`. */
  lemma NoStraddle<T(!new)>(u: seq<T>, x: seq<T>, y: seq<T>, i: nat)
    requires x != [] && AlwaysUndone(x, y) && NoneBefore(u + x, x, |u|) && i < |u|
    ensures !OccursAt(u + y, y, i)
  {
    if OccursAt(u + y, y, i) {
      if i + |y| <= |u| {
        var k :| OccursAt(y, x, k);
        OccursInPrefix(u + y, u + x, y, i, |u|);
        OccursInside(u + x, y, i, x, k);
      } else {
        var p, q := u[i..], y[..i + |y| - |u|];
        assert y == (u + y)[i..i + |y|] == p + q;
        var j :| j < |p| && OccursAt(p + x, x, j);
        assert (u + x)[i..] == p + x;
        OccursInSuffix(u + x, x, i, j);
      }
      assert false;
    }
  }

  lemma {:induction false} AlwaysUndoneSuffices<T(!new)>(c: seq<T>, x: seq<T>, y: seq<T>)
    requires x != [] && AlwaysUndone(x, y)
    ensures Undone(c, x, y)
    decreases |c|
  {
    hide AlwaysUndone, FindFrom;
    var i := Find(c, x);
    if i == -1 {
      AbsentTogether(c, x, y);
    } else {
      var u := c[..i];
      PieceClear(c, x, i);
      assert NoneBefore(u + y, y, i) by {
        forall j | j < i ensures !OccursAt(u + y, y, j) {
          if j >= 0 { NoStraddle(u, x, y, j); } else { OccursNotBefore(u + y, y, j); }
        }
      }
      AlwaysUndoneSuffices(c[i + |x|..], x, y);
    }
  }

  lemma OccursNotBefore<T>(s: seq<T>, p: seq<T>, j: int)
    requires j < 0
    ensures !OccursAt(s, p, j)
  {
  }

  lemma AbsentTogether<T(!new)>(c: seq<T>, x: seq<T>, y: seq<T>)
    requires AlwaysUndone(x, y) && Absent(c, x)
    ensures Absent(c, y)
  {
    forall j ensures !OccursAt(c, y, j) {
      if OccursAt(c, y, j) {
        var k :| OccursAt(y, x, k);
        OccursInside(c, y, j, x, k);
      }
    }
  }

  /** The piece in front of the first `x` still holds none when `x` follows it. */
  lemma PieceClear<T>(c: seq<T>, x: seq<T>, i: nat)
    requires OccursAt(c, x, i) && NoneBefore(c, x, i)
    ensures NoneBefore(c[..i] + x, x, i)
  {
    forall j | j < i ensures !OccursAt(c[..i] + x, x, j) {
      assert (c[..i] + x)[..i + |x|] == c[..i + |x|];
      OccursInPrefix(c[..i] + x, c, x, j, i + |x|);
    }
  }

  /** A text the reverse call does not restore, when the names allow one. */
  lemma SpoiltText<T(!new)>(x: seq<T>, y: seq<T>) returns (c: seq<T>)
    requires x != [] && y != [] && !AlwaysUndone(x, y)
    ensures !Undone(c, x, y)
  {
    if Absent(y, x) {
      c := y;
      assert OccursAt(y, y, 0) by { assert y[0..|y|] == y; }
    } else {
      var p: seq<T>, q: seq<T> :| p != [] && q != [] && y == p + q && q <= y && NoneBefore(p + x, x, |p|);
      c := p + x;
      assert c[|p|..|p| + |x|] == x;
      assert OccursAt(c, x, |p|) && Find(c, x) == |p|;
      assert c[..|p|] == p;
      assert (p + y)[0..|y|] == p + y[..|q|] == y;
      assert OccursAt(p + y, y, 0);
    }
  }

  /** The pairs of names for which every text is restored. */
  lemma RestoredAlwaysIff<T(!new)>(x: seq<T>, y: seq<T>)
    requires x != [] && y != []
    ensures (forall c :: Replace(Replace(c, x, y), y, x) == c) <==> AlwaysUndone(x, y)
  {
    if AlwaysUndone(x, y) {
      forall c ensures Replace(Replace(c, x, y), y, x) == c {
        AlwaysUndoneSuffices(c, x, y);
        RestoredIff(c, x, y);
      }
    } else {
      var c := SpoiltText(x, y);
      RestoredIff(c, x, y);
    }
  }

  /** A text that already holds the new name: the reverse call rewrites that one too. */
  lemma NewNameInText()
    ensures Replace(Replace("b", "a", "b"), "b", "a") == "a"
  {
    assert Absent("b", "a") by {
      assert "b"[0..1][0] == 'b' && "a"[0] == 'a';
      forall j ensures !OccursAt("b", "a", j) {}
    }
    assert "" + "b" + "" == "b";
    ReplaceStep("", "b", "", "a");
  }

  // ----- what a replacement leaves -----

  /** The pieces with `sep` between them. */
  function Fill<T>(pieces: seq<seq<T>>, sep: seq<T>): seq<T>
    requires pieces != []
  {
    if |pieces| == 1 then pieces[0] else pieces[0] + sep + Fill(pieces[1..], sep)
  }

  /** The pieces of a text between the occurrences of `x` found from the left. */
  ghost predicate Cut<T>(pieces: seq<seq<T>>, x: seq<T>) {
    && pieces != [] && Absent(pieces[|pieces| - 1], x)
    && forall k :: 0 <= k < |pieces| - 1 ==> NoneBefore(pieces[k] + x, x, |pieces[k]|)
  }

  lemma CutRest<T>(pieces: seq<seq<T>>, x: seq<T>)
    requires Cut(pieces, x) && |pieces| > 1
    ensures Cut(pieces[1..], x) && NoneBefore(pieces[0] + x, x, |pieces[0]|)
  {
    hide NoneBefore, Absent;
  }

  /** Replacing puts the new name where the old one stood between the pieces. */
  lemma {:induction false} ReplaceCut<T>(pieces: seq<seq<T>>, x: seq<T>, y: seq<T>)
    requires x != [] && Cut(pieces, x)
    ensures Replace(Fill(pieces, x), x, y) == Fill(pieces, y)
  {
    if |pieces| == 1 {
    } else {
      var u, rest := pieces[0], Fill(pieces[1..], x);
      CutRest(pieces, x);
      FirstInserted(u, x, rest);
      hide Replace, Cut, NoneBefore;
      ReplaceStep(u, x, rest, y);
      ReplaceCut(pieces[1..], x, y);
    }
  }

  /** Every text is cut that way. */
  lemma {:induction false} PiecesOf<T>(c: seq<T>, x: seq<T>) returns (pieces: seq<seq<T>>)
    requires x != []
    ensures Cut(pieces, x) && c == Fill(pieces, x)
    decreases |c|
  {
    hide FindFrom;
    var i := Find(c, x);
    if i == -1 {
      pieces := [c];
    } else {
      var rest := PiecesOf(c[i + |x|..], x);
      pieces := [c[..i]] + rest;
      PieceClear(c, x, i);
      assert pieces[1..] == rest && c == c[..i] + x + c[i + |x|..];
    }
  }

  /** Every occurrence of `x` in `s` begins one of `y`. */
  ghost predicate OnlyNew<T>(s: seq<T>, x: seq<T>, y: seq<T>) {
    forall i :: OccursAt(s, x, i) ==> OccursAt(s, y, i)
  }

  /** `x` does not fit onto any later part of `y`. */
  ghost predicate Unbordered<T>(x: seq<T>, y: seq<T>) {
    forall i :: 0 < i < |y| ==> !(y[i..] <= x) && !(x <= y[i..])
  }

  /** An `x` that starts inside an inserted `y` fits onto what is left of it. */
  lemma FitsInside<T>(x: seq<T>, y: seq<T>, grown: seq<T>, k: nat)
    requires 0 < k < |y| && OccursAt(y + grown, x, k)
    ensures y[k..] <= x || x <= y[k..]
  {
    var s := y + grown;
    if k + |x| <= |y| {
      assert y[k..][..|x|] == s[k..k + |x|];
    } else {
      assert y[k..] == s[k..k + |x|][..|y| - k];
    }
  }

  /** Where an `x` can start after one replacement. */
  lemma NewAt<T>(u: seq<T>, x: seq<T>, e: seq<T>, grown: seq<T>, j: int)
    requires NoneBefore(u + x, x, |u|) && Unbordered(x, x + e) && OnlyNew(grown, x, x + e)
    requires OccursAt(u + (x + e) + grown, x, j)
    ensures OccursAt(u + (x + e) + grown, x + e, j)
  {
    hide NoneBefore, Unbordered, OnlyNew;
    var y := x + e;
    var s := u + y + grown;
    if j < |u| {
      assert s[..|u + x|] == u + x == (u + x)[..|u + x|];
      OccursInPrefix(s, u + x, x, j, |u + x|);
      NotBefore(u + x, x, |u|, j);
      assert false;
    } else if j == |u| {
      assert s[|u|..|u| + |y|] == y;
    } else if j < |u| + |y| {
      assert s[|u|..] == y + grown;
      OccursInSuffix(s, x, |u|, j - |u|);
      FitsInside(x, y, grown, j - |u|);
      NotBordered(x, y, j - |u|);
      assert false;
    } else {
      assert s[|u| + |y|..] == grown;
      OccursInSuffix(s, x, |u| + |y|, j - |u| - |y|);
      OccursInSuffix(s, y, |u| + |y|, j - |u| - |y|);
      NewInRest(grown, x, y, j - |u| - |y|);
    }
  }

  lemma NotBefore<T>(s: seq<T>, x: seq<T>, i: int, j: int)
    requires NoneBefore(s, x, i) && j < i
    ensures !OccursAt(s, x, j)
  {
  }

  lemma NotBordered<T>(x: seq<T>, y: seq<T>, k: nat)
    requires Unbordered(x, y) && 0 < k < |y|
    ensures !(y[k..] <= x) && !(x <= y[k..])
  {
  }

  lemma NewInRest<T>(s: seq<T>, x: seq<T>, y: seq<T>, i: int)
    requires OnlyNew(s, x, y) && OccursAt(s, x, i)
    ensures OccursAt(s, y, i)
  {
  }

  lemma {:induction false} OnlyNewSuffices<T>(c: seq<T>, x: seq<T>, e: seq<T>)
    requires x != [] && Unbordered(x, x + e)
    ensures OnlyNew(Replace(c, x, x + e), x, x + e)
    decreases |c|
  {
    hide Unbordered, FindFrom, NoneBefore;
    var y, i := x + e, Find(c, x);
    if i >= 0 {
      var u, rest := c[..i], c[i + |x|..];
      var grown := Replace(rest, x, y);
      assert Replace(c, x, y) == u + y + grown;
      OnlyNewSuffices(rest, x, e);
      assert NoneBefore(u + x, x, |u|) by { FirstPiece(c, x, i); }
      hide Replace;
      forall j | OccursAt(u + y + grown, x, j) ensures OccursAt(u + y + grown, y, j) {
        NewAt(u, x, e, grown, j);
      }
    }
  }

  lemma FirstPiece<T>(c: seq<T>, x: seq<T>, i: nat)
    requires Find(c, x) == i
    ensures NoneBefore(c[..i] + x, x, i)
  {
    hide FindFrom;
    PieceClear(c, x, i);
  }

  /** An `x` right at the start is replaced first. */
  lemma ReplaceHead<T>(x: seq<T>, r: seq<T>, y: seq<T>)
    requires x != [] && |r| < |x|
    ensures Replace(x + r, x, y) == y + r
  {
    hide FindFrom;
    assert x + r == [] + x + r && [] + y + r == y + r;
    ReplaceStep([], x, r, y);
  }

  /** A text in which the old name stands elsewhere after the replacement, when the names allow one. */
  lemma StraddlingText<T>(x: seq<T>, e: seq<T>) returns (c: seq<T>)
    requires x != [] && e != [] && !Unbordered(x, x + e)
    ensures !OnlyNew(Replace(c, x, x + e), x, x + e)
  {
    hide Replace;
    var y := x + e;
    var i :| 0 < i < |y| && (y[i..] <= x || x <= y[i..]);
    var r: seq<T> := if x <= y[i..] then [] else x[|y| - i..];
    c := x + r;
    ReplaceHead(x, r, y);
    StraddlesAt(x, y, i, r);
  }

  lemma StraddlesAt<T>(x: seq<T>, y: seq<T>, i: nat, r: seq<T>)
    requires 0 < i < |y| && |r| < i
    requires if x <= y[i..] then r == [] else y[i..] <= x && r == x[|y| - i..]
    ensures OccursAt(y + r, x, i) && !OccursAt(y + r, y, i)
  {
    var s := y + r;
    if x <= y[i..] {
      assert s[i..i + |x|] == y[i..][..|x|] == x;
    } else {
      assert s[i..i + |x|] == y[i..] + r == x;
    }
  }

  /** The names for which, in every text, the old name is afterwards only the head of the new one. */
  lemma OnlyNewIff<T(!new)>(x: seq<T>, e: seq<T>)
    requires x != []
    ensures (forall c :: OnlyNew(Replace(c, x, x + e), x, x + e)) <==> e == [] || Unbordered(x, x + e)
  {
    hide OnlyNew, Unbordered;
    if e == [] {
      forall c ensures OnlyNew(Replace(c, x, x + e), x, x + e) { SameName(Replace(c, x, x + e), x, e); }
    } else if Unbordered(x, x + e) {
      forall c ensures OnlyNew(Replace(c, x, x + e), x, x + e) { OnlyNewSuffices(c, x, e); }
    } else {
      var c := StraddlingText(x, e);
    }
  }

  /** The old name born again across the end of an inserted one. */
  lemma BornAgain()
    ensures Replace("abb", "ab", "aba") == "abab" && !OnlyNew("abab", "ab", "aba")
  {
    hide FindFrom;
    ReplaceHead("ab", "b", "aba");
    assert "ab" + "b" == "abb" && "aba" + "b" == "abab";
    assert "abab"[2..4] == "ab" && OccursAt("abab", "ab", 2);
  }

  lemma SameName<T>(s: seq<T>, x: seq<T>, e: seq<T>)
    requires e == []
    ensures OnlyNew(s, x, x + e)
  {
    assert x + e == x;
  }
}
