/** Slash-separated paths and the relabelling of everything at or below one of them
    (tools/check_jupyter_bsl_lsp.py, SourceWriteOracle.rename). */
module PathMoves {

  predicate AtOrBelow(p: string, dir: string) { p == dir || dir + "/" <= p }

  /** `p` with its leading `src` replaced by `new`. */
  function Rebase(p: string, src: string, dst: string): string
  {
    dst + if |src| <= |p| then p[|src|..] else ""
  }

  /** Where a path goes when `src` is renamed to `dst`. */
  function Move(p: string, src: string, dst: string): string {
    if AtOrBelow(p, src) then Rebase(p, src, dst) else p
  }

  /** Neither path is at or below the other. */
  predicate Apart(a: string, b: string) { !AtOrBelow(a, b) && !AtOrBelow(b, a) }

  ghost predicate Free<V>(m: map<string, V>, dir: string) {
    forall p :: p in m ==> !AtOrBelow(p, dir)
  }

  lemma BelowTwo(p: string, a: string, b: string)
    requires AtOrBelow(p, a) && AtOrBelow(p, b)
    ensures AtOrBelow(a, b) || AtOrBelow(b, a)
  {
    if |a| < |b| {
      assert a == p[..|a|] == b[..|a|];
      assert b[|a|] == p[|a|] == '/';
    } else if |b| < |a| {
      assert b == p[..|b|] == a[..|b|];
      assert a[|b|] == p[|b|] == '/';
    } else {
      assert a == p[..|a|] == b;
    }
  }

  lemma RebaseBack(p: string, src: string, dst: string)
    requires AtOrBelow(p, src)
    ensures AtOrBelow(Rebase(p, src, dst), dst)
    ensures Rebase(Rebase(p, src, dst), dst, src) == p
  {
    assert p == src + p[|src|..];
    if p != src {
      assert p[|src|] == (src + "/")[|src|] == '/';
      assert dst + "/" <= dst + p[|src|..];
    }
  }

  lemma MoveBack(p: string, src: string, dst: string)
    requires Apart(src, dst) && !AtOrBelow(p, dst)
    ensures Move(Move(p, src, dst), dst, src) == p
    ensures !AtOrBelow(Move(p, src, dst), src)
  {
    if AtOrBelow(p, src) {
      RebaseBack(p, src, dst);
      var q := Rebase(p, src, dst);
      if AtOrBelow(q, src) { BelowTwo(q, src, dst); }
    }
  }

  lemma BelowSibling(parent: string, a: string, b: string)
    requires AtOrBelow(parent + a, parent + b)
    ensures a == b || '/' in a
  {
    if parent + a == parent + b {
      assert a == (parent + a)[|parent|..] == (parent + b)[|parent|..] == b;
    } else {
      assert (parent + a)[|parent + b|] == (parent + b + "/")[|parent + b|] == '/';
      assert a[|b|] == '/';
    }
  }

  /** Distinct names in one directory are apart: a shared prefix is not enough. */
  lemma SiblingsApart(parent: string, a: string, b: string)
    requires '/' !in a && '/' !in b && a != b
    ensures Apart(parent + a, parent + b)
  {
    if AtOrBelow(parent + a, parent + b) { BelowSibling(parent, a, b); }
    if AtOrBelow(parent + b, parent + a) { BelowSibling(parent, b, a); }
  }

  /** The map with every entry at or below `src` moved to `dst`; a moved entry takes the place
      of whatever stood at its new path. */
  function Relabel<V>(m: map<string, V>, src: string, dst: string): map<string, V> {
    Moved(m, (set p | p in m && AtOrBelow(p, src)), src, dst)
  }

  /** `q` is where an entry of `done` has gone. */
  predicate Filled(q: string, done: set<string>, src: string, dst: string) {
    AtOrBelow(q, dst) && Rebase(q, dst, src) in done
  }

  /** Only the entries of `done` are moved. */
  function Moved<V>(m: map<string, V>, done: set<string>, src: string, dst: string): map<string, V>
    requires done <= m.Keys
  {
    map q | q in m.Keys + (set p | p in done :: Move(p, src, dst))
            && (Filled(q, done, src, dst) || (q in m && q !in done)) ::
      if Filled(q, done, src, dst) then m[Rebase(q, dst, src)] else m[q]
  }

  lemma MovedAt<V>(m: map<string, V>, done: set<string>, src: string, dst: string, q: string)
    requires done <= m.Keys && forall p :: p in done ==> AtOrBelow(p, src)
    ensures q in Moved(m, done, src, dst) <==> Filled(q, done, src, dst) || (q in m && q !in done)
    ensures q in Moved(m, done, src, dst) ==>
              Moved(m, done, src, dst)[q] == if Filled(q, done, src, dst) then m[Rebase(q, dst, src)] else m[q]
  {
    if Filled(q, done, src, dst) {
      var p := Rebase(q, dst, src);
      RebaseBack(q, dst, src);
      assert Move(p, src, dst) == q;
    }
  }

  lemma MovedNone<V>(m: map<string, V>, src: string, dst: string)
    ensures Moved(m, {}, src, dst) == m
  {
  }

  /** Popping one more key and inserting it under its new name extends the moved part, in
      whatever order the keys come. */
  lemma MoveOneMore<V>(m: map<string, V>, done: set<string>, src: string, dst: string, p: string)
    requires src == dst || Apart(src, dst)
    requires done <= m.Keys && forall d :: d in done ==> AtOrBelow(d, src)
    requires p in m && p !in done && AtOrBelow(p, src)
    ensures p in Moved(m, done, src, dst)
    ensures (Moved(m, done, src, dst) - {p})[Rebase(p, src, dst) := Moved(m, done, src, dst)[p]]
         == Moved(m, done + {p}, src, dst)
  {
    hide Moved, AtOrBelow, Rebase;
    var before, after := Moved(m, done, src, dst), Moved(m, done + {p}, src, dst);
    MovedAt(m, done, src, dst, p);
    assert AtOrBelow(p, dst) ==> src == dst by {
      if AtOrBelow(p, dst) { BelowTwo(p, src, dst); }
    }
    SelfRebase(p, src);
    var p' := Rebase(p, src, dst);
    RebaseBack(p, src, dst);
    var stepped := (before - {p})[p' := before[p]];
    forall q ensures (q in stepped <==> q in after) && (q in stepped ==> stepped[q] == after[q]) {
      MovedAt(m, done, src, dst, q);
      MovedAt(m, done + {p}, src, dst, q);
      if AtOrBelow(q, dst) { RebaseBack(q, dst, src); }
    }
  }

  lemma SelfRebase(p: string, dir: string)
    requires AtOrBelow(p, dir)
    ensures Rebase(p, dir, dir) == p
  {
  }

  /** Lookup in a relabelled map. */
  lemma RelabelAt<V>(m: map<string, V>, src: string, dst: string, q: string)
    ensures var moved := AtOrBelow(q, dst) && Rebase(q, dst, src) in m;
            && (q in Relabel(m, src, dst) <==> moved || (q in m && !AtOrBelow(q, src)))
            && (q in Relabel(m, src, dst) ==>
                  Relabel(m, src, dst)[q] == if moved then m[Rebase(q, dst, src)] else m[q])
  {
    hide Moved, AtOrBelow, Rebase;
    var done := set p | p in m && AtOrBelow(p, src);
    MovedAt(m, done, src, dst, q);
    if AtOrBelow(q, dst) { RebaseBack(q, dst, src); }
  }

  /** With a free target nothing is lost or overwritten: every entry is found where its path went. */
  lemma EntryFollowsMove<V>(m: map<string, V>, src: string, dst: string, p: string)
    requires Apart(src, dst) && Free(m, dst) && p in m
    ensures Move(p, src, dst) in Relabel(m, src, dst)
    ensures Relabel(m, src, dst)[Move(p, src, dst)] == m[p]
  {
    hide Relabel, AtOrBelow, Rebase;
    RelabelAt(m, src, dst, Move(p, src, dst));
    if AtOrBelow(p, src) { RebaseBack(p, src, dst); }
  }

  /** With a free target nothing is invented: every entry came from one path, and `src` is free now. */
  lemma EntryCameFrom<V>(m: map<string, V>, src: string, dst: string, q: string)
    requires Apart(src, dst) && Free(m, dst) && q in Relabel(m, src, dst)
    ensures Move(q, dst, src) in m && Move(Move(q, dst, src), src, dst) == q
    ensures !AtOrBelow(q, src)
  {
    hide Relabel, AtOrBelow, Rebase;
    RelabelAt(m, src, dst, q);
    if AtOrBelow(q, dst) {
      RebaseBack(q, dst, src);
      if AtOrBelow(q, src) { BelowTwo(q, src, dst); }
    }
  }

  /** Renaming back is the identity. */
  lemma RelabelBack<V>(m: map<string, V>, src: string, dst: string)
    requires Apart(src, dst) && Free(m, dst)
    ensures Free(Relabel(m, src, dst), src)
    ensures Relabel(Relabel(m, src, dst), dst, src) == m
  {
    hide Relabel, AtOrBelow, Rebase, Move;
    var there := Relabel(m, src, dst);
    forall q | q in there ensures !AtOrBelow(q, src) { EntryCameFrom(m, src, dst, q); }
    var back := Relabel(there, dst, src);
    forall p | p in m ensures p in back && back[p] == m[p] {
      EntryFollowsMove(m, src, dst, p);
      EntryFollowsMove(there, dst, src, Move(p, src, dst));
      MoveBack(p, src, dst);
    }
    forall q | q in back ensures q in m {
      EntryCameFrom(there, dst, src, q);
      var r := Move(q, src, dst);
      EntryCameFrom(m, src, dst, r);
      MoveBack(q, src, dst);
    }
  }

  lemma SelfMove(src: string, dst: string)
    ensures AtOrBelow(src, src) && Move(src, src, dst) == dst
  {
  }

  lemma StaysPut(p: string, src: string, dst: string)
    requires !AtOrBelow(p, src)
    ensures Move(p, src, dst) == p
  {
  }

  /** Changing an entry and then moving is moving and then changing the entry at its new path. */
  lemma RelabelUpdate<V>(m: map<string, V>, src: string, dst: string, p: string, v: V)
    requires Apart(src, dst) && Free(m, dst) && p in m
    ensures Relabel(m[p := v], src, dst) == Relabel(m, src, dst)[Move(p, src, dst) := v]
  {
    hide Relabel, AtOrBelow, Rebase, Move;
    var m', p' := m[p := v], Move(p, src, dst);
    var left, right := Relabel(m', src, dst), Relabel(m, src, dst)[p' := v];
    forall q | q in left ensures q in right && right[q] == left[q] {
      EntryCameFrom(m', src, dst, q);
      var r := Move(q, dst, src);
      EntryFollowsMove(m', src, dst, r);
      EntryFollowsMove(m, src, dst, r);
      MoveBack(r, src, dst);
      MoveBack(p, src, dst);
    }
    forall q | q in right ensures q in left {
      EntryFollowsMove(m', src, dst, p);
      if q != p' {
        EntryCameFrom(m, src, dst, q);
        EntryFollowsMove(m', src, dst, Move(q, dst, src));
      }
    }
  }

  /** Two ways of moving every entry that take each path to the same place give the same map. */
  lemma SameMoves<V>(m: map<string, V>, c: string, d: string, b: string, a: string, c': string, d': string)
    requires Apart(c, d) && Free(m, d) && Apart(b, a) && Free(Relabel(m, c, d), a)
    requires Free(m, a) && Apart(c', d') && Free(Relabel(m, b, a), d')
    requires forall p :: p in m ==> Move(Move(p, c, d), b, a) == Move(Move(p, b, a), c', d')
    ensures Relabel(Relabel(m, c, d), b, a) == Relabel(Relabel(m, b, a), c', d')
  {
    hide Relabel, AtOrBelow, Rebase, Move, Apart, Free;
    var left, right := Relabel(Relabel(m, c, d), b, a), Relabel(Relabel(m, b, a), c', d');
    forall p | p in m
      ensures var q := Move(Move(p, c, d), b, a); q in left && q in right && left[q] == right[q] == m[p]
    {
      EntryFollowsMove(m, c, d, p);
      EntryFollowsMove(Relabel(m, c, d), b, a, Move(p, c, d));
      EntryFollowsMove(m, b, a, p);
      EntryFollowsMove(Relabel(m, b, a), c', d', Move(p, b, a));
    }
    forall q | q in left ensures q in right && left[q] == right[q] {
      EntryCameFrom(Relabel(m, c, d), b, a, q);
      EntryCameFrom(m, c, d, Move(q, a, b));
      var p := Move(Move(q, a, b), d, c);
      assert p in m && Move(Move(p, c, d), b, a) == q;
    }
    forall q | q in right ensures q in left {
      EntryCameFrom(Relabel(m, b, a), c', d', q);
      EntryCameFrom(m, b, a, Move(q, d', c'));
      var p := Move(Move(q, d', c'), a, b);
      assert p in m && Move(Move(p, b, a), c', d') == q;
    }
  }

  /** Moves inside a directory look the same after the directory has moved. */
  lemma MoveInside(p: string, b: string, a: string, x: string, y: string)
    requires AtOrBelow(p, b)
    ensures AtOrBelow(p, b + x) <==> AtOrBelow(Rebase(p, b, a), a + x)
    ensures AtOrBelow(p, b + x) ==>
              Rebase(Rebase(p, b + x, b + y), b, a) == Rebase(Rebase(p, b, a), a + x, a + y)
  {
    var s := p[|b|..];
    assert p == b + s && Rebase(p, b, a) == a + s;
    SharedPrefix(b, x, s);
    SharedPrefix(a, x, s);
    if AtOrBelow(p, b + x) {
      assert p[|b + x|..] == s[|x|..] == (a + s)[|a + x|..];
      assert Rebase(p, b + x, b + y) == b + (y + s[|x|..]);
    }
  }

  lemma SharedPrefix(b: string, x: string, s: string)
    ensures AtOrBelow(b + s, b + x) <==> AtOrBelow(s, x)
  {
    assert (b + s)[|b|..] == s && (b + x)[|b|..] == x && (b + x + "/")[|b|..] == x + "/";
    if b + x + "/" <= b + s {
      assert b + s == (b + x + "/") + (b + s)[|b + x + "/"|..];
      assert s == x + "/" + (b + s)[|b + x + "/"|..];
    }
    if x + "/" <= s {
      assert b + s == b + x + "/" + s[|x + "/"|..];
    }
  }
}
