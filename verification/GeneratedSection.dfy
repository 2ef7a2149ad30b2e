/** The marker-delimited section rewriter of the parser generator
    (tools/generate_bsl_semantic_parser.py). */
module GeneratedSection {
  import opened Wrappers
  import opened TextSearch

  datatype SectionError = NotExactlyOneMarker | MarkersOutOfOrder

  function OpenMarker(name: string): string { "# <parsergen:" + name + ">" }

  function CloseMarker(name: string): string { "# </parsergen:" + name + ">" }

  function StripNewlines(s: string): string {
    if s != "" && s[|s| - 1] == '\n' then StripNewlines(s[..|s| - 1]) else s
  }

  /** What stands between the markers after a rewrite. */
  function Body(replacement: string): string {
    var r := StripNewlines(replacement);
    (if r == "" then "" else "\n" + r) + "\n"
  }

  /** text with [from, upto) replaced by `middle`. */
  function Splice(text: string, from: nat, middle: string, upto: nat): string
    requires from <= |text| && upto <= |text|
  {
    text[..from] + middle + text[upto..]
  }

  function ReplaceSection(text: string, name: string, replacement: string): Result<string, SectionError> {
    var open, close := OpenMarker(name), CloseMarker(name);
    if Count(text, open) != 1 || Count(text, close) != 1 then Err(NotExactlyOneMarker)
    else
      var o, c := Find(text, open), Find(text, close);
      if o >= c then Err(MarkersOutOfOrder)
      else Ok(Splice(text, o + |open|, Body(replacement), c))
  }

  /** A section name of one line without '#': the only '#' of its markers is the first character. */
  predicate PlainName(name: string) { '#' !in name && '\n' !in name }

  ghost predicate IsMarker(m: string) {
    m != "" && m[0] == '#' && forall k :: 1 <= k < |m| ==> m[k] != '#' && m[k] != '\n'
  }

  /** The section `name` is present in `text`: open marker only at `o`, close marker only at `c`, in order. */
  ghost predicate SectionAt(text: string, name: string, o: int, c: int) {
    OnlyAt(text, OpenMarker(name), o) && OnlyAt(text, CloseMarker(name), c) && o < c
  }

  lemma MarkersOfPlainName(name: string)
    requires PlainName(name)
    ensures IsMarker(OpenMarker(name)) && IsMarker(CloseMarker(name))
  {
    forall k | 1 <= k < |OpenMarker(name)|
      ensures OpenMarker(name)[k] != '#' && OpenMarker(name)[k] != '\n'
    {
      var n := |"# <parsergen:"|;
      if n <= k < n + |name| { assert OpenMarker(name)[k] == name[k - n]; }
    }
    forall k | 1 <= k < |CloseMarker(name)|
      ensures CloseMarker(name)[k] != '#' && CloseMarker(name)[k] != '\n'
    {
      var n := |"# </parsergen:"|;
      if n <= k < n + |name| { assert CloseMarker(name)[k] == name[k - n]; }
    }
  }

  /** Occurrences of markers never overlap: a marker has its only '#' in front. */
  lemma MarkersApart(s: string, a: string, i: int, b: string, j: int)
    requires IsMarker(a) && IsMarker(b)
    requires OccursAt(s, a, i) && OccursAt(s, b, j) && i < j
    ensures i + |a| <= j
  {
    OccursChars(s, a, i);
    OccursChars(s, b, j);
  }

  /** `m` first occurs at `i`, and every other occurrence overlaps that one. */
  ghost predicate AloneAt(s: string, m: string, i: int) {
    OccursAt(s, m, i) && NoneBefore(s, m, i) && forall j :: j >= i + |m| ==> !OccursAt(s, m, j)
  }

  /** What a count of one means for any text at all. */
  lemma CountOneAloneIff(s: string, m: string)
    requires m != ""
    ensures Count(s, m) == 1 <==> AloneAt(s, m, Find(s, m))
  {
    hide FindFrom;
    var i := Find(s, m);
    if i >= 0 {
      AbsentAfter(s, m, i + |m|);
    }
  }

  lemma AbsentAfter(s: string, m: string, n: nat)
    requires n <= |s|
    ensures Find(s[n..], m) == -1 <==> forall j :: j >= n ==> !OccursAt(s, m, j)
  {
    hide OccursAt, FindFrom;
    forall j | j >= n ensures OccursAt(s[n..], m, j - n) == OccursAt(s, m, j) {
      OccursInSuffix(s, m, n, j - n);
    }
    var first := Find(s[n..], m);
    if first >= 0 {
      assert OccursAt(s, m, first + n);
    }
    forall j | Absent(s[n..], m) && j >= n ensures !OccursAt(s, m, j) {
      assert !OccursAt(s[n..], m, j - n);
    }
  }

  /** For markers, the non-overlapping count decides uniqueness. */
  lemma CountOneIff(s: string, m: string)
    requires IsMarker(m)
    ensures Count(s, m) == 1 <==> OnlyAt(s, m, Find(s, m))
  {
    hide Count, IsMarker;
    assert m != "" by { MarkerNotEmpty(m); }
    CountOneAloneIff(s, m);
    var i := Find(s, m);
    if AloneAt(s, m, i) {
      forall j | OccursAt(s, m, j) ensures j == i {
        if j > i { MarkersApart(s, m, i, m, j); }
      }
    }
  }

  lemma MarkerNotEmpty(m: string)
    requires IsMarker(m)
    ensures m != ""
  {
  }

  /** The rewriter accepts exactly the texts that hold the section once, markers in order,
      and tells a wrong count from a wrong order. */
  lemma AcceptsExactlyOneSection(text: string, name: string, replacement: string)
    requires PlainName(name)
    ensures ReplaceSection(text, name, replacement).Ok? <==> exists o, c :: SectionAt(text, name, o, c)
    ensures ReplaceSection(text, name, replacement) == Err(MarkersOutOfOrder) <==>
              exists o, c :: OnlyAt(text, OpenMarker(name), o) && OnlyAt(text, CloseMarker(name), c) && c <= o
  {
    var open, close := OpenMarker(name), CloseMarker(name);
    MarkersOfPlainName(name);
    CountOneIff(text, open);
    CountOneIff(text, close);
    var o, c := Find(text, open), Find(text, close);
    if OnlyAt(text, open, o) && OnlyAt(text, close, c) {
      assert o < c ==> SectionAt(text, name, o, c);
    }
  }

  /** Whatever the name, the rewriter accepts exactly the texts in which each marker occurs once, apart
      from occurrences that overlap its first one, and the open marker comes first. */
  lemma AcceptsAnyName(text: string, name: string, replacement: string)
    ensures ReplaceSection(text, name, replacement).Ok? <==>
              exists o, c :: AloneAt(text, OpenMarker(name), o) && AloneAt(text, CloseMarker(name), c) && o < c
    ensures ReplaceSection(text, name, replacement) == Err(MarkersOutOfOrder) <==>
              exists o, c :: AloneAt(text, OpenMarker(name), o) && AloneAt(text, CloseMarker(name), c) && c <= o
  {
    hide Count, AloneAt;
    var open, close := OpenMarker(name), CloseMarker(name);
    CountOneAloneIff(text, open);
    CountOneAloneIff(text, close);
    forall m, i | AloneAt(text, m, i) ensures i == Find(text, m) {
      AloneIsFirst(text, m, i);
    }
  }

  lemma AloneIsFirst(s: string, m: string, i: int)
    requires AloneAt(s, m, i)
    ensures i == Find(s, m)
  {
  }

  /** The rewrite in terms of the section's place. */
  lemma RewriteAt(text: string, name: string, replacement: string, o: int, c: int)
    requires PlainName(name) && SectionAt(text, name, o, c)
    ensures 0 <= o && o + |OpenMarker(name)| <= c <= |text|
    ensures ReplaceSection(text, name, replacement)
         == Ok(Splice(text, o + |OpenMarker(name)|, Body(replacement), c))
  {
    MarkersOfPlainName(name);
    CountOneIff(text, OpenMarker(name));
    CountOneIff(text, CloseMarker(name));
    MarkersApart(text, OpenMarker(name), o, CloseMarker(name), c);
  }

  /** A marker lies on one side of a line break. */
  lemma BesideNewline(a: string, b: string, m: string, j: int)
    requires IsMarker(m) && OccursAt(a + "\n" + b, m, j)
    ensures (j + |m| <= |a| && OccursAt(a, m, j)) || (j > |a| && OccursAt(b, m, j - |a| - 1))
  {
    var s := a + "\n" + b;
    OccursChars(s, m, j);
    assert s[|a|] == '\n';
    if j > |a| {
      assert s[|a| + 1..] == b;
      OccursInSuffix(s, m, |a| + 1, j - |a| - 1);
    } else {
      assert s[..|a|] == a[..|a|];
      OccursInPrefix(s, a, m, j, |a|);
    }
  }

  lemma AbsentFromStripped(s: string, m: string)
    requires Absent(s, m)
    ensures Absent(StripNewlines(s), m)
  {
    if s != "" && s[|s| - 1] == '\n' {
      var t := s[..|s| - 1];
      forall j ensures !OccursAt(t, m, j) {
        if OccursAt(t, m, j) { OccursInPrefix(t, s, m, j, |t|); }
      }
      AbsentFromStripped(t, m);
    }
  }

  /** Every marker occurrence after a splice sits in the kept prefix or the kept suffix. */
  lemma MarkerAfterSplice(text: string, from: nat, replacement: string, upto: nat, m: string, j: int)
    requires from <= upto <= |text|
    requires IsMarker(m) && Absent(replacement, m)
    requires OccursAt(Splice(text, from, Body(replacement), upto), m, j)
    ensures var shift := from + |Body(replacement)| - upto;
            (j + |m| <= from && OccursAt(text, m, j)) || (j - shift >= upto && OccursAt(text, m, j - shift))
  {
    var a, b, r := text[..from], text[upto..], StripNewlines(replacement);
    var s := Splice(text, from, Body(replacement), upto);
    AbsentFromStripped(replacement, m);
    if r == "" {
      assert s == a + "\n" + b;
      BesideNewline(a, b, m, j);
    } else {
      assert s == (a + "\n" + r) + "\n" + b;
      BesideNewline(a + "\n" + r, b, m, j);
      if j + |m| <= |a + "\n" + r| { BesideNewline(a, r, m, j); }
    }
    if j + |m| <= from {
      OccursInPrefix(a, text, m, j, from);
    } else {
      OccursInSuffix(text, m, upto, j - from - |Body(replacement)|);
    }
  }

  /** Where a position outside the rewritten section ends up. */
  function Moved(k: int, o: int, shift: int): int { if k <= o then k else k + shift }

  /** A marker outside the rewritten section is found again at its new place. */
  lemma MarkerMoves(text: string, from: nat, body: string, upto: nat, m: string, k: int)
    requires from <= upto <= |text| && OccursAt(text, m, k) && (k + |m| <= from || k >= upto)
    ensures OccursAt(Splice(text, from, body, upto), m, if k + |m| <= from then k else k + from + |body| - upto)
  {
    var text' := Splice(text, from, body, upto);
    if k + |m| <= from {
      assert text'[..from] == text[..from];
      OccursInPrefix(text', text, m, k, from);
    } else {
      assert text'[from + |body|..] == text[upto..];
      OccursInSuffix(text', m, from + |body|, k - upto);
      OccursInSuffix(text, m, upto, k - upto);
    }
  }

  /** A marker that stands once, outside the rewritten section, still stands exactly once. */
  lemma MarkerKept(text: string, name: string, replacement: string, o: int, c: int, m: string, k: int)
    requires PlainName(name) && SectionAt(text, name, o, c)
    requires IsMarker(m) && Absent(replacement, m)
    requires OnlyAt(text, m, k) && (k < o || k >= c || m == OpenMarker(name))
    ensures ReplaceSection(text, name, replacement).Ok?
    ensures var text' := ReplaceSection(text, name, replacement).value;
            OnlyAt(text', m, Moved(k, o, |text'| - |text|))
  {
    hide Body, ReplaceSection, OccursAt, IsMarker;
    RewriteAt(text, name, replacement, o, c);
    MarkersOfPlainName(name);
    var open, body := OpenMarker(name), Body(replacement);
    var from := o + |open|;
    var text' := Splice(text, from, body, c);
    var shift := |text'| - |text|;
    if k < o { MarkersApart(text, m, k, open, o); }
    MarkerMoves(text, from, body, c, m, k);
    MarkerNotEmpty(m);
    forall j | OccursAt(text', m, j) ensures j == Moved(k, o, shift) {
      MarkerAfterSplice(text, from, replacement, c, m, j);
    }
  }

  /** Rewriting keeps the section present exactly once, keeps every character up to the end of
      the open marker and from the start of the close marker on, and puts only the body between. */
  lemma RewriteKeepsTheRest(text: string, name: string, replacement: string, o: int, c: int)
    requires PlainName(name) && SectionAt(text, name, o, c)
    requires Absent(replacement, OpenMarker(name)) && Absent(replacement, CloseMarker(name))
    ensures ReplaceSection(text, name, replacement).Ok?
    ensures var text' := ReplaceSection(text, name, replacement).value;
            var c' := c + |text'| - |text|;
            && SectionAt(text', name, o, c')
            && c' <= |text'| && o + |OpenMarker(name)| <= c && o + |OpenMarker(name)| <= c'
            && text'[..o + |OpenMarker(name)|] == text[..o + |OpenMarker(name)|]
            && text'[c'..] == text[c..]
            && text'[o + |OpenMarker(name)|..c'] == Body(replacement)
            && (replacement == "" ==> text'[o + |OpenMarker(name)|..c'] == "\n")
            && (replacement != "" && replacement[|replacement| - 1] != '\n' ==>
                  text'[o + |OpenMarker(name)|..c'] == "\n" + replacement + "\n")
            && Count(text', OpenMarker(name)) == Count(text', CloseMarker(name)) == 1
  {
    RewriteAt(text, name, replacement, o, c);
    MarkersOfPlainName(name);
    MarkerKept(text, name, replacement, o, c, OpenMarker(name), o);
    MarkerKept(text, name, replacement, o, c, CloseMarker(name), c);
    var text' := ReplaceSection(text, name, replacement).value;
    CountOneIff(text', OpenMarker(name));
    CountOneIff(text', CloseMarker(name));
  }

  /** The rewritten text: the replacement stands on its own lines between the markers. */
  lemma RewriteIs(text: string, name: string, replacement: string, o: int, c: int)
    requires PlainName(name) && SectionAt(text, name, o, c)
    ensures 0 <= o && o + |"# <parsergen:" + name + ">"| <= c <= |text|
    ensures var from := o + |"# <parsergen:" + name + ">"|;
            && (replacement == "" ==>
                  ReplaceSection(text, name, replacement) == Ok(text[..from] + "\n" + text[c..]))
            && (replacement != "" && replacement[|replacement| - 1] != '\n' ==>
                  ReplaceSection(text, name, replacement) == Ok(text[..from] + ("\n" + replacement + "\n") + text[c..]))
  {
    hide ReplaceSection, SectionAt, Body;
    RewriteAt(text, name, replacement, o, c);
    BodyIs(replacement);
  }

  lemma BodyIs(r: string)
    ensures r == "" ==> Body(r) == "\n"
    ensures r != "" && r[|r| - 1] != '\n' ==> Body(r) == "\n" + r + "\n"
  {
    assert "" + "\n" == "\n";
  }

  /** Line feeds at the end of a replacement do not matter, for any text and name. */
  lemma TrailingNewline(text: string, name: string, replacement: string)
    ensures ReplaceSection(text, name, replacement + "\n") == ReplaceSection(text, name, replacement)
  {
    hide Count, FindFrom;
    assert (replacement + "\n")[..|replacement|] == replacement;
  }

  /** Where the '#' of a text with two markers are. */
  lemma HashPlaces(before: string, open: string, was: string, close: string, after: string, i: nat)
    requires IsMarker(open) && IsMarker(close) && '#' !in before && '#' !in was && '#' !in after
    requires i < |before + open + was + close + after|
    ensures (before + open + was + close + after)[i] == '#' ==> i == |before| || i == |before + open + was|
  {
    var text, c := before + open + was + close + after, |before + open + was|;
    if i < |before| {
      assert text[i] == before[i];
    } else if i < |before + open| {
      assert text[i] == open[i - |before|];
    } else if i < c {
      assert text[i] == was[i - |before + open|];
    } else if i < c + |close| {
      assert text[i] == close[i - c];
    } else {
      assert text[i] == after[i - c - |close|];
    }
  }

  lemma MarkersDiffer(s: string, name: string, i: int)
    ensures OccursAt(s, OpenMarker(name), i) ==> 0 <= i < |s| - 3 && s[i + 3] == 'p'
    ensures OccursAt(s, CloseMarker(name), i) ==> 0 <= i < |s| - 3 && s[i + 3] == '/'
  {
    var open, close := OpenMarker(name), CloseMarker(name);
    assert open[3] == 'p' && close[3] == '/';
    if OccursAt(s, open, i) { OccursChars(s, open, i); }
    if OccursAt(s, close, i) { OccursChars(s, close, i); }
  }

  /** A section in a text without other '#'. */
  lemma PlainSection(before: string, was: string, after: string, name: string)
    requires PlainName(name) && '#' !in before && '#' !in was && '#' !in after
    ensures SectionAt(before + OpenMarker(name) + was + CloseMarker(name) + after, name, |before|,
                      |before + OpenMarker(name) + was|)
  {
    MarkersOfPlainName(name);
    hide OpenMarker, CloseMarker, PlainName;
    var open, close := OpenMarker(name), CloseMarker(name);
    var text := before + open + was + close + after;
    var o, c := |before|, |before + open + was|;
    assert OccursAt(text, open, o) by { assert text[o..o + |open|] == open; }
    assert OccursAt(text, close, c) by { assert text[c..c + |close|] == close; }
    MarkersDiffer(text, name, o);
    MarkersDiffer(text, name, c);
    forall m, j | (m == open || m == close) && OccursAt(text, m, j) ensures j == o || j == c {
      OccursChars(text, m, j);
      HashPlaces(before, open, was, close, after, j);
    }
    MarkerNotEmpty(open);
  }

  /** A module without other comments: what was in the section goes, the replacement comes. */
  lemma PlainModule(before: string, was: string, after: string, name: string, replacement: string)
    requires PlainName(name) && '#' !in before && '#' !in was && '#' !in after
    requires replacement != "" && replacement[|replacement| - 1] != '\n'
    ensures var open, close := "# <parsergen:" + name + ">", "# </parsergen:" + name + ">";
            ReplaceSection(before + open + was + close + after, name, replacement)
            == Ok(before + open + ("\n" + replacement + "\n") + close + after)
  {
    PlainSection(before, was, after, name);
    hide ReplaceSection, SectionAt, PlainName;
    var open, close := "# <parsergen:" + name + ">", "# </parsergen:" + name + ">";
    RewriteIs(before + open + was + close + after, name, replacement, |before|, |before + open + was|);
    AroundSection(before, open, was, close, after, "\n" + replacement + "\n");
  }

  lemma AroundSection(before: string, open: string, was: string, close: string, after: string, body: string)
    ensures var text := before + open + was + close + after;
            && text[..|before| + |open|] == before + open && text[|before + open + was|..] == close + after
            && text[..|before| + |open|] + body + text[|before + open + was|..] == before + open + body + close + after
  {
    assert before + open + body + (close + after) == before + open + body + close + after;
  }

  /** The last rewrite of a section wins. With equal replacements: rewriting is idempotent. */
  lemma LastRewriteWins(text: string, name: string, first: string, second: string, o: int, c: int)
    requires PlainName(name) && SectionAt(text, name, o, c)
    requires Absent(first, OpenMarker(name)) && Absent(first, CloseMarker(name))
    ensures ReplaceSection(text, name, first).Ok?
    ensures ReplaceSection(ReplaceSection(text, name, first).value, name, second)
         == ReplaceSection(text, name, second)
  {
    RewriteKeepsTheRest(text, name, first, o, c);
    RewriteAt(text, name, first, o, c);
    RewriteAt(text, name, second, o, c);
    var once := ReplaceSection(text, name, first).value;
    RewriteAt(once, name, second, o, c + |once| - |text|);
  }

  /** Another section, wholly before or wholly after, survives a rewrite. */
  lemma SectionKept(text: string, name: string, replacement: string, o: int, c: int, other: string, o2: int, c2: int)
    requires PlainName(name) && SectionAt(text, name, o, c)
    requires PlainName(other) && SectionAt(text, other, o2, c2) && (c2 < o || c < o2)
    requires Absent(replacement, OpenMarker(other)) && Absent(replacement, CloseMarker(other))
    ensures ReplaceSection(text, name, replacement).Ok?
    ensures var text' := ReplaceSection(text, name, replacement).value;
            var shift := if c < o2 then |text'| - |text| else 0;
            SectionAt(text', other, o2 + shift, c2 + shift)
  {
    hide ReplaceSection, OnlyAt, IsMarker, Absent;
    MarkersOfPlainName(other);
    MarkerKept(text, name, replacement, o, c, OpenMarker(other), o2);
    MarkerKept(text, name, replacement, o, c, CloseMarker(other), c2);
  }

  /** Two rewrites of sections apart from each other are two splices. */
  lemma RewriteTwice(text: string, n1: string, r1: string, o1: int, c1: int,
                     n2: string, r2: string, o2: int, c2: int)
    requires PlainName(n1) && SectionAt(text, n1, o1, c1)
    requires PlainName(n2) && SectionAt(text, n2, o2, c2) && (c1 < o2 || c2 < o1)
    requires Absent(r1, OpenMarker(n2)) && Absent(r1, CloseMarker(n2))
    ensures 0 <= o1 + |OpenMarker(n1)| <= c1 <= |text| && 0 <= o2 + |OpenMarker(n2)| <= c2 <= |text|
    ensures var once := Splice(text, o1 + |OpenMarker(n1)|, Body(r1), c1);
            var shift := if c1 < o2 then |once| - |text| else 0;
            && 0 <= o2 + shift && c2 + shift <= |once|
            && ReplaceSection(text, n1, r1) == Ok(once)
            && ReplaceSection(once, n2, r2) == Ok(Splice(once, o2 + |OpenMarker(n2)| + shift, Body(r2), c2 + shift))
  {
    hide ReplaceSection, OnlyAt, IsMarker, Absent, Body, PlainName;
    RewriteAt(text, n1, r1, o1, c1);
    RewriteAt(text, n2, r2, o2, c2);
    SectionKept(text, n1, r1, o1, c1, n2, o2, c2);
    var once := ReplaceSection(text, n1, r1).value;
    var shift := if c1 < o2 then |once| - |text| else 0;
    RewriteAt(once, n2, r2, o2 + shift, c2 + shift);
  }

  lemma SplicesCommute(t: string, a: nat, x: string, b: nat, d: nat, y: string, e: nat)
    requires a <= b <= d <= e <= |t|
    ensures var shift := a + |x| - b;
            Splice(Splice(t, d, y, e), a, x, b) == Splice(Splice(t, a, x, b), d + shift, y, e + shift)
  {
    var left, right := Splice(t, a, x, b), Splice(t, d, y, e);
    var shift := a + |x| - b;
    assert right[..a] == t[..a];
    assert right[b..] == t[b..d] + y + t[e..];
    assert left[..d + shift] == t[..a] + x + t[b..d];
    assert left[e + shift..] == t[e..];
  }

  /** Sections that do not enclose one another can be rewritten in either order. */
  lemma DisjointRewritesCommute(text: string, n1: string, r1: string, o1: int, c1: int,
                                n2: string, r2: string, o2: int, c2: int)
    requires PlainName(n1) && SectionAt(text, n1, o1, c1)
    requires PlainName(n2) && SectionAt(text, n2, o2, c2)
    requires c1 < o2
    requires Absent(r1, OpenMarker(n2)) && Absent(r1, CloseMarker(n2))
    requires Absent(r2, OpenMarker(n1)) && Absent(r2, CloseMarker(n1))
    ensures ReplaceSection(text, n1, r1).Ok? && ReplaceSection(text, n2, r2).Ok?
    ensures ReplaceSection(ReplaceSection(text, n1, r1).value, n2, r2)
         == ReplaceSection(ReplaceSection(text, n2, r2).value, n1, r1)
    ensures ReplaceSection(ReplaceSection(text, n1, r1).value, n2, r2).Ok?
  {
    hide ReplaceSection, OnlyAt, IsMarker, Absent, Body, PlainName;
    RewriteTwice(text, n1, r1, o1, c1, n2, r2, o2, c2);
    RewriteTwice(text, n2, r2, o2, c2, n1, r1, o1, c1);
    var from1, from2 := o1 + |OpenMarker(n1)|, o2 + |OpenMarker(n2)|;
    assert c1 <= from2;
    SplicesCommute(text, from1, Body(r1), c1, from2, Body(r2), c2);
  }

  lemma NoMarkerWithoutHash(s: string, m: string)
    requires '#' !in s && IsMarker(m)
    ensures Absent(s, m)
  {
    forall i ensures !OccursAt(s, m, i) {
      if OccursAt(s, m, i) { OccursChars(s, m, i); }
    }
  }

  const SOURCE_SPAN := "source-span"
  const ARTIFACT_METADATA := "artifact-metadata"
  const SPAN_IMPORT := "from onec_runtime" + ".bsl.source_maps" + " import SourceSpan"

  /** The caller's two rewrites: for every generated module that holds both sections side by
      side, in either order, they succeed and could be made in either order. */
  lemma CallerRewritesCommute(text: string, metadata: string, os: int, cs: int, om: int, cm: int)
    requires SectionAt(text, SOURCE_SPAN, os, cs) && SectionAt(text, ARTIFACT_METADATA, om, cm)
    requires cs < om || cm < os
    requires Absent(metadata, OpenMarker(SOURCE_SPAN)) && Absent(metadata, CloseMarker(SOURCE_SPAN))
    ensures ReplaceSection(text, SOURCE_SPAN, SPAN_IMPORT).Ok? && ReplaceSection(text, ARTIFACT_METADATA, metadata).Ok?
    ensures ReplaceSection(ReplaceSection(text, SOURCE_SPAN, SPAN_IMPORT).value, ARTIFACT_METADATA, metadata)
         == ReplaceSection(ReplaceSection(text, ARTIFACT_METADATA, metadata).value, SOURCE_SPAN, SPAN_IMPORT)
    ensures ReplaceSection(ReplaceSection(text, SOURCE_SPAN, SPAN_IMPORT).value, ARTIFACT_METADATA, metadata).Ok?
  {
    hide ReplaceSection, SectionAt, Absent;
    var s, m := SOURCE_SPAN, ARTIFACT_METADATA;
    assert PlainName(s) && PlainName(m);
    assert Absent(SPAN_IMPORT, OpenMarker(m)) && Absent(SPAN_IMPORT, CloseMarker(m)) by {
      MarkersOfPlainName(m);
      assert '#' !in "from onec_runtime" && '#' !in ".bsl.source_maps" && '#' !in " import SourceSpan";
      NoMarkerWithoutHash(SPAN_IMPORT, OpenMarker(m));
      NoMarkerWithoutHash(SPAN_IMPORT, CloseMarker(m));
    }
    if cs < om {
      DisjointRewritesCommute(text, s, SPAN_IMPORT, os, cs, m, metadata, om, cm);
    } else {
      DisjointRewritesCommute(text, m, metadata, om, cm, s, SPAN_IMPORT, os, cs);
    }
  }
}
