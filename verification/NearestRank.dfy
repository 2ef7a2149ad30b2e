/** Nearest-rank percentiles (integration/zup_worker_universe_acceptance.py, nearest_rank, and
    tools/minimal_worker_reload_benchmark.py, nearest_rank_summary). Floats are exact reals. */
module NearestRank {
  import opened Wrappers

  /** A Python value offered as a sample: a finite int or float; NaN or an infinity; a bool; anything else
      that float converts to a finite number, such as text, bytes, a Decimal or a Fraction; anything that
      float refuses or converts to a number that is not finite. */
  datatype Sample = Number(value: real) | NonFinite | Flag(on: bool) | Numeral(value: real) | NotNumber

  /** An iterable of samples: what iterating it yields, and whether it is a Sequence other than text and
      bytes. */
  datatype Samples = Samples(items: seq<Sample>, isSequence: bool)

  datatype Summary = Summary(count: nat, first: real, p50: real, p95: real, max: real)

  datatype Invalid = Invalid

  predicate Sorted(s: seq<real>) { forall i, j :: 0 <= i < j < |s| ==> s[i] <= s[j] }

  lemma SortedCons(a: real, t: seq<real>, x: real, rest: seq<real>)
    requires Sorted(rest) && multiset(rest) == multiset(t) + multiset{x}
    requires a <= x && forall y :: y in t ==> a <= y
    ensures Sorted([a] + rest)
    ensures multiset([a] + rest) == multiset([a] + t) + multiset{x}
  {
    forall j | 0 <= j < |rest|
      ensures a <= rest[j]
    {
      assert rest[j] in multiset(rest);
      assert rest[j] in multiset(t) || rest[j] in multiset{x};
      assert rest[j] in t || rest[j] == x;
    }
    assert multiset([a] + rest) == multiset{a} + multiset(rest);
    assert multiset([a] + t) == multiset{a} + multiset(t);
  }

  function Insert(s: seq<real>, x: real): (r: seq<real>)
    requires Sorted(s)
    ensures Sorted(r) && multiset(r) == multiset(s) + multiset{x}
  {
    if s == [] || x <= s[0] then
      assert multiset([x] + s) == multiset{x} + multiset(s);
      [x] + s
    else
      var rest := Insert(s[1..], x);
      SortedCons(s[0], s[1..], x, rest);
      assert s == [s[0]] + s[1..];
      [s[0]] + rest
  }

  /** Python's sorted. */
  function Sort(s: seq<real>): (r: seq<real>)
    ensures Sorted(r) && multiset(r) == multiset(s) && |r| == |s|
  {
    if s == [] then []
    else
      assert s == [s[0]] + s[1..];
      var r := Insert(Sort(s[1..]), s[0]);
      assert |multiset(r)| == |r| && |multiset(s)| == |s|;
      r
  }

  lemma SortSame(s: seq<real>)
    ensures forall x :: x in s <==> x in Sort(s)
  {
    hide Sort, Sorted;
    forall x
      ensures x in s <==> x in Sort(s)
    {
      assert x in s <==> x in multiset(s);
      assert x in Sort(s) <==> x in multiset(Sort(s));
    }
  }

  function Ceil(x: real): int { -((-x).Floor) }

  /** `count` samples out of `n` reach the fraction `q`. */
  predicate Reaches(count: int, q: real, n: nat) { count as real >= q * n as real }

  function Rank(q: real, n: nat): int { Ceil(q * n as real) }

  /** The rank ceil(q * n) lies in 1..n, so the index used by both programs is in range. */
  lemma RankInRange(q: real, n: nat)
    requires n > 0 && 0.0 < q <= 1.0
    ensures 1 <= Rank(q, n) <= n
  {
    var x := q * n as real;
    assert 0.0 < x by { assert n as real > 0.0; }
    assert x <= n as real by { assert (1.0 - q) * n as real >= 0.0; }
  }

  lemma RankReaches(q: real, n: nat, k: int)
    ensures Reaches(k, q, n) <==> k >= Rank(q, n)
  {
  }

  function AtRank(ordered: seq<real>, q: real): (v: real)
    requires ordered != [] && 0.0 < q <= 1.0
  {
    RankInRange(q, |ordered|);
    ordered[Rank(q, |ordered|) - 1]
  }

  function Percentile(s: seq<real>, q: real): (v: real)
    requires s != [] && 0.0 < q <= 1.0
  {
    AtRank(Sort(s), q)
  }

  lemma PercentileIsSample(s: seq<real>, q: real)
    requires s != [] && 0.0 < q <= 1.0
    ensures Percentile(s, q) in s
  {
    hide Sort, Sorted, Rank;
    RankInRange(q, |s|);
    SortSame(s);
  }

  // ----- what a percentile means -----

  function Count(s: seq<real>, keep: real -> bool): nat {
    if s == [] then 0 else Count(s[..|s| - 1], keep) + if keep(s[|s| - 1]) then 1 else 0
  }

  function UpTo(x: real): real -> bool { y => y <= x }

  function Under(x: real): real -> bool { y => y < x }

  predicate DownwardClosed(keep: real -> bool, s: seq<real>) {
    forall x, y :: x in s && y in s && x <= y && keep(y) ==> keep(x)
  }

  lemma {:induction false} CountConcat(s: seq<real>, t: seq<real>, keep: real -> bool)
    ensures Count(s + t, keep) == Count(s, keep) + Count(t, keep)
  {
    if t == [] {
      assert s + t == s;
    } else {
      assert (s + t)[..|s + t| - 1] == s + t[..|t| - 1];
      CountConcat(s, t[..|t| - 1], keep);
    }
  }

  lemma RemoveOne<T>(a: multiset<T>, b: multiset<T>, x: T)
    requires a + multiset{x} == b + multiset{x}
    ensures a == b
  {
    assert a == (a + multiset{x}) - multiset{x};
    assert b == (b + multiset{x}) - multiset{x};
  }

  lemma {:induction false} CountAnyOrder(s: seq<real>, t: seq<real>, keep: real -> bool)
    requires multiset(s) == multiset(t)
    ensures Count(s, keep) == Count(t, keep)
  {
    if s == [] {
      assert |multiset(t)| == 0;
    } else {
      var n := |s| - 1;
      assert s == s[..n] + [s[n]];
      assert s[n] in multiset(t);
      var j :| 0 <= j < |t| && t[j] == s[n];
      assert t == t[..j] + [t[j]] + t[j + 1..];
      assert multiset(s) == multiset(s[..n]) + multiset{s[n]};
      assert multiset(t) == multiset(t[..j] + t[j + 1..]) + multiset{t[j]};
      RemoveOne(multiset(s[..n]), multiset(t[..j] + t[j + 1..]), s[n]);
      CountAnyOrder(s[..n], t[..j] + t[j + 1..], keep);
      CountConcat(t[..j], t[j + 1..], keep);
      CountConcat(t[..j], [t[j]], keep);
      CountConcat(t[..j] + [t[j]], t[j + 1..], keep);
    }
  }

  /** In sorted order the kept samples are a prefix. */
  lemma {:induction false} CountSorted(t: seq<real>, keep: real -> bool, k: nat)
    requires Sorted(t) && DownwardClosed(keep, t) && 1 <= k <= |t|
    ensures Count(t, keep) <= |t|
    ensures Count(t, keep) >= k <==> keep(t[k - 1])
  {
    var n := |t| - 1;
    if n > 0 {
      CountSorted(t[..n], keep, if k <= n then k else n);
    }
  }

  /** The defining property: the percentile passes a downward closed test exactly when at least
      the fraction q of the samples passes it. */
  lemma PercentileIff(s: seq<real>, q: real, keep: real -> bool)
    requires s != [] && 0.0 < q <= 1.0 && DownwardClosed(keep, s)
    ensures keep(Percentile(s, q)) <==> Reaches(Count(s, keep), q, |s|)
  {
    hide Sort, Count, Rank, Sorted, Reaches;
    RankInRange(q, |s|);
    SortSame(s);
    assert DownwardClosed(keep, Sort(s));
    CountSorted(Sort(s), keep, Rank(q, |s|));
    CountAnyOrder(s, Sort(s), keep);
    RankReaches(q, |s|, Count(s, keep));
  }

  lemma PercentileUnderIff(s: seq<real>, q: real, x: real)
    requires s != [] && 0.0 < q <= 1.0
    ensures Percentile(s, q) < x <==> Reaches(Count(s, Under(x)), q, |s|)
  {
    hide Sort, Count, Rank, Sorted, Reaches, Percentile;
    PercentileIff(s, q, Under(x));
  }

  /** `v` is the least sample with at least the fraction `q` of the samples at or below it. */
  ghost predicate IsQuantile(s: seq<real>, q: real, v: real) {
    && v in s && Reaches(Count(s, UpTo(v)), q, |s|)
    && forall w :: w in s && w < v ==> !Reaches(Count(s, UpTo(w)), q, |s|)
  }

  /** The percentile is the quantile, and the only one. */
  lemma PercentileIsQuantile(s: seq<real>, q: real, v: real)
    requires s != [] && 0.0 < q <= 1.0
    ensures IsQuantile(s, q, v) <==> v == Percentile(s, q)
  {
    hide Sort, Count, Rank, Sorted, Reaches, Percentile;
    PercentileIsSample(s, q);
    var p := Percentile(s, q);
    PercentileIff(s, q, UpTo(p));
    PercentileIff(s, q, UpTo(v));
    forall w | w in s && w < p
      ensures !Reaches(Count(s, UpTo(w)), q, |s|)
    {
      PercentileIff(s, q, UpTo(w));
    }
  }

  lemma OrderIndependent(s: seq<real>, t: seq<real>, q: real)
    requires s != [] && multiset(s) == multiset(t) && 0.0 < q <= 1.0
    ensures t != [] && Percentile(s, q) == Percentile(t, q)
  {
    hide Sort, Count, Rank, Sorted, Reaches, Percentile;
    assert |multiset(s)| == |s| && |multiset(t)| == |t|;
    PercentileIsSample(s, q);
    PercentileIsSample(t, q);
    var v, w := Percentile(s, q), Percentile(t, q);
    PercentileIff(s, q, UpTo(v));
    PercentileIff(t, q, UpTo(v));
    CountAnyOrder(s, t, UpTo(v));
    PercentileIff(s, q, UpTo(w));
    PercentileIff(t, q, UpTo(w));
    CountAnyOrder(s, t, UpTo(w));
  }

  lemma PercentilesOrdered(s: seq<real>, q: real, r: real)
    requires s != [] && 0.0 < q <= r <= 1.0
    ensures Percentile(s, q) <= Percentile(s, r)
  {
    hide Sort, Count, Rank, Sorted, Percentile;
    PercentileIff(s, r, UpTo(Percentile(s, r)));
    PercentileIff(s, q, UpTo(Percentile(s, r)));
    assert (r - q) * |s| as real >= 0.0;
  }

  lemma LastIsGreatest(s: seq<real>)
    requires s != []
    ensures Sort(s)[|s| - 1] in s && forall x :: x in s ==> x <= Sort(s)[|s| - 1]
  {
    hide Sort;
    SortSame(s);
  }

  // ----- the two implementations -----

  predicate Acceptable(samples: seq<Sample>) {
    forall i :: 0 <= i < |samples| ==> samples[i].Number? && samples[i].value >= 0.0
  }

  function Values(samples: seq<Sample>): (r: seq<real>)
    requires Acceptable(samples)
    ensures |r| == |samples|
  {
    seq(|samples|, i requires 0 <= i < |samples| => samples[i].value)
  }

  /** The values of acceptable samples, one by one. */
  lemma ValuesIff(samples: seq<Sample>, values: seq<real>)
    requires Acceptable(samples)
    ensures values == Values(samples) <==>
              |values| == |samples| && forall i :: 0 <= i < |samples| ==> samples[i] == Number(values[i])
  {
    var v := Values(samples);
    assert forall i :: 0 <= i < |samples| ==> samples[i] == Number(v[i]);
    if |values| == |samples| && forall i :: 0 <= i < |samples| ==> samples[i] == Number(values[i]) {
      assert forall i :: 0 <= i < |samples| ==> Number(values[i]) == Number(v[i]);
    }
  }

  /** The samples nearest_rank takes. */
  predicate Rankable(all: Samples) { all.isSequence && all.items != [] && Acceptable(all.items) }

  /** nearest_rank of the acceptance run: an object that is no Sequence or holds text or bytes, no samples, a
      quantile that is not a float in (0, 1] (None when it is not a finite float), or a sample that is a
      bool, not a number, not finite or negative is refused. */
  method NearestRank(all: Samples, quantile: Option<real>) returns (r: Result<real, Invalid>)
    ensures r.Ok? <==> Rankable(all) && quantile.Some? && 0.0 < quantile.value <= 1.0
    ensures r.Ok? ==> IsQuantile(Values(all.items), quantile.value, r.value)
  {
    hide Sort, Sorted, Rank, IsQuantile;
    var samples := all.items;
    if !all.isSequence || samples == [] || quantile.None? || !(0.0 < quantile.value <= 1.0) {
      return Err(Invalid);
    }
    var values: seq<real> := [];
    for i := 0 to |samples|
      invariant Acceptable(samples[..i])
      invariant values == Values(samples[..i])
    {
      match samples[i]
      case Number(number) =>
        if number < 0.0 {
          return Err(Invalid);
        }
        assert samples[..i + 1] == samples[..i] + [samples[i]];
        values := values + [number];
      case _ =>
        return Err(Invalid);
    }
    assert samples[..|samples|] == samples;
    RankInRange(quantile.value, |samples|);
    var ordered := Sort(values);
    r := Ok(ordered[Rank(quantile.value, |ordered|) - 1]);
    PercentileIsQuantile(values, quantile.value, r.value);
  }

  /** float(value) in the benchmark's summary also takes a bool, as 0.0 or 1.0, and a numeral. */
  function AsFloat(x: Sample): Option<real> {
    match x
    case Number(v) => Some(v)
    case Flag(on) => Some(if on then 1.0 else 0.0)
    case Numeral(v) => Some(v)
    case NonFinite => None
    case NotNumber => None
  }

  predicate Summarizable(samples: seq<Sample>) {
    forall i :: 0 <= i < |samples| ==> AsFloat(samples[i]).Some? && AsFloat(samples[i]).value >= 0.0
  }

  function Floats(samples: seq<Sample>): (r: seq<real>)
    requires Summarizable(samples)
    ensures |r| == |samples|
  {
    seq(|samples|, i requires 0 <= i < |samples| => AsFloat(samples[i]).value)
  }

  /** nearest_rank_summary of the benchmark: any iterable will do. */
  function NearestRankSummary(all: Samples): (r: Result<Summary, Invalid>)
    ensures r.Ok? <==> all.items != [] && Summarizable(all.items)
  {
    if all.items == [] || !Summarizable(all.items) then Err(Invalid)
    else
      var values := Floats(all.items);
      var ordered := Sort(values);
      Ok(Summary(|values|, values[0], AtRank(ordered, 0.5), AtRank(ordered, 0.95), ordered[|ordered| - 1]))
  }

  /** The number that float makes of a sample. */
  predicate Reads(x: Sample, r: real) {
    || x == Number(r) || x == Numeral(r) || (x == Flag(true) && r == 1.0) || (x == Flag(false) && r == 0.0)
  }

  /** Whatever the summary accepts, it reports the quantiles and the greatest sample, in order. */
  lemma SummaryCorrect(all: Samples)
    requires NearestRankSummary(all).Ok?
    ensures
      var v := Floats(all.items);
      var s := NearestRankSummary(all).value;
      && |v| == |all.items| && (forall i :: 0 <= i < |v| ==> Reads(all.items[i], v[i]))
      && s.count == |all.items| && Reads(all.items[0], s.first)
      && IsQuantile(v, 0.5, s.p50) && IsQuantile(v, 0.95, s.p95)
      && s.max in v && (forall x :: x in v ==> x <= s.max)
      && s.p50 <= s.p95 <= s.max
  {
    hide Sort, Count, Rank, Sorted, Reaches, IsQuantile;
    var v := Floats(all.items);
    LastIsGreatest(v);
    PercentileIsSample(v, 0.95);
    PercentileIsQuantile(v, 0.5, Percentile(v, 0.5));
    PercentileIsQuantile(v, 0.95, Percentile(v, 0.95));
    PercentilesOrdered(v, 0.5, 0.95);
  }

  /** A sample that only the summary takes. */
  predicate OnlySummarized(x: Sample) { x.Flag? || x.Numeral? }

  /** The summary accepts samples that the stricter implementation refuses exactly when it accepts them and
      they do not come as a Sequence or a bool or a numeral stands among them; never the other way round. */
  lemma AcceptanceDiffersIff(all: Samples)
    ensures NearestRankSummary(all).Ok? && !Rankable(all) <==>
              && all.items != [] && Summarizable(all.items)
              && (!all.isSequence || exists i :: 0 <= i < |all.items| && OnlySummarized(all.items[i]))
    ensures Rankable(all) ==> NearestRankSummary(all).Ok?
  {
    var samples := all.items;
    if i :| Summarizable(samples) && 0 <= i < |samples| && OnlySummarized(samples[i]) {
      assert !samples[i].Number?;
    }
    if Summarizable(samples) && !Acceptable(samples) {
      var i :| 0 <= i < |samples| && !(samples[i].Number? && samples[i].value >= 0.0);
      assert AsFloat(samples[i]).Some? && OnlySummarized(samples[i]);
    }
  }

  /** A list with one bool, and the bytes b"12", which are the numbers 49 and 50. */
  lemma AcceptanceDiffers()
    ensures var flags := Samples([Flag(true)], true); NearestRankSummary(flags).Ok? && !Rankable(flags)
    ensures var bytes := Samples([Number(49.0), Number(50.0)], false); NearestRankSummary(bytes).Ok? && !Rankable(bytes)
  {
    var flags := Samples([Flag(true)], true);
    assert OnlySummarized(flags.items[0]);
    AcceptanceDiffersIff(flags);
  }

  /** The implementations agree on everything the stricter one accepts. */
  lemma ImplementationsAgree(all: Samples)
    requires Rankable(all)
    ensures NearestRankSummary(all).Ok?
    ensures NearestRankSummary(all).value.p50 == Percentile(Values(all.items), 0.5)
    ensures NearestRankSummary(all).value.p95 == Percentile(Values(all.items), 0.95)
  {
    assert Summarizable(all.items);
    assert Floats(all.items) == Values(all.items);
  }
}
