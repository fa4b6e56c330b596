/** The latency report of the audit inspector (scripts/audit_inspect.py). Floats are exact reals. */
module LatencyPercentiles {
  import opened RealOrder
  import opened Wrappers
  import opened StableSort

  ghost predicate Ascending(values: seq<real>) {
    forall i, j :: 0 <= i <= j < |values| ==> values[i] <= values[j]
  }

  /** math.ceil */
  function Ceil(x: real): int { -((-x).Floor) }

  /** Linear interpolation between the neighbours of position k. */
  function At(values: seq<real>, k: real): real
    requires values != [] && 0.0 <= k <= (|values| - 1) as real
  {
    var f, c := k.Floor, Ceil(k);
    if f == c then values[f]
    else values[f] * (c as real - k) + values[c] * (k - f as real)
  }

  /** The position at a share of the way from the first of n values to the last. */
  function Rank(n: nat, share: real): real
    requires n > 0
  {
    (n - 1) as real * share
  }

  function Percentile(values: seq<real>, p: real): real
    requires 0.0 <= p <= 100.0
  {
    if values == [] then 0.0
    else if |values| == 1 then values[0]
    else
      RankInRange(|values|, p / 100.0);
      At(values, Rank(|values|, p / 100.0))
  }

  lemma RankInRange(n: nat, share: real)
    requires n > 0 && 0.0 <= share <= 1.0
    ensures 0.0 <= Rank(n, share) <= (n - 1) as real
  {
    ShareOf((n - 1) as real, share);
  }

  lemma RankIsMonotone(n: nat, v: real, w: real)
    requires n > 0 && v <= w
    ensures Rank(n, v) <= Rank(n, w)
  {
    ScaledOrder((n - 1) as real, v, w);
  }

  /** The interpolation again, as a start plus a share of the step. */
  function Mix(lo: real, hi: real, w: real): real {
    lo + w * (hi - lo)
  }

  lemma WeightsMix(lo: real, hi: real, w: real)
    ensures lo * (1.0 - w) + hi * w == Mix(lo, hi, w)
  {
    assert w * (hi - lo) == w * hi - w * lo;
    assert lo * (1.0 - w) == lo - lo * w;
  }

  lemma MixBetween(lo: real, hi: real, v: real, w: real)
    requires lo <= hi && 0.0 <= v <= w <= 1.0
    ensures lo <= Mix(lo, hi, v) <= Mix(lo, hi, w) <= hi
  {
    ScaledOrder(hi - lo, 0.0, v);
    ScaledOrder(hi - lo, v, w);
    ScaledOrder(hi - lo, w, 1.0);
  }

  lemma AtInCell(values: seq<real>, k: real)
    requires Ascending(values) && values != [] && 0.0 <= k <= (|values| - 1) as real
    ensures 0 <= k.Floor < |values|
    ensures k.Floor + 1 < |values| ==>
      && At(values, k) == Mix(values[k.Floor], values[k.Floor + 1], k - k.Floor as real)
      && values[k.Floor] <= At(values, k) <= values[k.Floor + 1]
    ensures k.Floor + 1 == |values| ==> At(values, k) == values[k.Floor]
  {
    var f := k.Floor;
    if f + 1 < |values| {
      var w := k - f as real;
      MixBetween(values[f], values[f + 1], 0.0, w);
      if Ceil(k) == f {
        assert w == 0.0;
      } else {
        assert Ceil(k) == f + 1;
        assert (f + 1) as real - k == 1.0 - w;
        WeightsMix(values[f], values[f + 1], w);
      }
    }
  }

  /** Interpolation over an ascending list never falls as the position rises. */
  lemma AtIsMonotone(values: seq<real>, k: real, l: real)
    requires Ascending(values) && values != [] && 0.0 <= k <= l <= (|values| - 1) as real
    ensures At(values, k) <= At(values, l)
  {
    AtInCell(values, k);
    AtInCell(values, l);
    var f, g := k.Floor, l.Floor;
    if f == g {
      if f + 1 < |values| {
        MixBetween(values[f], values[f + 1], k - f as real, l - f as real);
      }
    } else {
      assert values[f + 1] <= values[g];
    }
  }

  lemma AtStaysInside(values: seq<real>, k: real, l: real)
    requires Ascending(values) && values != [] && 0.0 <= k <= l <= (|values| - 1) as real
    ensures values[0] <= At(values, k) <= At(values, l) <= values[|values| - 1]
  {
    AtIsMonotone(values, k, l);
    AtInCell(values, k);
    AtInCell(values, l);
    assert values[0] <= values[k.Floor];
  }

  lemma PercentileIsMonotone(values: seq<real>, p: real, q: real)
    requires Ascending(values) && values != [] && 0.0 <= p <= q <= 100.0
    ensures values[0] <= Percentile(values, p) <= Percentile(values, q) <= values[|values| - 1]
  {
    if |values| > 1 {
      RankInRange(|values|, p / 100.0);
      RankInRange(|values|, q / 100.0);
      RankIsMonotone(|values|, p / 100.0, q / 100.0);
      AtStaysInside(values, Rank(|values|, p / 100.0), Rank(|values|, q / 100.0));
    }
  }

  /** The percentile, spelled out: the value at the whole part of the position (n-1)p/100, and the fraction of
      the step to the next one. */
  lemma PercentileMeans(values: seq<real>, p: real, k: real)
    requires Ascending(values) && |values| > 1 && 0.0 <= p <= 100.0
    requires k == (|values| - 1) as real * (p / 100.0)
    ensures 0.0 <= k <= (|values| - 1) as real && k.Floor < |values|
    ensures k.Floor + 1 < |values| ==>
      Percentile(values, p) == values[k.Floor] + (k - k.Floor as real) * (values[k.Floor + 1] - values[k.Floor])
    ensures k.Floor + 1 == |values| ==> Percentile(values, p) == values[k.Floor]
  {
    RankInRange(|values|, p / 100.0);
    AtInCell(values, k);
  }

  lemma PercentileOfFew(p: real, x: real)
    requires 0.0 <= p <= 100.0
    ensures Percentile([], p) == 0.0 && Percentile([x], p) == x
  {
  }

  // ----- the report ---------------------------------------------------------------------------------

  /** One audit record; `millis` is None when model_call_ms is absent or not a number. */
  datatype Record = Record(event: string, httpStatus: int, backend: string, millis: Option<real>)

  predicate Counts(r: Record) {
    r.event == "reply" && r.httpStatus == 200 && r.millis.Some? && r.millis.value >= 0.0
  }

  function BackendOf(r: Record): string {
    if r.backend == "" then "<unknown>" else r.backend
  }

  /** The latencies one backend contributes, in record order. */
  function LatenciesOf(records: seq<Record>, backend: string): (r: seq<real>)
    ensures forall i :: 0 <= i < |r| ==> r[i] >= 0.0
  {
    if records == [] then []
    else
      var before, last := LatenciesOf(records[..|records| - 1], backend), records[|records| - 1];
      if Counts(last) && BackendOf(last) == backend then before + [last.millis.value] else before
  }

  /** Which records count for a backend, by the laws of LatenciesOf: each record alone, and lists put together. */
  lemma LatenciesOfOne(r: Record, backend: string)
    ensures LatenciesOf([r], backend) ==
      if r.event == "reply" && r.httpStatus == 200 && r.millis.Some? && r.millis.value >= 0.0 &&
         (if r.backend == "" then backend == "<unknown>" else backend == r.backend)
        then [r.millis.value] else []
  {
    assert [r][..0] == [];
  }

  lemma {:induction false} LatenciesOfConcat(a: seq<Record>, b: seq<Record>, backend: string)
    ensures LatenciesOf(a + b, backend) == LatenciesOf(a, backend) + LatenciesOf(b, backend)
  {
    if b == [] {
      assert a + b == a;
    } else {
      assert (a + b)[..|a + b| - 1] == a + b[..|b| - 1];
      LatenciesOfConcat(a, b[..|b| - 1], backend);
    }
  }

  datatype Summary = Summary(n: nat, min: int, p50: int, p95: int, p99: int, max: int)

  function Ascend(values: seq<real>): (r: seq<real>)
    ensures |r| == |values|
  {
    Sorted(values, seq(|values|, i requires 0 <= i < |values| => Fin(values[i])))
  }

  lemma AscendIsAscending(values: seq<real>)
    ensures Ascending(Ascend(values)) && multiset(Ascend(values)) == multiset(values)
  {
    var keys := seq(|values|, i requires 0 <= i < |values| => Fin(values[i]));
    SortOrderIsStable(keys);
    SortedIsPermutation(values, keys);
    var order := SortOrder(keys);
    forall i, j | 0 <= i <= j < |values| ensures Ascend(values)[i] <= Ascend(values)[j] {
      if i < j {
        assert Before(keys, order[i], order[j]);
      }
    }
  }

  /** int() of non-negative values is the floor. */
  function Summarize(values: seq<real>): Summary
    requires values != []
  {
    var s := Ascend(values);
    Summary(|values|, s[0].Floor, Percentile(s, 50.0).Floor, Percentile(s, 95.0).Floor,
            Percentile(s, 99.0).Floor, s[|s| - 1].Floor)
  }

  /** Every reported line is ordered, and its ends are the least and greatest latency, truncated. */
  lemma SummaryIsOrdered(values: seq<real>)
    requires values != []
    ensures var s := Summarize(values); s.min <= s.p50 <= s.p95 <= s.p99 <= s.max
    ensures forall i :: 0 <= i < |values| ==>
      Summarize(values).min <= values[i].Floor <= Summarize(values).max
  {
    var s := Ascend(values);
    AscendIsAscending(values);
    PercentileIsMonotone(s, 50.0, 95.0);
    PercentileIsMonotone(s, 95.0, 99.0);
    forall i | 0 <= i < |values|
      ensures s[0].Floor <= values[i].Floor <= s[|s| - 1].Floor
    {
      assert values[i] in multiset(s);
      var j :| 0 <= j < |s| && s[j] == values[i];
    }
  }

  lemma HeadsAgree(a: seq<real>, b: seq<real>)
    requires Ascending(a) && Ascending(b) && multiset(a) == multiset(b) && a != [] && b != []
    ensures a[0] == b[0]
  {
    assert a[0] in multiset(b) && b[0] in multiset(a);
    var i :| 0 <= i < |b| && b[i] == a[0];
    var j :| 0 <= j < |a| && a[j] == b[0];
    assert a[0] <= a[j] && b[0] <= b[i];
  }

  lemma WithoutHead(a: seq<real>)
    requires Ascending(a) && a != []
    ensures a == [a[0]] + a[1..] && multiset(a[1..]) == multiset(a) - multiset{a[0]} && Ascending(a[1..])
  {
    assert a == [a[0]] + a[1..];
  }

  lemma {:induction false} AscendingIsUnique(a: seq<real>, b: seq<real>)
    requires Ascending(a) && Ascending(b) && multiset(a) == multiset(b)
    ensures a == b
    decreases |a|
  {
    assert |multiset(a)| == |a| && |multiset(b)| == |b|;
    if a != [] {
      HeadsAgree(a, b);
      WithoutHead(a);
      WithoutHead(b);
      AscendingIsUnique(a[1..], b[1..]);
    }
  }

  /** What a line reports, for the latencies in ascending order: their number, the least and the greatest, and
      the percentiles 50, 95 and 99, all truncated. */
  lemma SummaryMeans(values: seq<real>, s: seq<real>)
    requires values != [] && Ascending(s) && multiset(s) == multiset(values)
    ensures |s| == |values|
    ensures Summarize(values) ==
      Summary(|values|, s[0].Floor, Percentile(s, 50.0).Floor, Percentile(s, 95.0).Floor, Percentile(s, 99.0).Floor,
              s[|s| - 1].Floor)
  {
    AscendIsAscending(values);
    AscendingIsUnique(s, Ascend(values));
  }

  method BackendLatency(records: seq<Record>) returns (report: map<string, Summary>)
    ensures forall b :: b in report <==> LatenciesOf(records, b) != []
    ensures forall b :: b in report ==> report[b] == Summarize(LatenciesOf(records, b))
    ensures forall b :: b in report ==>
      report[b].min <= report[b].p50 <= report[b].p95 <= report[b].p99 <= report[b].max
  {
    var byBackend: map<string, seq<real>> := map[];
    for i := 0 to |records|
      invariant forall b :: b in byBackend <==> LatenciesOf(records[..i], b) != []
      invariant forall b :: b in byBackend ==> byBackend[b] == LatenciesOf(records[..i], b)
    {
      assert records[..i + 1][..i] == records[..i];
      var r := records[i];
      if Counts(r) {
        var b := BackendOf(r);
        var soFar := if b in byBackend then byBackend[b] else [];
        byBackend := byBackend[b := soFar + [r.millis.value]];
      }
    }
    assert records[..|records|] == records;
    report := map b | b in byBackend :: Summarize(byBackend[b]);
    forall b | b in report
      ensures report[b].min <= report[b].p50 <= report[b].p95 <= report[b].p99 <= report[b].max
    {
      SummaryIsOrdered(byBackend[b]);
    }
  }
}
