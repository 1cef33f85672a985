/**
 * The all-time summary: the summary of every record, the program-progress
 * percentage and the trend chart that lists every day in date order.
 */
module AllTimeView {
  import opened Wrappers
  import opened Calendar
  import opened Ordering
  import opened Records
  import opened Aggregator
  import opened DailyEntry

  // ---------------------------------------------------------------------------
  // Program progress

  /** Days logged as a percentage of the 210 program days. */
  function ProgramProgress(totalDays: int): (percent: real)
    ensures percent * 210.0 == totalDays as real * 100.0
  {
    totalDays as real / 210.0 * 100.0
  }

  /** An ascending sequence of dates within [lo, hi) has at most hi - lo elements. */
  lemma {:induction false} IncreasingWithin(ds: seq<int>, lo: int, hi: int)
    requires lo <= hi && Increasing(ds) && forall k | k in ds :: lo <= k < hi
    ensures |ds| <= hi - lo
  {
    if ds != [] {
      var rest := ds[1..];
      assert forall k | k in rest :: ds[0] < k by {
        forall k | k in rest ensures ds[0] < k {
          var j :| 0 <= j < |rest| && rest[j] == k;
          assert ds[j + 1] == k;
        }
      }
      assert ds[0] in ds;
      assert forall k | k in rest :: k in ds;
      assert Increasing(rest) by {
        forall i, j | 0 <= i < j < |rest| ensures rest[i] < rest[j] {
          assert rest[i] == ds[i + 1] && rest[j] == ds[j + 1];
        }
      }
      IncreasingWithin(rest, ds[0] + 1, hi);
    }
  }

  /** With every key a date of the thirty program weeks, progress never exceeds 100%. */
  lemma ProgressAtMostFull(data: seq<Entry>)
    requires KeysDistinct(data) && forall e | e in data :: InDatePicker(e.date)
    ensures |data| <= 210
    ensures ProgramProgress(|data|) <= 100.0
  {
    var ks := Sort(Dates(data));
    forall k | k in ks ensures ProgramStart <= k < ProgramEnd {
      var i :| 0 <= i < |data| && Dates(data)[i] == k;
      assert data[i] in data;
    }
    IncreasingWithin(ks, ProgramStart, ProgramEnd);
  }

  /** Saving the untouched form on each of the first `n` days from the start. */
  function FirstDays(n: nat): (data: seq<Entry>)
    ensures |data| == n && forall i | 0 <= i < n :: data[i].date == ProgramStart + i
  {
    seq(n, i requires 0 <= i < n => Entry(ProgramStart + i, MakeRecord(ProgramStart + i, FormDefaults(None))))
  }

  /**
   * As written, the picker admits 211 dates (start through `end_date`), and a
   * store holding one record for each of them shows a progress above 100%.
   */
  lemma ProgressExceedsFullAsWritten()
    ensures var data := FirstDays(211);
      && KeysDistinct(data)
      && (forall e | e in data :: InDatePickerAsWritten(e.date))
      && ProgramProgress(|data|) > 100.0
  {
    var data := FirstDays(211);
    forall e | e in data ensures InDatePickerAsWritten(e.date) {
      var i :| 0 <= i < |data| && data[i] == e;
    }
  }

  // ---------------------------------------------------------------------------
  // Order independence of the totals

  /** Dropping the record at position i takes away exactly its contribution. */
  lemma {:induction false} TotalsRemove(rs: seq<Record>, i: int)
    requires 0 <= i < |rs|
    ensures TotalsOf(rs) == Plus(TotalsOf(rs[..i] + rs[i + 1..]), DayTotals(rs[i]))
  {
    if i < |rs| - 1 {
      var init, last := rs[..|rs| - 1], rs[|rs| - 1];
      TotalsRemove(init, i);
      var dropped := init[..i] + init[i + 1..];
      assert rs[..i] + rs[i + 1..] == dropped + [last];
      TotalsSnoc(dropped, last);
    } else {
      assert rs[..i] + rs[i + 1..] == rs[..|rs| - 1];
    }
  }

  /** The positions of a sequence with position i removed. */
  lemma RemoveAt<T>(a: seq<T>, i: int)
    requires 0 <= i < |a|
    ensures var a' := a[..i] + a[i + 1..];
      |a'| == |a| - 1 && forall j | 0 <= j < |a'| :: a'[j] == a[if j < i then j else j + 1]
  {
  }

  /** Removing position i of a store keeps its keys distinct and drops exactly that entry. */
  lemma RemoveEntry(a: seq<Entry>, i: int)
    requires KeysDistinct(a) && 0 <= i < |a|
    ensures var a' := a[..i] + a[i + 1..];
      && KeysDistinct(a')
      && Values(a') == Values(a)[..i] + Values(a)[i + 1..]
      && forall e :: e in a' <==> e in a && e != a[i]
  {
    RemoveKeysDistinct(a, i);
    RemoveValues(a, i);
    RemoveMembers(a, i);
  }

  lemma RemoveKeysDistinct(a: seq<Entry>, i: int)
    requires KeysDistinct(a) && 0 <= i < |a|
    ensures KeysDistinct(a[..i] + a[i + 1..])
  {
    var a' := a[..i] + a[i + 1..];
    RemoveAt(a, i);
    forall j, k | 0 <= j < k < |a'| ensures Dates(a')[j] != Dates(a')[k] {
      var j', k' := if j < i then j else j + 1, if k < i then k else k + 1;
      assert Dates(a)[j'] != Dates(a)[k'];
    }
  }

  lemma RemoveValues(a: seq<Entry>, i: int)
    requires 0 <= i < |a|
    ensures Values(a[..i] + a[i + 1..]) == Values(a)[..i] + Values(a)[i + 1..]
  {
    RemoveAt(a, i);
    RemoveAt(Values(a), i);
  }

  lemma RemoveMembers(a: seq<Entry>, i: int)
    requires KeysDistinct(a) && 0 <= i < |a|
    ensures forall e :: e in a[..i] + a[i + 1..] <==> e in a && e != a[i]
  {
    var a' := a[..i] + a[i + 1..];
    RemoveAt(a, i);
    forall e ensures e in a' <==> e in a && e != a[i] {
      if e in a && e != a[i] {
        var j :| 0 <= j < |a| && a[j] == e;
        assert a'[if j < i then j else j - 1] == e;
      }
      if e in a' {
        var j :| 0 <= j < |a'| && a'[j] == e;
        var j' := if j < i then j else j + 1;
        assert Dates(a)[j'] != Dates(a)[i];
      }
    }
  }

  /** Two stores with distinct keys and the same entries have the same totals, whatever their order. */
  lemma {:induction false} SameEntriesSameTotals(a: seq<Entry>, b: seq<Entry>)
    requires KeysDistinct(a) && KeysDistinct(b) && |a| == |b|
    requires forall e :: e in a <==> e in b
    ensures TotalsOf(Values(a)) == TotalsOf(Values(b))
  {
    if b != [] {
      var init, x := b[..|b| - 1], b[|b| - 1];
      assert x in a;
      var i :| 0 <= i < |a| && a[i] == x;
      RemoveEntry(a, i);
      RemoveEntry(b, |b| - 1);
      assert b[..|b| - 1] + b[|b|..] == init;
      var a' := a[..i] + a[i + 1..];
      assert forall e :: e in a' <==> e in init;
      SameEntriesSameTotals(a', init);
      TotalsRemove(Values(a), i);
      TotalsRemove(Values(b), |b| - 1);
      assert TotalsOf(Values(a)) == Plus(TotalsOf(Values(a')), DayTotals(x.record));
      assert TotalsOf(Values(b)) == Plus(TotalsOf(Values(init)), DayTotals(x.record));
    }
  }

  /** The chronological listing has the totals of the store. */
  lemma ChronologicalTotals(data: seq<Entry>)
    requires KeysDistinct(data)
    ensures TotalsOf(Values(Chronological(data))) == TotalsOf(Values(data))
  {
    ChronologicalSpec(data);
    SelectDatesDistinct(data, Sort(Dates(data)));
    SameEntriesSameTotals(Chronological(data), data);
  }

  // ---------------------------------------------------------------------------
  // Trend chart

  /** One row of the chart data: the day's exercise fields, its weight (null when absent) and the composite. */
  datatype ChartPoint = ChartPoint(date: int, treadmill: real, steps: int, lunchWalk: real,
                                   weight: Option<real>, totalExercise: real)

  function PointOf(e: Entry): (p: ChartPoint)
    ensures p.date == e.date && p.weight == e.record.weight && p.totalExercise == DayExercise(e.record)
    ensures p.treadmill == TreadmillOf(e.record) && p.steps == StepsOf(e.record) && p.lunchWalk == LunchWalkOf(e.record)
  {
    var r := e.record;
    ChartPoint(e.date, TreadmillOf(r), StepsOf(r), LunchWalkOf(r), r.weight, DayExercise(r))
  }

  function ChartPoints(data: seq<Entry>): (points: seq<ChartPoint>)
    ensures var c := Chronological(data);
      |points| == |c| && forall i | 0 <= i < |c| :: points[i] == PointOf(c[i])
    ensures forall i, j | 0 <= i < j < |points| :: points[i].date < points[j].date
    ensures forall i | 0 <= i < |points| ::
      && Lookup(data, points[i].date).Some?
      && points[i].weight == Lookup(data, points[i].date).value.weight
      && points[i].totalExercise == DayExercise(Lookup(data, points[i].date).value)
  {
    var c := Chronological(data);
    ChronologicalByIndex(data);
    seq(|c|, i requires 0 <= i < |c| => PointOf(c[i]))
  }

  /** `chart_data`: one point per stored day in ascending date order, built with the source's loop. */
  method ChartData(data: seq<Entry>) returns (chart: seq<ChartPoint>)
    ensures chart == ChartPoints(data)
  {
    var items := Chronological(data);
    chart := BuildChart(items);
    PointsOfChronological(data, chart);
  }

  /** The loop over the sorted items: one point per item, with its composite exercise. */
  method BuildChart(items: seq<Entry>) returns (chart: seq<ChartPoint>)
    ensures |chart| == |items| && forall k | 0 <= k < |items| :: chart[k] == PointOf(items[k])
  {
    chart := [];
    for i := 0 to |items|
      invariant |chart| == i && forall k | 0 <= k < i :: chart[k] == PointOf(items[k])
    {
      var r := items[i].record;
      var totalExercise := TreadmillOf(r) + StepsOf(r) as real / StepsPerMinute + LunchWalkOf(r);
      var point := ChartPoint(items[i].date, TreadmillOf(r), StepsOf(r), LunchWalkOf(r), r.weight, totalExercise);
      chart := chart + [point];
    }
  }

  lemma PointsOfChronological(data: seq<Entry>, chart: seq<ChartPoint>)
    requires var c := Chronological(data);
      |chart| == |c| && forall k | 0 <= k < |c| :: chart[k] == PointOf(c[k])
    ensures chart == ChartPoints(data)
  {
  }

  /** Sum of the chart's "Total Exercise" column. */
  function ChartExercise(points: seq<ChartPoint>): real
  {
    if points == [] then 0.0 else ChartExercise(points[..|points| - 1]) + points[|points| - 1].totalExercise
  }

  lemma {:induction false} ChartExerciseOfEntries(c: seq<Entry>)
    ensures ChartExercise(seq(|c|, i requires 0 <= i < |c| => PointOf(c[i]))) == SumExercise(Values(c))
  {
    if c != [] {
      var init := c[..|c| - 1];
      ChartExerciseOfEntries(init);
      var points := seq(|c|, i requires 0 <= i < |c| => PointOf(c[i]));
      assert points[..|points| - 1] == seq(|init|, i requires 0 <= i < |init| => PointOf(init[i]));
      assert Values(c)[..|c| - 1] == Values(init);
    }
  }

  /** The chart shows every stored day once, in strictly ascending date order. */
  lemma ChartListsEveryDay(data: seq<Entry>)
    requires KeysDistinct(data)
    ensures var points := ChartPoints(data);
      && |points| == |data|
      && (forall i, j | 0 <= i < j < |points| :: points[i].date < points[j].date)
      && (forall e | e in data :: PointOf(e) in points)
  {
    ChronologicalSpec(data);
    ChartOrdered(data);
    forall e | e in data ensures PointOf(e) in ChartPoints(data) {
      ChartHasDay(data, e);
    }
  }

  lemma ChartOrdered(data: seq<Entry>)
    requires forall i, j | 0 <= i < j < |Chronological(data)| :: Chronological(data)[i].date < Chronological(data)[j].date
    ensures var points := ChartPoints(data);
      forall i, j | 0 <= i < j < |points| :: points[i].date < points[j].date
  {
  }

  lemma ChartHasDay(data: seq<Entry>, e: Entry)
    requires e in Chronological(data)
    ensures PointOf(e) in ChartPoints(data)
  {
    var c := Chronological(data);
    var i :| 0 <= i < |c| && c[i] == e;
    assert ChartPoints(data)[i] == PointOf(e);
  }

  /** The chart's "Total Exercise" column adds up to the all-time total exercise time. */
  lemma ChartExerciseMatchesSummary(data: seq<Entry>)
    requires KeysDistinct(data) && data != []
    ensures ChartExercise(ChartPoints(data)) == Summarize(Values(data)).value.totalExerciseTime
  {
    var c := Chronological(data);
    ChartExerciseOfEntries(c);
    ChronologicalTotals(data);
    ExerciseIsSumOfDays(Values(c));
    ExerciseIsSumOfDays(Values(data));
  }

  /** `df[df['Weight'].notna()]`: the chart points that carry a weight, in order. */
  function WeightTrend(points: seq<ChartPoint>): (trend: seq<ChartPoint>)
    ensures forall p | p in trend :: p in points && p.weight.Some?
    ensures forall p | p in points && p.weight.Some? :: p in trend
    ensures |trend| <= |points|
  {
    if points == [] then []
    else
      var last := points[|points| - 1];
      WeightTrend(points[..|points| - 1]) + (if last.weight.Some? then [last] else [])
  }

  /** Filtering keeps the order of the points: it distributes over concatenation. */
  lemma {:induction false} WeightTrendAppend(a: seq<ChartPoint>, b: seq<ChartPoint>)
    ensures WeightTrend(a + b) == WeightTrend(a) + WeightTrend(b)
  {
    if b == [] {
      assert a + b == a;
    } else {
      assert (a + b)[..|a + b| - 1] == a + b[..|b| - 1];
      WeightTrendAppend(a, b[..|b| - 1]);
    }
  }

  /** Points in ascending date order give a weight series in ascending date order. */
  lemma {:induction false} WeightTrendOrdered(points: seq<ChartPoint>)
    requires forall i, j | 0 <= i < j < |points| :: points[i].date < points[j].date
    ensures forall i, j | 0 <= i < j < |WeightTrend(points)| :: WeightTrend(points)[i].date < WeightTrend(points)[j].date
  {
    if points != [] {
      var init, last := points[..|points| - 1], points[|points| - 1];
      WeightTrendOrdered(init);
      var before := WeightTrend(init);
      forall p | p in before ensures p.date < last.date {
        var k :| 0 <= k < |init| && init[k] == p;
      }
      var trend := WeightTrend(points);
      assert trend == before + (if last.weight.Some? then [last] else []);
      forall i, j | 0 <= i < j < |trend| ensures trend[i].date < trend[j].date {
        if j < |before| {
          assert trend[i] == before[i] && trend[j] == before[j];
        } else {
          assert trend[j] == last && trend[i] == before[i] && before[i] in before;
        }
      }
    }
  }
}
