/**
 * The aggregator (`get_summary_stats`): reduces the records of a store, in
 * iteration order, to totals, per-day averages, the composite exercise time,
 * the strength-session count and the weight and blood-sugar statistics.
 */
module Aggregator {
  import opened Wrappers
  import opened Records

  /** The additive part of a summary: day count, the three field sums and the strength count. */
  datatype Totals = Totals(days: nat, treadmill: real, steps: int, lunchWalk: real, strength: nat)

  const NoTotals: Totals := Totals(0, 0.0, 0, 0.0, 0)

  function Plus(a: Totals, b: Totals): Totals
  {
    Totals(a.days + b.days, a.treadmill + b.treadmill, a.steps + b.steps,
           a.lunchWalk + b.lunchWalk, a.strength + b.strength)
  }

  lemma SplitLast<T>(a: seq<T>, b: seq<T>)
    requires b != []
    ensures a + b == a + b[..|b| - 1] + [b[|b| - 1]]
  {
  }

  lemma PlusAssociative(a: Totals, b: Totals, c: Totals)
    ensures Plus(Plus(a, b), c) == Plus(a, Plus(b, c))
  {
  }

  lemma PlusSwap(a: Totals, b: Totals, c: Totals)
    ensures Plus(Plus(a, b), c) == Plus(Plus(a, c), b)
  {
  }

  /** What one record adds: one day, its exercise fields (missing or null as 0) and its strength session. */
  function DayTotals(r: Record): Totals
  {
    Totals(1, TreadmillOf(r), StepsOf(r), LunchWalkOf(r), if r.strength then 1 else 0)
  }

  /** `total_days`, `total_treadmill`, `total_steps`, `total_lunch_walks` and `strength_sessions`. */
  function TotalsOf(rs: seq<Record>): (t: Totals)
    ensures t.days == |rs|
    ensures t.strength <= t.days
  {
    if rs == [] then NoTotals
    else Plus(TotalsOf(rs[..|rs| - 1]), DayTotals(rs[|rs| - 1]))
  }

  /** Composite exercise time of totals: treadmill + steps / 100 + lunch walks. */
  function ExerciseTime(t: Totals): real
  {
    t.treadmill + t.steps as real / StepsPerMinute + t.lunchWalk
  }

  /** `total / count if count > 0 else 0`: a mean that never divides by zero. */
  function Average(total: real, count: int): (avg: real)
    ensures count > 0 ==> avg * count as real == total
    ensures count <= 0 ==> avg == 0.0
  {
    if count > 0 then total / count as real else 0.0
  }

  function Sum(xs: seq<real>): real
  {
    if xs == [] then 0.0 else Sum(xs[..|xs| - 1]) + xs[|xs| - 1]
  }

  /** The values of `os` that count as readings (present and positive), in order. */
  function Readings(os: seq<Option<real>>): (xs: seq<real>)
    ensures |xs| <= |os|
    ensures forall x | x in xs :: x > 0.0
  {
    if os == [] then []
    else
      var last := os[|os| - 1];
      Readings(os[..|os| - 1]) + (if IsReading(last) then [last.value] else [])
  }

  function Weights(rs: seq<Record>): (ws: seq<Option<real>>)
    ensures |ws| == |rs| && forall i | 0 <= i < |rs| :: ws[i] == rs[i].weight
  {
    seq(|rs|, i requires 0 <= i < |rs| => rs[i].weight)
  }

  function BloodSugars(rs: seq<Record>): (bs: seq<Option<real>>)
    ensures |bs| == |rs| && forall i | 0 <= i < |rs| :: bs[i] == rs[i].bloodSugar
  {
    seq(|rs|, i requires 0 <= i < |rs| => rs[i].bloodSugar)
  }

  /** The dictionary `get_summary_stats` returns for a non-empty input. */
  datatype Summary = Summary(
    totalDays: nat,
    totalTreadmill: real,
    avgTreadmill: real,
    totalSteps: int,
    avgSteps: real,
    totalLunchWalks: real,
    avgLunchWalks: real,
    totalExerciseTime: real,
    avgExerciseTime: real,
    strengthSessions: nat,
    avgWeight: real,
    latestWeight: real,
    avgBloodSugar: real,
    weightChange: real)

  /** The totals a summary reports. */
  function SummaryTotals(s: Summary): Totals
  {
    Totals(s.totalDays, s.totalTreadmill, s.totalSteps, s.totalLunchWalks, s.strengthSessions)
  }

  /** Every average of a summary is its total divided by the day count. */
  predicate AveragesHold(s: Summary)
  {
    && s.avgTreadmill * s.totalDays as real == s.totalTreadmill
    && s.avgSteps * s.totalDays as real == s.totalSteps as real
    && s.avgLunchWalks * s.totalDays as real == s.totalLunchWalks
    && s.avgExerciseTime * s.totalDays as real == s.totalExerciseTime
  }

  /** `avg` is the mean of `xs`, or 0 when there is nothing to average. */
  predicate MeanOf(avg: real, xs: seq<real>)
  {
    && (|xs| > 0 ==> avg * |xs| as real == Sum(xs))
    && (|xs| == 0 ==> avg == 0.0)
  }

  /** Builds the summary from the totals and the collected weight and blood-sugar readings. */
  function Assemble(t: Totals, weights: seq<real>, bloodSugars: seq<real>): (s: Summary)
    ensures SummaryTotals(s) == t
    ensures s.totalExerciseTime == ExerciseTime(t)
    ensures t.days > 0 ==> AveragesHold(s)
    ensures MeanOf(s.avgWeight, weights) && MeanOf(s.avgBloodSugar, bloodSugars)
    ensures |weights| <= 1 ==> s.weightChange == 0.0
  {
    var exercise := ExerciseTime(t);
    Summary(
      t.days,
      t.treadmill, Average(t.treadmill, t.days),
      t.steps, Average(t.steps as real, t.days),
      t.lunchWalk, Average(t.lunchWalk, t.days),
      exercise, Average(exercise, t.days),
      t.strength,
      Average(Sum(weights), |weights|),
      if |weights| > 0 then weights[|weights| - 1] else 0.0,
      Average(Sum(bloodSugars), |bloodSugars|),
      if |weights| > 1 then weights[|weights| - 1] - weights[0] else 0.0)
  }

  /**
   * The summary of records in iteration order; None stands for the empty
   * result of an empty input. Every average is its total divided by the day
   * count, and there are never more strength sessions than days.
   */
  function Summarize(rs: seq<Record>): (stats: Option<Summary>)
    ensures stats.None? <==> rs == []
    ensures stats.Some? ==>
      var s := stats.value;
      && s.totalDays == |rs| && s.strengthSessions <= s.totalDays
      && AveragesHold(s)
      && s.totalExerciseTime == s.totalTreadmill + s.totalSteps as real / StepsPerMinute + s.totalLunchWalks
    ensures stats.Some? ==> SummaryTotals(stats.value) == TotalsOf(rs)
    ensures stats.Some? ==>
      var s, ws, bs := stats.value, Readings(Weights(rs)), Readings(BloodSugars(rs));
      && (|ws| > 0 ==> s.avgWeight * |ws| as real == Sum(ws))
      && (|ws| == 0 ==> s.avgWeight == 0.0)
      && (|bs| > 0 ==> s.avgBloodSugar * |bs| as real == Sum(bs))
      && (|bs| == 0 ==> s.avgBloodSugar == 0.0)
  {
    if rs == [] then None
    else
      var t := TotalsOf(rs);
      Some(Assemble(t, Readings(Weights(rs)), Readings(BloodSugars(rs))))
  }

  /** `get_summary_stats(data_dict)`, collecting the readings with a loop as the source does. */
  method GetSummaryStats(data: seq<Entry>) returns (stats: Option<Summary>)
    ensures stats == Summarize(Values(data))
  {
    if |data| == 0 {
      return None;
    }
    var records := Values(data);
    var totals := TotalsOf(records);
    var weights: seq<real> := [];
    var bloodSugars: seq<real> := [];
    for i := 0 to |records|
      invariant weights == Readings(Weights(records[..i]))
      invariant bloodSugars == Readings(BloodSugars(records[..i]))
    {
      assert Weights(records[..i + 1])[..i] == Weights(records[..i]);
      assert BloodSugars(records[..i + 1])[..i] == BloodSugars(records[..i]);
      var weight := records[i].weight;
      if weight.Some? && weight.value > 0.0 {
        weights := weights + [weight.value];
      }
      var bloodSugar := records[i].bloodSugar;
      if bloodSugar.Some? && bloodSugar.value > 0.0 {
        bloodSugars := bloodSugars + [bloodSugar.value];
      }
    }
    assert records[..|records|] == records;
    stats := Some(Assemble(totals, weights, bloodSugars));
  }

  // ---------------------------------------------------------------------------
  // Totals

  /** Totals are additive: the totals of a concatenation are the sum of the parts' totals. */
  lemma {:induction false} TotalsAppend(a: seq<Record>, b: seq<Record>)
    ensures TotalsOf(a + b) == Plus(TotalsOf(a), TotalsOf(b))
  {
    if b == [] {
      assert a + b == a;
    } else {
      var init, last := b[..|b| - 1], b[|b| - 1];
      TotalsAppend(a, init);
      TotalsSnoc(a + init, last);
      SplitLast(a, b);
      PlusAssociative(TotalsOf(a), TotalsOf(init), DayTotals(last));
    }
  }

  /** Appending one record adds its contribution. */
  lemma TotalsSnoc(rs: seq<Record>, r: Record)
    ensures TotalsOf(rs + [r]) == Plus(TotalsOf(rs), DayTotals(r))
  {
    assert (rs + [r])[..|rs|] == rs;
  }

  /** Two collections whose records contribute the same totals, position by position, have the same totals. */
  lemma {:induction false} TotalsPointwise(a: seq<Record>, b: seq<Record>)
    requires |a| == |b| && forall i | 0 <= i < |a| :: DayTotals(a[i]) == DayTotals(b[i])
    ensures TotalsOf(a) == TotalsOf(b)
  {
    if a != [] {
      TotalsPointwise(a[..|a| - 1], b[..|b| - 1]);
    }
  }

  /** Sum of the per-day composite exercise minutes. */
  function SumExercise(rs: seq<Record>): real
  {
    if rs == [] then 0.0 else SumExercise(rs[..|rs| - 1]) + DayExercise(rs[|rs| - 1])
  }

  /** The composite of the totals equals the sum of the per-day composites. */
  lemma {:induction false} ExerciseIsSumOfDays(rs: seq<Record>)
    ensures ExerciseTime(TotalsOf(rs)) == SumExercise(rs)
  {
    if rs != [] {
      ExerciseIsSumOfDays(rs[..|rs| - 1]);
    }
  }

  /** The summary's exercise total and average are those of the per-day composites. */
  lemma SummaryExercise(rs: seq<Record>)
    requires rs != []
    ensures Summarize(rs).value.totalExerciseTime == SumExercise(rs)
    ensures Summarize(rs).value.avgExerciseTime == SumExercise(rs) / |rs| as real
  {
    ExerciseIsSumOfDays(rs);
  }

  /** Every day has a strength session exactly when the count is the day count; none when it is 0. */
  lemma {:induction false} StrengthCount(rs: seq<Record>)
    ensures TotalsOf(rs).strength == |rs| <==> forall i | 0 <= i < |rs| :: rs[i].strength
    ensures TotalsOf(rs).strength == 0 <==> forall i | 0 <= i < |rs| :: !rs[i].strength
  {
    if rs != [] {
      var init := rs[..|rs| - 1];
      StrengthCount(init);
      assert forall i | 0 <= i < |init| :: init[i] == rs[i];
    }
  }

  /** The positions of the days with a strength session. */
  function StrengthDays(rs: seq<Record>): set<int>
  {
    set i | 0 <= i < |rs| && rs[i].strength
  }

  /** `strength_sessions` counts the days whose strength box is set. */
  lemma {:induction false} StrengthSessionsCount(rs: seq<Record>)
    ensures TotalsOf(rs).strength == |StrengthDays(rs)|
  {
    if rs != [] {
      var init, n := rs[..|rs| - 1], |rs| - 1;
      StrengthSessionsCount(init);
      assert StrengthDays(init) == set i | 0 <= i < n && rs[i].strength;
      if rs[n].strength {
        assert StrengthDays(rs) == StrengthDays(init) + {n};
      } else {
        assert StrengthDays(rs) == StrengthDays(init);
      }
    }
  }

  // ---------------------------------------------------------------------------
  // Readings

  lemma {:induction false} ReadingsAppend(a: seq<Option<real>>, b: seq<Option<real>>)
    ensures Readings(a + b) == Readings(a) + Readings(b)
  {
    if b == [] {
      assert a + b == a;
    } else {
      assert (a + b)[..|a + b| - 1] == a + b[..|b| - 1];
      ReadingsAppend(a, b[..|b| - 1]);
    }
  }

  /** Appending one value adds it to the readings exactly when it is a reading. */
  lemma ReadingsSnoc(os: seq<Option<real>>, o: Option<real>)
    ensures Readings(os + [o]) == Readings(os) + (if IsReading(o) then [o.value] else [])
  {
    assert (os + [o])[..|os|] == os;
  }

  /** A value is among the readings exactly when some position holds it, present and positive. */
  lemma {:induction false} ReadingsMembers(os: seq<Option<real>>, x: real)
    ensures x in Readings(os) <==> exists i | 0 <= i < |os| :: os[i] == Some(x) && x > 0.0
  {
    if os != [] {
      var init := os[..|os| - 1];
      ReadingsMembers(init, x);
      if exists i | 0 <= i < |init| :: init[i] == Some(x) && x > 0.0 {
        var i :| 0 <= i < |init| && init[i] == Some(x) && x > 0.0;
        assert os[i] == Some(x);
      }
      if exists i | 0 <= i < |os| :: os[i] == Some(x) && x > 0.0 {
        var i :| 0 <= i < |os| && os[i] == Some(x) && x > 0.0;
        if i < |init| { assert init[i] == Some(x); }
      }
    }
  }

  /** A stretch without readings contributes nothing. */
  lemma {:induction false} NoReadings(os: seq<Option<real>>)
    requires forall i | 0 <= i < |os| :: !IsReading(os[i])
    ensures Readings(os) == []
  {
    if os != [] {
      NoReadings(os[..|os| - 1]);
    }
  }

  /** Positions that agree on being a reading, and on its value, give the same readings. */
  lemma {:induction false} ReadingsPointwise(a: seq<Option<real>>, b: seq<Option<real>>)
    requires |a| == |b|
    requires forall i | 0 <= i < |a| :: IsReading(a[i]) == IsReading(b[i])
    requires forall i | 0 <= i < |a| :: IsReading(a[i]) && IsReading(b[i]) ==> a[i].value == b[i].value
    ensures Readings(a) == Readings(b)
  {
    if a != [] {
      ReadingsPointwise(a[..|a| - 1], b[..|b| - 1]);
    }
  }

  /** The readings split at position i: those before it, its own (if any), those after it. */
  lemma ReadingsAround(os: seq<Option<real>>, i: int)
    requires 0 <= i < |os| && IsReading(os[i])
    ensures Readings(os) == Readings(os[..i]) + [os[i].value] + Readings(os[i + 1..])
  {
    var head := os[..i + 1];
    assert os == head + os[i + 1..];
    ReadingsAppend(head, os[i + 1..]);
    assert head[..|head| - 1] == os[..i];
    assert head[|head| - 1] == os[i];
    assert Readings(head) == Readings(os[..i]) + [os[i].value];
  }

  // ---------------------------------------------------------------------------
  // Weight and blood-sugar statistics

  /** Without any weight reading, the weight statistics are all 0. */
  lemma NoWeightStatistics(rs: seq<Record>)
    requires rs != [] && forall i | 0 <= i < |rs| :: !IsReading(rs[i].weight)
    ensures var s := Summarize(rs).value;
      s.avgWeight == 0.0 && s.latestWeight == 0.0 && s.weightChange == 0.0
  {
    NoReadings(Weights(rs));
  }

  /** Without any blood-sugar reading, the blood-sugar average is 0. */
  lemma NoBloodSugarStatistics(rs: seq<Record>)
    requires rs != [] && forall i | 0 <= i < |rs| :: !IsReading(rs[i].bloodSugar)
    ensures Summarize(rs).value.avgBloodSugar == 0.0
  {
    NoReadings(BloodSugars(rs));
  }

  /** The latest weight is the last positive weight in iteration order. */
  lemma LatestWeightIsLastReading(rs: seq<Record>, i: int)
    requires 0 <= i < |rs| && IsReading(rs[i].weight)
    requires forall j | i < j < |rs| :: !IsReading(rs[j].weight)
    ensures Summarize(rs).value.latestWeight == rs[i].weight.value
  {
    var ws := Weights(rs);
    ReadingsAround(ws, i);
    NoReadings(ws[i + 1..]);
  }

  /**
   * With readings at first position i and last position j > i, the weight
   * change is the last reading minus the first.
   */
  lemma WeightChangeIsLastMinusFirst(rs: seq<Record>, i: int, j: int)
    requires 0 <= i < j < |rs| && IsReading(rs[i].weight) && IsReading(rs[j].weight)
    requires forall k | 0 <= k < i :: !IsReading(rs[k].weight)
    requires forall k | j < k < |rs| :: !IsReading(rs[k].weight)
    ensures Summarize(rs).value.weightChange == rs[j].weight.value - rs[i].weight.value
  {
    var ws := Weights(rs);
    ReadingsAround(ws, j);
    NoReadings(ws[j + 1..]);
    var before := ws[..j];
    ReadingsAround(before, i);
    NoReadings(before[..i]);
    var xs := Readings(ws);
    assert |xs| > 1 && xs[0] == rs[i].weight.value && xs[|xs| - 1] == rs[j].weight.value;
  }

  /** A single weight reading is the average and the latest weight, and there is no change. */
  lemma SingleWeightNoChange(rs: seq<Record>, i: int)
    requires 0 <= i < |rs| && IsReading(rs[i].weight)
    requires forall k | 0 <= k < |rs| && k != i :: !IsReading(rs[k].weight)
    ensures var s := Summarize(rs).value;
      s.weightChange == 0.0 && s.latestWeight == rs[i].weight.value && s.avgWeight == rs[i].weight.value
  {
    var ws := Weights(rs);
    ReadingsAround(ws, i);
    NoReadings(ws[..i]);
    NoReadings(ws[i + 1..]);
    assert Readings(ws) == [rs[i].weight.value];
    assert Sum([rs[i].weight.value]) == rs[i].weight.value;
  }

  /**
   * A weight that is not a reading (absent, zero or negative) is ignored:
   * storing null in its place gives the same summary.
   */
  lemma NonReadingWeightIsAbsent(rs: seq<Record>, i: int)
    requires 0 <= i < |rs|
    requires !IsReading(rs[i].weight)
    ensures Summarize(rs[i := rs[i].(weight := None)]) == Summarize(rs)
  {
    var rs' := rs[i := rs[i].(weight := None)];
    TotalsPointwise(rs', rs);
    ReadingsPointwise(Weights(rs'), Weights(rs));
    assert BloodSugars(rs') == BloodSugars(rs);
  }

  /** A blood-sugar value of 0 or below leaves the summary as if none were recorded. */
  lemma NonReadingBloodSugarIsAbsent(rs: seq<Record>, i: int)
    requires 0 <= i < |rs|
    requires !IsReading(rs[i].bloodSugar)
    ensures Summarize(rs[i := rs[i].(bloodSugar := None)]) == Summarize(rs)
  {
    var rs' := rs[i := rs[i].(bloodSugar := None)];
    TotalsPointwise(rs', rs);
    ReadingsPointwise(BloodSugars(rs'), BloodSugars(rs));
    assert Weights(rs') == Weights(rs);
  }

  // ---------------------------------------------------------------------------
  // Worked examples

  /** A record with only the given treadmill, steps, lunch walk and weight. */
  function Sample(date: int, treadmill: real, steps: int, lunchWalk: real, weight: Option<real>): Record
  {
    Record(date, None, Some(treadmill), Some(steps), Some(lunchWalk), false, weight, None, "")
  }

  /** Weights 70 and 68.5 with a third day unweighed: average 69.25, latest 68.5, change -1.5. */
  lemma ExampleWeights()
    ensures var s := Summarize([Sample(0, 0.0, 0, 0.0, Some(70.0)), Sample(4, 0.0, 0, 0.0, Some(68.5)),
                                Sample(5, 0.0, 0, 0.0, None)]).value;
      s.avgWeight == 69.25 && s.latestWeight == 68.5 && s.weightChange == -1.5
  {
    var rs := [Sample(0, 0.0, 0, 0.0, Some(70.0)), Sample(4, 0.0, 0, 0.0, Some(68.5)), Sample(5, 0.0, 0, 0.0, None)];
    var ws := Weights(rs);
    assert ws == [Some(70.0)] + [Some(68.5)] + [None];
    ReadingsSnoc([], Some(70.0));
    ReadingsSnoc([Some(70.0)], Some(68.5));
    ReadingsSnoc([Some(70.0), Some(68.5)], None);
    assert [] + [Some(70.0)] == [Some(70.0)] && [Some(70.0)] + [Some(68.5)] == [Some(70.0), Some(68.5)];
    assert Readings(ws) == [70.0, 68.5];
    assert [70.0, 68.5][..1] == [70.0] && [70.0][..0] == [];
    assert Sum([70.0, 68.5]) == 138.5;
  }

  /**
   * The latest weight follows the store's iteration order, not the dates:
   * with a later day inserted before an earlier one, the earlier day's weight
   * is reported as the latest.
   */
  lemma ExampleLatestFollowsInsertionOrder()
    ensures var s := Summarize([Sample(10, 0.0, 0, 0.0, Some(80.0)), Sample(3, 0.0, 0, 0.0, Some(70.0))]).value;
      s.latestWeight == 70.0 && s.weightChange == -10.0
  {
    var rs := [Sample(10, 0.0, 0, 0.0, Some(80.0)), Sample(3, 0.0, 0, 0.0, Some(70.0))];
    WeightChangeIsLastMinusFirst(rs, 0, 1);
    LatestWeightIsLastReading(rs, 1);
  }
}
