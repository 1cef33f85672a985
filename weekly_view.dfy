/**
 * The weekly summary: the seven dates of a chosen program week, the records
 * stored under them, their summary and the day-by-day breakdown table.
 */
module WeeklyView {
  import opened Wrappers
  import opened Calendar
  import opened Ordering
  import opened Records
  import opened Aggregator
  import opened DailyEntry

  /** The seven dates of program week `w`, from its first day on. */
  function WeekDates(w: int): (ds: seq<int>)
    ensures |ds| == 7 && forall i | 0 <= i < 7 :: ds[i] == WeekStart(w) + i
    ensures Increasing(ds) && Distinct(ds)
  {
    seq(7, i requires 0 <= i < 7 => WeekStart(w) + i)
  }

  /** A date is among the week's dates exactly when it lies in that week's seven days. */
  lemma WeekDatesMember(w: int, d: int)
    ensures d in WeekDates(w) <==> WeekStart(w) <= d < WeekStart(w) + 7
  {
    if WeekStart(w) <= d < WeekStart(w) + 7 {
      assert WeekDates(w)[d - WeekStart(w)] == d;
    }
  }

  /**
   * Within the program window the week views partition the dates: a date is
   * in the view of week `w` exactly when `w` is its week number.
   */
  lemma WeekDatesPartition(w: int, d: int)
    requires 1 <= w <= ProgramWeeks && InDatePicker(d)
    ensures d in WeekDates(w) <==> WeekNumber(d) == w
  {
    WeekDatesMember(w, d);
    WeekNumberRange(d, w);
  }

  /** Every date of a program week's view has that week number. */
  lemma WeekDatesHaveWeek(w: int, d: int)
    requires 1 <= w <= ProgramWeeks && d in WeekDates(w)
    ensures WeekNumber(d) == w
  {
    WeekDatesMember(w, d);
    WeekNumberRange(d, w);
  }

  /** `week_data`: the entries stored under the seven dates of week `w`, in date order. */
  method WeekData(data: seq<Entry>, w: int) returns (weekData: seq<Entry>)
    ensures weekData == SelectDates(data, WeekDates(w))
  {
    var ds := WeekDates(w);
    weekData := [];
    for i := 0 to 7
      invariant weekData == SelectDates(data, ds[..i])
    {
      var dayDate := WeekStart(w) + i;
      assert ds[..i + 1][..i] == ds[..i] && ds[..i + 1][i] == dayDate;
      match Lookup(data, dayDate)
      case Some(r) =>
        weekData := weekData + [Entry(dayDate, r)];
      case None =>
    }
    assert ds[..7] == ds;
  }

  /**
   * The week's data holds exactly the stored entries dated within the week,
   * with distinct keys and in ascending date order.
   */
  lemma WeekDataSpec(data: seq<Entry>, w: int, e: Entry)
    requires KeysDistinct(data)
    ensures var weekData := SelectDates(data, WeekDates(w));
      && (e in weekData <==> e in data && WeekStart(w) <= e.date < WeekStart(w) + 7)
      && KeysDistinct(weekData)
      && Increasing(Dates(weekData))
  {
    SelectDatesExact(data, WeekDates(w), e);
    WeekDatesMember(w, e.date);
    SelectDatesDistinct(data, WeekDates(w));
    SelectDatesIncreasing(data, WeekDates(w));
  }

  /** A record saved on a date of the window shows up in the view of that date's week. */
  lemma SavedDayInItsWeek(data: seq<Entry>, d: int, f: FormInput)
    requires KeysDistinct(data) && InDatePicker(d)
    ensures var data' := Upsert(data, d, MakeRecord(d, f));
      Entry(d, MakeRecord(d, f)) in SelectDates(data', WeekDates(WeekNumber(d)))
  {
    var w := WeekNumber(d);
    WeekDatesPartition(w, d);
    SelectDatesHas(Upsert(data, d, MakeRecord(d, f)), WeekDates(w), d);
  }

  /**
   * The last date the picker admits as written, `end_date`, is numbered week
   * 30 but lies outside the seven dates of every week view, so a record saved
   * on it is never shown by the weekly summary.
   */
  lemma EndDateInNoWeek(data: seq<Entry>, f: FormInput)
    requires KeysDistinct(data)
    ensures InDatePickerAsWritten(ProgramEnd) && !InDatePicker(ProgramEnd)
    ensures WeekNumber(ProgramEnd) == ProgramWeeks
    ensures var data' := Upsert(data, ProgramEnd, MakeRecord(ProgramEnd, f));
      forall w, e | 1 <= w <= ProgramWeeks && e in SelectDates(data', WeekDates(w)) :: e.date != ProgramEnd
  {
    forall w | 1 <= w <= ProgramWeeks ensures ProgramEnd !in WeekDates(w) {
      WeekDatesMember(w, ProgramEnd);
    }
  }

  // ---------------------------------------------------------------------------
  // Daily breakdown

  /** One row of the breakdown table: a day with a record, or a day without one ("-" throughout). */
  datatype DayRow =
    | DayPresent(date: int, treadmill: real, steps: int, lunchWalk: real, totalExercise: real,
                 strength: bool, weight: Option<real>)
    | DayMissing(date: int)

  /** The weight column shows a stored weight unless it is null or 0. */
  function ShownWeight(o: Option<real>): (shown: Option<real>)
    ensures shown.Some? <==> o.Some? && o.value != 0.0
    ensures shown.Some? ==> shown == o
  {
    if o.Some? && o.value != 0.0 then o else None
  }

  /** The row for date `d` of the week's data. */
  function BreakdownRow(weekData: seq<Entry>, d: int): (row: DayRow)
    ensures row.date == d
    ensures row.DayPresent? <==> d in Dates(weekData)
    ensures row.DayPresent? ==>
      var r := Lookup(weekData, d).value;
      && row.treadmill == TreadmillOf(r) && row.steps == StepsOf(r) && row.lunchWalk == LunchWalkOf(r)
      && row.totalExercise == DayExercise(r) && row.strength == r.strength && row.weight == ShownWeight(r.weight)
  {
    match Lookup(weekData, d)
    case None => DayMissing(d)
    case Some(r) =>
      DayPresent(d, TreadmillOf(r), StepsOf(r), LunchWalkOf(r), DayExercise(r), r.strength, ShownWeight(r.weight))
  }

  function BreakdownRows(weekData: seq<Entry>, ds: seq<int>): (rows: seq<DayRow>)
    ensures |rows| == |ds| && forall i | 0 <= i < |ds| :: rows[i] == BreakdownRow(weekData, ds[i])
  {
    seq(|ds|, i requires 0 <= i < |ds| => BreakdownRow(weekData, ds[i]))
  }

  /** `daily_df`: one row per day of week `w`, built with a loop over the seven dates. */
  method DailyBreakdown(weekData: seq<Entry>, w: int) returns (rows: seq<DayRow>)
    ensures rows == BreakdownRows(weekData, WeekDates(w))
  {
    rows := [];
    for i := 0 to 7
      invariant |rows| == i
      invariant forall k | 0 <= k < i :: rows[k] == BreakdownRow(weekData, WeekStart(w) + k)
    {
      var dayDate := WeekStart(w) + i;
      var row: DayRow;
      match Lookup(weekData, dayDate) {
        case Some(r) =>
          var totalDayExercise := TreadmillOf(r) + StepsOf(r) as real / StepsPerMinute + LunchWalkOf(r);
          row := DayPresent(dayDate, TreadmillOf(r), StepsOf(r), LunchWalkOf(r), totalDayExercise,
                            r.strength, ShownWeight(r.weight));
        case None =>
          row := DayMissing(dayDate);
      }
      rows := rows + [row];
    }
  }

  /** Number of rows with a record. */
  function PresentRows(rows: seq<DayRow>): nat
  {
    if rows == [] then 0
    else PresentRows(rows[..|rows| - 1]) + (if rows[|rows| - 1].DayPresent? then 1 else 0)
  }

  /** Sum of the "Total Exercise" column over the rows with a record. */
  function RowsExercise(rows: seq<DayRow>): real
  {
    if rows == [] then 0.0
    else
      var last := rows[|rows| - 1];
      RowsExercise(rows[..|rows| - 1]) + (if last.DayPresent? then last.totalExercise else 0.0)
  }

  lemma SumExerciseSnoc(rs: seq<Record>, r: Record)
    ensures SumExercise(rs + [r]) == SumExercise(rs) + DayExercise(r)
  {
    assert (rs + [r])[..|rs|] == rs;
  }

  /**
   * Rows built over the store itself count the selected entries and add up
   * their composite exercise minutes.
   */
  lemma {:induction false} RowsMatchSelection(data: seq<Entry>, ds: seq<int>)
    ensures var rows := BreakdownRows(data, ds);
      var sel := Values(SelectDates(data, ds));
      PresentRows(rows) == |sel| && RowsExercise(rows) == SumExercise(sel)
  {
    if ds != [] {
      var init, d := ds[..|ds| - 1], ds[|ds| - 1];
      RowsMatchSelection(data, init);
      var rows := BreakdownRows(data, ds);
      assert rows[..|rows| - 1] == BreakdownRows(data, init);
      var sel := SelectDates(data, init);
      match Lookup(data, d)
      case None =>
        assert SelectDates(data, ds) == sel;
      case Some(r) =>
        assert SelectDates(data, ds) == sel + [Entry(d, r)];
        assert Values(sel + [Entry(d, r)]) == Values(sel) + [r];
        SumExerciseSnoc(Values(sel), r);
    }
  }

  /** Over the week's own dates, the week's data answers like the store. */
  lemma BreakdownOverSelection(data: seq<Entry>, ds: seq<int>)
    requires Distinct(ds)
    ensures BreakdownRows(SelectDates(data, ds), ds) == BreakdownRows(data, ds)
  {
    forall i | 0 <= i < |ds| ensures BreakdownRow(SelectDates(data, ds), ds[i]) == BreakdownRow(data, ds[i]) {
      LookupSelected(data, ds, ds[i]);
    }
  }

  /**
   * The breakdown of a week agrees with the week's summary: it has a record
   * row for each logged day, and its "Total Exercise" column adds up to the
   * summary's total exercise time.
   */
  lemma BreakdownAgreesWithSummary(data: seq<Entry>, w: int)
    requires SelectDates(data, WeekDates(w)) != []
    ensures var weekData := SelectDates(data, WeekDates(w));
      var rows := BreakdownRows(weekData, WeekDates(w));
      var stats := Summarize(Values(weekData)).value;
      && |rows| == 7
      && PresentRows(rows) == stats.totalDays
      && RowsExercise(rows) == stats.totalExerciseTime
  {
    var weekData := SelectDates(data, WeekDates(w));
    BreakdownOverSelection(data, WeekDates(w));
    RowsMatchSelection(data, WeekDates(w));
    ExerciseIsSumOfDays(Values(weekData));
  }
}
