/**
 * The monthly summary: the months that have records, the records of the
 * chosen month, their summary, and the weekly trend rows that partition the
 * month's records by program week.
 */
module MonthlyView {
  import opened Wrappers
  import opened Calendar
  import opened Ordering
  import opened Records
  import opened Aggregator

  // ---------------------------------------------------------------------------
  // Months

  /** Calendar year and month of a date. */
  function YearMonth(d: int): (int, int)
  {
    var c := CivilFromDays(d);
    (c.year, c.month)
  }

  /** A month as one integer, ordered as (year, month) pairs are: 12 * year + month - 1. */
  function MonthKey(d: int): int
  {
    var c := CivilFromDays(d);
    12 * c.year + c.month - 1
  }

  /** The (year, month) pair a month key stands for. */
  function KeyMonth(k: int): (ym: (int, int))
    ensures 1 <= ym.1 <= 12 && 12 * ym.0 + ym.1 - 1 == k
  {
    (k / 12, k % 12 + 1)
  }

  lemma KeyMonthOfDate(d: int)
    ensures KeyMonth(MonthKey(d)) == YearMonth(d)
  {
    var c := CivilFromDays(d);
    DivideByTwelve(c.year, c.month - 1);
  }

  lemma DivideByTwelve(q: int, r: int)
    requires 0 <= r < 12
    ensures (12 * q + r) / 12 == q && (12 * q + r) % 12 == r
  {
  }

  function MonthKeys(data: seq<Entry>): (ks: seq<int>)
    ensures |ks| == |data| && forall i | 0 <= i < |data| :: ks[i] == MonthKey(data[i].date)
  {
    seq(|data|, i requires 0 <= i < |data| => MonthKey(data[i].date))
  }

  /** `sorted(set((d.year, d.month) for d in dates))`: the months with records, in calendar order. */
  function AvailableMonths(data: seq<Entry>): (months: seq<(int, int)>)
    ensures |months| <= |data|
    ensures months == [] <==> data == []
    ensures forall i | 0 <= i < |months| :: 1 <= months[i].1 <= 12
  {
    var ks := Sort(MonthKeys(data));
    assert data != [] ==> MonthKeys(data)[0] in ks;
    seq(|ks|, i requires 0 <= i < |ks| => KeyMonth(ks[i]))
  }

  /** Calendar order on (year, month) pairs. */
  predicate MonthBefore(a: (int, int), b: (int, int))
  {
    a.0 < b.0 || (a.0 == b.0 && a.1 < b.1)
  }

  /** The month list is in strictly ascending calendar order, so it names each month once. */
  lemma AvailableMonthsOrdered(data: seq<Entry>)
    ensures var months := AvailableMonths(data);
      forall i, j | 0 <= i < j < |months| :: MonthBefore(months[i], months[j])
  {
    var ks := Sort(MonthKeys(data));
    var months := AvailableMonths(data);
    forall i, j | 0 <= i < j < |months| ensures MonthBefore(months[i], months[j]) {
      assert ks[i] < ks[j];
    }
  }

  /** Every month of the list has a record. */
  lemma ListedMonthOccurs(data: seq<Entry>, i: int)
    requires 0 <= i < |AvailableMonths(data)|
    ensures exists e | e in data :: YearMonth(e.date) == AvailableMonths(data)[i]
  {
    var ks := Sort(MonthKeys(data));
    assert ks[i] in MonthKeys(data);
    var n :| 0 <= n < |data| && MonthKeys(data)[n] == ks[i];
    KeyMonthOfDate(data[n].date);
    assert data[n] in data;
  }

  /** The month of every record is on the list. */
  lemma RecordMonthListed(data: seq<Entry>, e: Entry)
    requires e in data
    ensures YearMonth(e.date) in AvailableMonths(data)
  {
    var ks := Sort(MonthKeys(data));
    var n :| 0 <= n < |data| && data[n] == e;
    assert MonthKey(e.date) in MonthKeys(data);
    var i :| 0 <= i < |ks| && ks[i] == MonthKey(e.date);
    KeyMonthOfDate(e.date);
    assert AvailableMonths(data)[i] == YearMonth(e.date);
  }

  /** The month list names exactly the months that have a record. */
  lemma AvailableMonthsExact(data: seq<Entry>)
    ensures var months := AvailableMonths(data);
      && (forall i | 0 <= i < |months| :: exists e | e in data :: YearMonth(e.date) == months[i])
      && (forall e | e in data :: YearMonth(e.date) in months)
  {
    forall i | 0 <= i < |AvailableMonths(data)|
      ensures exists e | e in data :: YearMonth(e.date) == AvailableMonths(data)[i]
    {
      ListedMonthOccurs(data, i);
    }
    forall e | e in data ensures YearMonth(e.date) in AvailableMonths(data) {
      RecordMonthListed(data, e);
    }
  }

  // ---------------------------------------------------------------------------
  // Month data

  /** The entries of month (`year`, `month`), in the store's iteration order. */
  function FilterMonth(data: seq<Entry>, year: int, month: int): (monthData: seq<Entry>)
    ensures |monthData| <= |data|
    ensures forall e | e in monthData :: e in data && YearMonth(e.date) == (year, month)
  {
    if data == [] then []
    else
      var e := data[|data| - 1];
      FilterMonth(data[..|data| - 1], year, month) + (if YearMonth(e.date) == (year, month) then [e] else [])
  }

  /** `month_data`, collected with a loop over the store. */
  method MonthData(data: seq<Entry>, year: int, month: int) returns (monthData: seq<Entry>)
    ensures monthData == FilterMonth(data, year, month)
  {
    monthData := [];
    for i := 0 to |data|
      invariant monthData == FilterMonth(data[..i], year, month)
    {
      assert data[..i + 1][..i] == data[..i];
      var dateObj := YearMonth(data[i].date);
      if dateObj.0 == year && dateObj.1 == month {
        monthData := monthData + [data[i]];
      }
    }
    assert data[..|data|] == data;
  }

  /** Filtering keeps the iteration order: it distributes over concatenation. */
  lemma {:induction false} FilterMonthAppend(a: seq<Entry>, b: seq<Entry>, year: int, month: int)
    ensures FilterMonth(a + b, year, month) == FilterMonth(a, year, month) + FilterMonth(b, year, month)
  {
    if b == [] {
      assert a + b == a;
    } else {
      assert (a + b)[..|a + b| - 1] == a + b[..|b| - 1];
      FilterMonthAppend(a, b[..|b| - 1], year, month);
    }
  }

  /** The month's data holds exactly the stored entries dated in that month. */
  lemma {:induction false} FilterMonthMembers(data: seq<Entry>, year: int, month: int, e: Entry)
    ensures e in FilterMonth(data, year, month) <==> e in data && YearMonth(e.date) == (year, month)
  {
    if data != [] {
      var init := data[..|data| - 1];
      FilterMonthMembers(init, year, month, e);
      assert data == init + [data[|data| - 1]];
    }
  }

  /** A month from the month list always has records, so its summary exists. */
  lemma ListedMonthHasData(data: seq<Entry>, i: int)
    requires 0 <= i < |AvailableMonths(data)|
    ensures var ym := AvailableMonths(data)[i];
      FilterMonth(data, ym.0, ym.1) != [] && Summarize(Values(FilterMonth(data, ym.0, ym.1))).Some?
  {
    AvailableMonthsExact(data);
    var ym := AvailableMonths(data)[i];
    var e :| e in data && YearMonth(e.date) == ym;
    FilterMonthMembers(data, ym.0, ym.1, e);
  }

  // ---------------------------------------------------------------------------
  // Weekly trends

  /** `data.get('week', get_week_number(date_str))`: the stored week, or the week of the key's date. */
  function EntryWeek(e: Entry): (w: int)
    ensures e.record.week.Some? ==> w == e.record.week.value
    ensures e.record.week.None? || e.record.week == Some(WeekNumber(e.date)) ==> w == WeekNumber(e.date)
    ensures e.record.week.None? ==> 1 <= w <= ProgramWeeks
  {
    match e.record.week
    case Some(w) => w
    case None => WeekNumber(e.date)
  }

  /** The records of week `k`, in iteration order. */
  function RecordsOfWeek(data: seq<Entry>, k: int): (rs: seq<Record>)
    ensures |rs| <= |data|
  {
    if data == [] then []
    else
      var e := data[|data| - 1];
      RecordsOfWeek(data[..|data| - 1], k) + (if EntryWeek(e) == k then [e.record] else [])
  }

  /** `weekly_data`: the month's records grouped by week, each group in iteration order. */
  function GroupByWeek(data: seq<Entry>): (groups: map<int, seq<Record>>)
    ensures forall k | k in groups :: groups[k] != [] && |groups[k]| <= |data|
    ensures forall e | e in data :: EntryWeek(e) in groups
  {
    if data == [] then map[]
    else
      var init := data[..|data| - 1];
      var groups := GroupByWeek(init);
      var e := data[|data| - 1];
      var k := EntryWeek(e);
      assert forall x | x in data :: x in init || x == e by {
        assert data == init + [e];
      }
      groups[k := (if k in groups then groups[k] else []) + [e.record]]
  }

  /** `weekly_data`, built with the source's loop. */
  method GroupWeeks(monthData: seq<Entry>) returns (weeklyData: map<int, seq<Record>>)
    ensures weeklyData == GroupByWeek(monthData)
  {
    weeklyData := map[];
    for i := 0 to |monthData|
      invariant weeklyData == GroupByWeek(monthData[..i])
    {
      assert monthData[..i + 1][..i] == monthData[..i];
      var week := EntryWeek(monthData[i]);
      if week !in weeklyData {
        weeklyData := weeklyData[week := []];
      }
      weeklyData := weeklyData[week := weeklyData[week] + [monthData[i].record]];
    }
    assert monthData[..|monthData|] == monthData;
  }

  /**
   * The groups are keyed by exactly the weeks that occur, and the group of
   * week `k` is the non-empty list of that week's records in iteration order.
   */
  lemma {:induction false} GroupByWeekSpec(data: seq<Entry>, k: int)
    ensures k in GroupByWeek(data) <==> exists e | e in data :: EntryWeek(e) == k
    ensures k in GroupByWeek(data) ==> GroupByWeek(data)[k] == RecordsOfWeek(data, k) != []
    ensures k !in GroupByWeek(data) ==> RecordsOfWeek(data, k) == []
  {
    if data != [] {
      var init := data[..|data| - 1];
      var e := data[|data| - 1];
      GroupByWeekSpec(init, k);
      assert data == init + [e];
      if exists x | x in init :: EntryWeek(x) == k {
        var x :| x in init && EntryWeek(x) == k;
        assert x in data;
      }
    }
  }

  function EntryWeeks(data: seq<Entry>): (ws: seq<int>)
    ensures |ws| == |data| && forall i | 0 <= i < |data| :: ws[i] == EntryWeek(data[i])
  {
    seq(|data|, i requires 0 <= i < |data| => EntryWeek(data[i]))
  }

  /** The weeks of the month's records in ascending order: the order of `sorted(weekly_data.items())`. */
  function WeekOrder(data: seq<Entry>): (ks: seq<int>)
    ensures Increasing(ks)
    ensures forall k :: k in ks <==> k in GroupByWeek(data)
  {
    var ks := Sort(EntryWeeks(data));
    assert forall k :: k in GroupByWeek(data) <==> k in EntryWeeks(data) by {
      forall k ensures k in GroupByWeek(data) <==> k in EntryWeeks(data) {
        GroupByWeekSpec(data, k);
        if k in EntryWeeks(data) {
          var i :| 0 <= i < |data| && EntryWeeks(data)[i] == k;
          assert data[i] in data;
        }
        if exists e | e in data :: EntryWeek(e) == k {
          var e :| e in data && EntryWeek(e) == k;
          var i :| 0 <= i < |data| && data[i] == e;
          assert EntryWeeks(data)[i] == k;
        }
      }
    }
    ks
  }

  /** One row of the weekly trends table: the week and the summary of its records. */
  datatype WeekRow = WeekRow(week: int, stats: Summary)

  /** The row for week `k`: the week and the summary of its (non-empty) group. */
  function TrendRow(groups: map<int, seq<Record>>, k: int): (row: WeekRow)
    requires k in groups && groups[k] != []
    ensures row.week == k && Summarize(groups[k]) == Some(row.stats)
  {
    WeekRow(k, Summarize(groups[k]).value)
  }

  /** The rows for weeks `ks` of the groups, in the order of `ks`. */
  function TrendRows(groups: map<int, seq<Record>>, ks: seq<int>): (rows: seq<WeekRow>)
    requires forall k | k in ks :: k in groups && groups[k] != []
    ensures |rows| == |ks| && forall i | 0 <= i < |ks| :: rows[i] == TrendRow(groups, ks[i])
  {
    if ks == [] then []
    else TrendRows(groups, ks[..|ks| - 1]) + [TrendRow(groups, ks[|ks| - 1])]
  }

  /** `weekly_summary`: one row per week in ascending week order, built with the source's loop. */
  method WeeklySummary(weeklyData: map<int, seq<Record>>, weeks: seq<int>) returns (rows: seq<WeekRow>)
    requires forall k | k in weeks :: k in weeklyData && weeklyData[k] != []
    ensures rows == TrendRows(weeklyData, weeks)
  {
    rows := [];
    for i := 0 to |weeks|
      invariant rows == TrendRows(weeklyData, weeks[..i])
    {
      var week := weeks[i];
      var weekStats := GetSummaryStats(DayKeyed(weeklyData[week]));
      assert Values(DayKeyed(weeklyData[week])) == weeklyData[week];
      assert WeekRow(week, weekStats.value) == TrendRow(weeklyData, week);
      assert weeks[..i + 1][..i] == weeks[..i];
      rows := rows + [WeekRow(week, weekStats.value)];
    }
    assert weeks[..|weeks|] == weeks;
  }

  /** `{f"day_{i}": entry ...}`: a group re-keyed by position, which keeps the records and their order. */
  function DayKeyed(rs: seq<Record>): (data: seq<Entry>)
    ensures Values(data) == rs
  {
    var data := seq(|rs|, i requires 0 <= i < |rs| => Entry(i, rs[i]));
    assert Values(data) == rs;
    data
  }

  /** Every week of the order has a non-empty group, and every record's week is in the order. */
  lemma WeekOrderCovers(monthData: seq<Entry>)
    ensures var groups, ks := GroupByWeek(monthData), WeekOrder(monthData);
      && (forall k | k in ks :: k in groups && groups[k] != [])
      && (forall e | e in monthData :: EntryWeek(e) in ks)
  {
  }

  /**
   * The trend rows of the month's data: one per week that occurs, in
   * ascending week order, each holding the summary of that week's group.
   */
  function WeeklyTrends(monthData: seq<Entry>): (rows: seq<WeekRow>)
    ensures |rows| == |WeekOrder(monthData)|
    ensures forall i | 0 <= i < |rows| :: rows[i].week == WeekOrder(monthData)[i]
    ensures forall i | 0 <= i < |rows| :: rows[i].week in GroupByWeek(monthData)
    ensures forall i | 0 <= i < |rows| :: Summarize(GroupByWeek(monthData)[rows[i].week]) == Some(rows[i].stats)
    ensures rows == [] <==> monthData == []
  {
    var groups, ks := GroupByWeek(monthData), WeekOrder(monthData);
    WeekOrderCovers(monthData);
    assert monthData != [] ==> EntryWeek(monthData[0]) in ks;
    var rows := TrendRows(groups, ks);
    TrendRowsSummaries(groups, ks, rows);
    rows
  }

  /** Each trend row is for its week, which has a group, and holds the summary of that group. */
  lemma TrendRowsSummaries(groups: map<int, seq<Record>>, ks: seq<int>, rows: seq<WeekRow>)
    requires forall k | k in ks :: k in groups && groups[k] != []
    requires rows == TrendRows(groups, ks)
    ensures |rows| == |ks|
    ensures forall i | 0 <= i < |rows| ::
      rows[i].week == ks[i] && rows[i].week in groups && Summarize(groups[rows[i].week]) == Some(rows[i].stats)
  {
    forall i | 0 <= i < |rows|
      ensures rows[i].week == ks[i] && rows[i].week in groups && Summarize(groups[rows[i].week]) == Some(rows[i].stats)
    {
      var row := TrendRow(groups, ks[i]);
    }
  }

  // ---------------------------------------------------------------------------
  // Partition consistency

  /** Sum of the totals of the week groups `ks`. */
  function SumOverWeeks(data: seq<Entry>, ks: seq<int>): Totals
  {
    if ks == [] then NoTotals
    else Plus(SumOverWeeks(data, ks[..|ks| - 1]), TotalsOf(RecordsOfWeek(data, ks[|ks| - 1])))
  }

  /** The totals of week `k` grow by a record's contribution exactly when the record is of week `k`. */
  lemma WeekTotalsSnoc(data: seq<Entry>, e: Entry, k: int)
    ensures TotalsOf(RecordsOfWeek(data + [e], k)) ==
      if EntryWeek(e) == k then Plus(TotalsOf(RecordsOfWeek(data, k)), DayTotals(e.record))
      else TotalsOf(RecordsOfWeek(data, k))
  {
    assert (data + [e])[..|data|] == data;
    if EntryWeek(e) == k {
      TotalsSnoc(RecordsOfWeek(data, k), e.record);
    } else {
      assert RecordsOfWeek(data + [e], k) == RecordsOfWeek(data, k) + [];
      assert RecordsOfWeek(data, k) + [] == RecordsOfWeek(data, k);
    }
  }

  /** A new record adds its contribution once to the sum over distinct weeks that include its week. */
  lemma {:induction false} SumOverWeeksSnoc(data: seq<Entry>, e: Entry, ks: seq<int>)
    requires Distinct(ks)
    ensures SumOverWeeks(data + [e], ks) ==
      if EntryWeek(e) in ks then Plus(SumOverWeeks(data, ks), DayTotals(e.record)) else SumOverWeeks(data, ks)
  {
    if ks != [] {
      var init, k := ks[..|ks| - 1], ks[|ks| - 1];
      assert Distinct(init);
      assert EntryWeek(e) in ks <==> EntryWeek(e) in init || EntryWeek(e) == k;
      assert EntryWeek(e) == k ==> EntryWeek(e) !in init;
      SumOverWeeksSnoc(data, e, init);
      WeekTotalsSnoc(data, e, k);
      var before, here, day := SumOverWeeks(data, init), TotalsOf(RecordsOfWeek(data, k)), DayTotals(e.record);
      assert SumOverWeeks(data, ks) == Plus(before, here);
      if EntryWeek(e) in init {
        PlusSwap(before, day, here);
      } else if EntryWeek(e) == k {
        PlusAssociative(before, here, day);
      }
    }
  }

  /**
   * Partition consistency: over distinct weeks that include every record's
   * week, the week groups' totals add up to the totals of all the records.
   */
  lemma {:induction false} PartitionTotals(data: seq<Entry>, ks: seq<int>)
    requires Distinct(ks) && forall e | e in data :: EntryWeek(e) in ks
    ensures SumOverWeeks(data, ks) == TotalsOf(Values(data))
  {
    if data == [] {
      EmptyWeeks(ks);
    } else {
      var init, e := data[..|data| - 1], data[|data| - 1];
      assert data == init + [e];
      PartitionTotals(init, ks);
      SumOverWeeksSnoc(init, e, ks);
      assert Values(data)[..|data| - 1] == Values(init);
    }
  }

  lemma {:induction false} EmptyWeeks(ks: seq<int>)
    ensures SumOverWeeks([], ks) == NoTotals
  {
    if ks != [] {
      EmptyWeeks(ks[..|ks| - 1]);
      assert RecordsOfWeek([], ks[|ks| - 1]) == [];
      assert TotalsOf([]) == NoTotals;
    }
  }

  /** Sum of the totals the rows report. */
  function RowsTotals(rows: seq<WeekRow>): Totals
  {
    if rows == [] then NoTotals
    else Plus(RowsTotals(rows[..|rows| - 1]), SummaryTotals(rows[|rows| - 1].stats))
  }

  lemma {:induction false} TrendRowsTotals(data: seq<Entry>, ks: seq<int>)
    requires forall k | k in ks :: k in GroupByWeek(data) && GroupByWeek(data)[k] != []
    ensures RowsTotals(TrendRows(GroupByWeek(data), ks)) == SumOverWeeks(data, ks)
  {
    if ks != [] {
      var init, k := ks[..|ks| - 1], ks[|ks| - 1];
      var rows := TrendRows(GroupByWeek(data), ks);
      assert rows[..|rows| - 1] == TrendRows(GroupByWeek(data), init);
      TrendRowsTotals(data, init);
      GroupByWeekSpec(data, k);
    }
  }

  /**
   * The weekly trend rows of a month, added together, give the same totals as
   * the month's own summary: days, treadmill, steps, lunch walks and strength
   * sessions.
   */
  lemma TrendsAddUpToMonth(monthData: seq<Entry>)
    requires monthData != []
    ensures RowsTotals(WeeklyTrends(monthData)) == SummaryTotals(Summarize(Values(monthData)).value)
  {
    var ks := WeekOrder(monthData);
    forall k | k in ks ensures k in GroupByWeek(monthData) && GroupByWeek(monthData)[k] != [] {
      GroupByWeekSpec(monthData, k);
    }
    TrendRowsTotals(monthData, ks);
    forall e | e in monthData ensures EntryWeek(e) in ks {
      GroupByWeekSpec(monthData, EntryWeek(e));
    }
    PartitionTotals(monthData, ks);
  }
}
