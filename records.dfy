/**
 * Daily records and the date-keyed store that holds them.
 *
 * The store is a dictionary from ISO date strings to records; iteration follows
 * insertion order. It is modelled as a sequence of entries in that order whose
 * date keys are distinct. A date key is a day ordinal (see Calendar), and ISO
 * date strings sort in the same order as ordinals.
 */
module Records {
  import opened Wrappers
  import opened Ordering

  /**
   * One day's record. An Option field is None when the record stores null
   * or lacks the key; the program itself writes every key, using null only
   * for an unrecorded weight or blood sugar.
   */
  datatype Record = Record(
    date: int,
    week: Option<int>,
    treadmill: Option<real>,
    steps: Option<int>,
    lunchWalk: Option<real>,
    strength: bool,
    weight: Option<real>,
    bloodSugar: Option<real>,
    mood: string)

  /** An item of the store: the date key and its record. */
  datatype Entry = Entry(date: int, record: Record)

  // An exercise field that is missing or null reads as 0 (`data.get(f, 0) or 0`).

  function TreadmillOf(r: Record): real { r.treadmill.GetOr(0.0) }

  function StepsOf(r: Record): int { r.steps.GetOr(0) }

  function LunchWalkOf(r: Record): real { r.lunchWalk.GetOr(0.0) }

  /** The fixed conversion of the composite metric: 100 steps count as one minute. */
  const StepsPerMinute: real := 100.0

  /** Composite exercise minutes of one day: treadmill + steps / 100 + lunch walk. */
  function DayExercise(r: Record): (e: real)
    ensures e * StepsPerMinute == (TreadmillOf(r) + LunchWalkOf(r)) * StepsPerMinute + StepsOf(r) as real
    ensures TreadmillOf(r) >= 0.0 && StepsOf(r) >= 0 && LunchWalkOf(r) >= 0.0 ==> e >= 0.0
  {
    TreadmillOf(r) + StepsOf(r) as real / StepsPerMinute + LunchWalkOf(r)
  }

  /** A weight or blood-sugar value counts only when present and positive. */
  predicate IsReading(o: Option<real>)
  {
    o.Some? && o.value > 0.0
  }

  /** The records of the store in iteration order (`data_dict.values()`). */
  function Values(data: seq<Entry>): (rs: seq<Record>)
    ensures |rs| == |data| && forall i | 0 <= i < |data| :: rs[i] == data[i].record
  {
    seq(|data|, i requires 0 <= i < |data| => data[i].record)
  }

  /** The date keys in iteration order (`data_dict.keys()`). */
  function Dates(data: seq<Entry>): (ds: seq<int>)
    ensures |ds| == |data| && forall i | 0 <= i < |data| :: ds[i] == data[i].date
  {
    seq(|data|, i requires 0 <= i < |data| => data[i].date)
  }

  /** Dictionary keys are unique. */
  predicate KeysDistinct(data: seq<Entry>)
  {
    Distinct(Dates(data))
  }

  /** `data.get(d)`: the record stored under key `d`, if any. */
  function Lookup(data: seq<Entry>, d: int): (found: Option<Record>)
    ensures found.Some? ==> Entry(d, found.value) in data
    ensures found.None? <==> d !in Dates(data)
  {
    if data == [] then None
    else if data[0].date == d then Some(data[0].record)
    else
      assert Dates(data) == [data[0].date] + Dates(data[1..]);
      Lookup(data[1..], d)
  }

  /** In a store with unique keys, looking up an entry's key gives its record. */
  lemma {:induction false} LookupFinds(data: seq<Entry>, i: int)
    requires KeysDistinct(data) && 0 <= i < |data|
    ensures Lookup(data, data[i].date) == Some(data[i].record)
  {
    if i > 0 {
      assert data[1..][i - 1] == data[i];
      assert Dates(data[1..]) == Dates(data)[1..];
      LookupFinds(data[1..], i - 1);
    }
  }

  /** A lookup in a concatenation finds the first part's record before the second's. */
  lemma {:induction false} LookupAppend(a: seq<Entry>, b: seq<Entry>, d: int)
    ensures Lookup(a + b, d) == if Lookup(a, d).Some? then Lookup(a, d) else Lookup(b, d)
  {
    if a != [] {
      assert (a + b)[0] == a[0];
      assert (a + b)[1..] == a[1..] + b;
      LookupAppend(a[1..], b, d);
      if a[0].date != d {
        assert Lookup(a + b, d) == Lookup(a[1..] + b, d);
        assert Lookup(a, d) == Lookup(a[1..], d);
      }
    } else {
      assert a + b == b;
    }
  }

  /**
   * The entries stored under the dates `ds`, in the order of `ds`; a date
   * with no record contributes nothing.
   */
  function SelectDates(data: seq<Entry>, ds: seq<int>): (sel: seq<Entry>)
    ensures |sel| <= |ds|
    ensures forall e | e in sel :: e.date in ds && Lookup(data, e.date) == Some(e.record)
  {
    if ds == [] then []
    else
      var rest := SelectDates(data, ds[..|ds| - 1]);
      var d := ds[|ds| - 1];
      assert forall e | e in rest :: e.date in ds by {
        forall e | e in rest ensures e.date in ds {
          var i :| 0 <= i < |ds| - 1 && ds[..|ds| - 1][i] == e.date;
          assert ds[i] == e.date;
        }
      }
      match Lookup(data, d)
      case Some(r) => rest + [Entry(d, r)]
      case None => rest
  }

  /** A date of `ds` with a record contributes its entry to the selection. */
  lemma {:induction false} SelectDatesHas(data: seq<Entry>, ds: seq<int>, d: int)
    requires d in ds && Lookup(data, d).Some?
    ensures Entry(d, Lookup(data, d).value) in SelectDates(data, ds)
  {
    var init := ds[..|ds| - 1];
    if ds[|ds| - 1] != d {
      var i :| 0 <= i < |ds| && ds[i] == d;
      assert init[i] == d;
      SelectDatesHas(data, init, d);
    }
  }

  /** The selection holds exactly the stored entries whose dates are among `ds`. */
  lemma SelectDatesExact(data: seq<Entry>, ds: seq<int>, e: Entry)
    requires KeysDistinct(data)
    ensures e in SelectDates(data, ds) <==> e in data && e.date in ds
  {
    if e in data && e.date in ds {
      var i :| 0 <= i < |data| && data[i] == e;
      LookupFinds(data, i);
      SelectDatesHas(data, ds, e.date);
    }
  }

  /** Selecting distinct dates yields entries with distinct keys. */
  lemma {:induction false} SelectDatesDistinct(data: seq<Entry>, ds: seq<int>)
    requires Distinct(ds)
    ensures KeysDistinct(SelectDates(data, ds))
  {
    if ds != [] {
      var init := ds[..|ds| - 1];
      var d := ds[|ds| - 1];
      SelectDatesDistinct(data, init);
      var rest := SelectDates(data, init);
      assert forall e | e in rest :: e.date != d by {
        forall e | e in rest ensures e.date != d {
          var i :| 0 <= i < |init| && init[i] == e.date;
          assert ds[i] == e.date;
        }
      }
      forall i | 0 <= i < |rest| ensures rest[i].date != d {
        assert rest[i] in rest;
      }
    }
  }

  /** Selecting dates in ascending order yields entries in ascending date order. */
  lemma {:induction false} SelectDatesIncreasing(data: seq<Entry>, ds: seq<int>)
    requires Increasing(ds)
    ensures Increasing(Dates(SelectDates(data, ds)))
  {
    if ds != [] {
      var init := ds[..|ds| - 1];
      var d := ds[|ds| - 1];
      IncreasingPrefix(ds, |ds| - 1);
      SelectDatesIncreasing(data, init);
      var rest := SelectDates(data, init);
      assert forall k | k in init :: k < d;
      assert forall e | e in rest :: e.date < d;
      match Lookup(data, d)
      case None =>
        assert SelectDates(data, ds) == rest;
      case Some(r) =>
        assert SelectDates(data, ds) == rest + [Entry(d, r)];
        assert Dates(rest + [Entry(d, r)]) == Dates(rest) + [d];
        forall k | k in Dates(rest) ensures k < d {
          var i :| 0 <= i < |rest| && Dates(rest)[i] == k;
          assert rest[i] in rest;
        }
        IncreasingAppend(Dates(rest), d);
    }
  }

  /** When every date of `ds` has a record, the selection has one entry per date. */
  lemma {:induction false} SelectDatesAllPresent(data: seq<Entry>, ds: seq<int>)
    requires forall d | d in ds :: d in Dates(data)
    ensures |SelectDates(data, ds)| == |ds|
  {
    if ds != [] {
      var init := ds[..|ds| - 1];
      assert forall d | d in init :: d in ds;
      SelectDatesAllPresent(data, init);
    }
  }

  /** Within the selected dates, the selection answers lookups as the store does. */
  lemma LookupSelected(data: seq<Entry>, ds: seq<int>, d: int)
    requires Distinct(ds) && d in ds
    ensures Lookup(SelectDates(data, ds), d) == Lookup(data, d)
  {
    var sel := SelectDates(data, ds);
    SelectDatesDistinct(data, ds);
    match Lookup(data, d)
    case Some(r) =>
      SelectDatesHas(data, ds, d);
      var i :| 0 <= i < |sel| && sel[i] == Entry(d, r);
      LookupFinds(sel, i);
    case None =>
  }

  /** The store's entries in ascending date order (`sorted(data.items())`). */
  function Chronological(data: seq<Entry>): (c: seq<Entry>)
    ensures forall e | e in c :: Lookup(data, e.date) == Some(e.record)
    ensures Increasing(Dates(c))
  {
    SelectDatesIncreasing(data, Sort(Dates(data)));
    SelectDates(data, Sort(Dates(data)))
  }

  /** The chronological listing, by position: ascending dates, each entry found in the store. */
  lemma ChronologicalByIndex(data: seq<Entry>)
    ensures var c := Chronological(data);
      && (forall i, j | 0 <= i < j < |c| :: c[i].date < c[j].date)
      && (forall i | 0 <= i < |c| :: Lookup(data, c[i].date) == Some(c[i].record))
  {
    var c := Chronological(data);
    forall i, j | 0 <= i < j < |c| ensures c[i].date < c[j].date {
      assert Dates(c)[i] < Dates(c)[j];
    }
    forall i | 0 <= i < |c| ensures Lookup(data, c[i].date) == Some(c[i].record) {
      assert c[i] in c;
    }
  }

  /**
   * The chronological listing is a reordering of the store: it has the same
   * entries, as many of them, in strictly ascending date order.
   */
  lemma ChronologicalSpec(data: seq<Entry>)
    requires KeysDistinct(data)
    ensures var c := Chronological(data);
      && |c| == |data|
      && (forall e :: e in c <==> e in data)
      && (forall i, j | 0 <= i < j < |c| :: c[i].date < c[j].date)
  {
    var ks := Sort(Dates(data));
    SelectDatesAllPresent(data, ks);
    SelectDatesIncreasing(data, ks);
    forall e ensures e in Chronological(data) <==> e in data {
      SelectDatesExact(data, ks, e);
    }
  }
}
