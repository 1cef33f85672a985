/**
 * The daily-entry view: the date picker, the form pre-filled from the stored
 * record, the record a submission builds, the store update that saving
 * performs and the list of recent entries.
 */
module DailyEntry {
  import opened Wrappers
  import opened Calendar
  import opened Ordering
  import opened Records

  // ---------------------------------------------------------------------------
  // Date picker

  /** The dates the picker accepts as written: from the program start through `end_date` inclusive. */
  predicate InDatePickerAsWritten(d: int)
  {
    ProgramStart <= d <= ProgramEnd
  }

  /** The dates of the thirty program weeks: from the program start up to, not including, `end_date`. */
  predicate InDatePicker(d: int)
  {
    ProgramStart <= d < ProgramEnd
  }

  /** Every date of the program window has a week number that matches its position. */
  lemma InDatePickerWeek(d: int)
    requires InDatePicker(d)
    ensures WeekNumber(d) == (d - ProgramStart) / 7 + 1
  {
  }

  /**
   * The date the picker opens on, as written: today when it lies between the
   * program start and `end_date` inclusive, otherwise the program start.
   */
  function DefaultEntryDate(today: int): (d: int)
    ensures InDatePickerAsWritten(d)
    ensures InDatePickerAsWritten(today) ==> d == today
    ensures !InDatePickerAsWritten(today) ==> d == ProgramStart
  {
    if ProgramStart <= today <= ProgramEnd then today else ProgramStart
  }

  /** As written, on `end_date` itself the picker opens on a date outside the thirty weeks. */
  lemma DefaultEntryDateOnEndDate()
    ensures DefaultEntryDate(ProgramEnd) == ProgramEnd && !InDatePicker(DefaultEntryDate(ProgramEnd))
  {
  }

  /** The opening date restricted to the thirty weeks: today when it is a program day, otherwise the start. */
  function DefaultProgramDate(today: int): (d: int)
    ensures InDatePicker(d)
    ensures InDatePicker(today) ==> d == today
    ensures !InDatePicker(today) ==> d == ProgramStart
  {
    if ProgramStart <= today < ProgramEnd then today else ProgramStart
  }

  // ---------------------------------------------------------------------------
  // Form

  /**
   * The values the form widgets hold on submission. A number widget whose
   * initial value was null stays empty (None) until the operator types a value.
   */
  datatype FormInput = FormInput(
    treadmill: Option<real>,
    steps: Option<int>,
    lunchWalk: Option<real>,
    strength: bool,
    weight: Option<real>,
    bloodSugar: Option<real>,
    mood: string)

  /** The widgets' initial values: the stored record's fields, or 0, false and "" for a new date. */
  function FormDefaults(existing: Option<Record>): (f: FormInput)
    ensures existing.None? ==> f == FormInput(Some(0.0), Some(0), Some(0.0), false, Some(0.0), Some(0.0), "")
    ensures existing.Some? ==>
      var r := existing.value;
      && f.treadmill == r.treadmill && f.steps == r.steps && f.lunchWalk == r.lunchWalk
      && f.strength == r.strength && f.weight == r.weight && f.bloodSugar == r.bloodSugar && f.mood == r.mood
  {
    match existing
    case None => FormInput(Some(0.0), Some(0), Some(0.0), false, Some(0.0), Some(0.0), "")
    case Some(r) => FormInput(r.treadmill, r.steps, r.lunchWalk, r.strength, r.weight, r.bloodSugar, r.mood)
  }

  /** A weight or blood-sugar input is stored only when positive; otherwise null. */
  function PositiveOrNull(o: Option<real>): (stored: Option<real>)
    ensures stored.Some? <==> IsReading(o)
    ensures stored.Some? ==> stored == o
  {
    if o.Some? && o.value > 0.0 then o else None
  }

  /**
   * The record a submission for date `d` stores: the week number of the date,
   * the exercise inputs as entered, the strength box only from week 3 on, and
   * weight and blood sugar only when positive.
   */
  function MakeRecord(d: int, f: FormInput): (r: Record)
    ensures r.date == d && r.week == Some(WeekNumber(d))
    ensures r.treadmill == f.treadmill && r.steps == f.steps && r.lunchWalk == f.lunchWalk && r.mood == f.mood
    ensures r.strength <==> f.strength && d >= ProgramStart + 14
    ensures IsReading(r.weight) <==> IsReading(f.weight)
    ensures IsReading(r.bloodSugar) <==> IsReading(f.bloodSugar)
    ensures r.weight.Some? ==> IsReading(r.weight) && r.weight == f.weight
    ensures r.bloodSugar.Some? ==> IsReading(r.bloodSugar) && r.bloodSugar == f.bloodSugar
  {
    Record(
      d,
      Some(WeekNumber(d)),
      f.treadmill,
      f.steps,
      f.lunchWalk,
      if IsStrengthAvailable(d) then f.strength else false,
      PositiveOrNull(f.weight),
      PositiveOrNull(f.bloodSugar),
      f.mood)
  }

  /**
   * Reopening a saved date and submitting the form untouched stores the same
   * record again: absent readings stay absent and are not turned into 0.
   */
  lemma ResubmitUnchanged(d: int, f: FormInput)
    ensures MakeRecord(d, FormDefaults(Some(MakeRecord(d, f)))) == MakeRecord(d, f)
  {
  }

  /** A stored record's week is the one its date maps to, so the stored and recomputed week agree. */
  lemma MakeRecordWeek(d: int, f: FormInput)
    requires InDatePicker(d)
    ensures MakeRecord(d, f).week == Some((d - ProgramStart) / 7 + 1)
  {
    InDatePickerWeek(d);
  }

  // ---------------------------------------------------------------------------
  // Store update

  /**
   * `tracker_data[d] = r`: afterwards `d` holds `r`, every other key holds
   * what it held before, and the store grows exactly when `d` is new.
   */
  function Upsert(data: seq<Entry>, d: int, r: Record): (data': seq<Entry>)
    ensures Lookup(data', d) == Some(r)
    ensures forall k | k != d :: Lookup(data', k) == Lookup(data, k)
    ensures |data'| == if d in Dates(data) then |data| else |data| + 1
  {
    if data == [] then [Entry(d, r)]
    else
      assert Dates(data) == [data[0].date] + Dates(data[1..]);
      if data[0].date == d then [Entry(d, r)] + data[1..]
      else [data[0]] + Upsert(data[1..], d, r)
  }

  /** Past a non-matching first entry, saving works on the rest of the store. */
  lemma UpsertSkip(data: seq<Entry>, d: int, r: Record)
    requires data != [] && data[0].date != d
    ensures Upsert(data, d, r) == [data[0]] + Upsert(data[1..], d, r)
    ensures d in Dates(data) <==> d in Dates(data[1..])
  {
    assert Dates(data) == [data[0].date] + Dates(data[1..]);
  }

  lemma ConsAppend(data: seq<Entry>, e: Entry)
    requires data != []
    ensures [data[0]] + (data[1..] + [e]) == data + [e]
  {
  }

  /** A new key is appended after all existing entries. */
  lemma {:induction false} UpsertNewKey(data: seq<Entry>, d: int, r: Record)
    requires d !in Dates(data)
    ensures Upsert(data, d, r) == data + [Entry(d, r)]
  {
    if data != [] {
      assert data[0].date == Dates(data)[0];
      UpsertSkip(data, d, r);
      UpsertNewKey(data[1..], d, r);
      ConsAppend(data, Entry(d, r));
    }
  }

  lemma DatesCons(e: Entry, rest: seq<Entry>)
    ensures Dates([e] + rest) == [e.date] + Dates(rest)
  {
  }

  /** An existing key keeps its position: the keys, in order, are unchanged. */
  lemma {:induction false} UpsertKeepsOrder(data: seq<Entry>, d: int, r: Record)
    requires d in Dates(data)
    ensures Dates(Upsert(data, d, r)) == Dates(data)
  {
    assert data == [data[0]] + data[1..];
    DatesCons(data[0], data[1..]);
    if data[0].date != d {
      UpsertSkip(data, d, r);
      UpsertKeepsOrder(data[1..], d, r);
      DatesCons(data[0], Upsert(data[1..], d, r));
    } else {
      DatesCons(Entry(d, r), data[1..]);
    }
  }

  /** Saving keeps the keys distinct. */
  lemma {:induction false} UpsertDistinct(data: seq<Entry>, d: int, r: Record)
    requires KeysDistinct(data)
    ensures KeysDistinct(Upsert(data, d, r))
  {
    var data' := Upsert(data, d, r);
    if d in Dates(data) {
      UpsertKeepsOrder(data, d, r);
    } else {
      UpsertNewKey(data, d, r);
      assert Dates(data') == Dates(data) + [d];
      forall i, j | 0 <= i < j < |data'| ensures Dates(data')[i] != Dates(data')[j] {
        if j == |data| {
          assert Dates(data')[i] == Dates(data)[i];
        } else {
          assert Dates(data)[i] != Dates(data)[j];
        }
      }
    }
  }

  /** Saving the same record twice is the same as saving it once. */
  lemma UpsertIdempotent(data: seq<Entry>, d: int, r: Record)
    ensures Upsert(Upsert(data, d, r), d, r) == Upsert(data, d, r)
  {
    var once := Upsert(data, d, r);
    UpsertSame(once, d, r);
  }

  /** Storing a key's current record again changes nothing. */
  lemma {:induction false} UpsertSame(data: seq<Entry>, d: int, r: Record)
    requires Lookup(data, d) == Some(r)
    ensures Upsert(data, d, r) == data
  {
    if data != [] && data[0].date != d {
      UpsertSame(data[1..], d, r);
    }
  }

  /** The session's store of records, read once at start-up and updated by each save. */
  class Tracker {
    var entries: seq<Entry>

    ghost predicate Valid()
      reads this
    {
      KeysDistinct(entries)
    }

    /** Start-up: the store holds what was loaded (an empty store when nothing could be read). */
    constructor (loaded: seq<Entry>)
      requires KeysDistinct(loaded)
      ensures Valid() && entries == loaded
    {
      entries := loaded;
    }

    /** The form's initial values for a date. */
    function FormFor(d: int): (f: FormInput)
      reads this
      ensures d !in Dates(entries) ==> f == FormInput(Some(0.0), Some(0), Some(0.0), false, Some(0.0), Some(0.0), "")
      ensures d in Dates(entries) ==>
        var r := Lookup(entries, d).value;
        && f.treadmill == r.treadmill && f.steps == r.steps && f.lunchWalk == r.lunchWalk
        && f.strength == r.strength && f.weight == r.weight && f.bloodSugar == r.bloodSugar && f.mood == r.mood
    {
      FormDefaults(Lookup(entries, d))
    }

    /** Submitting the form for date `d`: the record built from the inputs replaces or joins the store. */
    method SaveEntry(d: int, form: FormInput)
      requires Valid()
      modifies this
      ensures Valid()
      ensures entries == Upsert(old(entries), d, MakeRecord(d, form))
      ensures Lookup(entries, d) == Some(MakeRecord(d, form))
      ensures forall k | k != d :: Lookup(entries, k) == Lookup(old(entries), k)
    {
      UpsertDistinct(entries, d, MakeRecord(d, form));
      entries := Upsert(entries, d, MakeRecord(d, form));
    }
  }

  // ---------------------------------------------------------------------------
  // Recent entries

  /** The (at most) seven last entries of `c`, last first. */
  function LastSevenReversed(c: seq<Entry>): (recent: seq<Entry>)
    ensures |recent| == (if |c| < 7 then |c| else 7)
    ensures forall i | 0 <= i < |recent| :: recent[i] == c[|c| - 1 - i]
  {
    var n := if |c| < 7 then |c| else 7;
    seq(n, i requires 0 <= i < n => c[|c| - 1 - i])
  }

  /** Newest-first view of an ascending listing: descending dates, and everything left out is older. */
  lemma LastSevenSpec(c: seq<Entry>)
    requires forall i, j | 0 <= i < j < |c| :: c[i].date < c[j].date
    ensures var recent := LastSevenReversed(c);
      && (forall i, j | 0 <= i < j < |recent| :: recent[i].date > recent[j].date)
      && (forall e | e in recent :: e in c)
      && (forall e, x | e in c && e !in recent && x in recent :: e.date < x.date)
  {
    var recent := LastSevenReversed(c);
    var n := |recent|;
    forall k | |c| - n <= k < |c| ensures c[k] in recent {
      assert recent[|c| - 1 - k] == c[k];
    }
    forall e, x | e in c && e !in recent && x in recent ensures e.date < x.date {
      var k :| 0 <= k < |c| && c[k] == e;
      var i :| 0 <= i < n && recent[i] == x;
    }
    forall e | e in recent ensures e in c {
      var i :| 0 <= i < n && recent[i] == e;
      assert c[|c| - 1 - i] == e;
    }
  }

  /** `sorted(tracker_data.items(), reverse=True)[:7]`: the seven most recent entries, newest first. */
  function RecentEntries(data: seq<Entry>): (recent: seq<Entry>)
    ensures |recent| <= 7
    ensures forall e | e in recent :: Lookup(data, e.date) == Some(e.record)
    ensures forall i, j | 0 <= i < j < |recent| :: recent[i].date > recent[j].date
  {
    var c := Chronological(data);
    ChronologicalByIndex(data);
    LastSevenSpec(c);
    LastSevenReversed(c)
  }

  /**
   * The recent list holds min(7, n) entries of the store in strictly
   * descending date order, and every entry left out is older than all of them.
   */
  lemma RecentEntriesSpec(data: seq<Entry>)
    requires KeysDistinct(data)
    ensures var recent := RecentEntries(data);
      && |recent| == (if |data| < 7 then |data| else 7)
      && (forall i, j | 0 <= i < j < |recent| :: recent[i].date > recent[j].date)
      && (forall e | e in recent :: e in data)
      && (forall e, x | e in data && e !in recent && x in recent :: e.date < x.date)
  {
    var c := Chronological(data);
    ChronologicalSpec(data);
    LastSevenSpec(c);
  }
}
