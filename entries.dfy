/**
 * The data transformations of the timesheet page: the prefill of a loaded
 * week from the stored entries, the single-field edit of one row, the row
 * time guards and the save payload.
 */
module Entries {
  import opened Options
  import opened Strings
  import opened Timesheets
  import Calendar
  import TimeOfDay

  // --------------------------------------------------------------- prefill

  /** `s.slice(0, 10)`: the first ten characters, or all of a shorter string. */
  function DatePrefix(s: string): (p: string)
    ensures |p| == if |s| < 10 then |s| else 10
    ensures p == s[..|p|]
  {
    if |s| <= 10 then s else s[..10]
  }

  /** The stored entry belongs to `date`: `e.date.slice(0, 10) === date`. */
  predicate Matches(e: ApiEntry, date: string) {
    DatePrefix(e.date) == date
  }

  /** `api[j]` is the first stored entry that belongs to `date`. */
  predicate FirstMatchAt(api: seq<ApiEntry>, date: string, j: int) {
    && 0 <= j < |api|
    && Matches(api[j], date)
    && forall k :: 0 <= k < j ==> !Matches(api[k], date)
  }

  /** At most one position is the first match. */
  lemma FirstMatchUnique(api: seq<ApiEntry>, date: string, j: int, k: int)
    requires FirstMatchAt(api, date, j) && FirstMatchAt(api, date, k)
    ensures j == k
  {
  }

  /** `apiEntries.find(e => e.date.slice(0, 10) === date)`. */
  function Find(api: seq<ApiEntry>, date: string): (r: Option<ApiEntry>)
    ensures r.None? <==> forall j :: 0 <= j < |api| ==> !Matches(api[j], date)
    ensures r.Some? ==> exists j :: FirstMatchAt(api, date, j) && api[j] == r.value
    decreases |api|
  {
    if api == [] then None
    else if Matches(api[0], date) then
      assert FirstMatchAt(api, date, 0);
      Some(api[0])
    else
      var r := Find(api[1..], date);
      if r.Some? then
        var j :| FirstMatchAt(api[1..], date, j) && api[1..][j] == r.value;
        assert FirstMatchAt(api, date, j + 1);
        r
      else
        assert forall j :: 0 <= j < |api| ==> !Matches(api[j], date) by {
          forall j | 0 <= j < |api| ensures !Matches(api[j], date) {
            if j > 0 { assert api[j] == api[1..][j - 1]; }
          }
        }
        r
  }

  /** The row shown for a day with nothing stored. */
  function Blank(date: string): (e: Entry) {
    Entry(date, "", "", Num(0.0))
  }

  /** The row for `date`, from the entry found for it if there is one. */
  function Filled(date: string, found: Option<ApiEntry>): (e: Entry) {
    match found
    case Some(e) => Entry(date, e.start, e.end, e.unpaidBreakMins)
    case None => Blank(date)
  }

  /**
   * The prefill in `loadTimesheetMutation.onSuccess`: one row per day of the
   * range, in range order; a day with a stored entry takes the times and the
   * break of the first one, a day without gets a blank row.
   */
  function Prefill(range: seq<string>, api: seq<ApiEntry>): (rows: seq<Entry>)
    ensures |rows| == |range|
    ensures forall i :: 0 <= i < |rows| ==> rows[i].date == range[i]
    ensures forall i, j :: 0 <= i < |rows| && FirstMatchAt(api, range[i], j) ==>
              rows[i] == Entry(range[i], api[j].start, api[j].end, api[j].unpaidBreakMins)
    ensures forall i :: 0 <= i < |rows| && (forall j :: 0 <= j < |api| ==> !Matches(api[j], range[i])) ==>
              rows[i] == Blank(range[i])
  {
    var rows := seq(|range|, i requires 0 <= i < |range| => Filled(range[i], Find(api, range[i])));
    assert forall i, j :: 0 <= i < |rows| && FirstMatchAt(api, range[i], j) ==>
             rows[i] == Entry(range[i], api[j].start, api[j].end, api[j].unpaidBreakMins) by {
      forall i, j | 0 <= i < |rows| && FirstMatchAt(api, range[i], j)
        ensures rows[i] == Entry(range[i], api[j].start, api[j].end, api[j].unpaidBreakMins)
      {
        var k :| FirstMatchAt(api, range[i], k) && api[k] == Find(api, range[i]).value;
        FirstMatchUnique(api, range[i], j, k);
      }
    }
    rows
  }

  // --------------------------------------------------------------- payload

  /** One payload entry: `startTime/endTime/breakMins` renamed to `start/end/unpaidBreakMins`. */
  function ToApiEntry(e: Entry): (a: ApiEntry)
    ensures a.date == e.date && a.start == e.startTime && a.end == e.endTime
    ensures a.unpaidBreakMins == e.breakMins
  {
    ApiEntry(e.date, e.startTime, e.endTime, e.breakMins)
  }

  /** The payload of `handleSave`: the form's fields, its rows renamed in the same order. */
  function BuildPayload(d: Draft): (p: Payload)
    ensures p.employeeId == d.employeeId && p.periodStart == d.periodStart
    ensures p.periodEnd == d.periodEnd && p.allowances == d.allowances
    ensures |p.entries| == |d.entries|
    ensures forall i :: 0 <= i < |p.entries| ==> p.entries[i] == ToApiEntry(d.entries[i])
  {
    Payload(d.employeeId, d.periodStart, d.periodEnd,
            seq(|d.entries|, i requires 0 <= i < |d.entries| => ToApiEntry(d.entries[i])),
            d.allowances)
  }

  /** The dates of the rows, in row order. */
  function Dates(es: seq<Entry>): (ds: seq<string>)
    ensures |ds| == |es| && forall i :: 0 <= i < |es| ==> ds[i] == es[i].date
  {
    seq(|es|, i requires 0 <= i < |es| => es[i].date)
  }

  /** No two rows share a date. */
  predicate DistinctDates(es: seq<Entry>) {
    forall i, j :: 0 <= i < j < |es| ==> es[i].date != es[j].date
  }

  /**
   * Saving and loading the same week gives the same rows back: when the rows'
   * dates are distinct and at most ten characters long (as every `YYYY-MM-DD`
   * date is), prefilling their dates from the saved entries rebuilds them.
   */
  lemma SaveThenPrefill(d: Draft)
    requires DistinctDates(d.entries)
    requires forall i :: 0 <= i < |d.entries| ==> |d.entries[i].date| <= 10
    ensures Prefill(Dates(d.entries), BuildPayload(d).entries) == d.entries
  {
    var es, api := d.entries, BuildPayload(d).entries;
    var rows := Prefill(Dates(es), api);
    forall i | 0 <= i < |es| ensures rows[i] == es[i] {
      assert FirstMatchAt(api, es[i].date, i);
    }
  }

  /** The rows of a well-formed week have dates of exactly ten characters. */
  lemma WellFormedDates(d: Draft)
    requires WellFormed(d)
    ensures forall i :: 0 <= i < |d.entries| ==> |d.entries[i].date| == 10
  {
    forall i | 0 <= i < |d.entries| ensures |d.entries[i].date| == 10 {
      assert EntryOk(d.entries[i]);
      Calendar.ParseCanonical(d.entries[i].date);
    }
  }

  /**
   * What reaches the backend after a save that reported no errors: an
   * employee, a start that is not after the end, at least one entry, every
   * entry with a real date, two `HH:mm` times and a non-negative break, and
   * non-negative allowances.
   */
  lemma ValidatedPayload(d: Draft)
    requires TimesheetErrors(d) == []
    ensures var p := BuildPayload(d);
      && p.employeeId != ""
      && Calendar.Parse(p.periodStart).Some? && Calendar.Parse(p.periodEnd).Some?
      && !Less(p.periodEnd, p.periodStart)
      && |p.entries| > 0
      && p.allowances >= 0.0
      && forall i :: 0 <= i < |p.entries| ==>
           && Calendar.Parse(p.entries[i].date).Some?
           && TimeOfDay.IsHHmm(p.entries[i].start)
           && TimeOfDay.IsHHmm(p.entries[i].end)
           && p.entries[i].unpaidBreakMins.Num? && p.entries[i].unpaidBreakMins.value >= 0.0
  {
    NoErrorsIffWellFormed(d);
    Calendar.LessIsBefore(d.periodEnd, d.periodStart);
    var p := BuildPayload(d);
    forall i | 0 <= i < |p.entries|
      ensures && Calendar.Parse(p.entries[i].date).Some?
              && TimeOfDay.IsHHmm(p.entries[i].start)
              && TimeOfDay.IsHHmm(p.entries[i].end)
              && p.entries[i].unpaidBreakMins.Num? && p.entries[i].unpaidBreakMins.value >= 0.0
    {
      assert EntryOk(d.entries[i]);
    }
  }

  // ----------------------------------------------------------------- edits

  /** The four fields of a row. */
  datatype Field = DateField | StartTimeField | EndTimeField | BreakMinsField

  /** A field's content. */
  datatype FieldValue = Text(text: string) | Amount(amount: Number)

  /** `entry[field]`. */
  function Get(e: Entry, f: Field): (v: FieldValue) {
    match f
    case DateField => Text(e.date)
    case StartTimeField => Text(e.startTime)
    case EndTimeField => Text(e.endTime)
    case BreakMinsField => Amount(e.breakMins)
  }

  /**
   * A call `handleEntryChange(idx, field, value)` as the rows make it: a new
   * start or end time as typed, or `Number(...)` of the break input.
   */
  datatype Edit = SetStartTime(time: string) | SetEndTime(time: string) | SetBreakMins(mins: Number)

  function Target(edit: Edit): Field {
    match edit
    case SetStartTime(_) => StartTimeField
    case SetEndTime(_) => EndTimeField
    case SetBreakMins(_) => BreakMinsField
  }

  function NewValue(edit: Edit): FieldValue {
    match edit
    case SetStartTime(t) => Text(t)
    case SetEndTime(t) => Text(t)
    case SetBreakMins(n) => Amount(n)
  }

  /** `{ ...entry, [field]: value }`: the target field reads the new value, every other field is kept. */
  function Apply(e: Entry, edit: Edit): (r: Entry)
    ensures Get(r, Target(edit)) == NewValue(edit)
    ensures forall f :: f != Target(edit) ==> Get(r, f) == Get(e, f)
  {
    match edit
    case SetStartTime(t) => e.(startTime := t)
    case SetEndTime(t) => e.(endTime := t)
    case SetBreakMins(n) => e.(breakMins := n)
  }

  /** Two rows with the same fields are the same row. */
  lemma FieldsDetermineEntry(a: Entry, b: Entry)
    requires forall f :: Get(a, f) == Get(b, f)
    ensures a == b
  {
    assert Get(a, DateField) == Get(b, DateField);
    assert Get(a, StartTimeField) == Get(b, StartTimeField);
    assert Get(a, EndTimeField) == Get(b, EndTimeField);
    assert Get(a, BreakMinsField) == Get(b, BreakMinsField);
  }

  /** An edit that writes what the field already holds changes nothing. */
  lemma ApplyUnchanged(e: Entry, edit: Edit)
    requires Get(e, Target(edit)) == NewValue(edit)
    ensures Apply(e, edit) == e
  {
    FieldsDetermineEntry(Apply(e, edit), e);
  }

  /** The last of two edits of the same field wins. */
  lemma ApplyOverwrites(e: Entry, first: Edit, second: Edit)
    requires Target(first) == Target(second)
    ensures Apply(Apply(e, first), second) == Apply(e, second)
  {
    FieldsDetermineEntry(Apply(Apply(e, first), second), Apply(e, second));
  }

  /**
   * `handleEntryChange`: `entries.map((entry, i) => i === idx ? ... : entry)`;
   * only row `idx` is edited, and an index past the rows edits nothing.
   */
  function UpdateEntry(es: seq<Entry>, idx: int, edit: Edit): (r: seq<Entry>)
    ensures |r| == |es|
    ensures forall i :: 0 <= i < |es| && i != idx ==> r[i] == es[i]
    ensures 0 <= idx < |es| ==>
              && Get(r[idx], Target(edit)) == NewValue(edit)
              && forall f :: f != Target(edit) ==> Get(r[idx], f) == Get(es[idx], f)
  {
    seq(|es|, i requires 0 <= i < |es| => if i == idx then Apply(es[i], edit) else es[i])
  }

  /** Editing keeps every row's date, so the week shown stays the same. */
  lemma UpdateKeepsDates(es: seq<Entry>, idx: int, edit: Edit)
    ensures Dates(UpdateEntry(es, idx, edit)) == Dates(es)
  {
    var r := UpdateEntry(es, idx, edit);
    forall i | 0 <= i < |es| ensures r[i].date == es[i].date {
      if i == idx {
        assert Get(r[i], DateField) == Get(es[i], DateField);
      }
    }
  }

  /** Repeating an edit is the same as making it once. */
  lemma UpdateIdempotent(es: seq<Entry>, idx: int, edit: Edit)
    ensures UpdateEntry(UpdateEntry(es, idx, edit), idx, edit) == UpdateEntry(es, idx, edit)
  {
    var once := UpdateEntry(es, idx, edit);
    var twice := UpdateEntry(once, idx, edit);
    forall i | 0 <= i < |es| ensures twice[i] == once[i] {
      if i == idx {
        ApplyUnchanged(once[i], edit);
      }
    }
  }

  // ------------------------------------------------------------ row guards

  /** The row's times, where both are given, are in order as strings. */
  predicate TimesOrdered(row: Entry) {
    row.startTime == "" || row.endTime == "" || Less(row.startTime, row.endTime)
  }

  /** The start input's guard: refuse a start at or after a given end time. */
  function StartAccepted(row: Entry, newStart: string): (ok: bool)
    ensures ok <==> row.endTime == "" || Less(newStart, row.endTime)
    ensures ok ==> TimesOrdered(Apply(row, SetStartTime(newStart)))
  {
    !(row.endTime != "" && !Less(newStart, row.endTime))
  }

  /** The end input's guard: refuse an end at or before a given start time. */
  function EndAccepted(row: Entry, newEnd: string): (ok: bool)
    ensures ok <==> row.startTime == "" || Less(row.startTime, newEnd)
    ensures ok ==> TimesOrdered(Apply(row, SetEndTime(newEnd)))
  {
    !(row.startTime != "" && !Less(row.startTime, newEnd))
  }

  /** On `HH:mm` times the guards compare minutes of the day. */
  lemma GuardsCompareMinutes(row: Entry, time: string)
    requires TimeOfDay.IsHHmm(time)
    ensures TimeOfDay.IsHHmm(row.endTime) ==>
              (StartAccepted(row, time) <==> TimeOfDay.MinuteOfDay(time) < TimeOfDay.MinuteOfDay(row.endTime))
    ensures TimeOfDay.IsHHmm(row.startTime) ==>
              (EndAccepted(row, time) <==> TimeOfDay.MinuteOfDay(row.startTime) < TimeOfDay.MinuteOfDay(time))
  {
    if TimeOfDay.IsHHmm(row.endTime) {
      TimeOfDay.LessIsEarlier(time, row.endTime);
    }
    if TimeOfDay.IsHHmm(row.startTime) {
      TimeOfDay.LessIsEarlier(row.startTime, time);
    }
  }
}
