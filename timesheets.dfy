/**
 * The timesheet rules of the timesheet page: the days of a period, the
 * one-week gate, the exhaustive draft validator, the prefill of a week from
 * stored entries, single-field edits and the save payload.
 */
module Timesheets {
  import opened Options
  import opened Strings
  import Calendar
  import TimeOfDay

  /** A JavaScript value as seen by `typeof v === 'number'`. */
  datatype Number = Num(value: real) | NonNumber

  /** One day of the form: the date and the times as typed, the unpaid break in minutes. */
  datatype Entry = Entry(date: string, startTime: string, endTime: string, breakMins: Number)

  /** Everything the validator looks at. */
  datatype Draft = Draft(
    employeeId: string,
    periodStart: string,
    periodEnd: string,
    entries: seq<Entry>,
    allowances: real)

  /** An entry as the backend stores it and as the save payload sends it. */
  datatype ApiEntry = ApiEntry(date: string, start: string, end: string, unpaidBreakMins: Number)

  /** The body of the add and update requests. */
  datatype Payload = Payload(
    employeeId: string,
    periodStart: string,
    periodEnd: string,
    entries: seq<ApiEntry>,
    allowances: real)

  // ---------------------------------------------------------------- period

  /** Calendar days from `s` to `e` inclusive; none when `e` is before `s`. */
  function Span(s: Calendar.Date, e: Calendar.Date): (n: nat)
    requires Calendar.IsValid(s) && Calendar.IsValid(e)
  {
    if Calendar.DayNumber(s) <= Calendar.DayNumber(e)
    then Calendar.DayNumber(e) - Calendar.DayNumber(s) + 1
    else 0
  }

  /**
   * `getDateRange`: the `YYYY-MM-DD` strings of every day from `start` to
   * `end` inclusive, stepping one calendar day at a time.
   */
  method DateRange(start: string, end: string) returns (dates: seq<string>)
    ensures Calendar.Parse(start).None? || Calendar.Parse(end).None? ==> dates == []
    ensures Calendar.Parse(start).Some? && Calendar.Parse(end).Some? ==>
              |dates| == Span(Calendar.Parse(start).value, Calendar.Parse(end).value)
    ensures forall i :: 0 <= i < |dates| ==>
              && Calendar.Parse(start).Some?
              && Calendar.Parse(dates[i]).Some?
              && Calendar.DayNumber(Calendar.Parse(dates[i]).value)
                 == Calendar.DayNumber(Calendar.Parse(start).value) + i
    ensures |dates| > 0 ==> dates[0] == start && dates[|dates| - 1] == end
  {
    var current := Calendar.Parse(start);
    var last := Calendar.Parse(end);
    if current.None? || last.None? {
      // an Invalid Date compares false with every date: the loop never runs
      return [];
    }
    assert current.value == Calendar.Parse(start).value && last.value == Calendar.Parse(end).value;
    ghost var days;
    dates, days := DaysFrom(current.value, last.value);
    RangeStrings(start, end, dates, days);
  }

  /** The strings of the days from `start` to `end` are the range `getDateRange` promises. */
  lemma RangeStrings(start: string, end: string, dates: seq<string>, days: seq<Calendar.Date>)
    requires Calendar.Parse(start).Some? && Calendar.Parse(end).Some?
    requires Consecutive(dates, days, Calendar.Parse(start).value)
    requires |dates| == Span(Calendar.Parse(start).value, Calendar.Parse(end).value)
    requires |days| > 0 ==> days[0] == Calendar.Parse(start).value && days[|days| - 1] == Calendar.Parse(end).value
    ensures forall i :: 0 <= i < |dates| ==>
              && Calendar.Parse(start).Some?
              && Calendar.Parse(dates[i]).Some?
              && Calendar.DayNumber(Calendar.Parse(dates[i]).value)
                 == Calendar.DayNumber(Calendar.Parse(start).value) + i
    ensures |dates| > 0 ==> dates[0] == start && dates[|dates| - 1] == end
  {
    ConsecutiveParse(dates, days, Calendar.Parse(start).value);
    if |days| > 0 {
      Calendar.ParseCanonical(start);
      Calendar.ParseCanonical(end);
    }
  }

  /** The loop of `getDateRange`: format `current`, step it by one day, while it is not after `last`. */
  method DaysFrom(first: Calendar.Date, last: Calendar.Date) returns (dates: seq<string>, ghost days: seq<Calendar.Date>)
    requires Calendar.IsValid(first) && Calendar.IsValid(last) && last.year <= 9999
    ensures Consecutive(dates, days, first)
    ensures |dates| == Span(first, last)
    ensures |days| > 0 ==> days[0] == first && days[|days| - 1] == last
  {
    dates, days := [], [];
    var cur := first;
    while Calendar.TimeValue(cur) <= Calendar.TimeValue(last)
      invariant Calendar.IsValid(cur)
      invariant Calendar.DayNumber(cur) == Calendar.DayNumber(first) + |days|
      invariant days == [] || Calendar.DayNumber(cur) <= Calendar.DayNumber(last) + 1
      invariant Consecutive(dates, days, first)
      decreases Calendar.DayNumber(last) - Calendar.DayNumber(cur)
    {
      Calendar.BeforeDayNumber(last, cur);
      ConsecutiveStep(dates, days, first, cur);
      dates, days := dates + [Calendar.Format(cur)], days + [cur];
      cur := Calendar.NextDay(cur);
    }
    if |days| > 0 {
      Calendar.DayNumberInjective(days[0], first);
      Calendar.DayNumberInjective(days[|days| - 1], last);
    }
  }

  /** `dates` are the strings of `days`, the consecutive days from `first` on. */
  ghost predicate Consecutive(dates: seq<string>, days: seq<Calendar.Date>, first: Calendar.Date)
    requires Calendar.IsValid(first)
  {
    && |dates| == |days|
    && forall i :: 0 <= i < |days| ==>
         && Calendar.IsValid(days[i]) && days[i].year <= 9999
         && dates[i] == Calendar.Format(days[i])
         && Calendar.DayNumber(days[i]) == Calendar.DayNumber(first) + i
  }

  lemma ConsecutiveStep(dates: seq<string>, days: seq<Calendar.Date>, first: Calendar.Date, next: Calendar.Date)
    requires Calendar.IsValid(first) && Consecutive(dates, days, first)
    requires Calendar.IsValid(next) && next.year <= 9999
    requires Calendar.DayNumber(next) == Calendar.DayNumber(first) + |days|
    ensures Consecutive(dates + [Calendar.Format(next)], days + [next], first)
  {
  }

  /** The strings of consecutive days parse back to those days. */
  lemma ConsecutiveParse(dates: seq<string>, days: seq<Calendar.Date>, first: Calendar.Date)
    requires Calendar.IsValid(first) && Consecutive(dates, days, first)
    ensures forall i :: 0 <= i < |dates| ==>
              && Calendar.Parse(dates[i]) == Some(days[i])
              && Calendar.IsValid(days[i])
              && Calendar.DayNumber(days[i]) == Calendar.DayNumber(first) + i
  {
    forall i | 0 <= i < |dates|
      ensures Calendar.Parse(dates[i]) == Some(days[i])
    {
      Calendar.ParseFormat(days[i]);
    }
  }

  /**
   * `isSevenDayRange`: the millisecond difference of the two dates, divided by
   * the length of a day, is 6. The division is exact, so this is a whole-day
   * difference of exactly 6.
   */
  function IsSevenDayRange(start: string, end: string): (r: bool)
    ensures r <==> && Calendar.Parse(start).Some? && Calendar.Parse(end).Some?
                   && Calendar.DayNumber(Calendar.Parse(end).value)
                      - Calendar.DayNumber(Calendar.Parse(start).value) == 6
  {
    if start == "" || end == "" then false
    else
      match (Calendar.Parse(start), Calendar.Parse(end))
      case (Some(s), Some(e)) =>
        Calendar.TimeValueDifference(s, e);
        (Calendar.TimeValue(e) - Calendar.TimeValue(s)) as real / Calendar.MsPerDay as real == 6.0
      case _ => false  // NaN === 6 is false
  }

  /** A seven-day range is exactly a range of seven calendar days. */
  lemma SevenDayRangeSpan(start: string, end: string)
    ensures IsSevenDayRange(start, end) <==>
              && Calendar.Parse(start).Some? && Calendar.Parse(end).Some?
              && Span(Calendar.Parse(start).value, Calendar.Parse(end).value) == 7
  {
  }

  /** A seven-day range never ends before it starts, compared as strings. */
  lemma SevenDayRangeOrdered(start: string, end: string)
    requires IsSevenDayRange(start, end)
    ensures !Less(end, start) && start != "" && end != ""
  {
    Calendar.LessIsBefore(end, start);
  }

  // ------------------------------------------------------------ validation

  /** The four per-entry rules, in the order they are checked. */
  datatype EntryRule = DateRule | StartTimeRule | EndTimeRule | BreakRule

  /** One violated rule of a draft; `index` counts entries from 0. */
  datatype Violation =
    | MissingEmployee
    | MissingPeriodStart
    | MissingPeriodEnd
    | EndBeforeStart
    | NoEntries
    | EntryViolation(index: nat, rule: EntryRule)
    | NegativeAllowances

  function RuleText(rule: EntryRule): (text: string) {
    match rule
    case DateRule => "Date is required."
    case StartTimeRule => "Start time must be in HH:mm format."
    case EndTimeRule => "End time must be in HH:mm format."
    case BreakRule => "Break minutes must be 0 or more."
  }

  /** The message shown for a violation; entries are numbered from 1. */
  function Message(v: Violation): (text: string) {
    match v
    case MissingEmployee => "Employee is required."
    case MissingPeriodStart => "Period start date is required."
    case MissingPeriodEnd => "Period end date is required."
    case EndBeforeStart => "Period end date must be after start date."
    case NoEntries => "At least one timesheet entry is required."
    case EntryViolation(i, rule) => "Entry " + Decimal(i + 1) + ": " + RuleText(rule)
    case NegativeAllowances => "Allowances must be 0 or more."
  }

  function Messages(vs: seq<Violation>): (ms: seq<string>)
    ensures |ms| == |vs|
  {
    seq(|vs|, i requires 0 <= i < |vs| => Message(vs[i]))
  }

  /** `s` is given and parses as a date (`s && !isNaN(Date.parse(s))`). */
  predicate IsDateString(s: string) {
    s != "" && Calendar.Parse(s).Some?
  }

  /** `s` is given and matches the `HH:mm` pattern. */
  predicate IsTimeString(s: string) {
    s != "" && TimeOfDay.IsHHmm(s)
  }

  /** `n` is a number and not negative. */
  predicate IsNonNegative(n: Number) {
    n.Num? && n.value >= 0.0
  }

  /** Entry `e` breaks `rule`. */
  predicate Breaks(e: Entry, rule: EntryRule) {
    match rule
    case DateRule => !IsDateString(e.date)
    case StartTimeRule => !IsTimeString(e.startTime)
    case EndTimeRule => !IsTimeString(e.endTime)
    case BreakRule => !IsNonNegative(e.breakMins)
  }

  /** `new Date(periodEnd) < new Date(periodStart)`: false when either is an Invalid Date. */
  predicate EndsBefore(periodEnd: string, periodStart: string)
    ensures EndsBefore(periodEnd, periodStart) ==>
              Calendar.Parse(periodEnd).Some? && Calendar.Parse(periodStart).Some?
  {
    match (Calendar.Parse(periodEnd), Calendar.Parse(periodStart))
    case (Some(e), Some(s)) => Calendar.TimeValue(e) < Calendar.TimeValue(s)
    case _ => false
  }

  /** The violations of entry number `i`, in rule order. */
  function RuleViolations(i: nat, e: Entry): (vs: seq<Violation>) {
    (if Breaks(e, DateRule) then [EntryViolation(i, DateRule)] else [])
    + (if Breaks(e, StartTimeRule) then [EntryViolation(i, StartTimeRule)] else [])
    + (if Breaks(e, EndTimeRule) then [EntryViolation(i, EndTimeRule)] else [])
    + (if Breaks(e, BreakRule) then [EntryViolation(i, BreakRule)] else [])
  }

  /** The violations of all entries, entry by entry. */
  function EntryViolations(es: seq<Entry>): (vs: seq<Violation>)
    decreases |es|
  {
    if es == [] then []
    else EntryViolations(es[..|es| - 1]) + RuleViolations(|es| - 1, es[|es| - 1])
  }

  function PeriodViolations(d: Draft): (vs: seq<Violation>) {
    (if !IsDateString(d.periodStart) then [MissingPeriodStart] else [])
    + (if !IsDateString(d.periodEnd) then [MissingPeriodEnd]
       else if d.periodStart != "" && EndsBefore(d.periodEnd, d.periodStart) then [EndBeforeStart]
       else [])
  }

  function EntriesViolations(d: Draft): seq<Violation> {
    if |d.entries| < 1 then [NoEntries] else EntryViolations(d.entries)
  }

  /** `validateTimesheet`, as the list of violated rules in the order they are checked. */
  function Violations(d: Draft): (vs: seq<Violation>) {
    (if d.employeeId == "" then [MissingEmployee] else [])
    + PeriodViolations(d)
    + EntriesViolations(d)
    + (if d.allowances < 0.0 then [NegativeAllowances] else [])
  }

  /** The messages `validateTimesheet` returns. */
  function TimesheetErrors(d: Draft): (errors: seq<string>) {
    Messages(Violations(d))
  }

  /** When violation `v` applies to draft `d`, stated rule by rule. */
  predicate Applies(d: Draft, v: Violation) {
    match v
    case MissingEmployee => d.employeeId == ""
    case MissingPeriodStart => !IsDateString(d.periodStart)
    case MissingPeriodEnd => !IsDateString(d.periodEnd)
    case EndBeforeStart =>
      && IsDateString(d.periodStart) && IsDateString(d.periodEnd)
      && Calendar.DayNumber(Calendar.Parse(d.periodEnd).value)
         < Calendar.DayNumber(Calendar.Parse(d.periodStart).value)
    case NoEntries => |d.entries| == 0
    case EntryViolation(i, rule) => i < |d.entries| && Breaks(d.entries[i], rule)
    case NegativeAllowances => d.allowances < 0.0
  }

  /** An entry with a date, two `HH:mm` times and a break that is a number, not negative. */
  predicate EntryOk(e: Entry) {
    IsDateString(e.date) && IsTimeString(e.startTime) && IsTimeString(e.endTime)
    && IsNonNegative(e.breakMins)
  }

  /** A draft that is safe to submit. */
  predicate WellFormed(d: Draft) {
    && d.employeeId != ""
    && IsDateString(d.periodStart)
    && IsDateString(d.periodEnd)
    && Calendar.DayNumber(Calendar.Parse(d.periodStart).value)
       <= Calendar.DayNumber(Calendar.Parse(d.periodEnd).value)
    && |d.entries| > 0
    && (forall i :: 0 <= i < |d.entries| ==> EntryOk(d.entries[i]))
    && d.allowances >= 0.0
  }

  lemma RuleViolationsIn(i: nat, e: Entry, v: Violation)
    ensures v in RuleViolations(i, e) <==>
              v.EntryViolation? && v.index == i && Breaks(e, v.rule)
  {
  }

  lemma {:induction false} EntryViolationsIn(es: seq<Entry>, v: Violation)
    ensures v in EntryViolations(es) <==>
              v.EntryViolation? && v.index < |es| && Breaks(es[v.index], v.rule)
    decreases |es|
  {
    if es != [] {
      EntryViolationsIn(es[..|es| - 1], v);
      RuleViolationsIn(|es| - 1, es[|es| - 1], v);
    }
  }

  lemma EndsBeforeDayNumber(periodEnd: string, periodStart: string)
    requires IsDateString(periodEnd) && IsDateString(periodStart)
    ensures EndsBefore(periodEnd, periodStart) <==>
              Calendar.DayNumber(Calendar.Parse(periodEnd).value)
              < Calendar.DayNumber(Calendar.Parse(periodStart).value)
  {
  }

  lemma PeriodViolationsIn(d: Draft, v: Violation)
    ensures v in PeriodViolations(d) <==>
              (v == MissingPeriodStart || v == MissingPeriodEnd || v == EndBeforeStart) && Applies(d, v)
  {
    if IsDateString(d.periodEnd) && IsDateString(d.periodStart) {
      EndsBeforeDayNumber(d.periodEnd, d.periodStart);
    }
  }

  /** A violation is reported exactly when its rule is broken. */
  lemma ViolationsComplete(d: Draft, v: Violation)
    ensures v in Violations(d) <==> Applies(d, v)
  {
    PeriodViolationsIn(d, v);
    EntryViolationsIn(d.entries, v);
  }

  function Rank(v: Violation): nat {
    match v
    case MissingEmployee => 0
    case MissingPeriodStart => 1
    case MissingPeriodEnd => 2
    case EndBeforeStart => 3
    case NoEntries => 4
    case EntryViolation(_, _) => 5
    case NegativeAllowances => 6
  }

  function RuleRank(rule: EntryRule): nat {
    match rule
    case DateRule => 0
    case StartTimeRule => 1
    case EndTimeRule => 2
    case BreakRule => 3
  }

  /**
   * The fixed order of the messages: employee, period start, period end,
   * entries (by entry, then date, start, end, break), allowances.
   */
  predicate Precedes(a: Violation, b: Violation) {
    || Rank(a) < Rank(b)
    || (a.EntryViolation? && b.EntryViolation?
        && (a.index < b.index || (a.index == b.index && RuleRank(a.rule) < RuleRank(b.rule))))
  }

  predicate Ordered(vs: seq<Violation>) {
    forall p, q :: 0 <= p < q < |vs| ==> Precedes(vs[p], vs[q])
  }

  lemma OrderedConcat(a: seq<Violation>, b: seq<Violation>)
    requires Ordered(a) && Ordered(b)
    requires forall x, y :: x in a && y in b ==> Precedes(x, y)
    ensures Ordered(a + b)
  {
    forall p, q | 0 <= p < q < |a + b| ensures Precedes((a + b)[p], (a + b)[q]) {
      if q < |a| {
      } else if p >= |a| {
        assert (a + b)[p] == b[p - |a|] && (a + b)[q] == b[q - |a|];
      } else {
        assert (a + b)[p] in a && (a + b)[q] in b;
      }
    }
  }

  lemma RuleViolationsOrdered(i: nat, e: Entry)
    ensures Ordered(RuleViolations(i, e))
  {
    var a := if Breaks(e, DateRule) then [EntryViolation(i, DateRule)] else [];
    var b := if Breaks(e, StartTimeRule) then [EntryViolation(i, StartTimeRule)] else [];
    var c := if Breaks(e, EndTimeRule) then [EntryViolation(i, EndTimeRule)] else [];
    var f := if Breaks(e, BreakRule) then [EntryViolation(i, BreakRule)] else [];
    OrderedConcat(a, b);
    OrderedConcat(a + b, c);
    OrderedConcat(a + b + c, f);
    assert RuleViolations(i, e) == a + b + c + f;
  }

  lemma {:induction false} EntryViolationsOrdered(es: seq<Entry>)
    ensures Ordered(EntryViolations(es))
    ensures forall v :: v in EntryViolations(es) ==> v.EntryViolation? && v.index < |es|
    decreases |es|
  {
    if es != [] {
      var front := es[..|es| - 1];
      var last := |es| - 1;
      EntryViolationsOrdered(front);
      var tail := RuleViolations(last, es[last]);
      RuleViolationsOrdered(last, es[last]);
      forall y | y in tail ensures y.EntryViolation? && y.index == last {
        RuleViolationsIn(last, es[last], y);
      }
      OrderedConcat(EntryViolations(front), tail);
    }
  }

  lemma PeriodViolationsOrdered(d: Draft)
    ensures Ordered(PeriodViolations(d))
    ensures forall x :: x in PeriodViolations(d) ==> 1 <= Rank(x) <= 3
  {
  }

  lemma EntriesViolationsOrdered(d: Draft)
    ensures Ordered(EntriesViolations(d))
    ensures forall x :: x in EntriesViolations(d) ==> 4 <= Rank(x) <= 5
  {
    EntryViolationsOrdered(d.entries);
  }

  /** The violations come in the fixed rule order, and no rule is reported twice. */
  lemma ViolationsOrdered(d: Draft)
    ensures Ordered(Violations(d))
  {
    var a := if d.employeeId == "" then [MissingEmployee] else [];
    var b := PeriodViolations(d);
    var e := EntriesViolations(d);
    var f := if d.allowances < 0.0 then [NegativeAllowances] else [];
    PeriodViolationsOrdered(d);
    EntriesViolationsOrdered(d);
    OrderedConcat(a, b);
    OrderedConcat(a + b, e);
    OrderedConcat(a + b + e, f);
    assert Violations(d) == a + b + e + f;
  }

  lemma EntryMessageNotHeader(i: nat, rule: EntryRule, v: Violation)
    requires !v.EntryViolation?
    ensures Message(EntryViolation(i, rule)) != Message(v)
  {
    var m := Message(EntryViolation(i, rule));
    assert m[0] == 'E' && m[1] == 'n';
  }

  /** "Entry {a}: t" determines the number and the text. */
  lemma EntryPrefixInjective(a: nat, t: string, b: nat, u: string)
    requires "Entry " + Decimal(a) + ": " + t == "Entry " + Decimal(b) + ": " + u
    ensures a == b && t == u
  {
    DigitsAfterPrefix("Entry ", Decimal(a), t, Decimal(b), u);
    DecimalInjective(a, b);
  }

  lemma RuleTextInjective(r: EntryRule, q: EntryRule)
    requires RuleText(r) == RuleText(q)
    ensures r == q
  {
  }

  lemma HeaderMessageInjective(v: Violation, w: Violation)
    requires !v.EntryViolation? && !w.EntryViolation?
    requires Message(v) == Message(w)
    ensures v == w
  {
  }

  /** Different violations have different messages. */
  lemma MessageInjective(v: Violation, w: Violation)
    requires Message(v) == Message(w)
    ensures v == w
  {
    if v.EntryViolation? && w.EntryViolation? {
      EntryPrefixInjective(v.index + 1, RuleText(v.rule), w.index + 1, RuleText(w.rule));
      RuleTextInjective(v.rule, w.rule);
    } else if v.EntryViolation? {
      EntryMessageNotHeader(v.index, v.rule, w);
    } else if w.EntryViolation? {
      EntryMessageNotHeader(w.index, w.rule, v);
    } else {
      HeaderMessageInjective(v, w);
    }
  }

  /** A message is in the result exactly when the rule it names is broken. */
  lemma ErrorReported(d: Draft, v: Violation)
    ensures Message(v) in TimesheetErrors(d) <==> Applies(d, v)
  {
    ViolationsComplete(d, v);
    var vs := Violations(d);
    if Message(v) in TimesheetErrors(d) {
      var p :| 0 <= p < |vs| && Messages(vs)[p] == Message(v);
      MessageInjective(vs[p], v);
    }
    MessageOfMember(vs, v);
  }

  lemma MessageOfMember(vs: seq<Violation>, v: Violation)
    ensures v in vs ==> Message(v) in Messages(vs)
  {
    if v in vs {
      var p :| 0 <= p < |vs| && vs[p] == v;
      assert Messages(vs)[p] == Message(v);
    }
  }

  /** No message appears twice in the result. */
  lemma ErrorsDistinct(d: Draft)
    ensures forall p, q :: 0 <= p < q < |TimesheetErrors(d)| ==>
              TimesheetErrors(d)[p] != TimesheetErrors(d)[q]
  {
    ViolationsOrdered(d);
    var vs := Violations(d);
    forall p, q | 0 <= p < q < |vs| ensures Messages(vs)[p] != Messages(vs)[q] {
      if Messages(vs)[p] == Messages(vs)[q] {
        MessageInjective(vs[p], vs[q]);
      }
    }
  }

  lemma {:induction false} EntryViolationsEmpty(es: seq<Entry>)
    requires forall i :: 0 <= i < |es| ==> EntryOk(es[i])
    ensures EntryViolations(es) == []
    decreases |es|
  {
    if es != [] {
      EntryViolationsEmpty(es[..|es| - 1]);
      assert EntryOk(es[|es| - 1]);
    }
  }

  /** A well-formed draft has no violations. */
  lemma WellFormedNoViolations(d: Draft)
    requires WellFormed(d)
    ensures Violations(d) == []
  {
    EndsBeforeDayNumber(d.periodEnd, d.periodStart);
    EntryViolationsEmpty(d.entries);
  }

  lemma RuleBroken(e: Entry) returns (rule: EntryRule)
    requires !EntryOk(e)
    ensures Breaks(e, rule)
  {
    rule := if !IsDateString(e.date) then DateRule
            else if !IsTimeString(e.startTime) then StartTimeRule
            else if !IsTimeString(e.endTime) then EndTimeRule
            else BreakRule;
  }

  /** A malformed draft breaks some rule. */
  lemma MalformedSomethingApplies(d: Draft) returns (v: Violation)
    requires !WellFormed(d)
    ensures Applies(d, v)
  {
    if d.employeeId == "" {
      v := MissingEmployee;
    } else if !IsDateString(d.periodStart) {
      v := MissingPeriodStart;
    } else if !IsDateString(d.periodEnd) {
      v := MissingPeriodEnd;
    } else if |d.entries| == 0 {
      v := NoEntries;
    } else if d.allowances < 0.0 {
      v := NegativeAllowances;
    } else if exists i :: 0 <= i < |d.entries| && !EntryOk(d.entries[i]) {
      var i :| 0 <= i < |d.entries| && !EntryOk(d.entries[i]);
      var rule := RuleBroken(d.entries[i]);
      v := EntryViolation(i, rule);
    } else {
      v := EndBeforeStart;
    }
  }

  /** The validator returns no messages exactly for a well-formed draft. */
  lemma NoErrorsIffWellFormed(d: Draft)
    ensures TimesheetErrors(d) == [] <==> WellFormed(d)
  {
    if WellFormed(d) {
      WellFormedNoViolations(d);
    } else {
      var v := MalformedSomethingApplies(d);
      ViolationsComplete(d, v);
    }
  }

  /**
   * The two period-end messages exclude each other, and "must be after" comes
   * with neither "required" message.
   */
  lemma PeriodEndMessagesExclusive(d: Draft)
    ensures !(Message(MissingPeriodEnd) in TimesheetErrors(d)
              && Message(EndBeforeStart) in TimesheetErrors(d))
    ensures Message(EndBeforeStart) in TimesheetErrors(d) ==>
              && Message(MissingPeriodStart) !in TimesheetErrors(d)
              && Message(MissingPeriodEnd) !in TimesheetErrors(d)
              && d.periodStart != "" && d.periodEnd != ""
  {
    ErrorReported(d, MissingPeriodEnd);
    ErrorReported(d, EndBeforeStart);
    ErrorReported(d, MissingPeriodStart);
  }

  /**
   * Without entries there is one "At least one..." message and no message
   * about any entry.
   */
  lemma NoEntriesMessage(d: Draft)
    requires |d.entries| == 0
    ensures Message(NoEntries) in TimesheetErrors(d)
    ensures forall i: nat, rule :: Message(EntryViolation(i, rule)) !in TimesheetErrors(d)
    ensures forall p :: 0 <= p < |TimesheetErrors(d)| && TimesheetErrors(d)[p] == Message(NoEntries) ==>
              forall q :: 0 <= q < |TimesheetErrors(d)| && q != p ==>
                TimesheetErrors(d)[q] != Message(NoEntries)
  {
    ErrorReported(d, NoEntries);
    forall i: nat, rule | true ensures Message(EntryViolation(i, rule)) !in TimesheetErrors(d) {
      ErrorReported(d, EntryViolation(i, rule));
    }
    ErrorsDistinct(d);
  }

  /**
   * `validateTimesheet`: every violated rule contributes one message, in
   * rule order.
   */
  method ValidateTimesheet(d: Draft) returns (errors: seq<string>)
    ensures errors == TimesheetErrors(d)
  {
    ghost var employee := if d.employeeId == "" then [MissingEmployee] else [];
    ghost var period := PeriodViolations(d);
    ghost var entries := EntriesViolations(d);
    ghost var allowances := if d.allowances < 0.0 then [NegativeAllowances] else [];
    errors := [];
    ghost var vs: seq<Violation> := [];
    if d.employeeId == "" {
      errors, vs := Report(errors, vs, MissingEmployee, "Employee is required.");
    }
    assert vs == employee;
    var periodErrors := ValidatePeriod(d);
    MessagesConcat(vs, period);
    errors := errors + periodErrors;
    vs := vs + period;
    if |d.entries| < 1 {
      errors, vs := Report(errors, vs, NoEntries, "At least one timesheet entry is required.");
    } else {
      var entryErrors := ValidateEntries(d.entries);
      MessagesConcat(vs, EntryViolations(d.entries));
      errors := errors + entryErrors;
      vs := vs + EntryViolations(d.entries);
    }
    assert vs == employee + period + entries;
    if d.allowances < 0.0 {
      errors, vs := Report(errors, vs, NegativeAllowances, "Allowances must be 0 or more.");
    }
    assert vs == employee + period + entries + allowances;
  }

  /** The period checks of `validateTimesheet`: start given, end given and not before start. */
  method ValidatePeriod(d: Draft) returns (errors: seq<string>)
    ensures errors == Messages(PeriodViolations(d))
  {
    errors := [];
    ghost var vs: seq<Violation> := [];
    if d.periodStart == "" || Calendar.Parse(d.periodStart).None? {
      errors, vs := Report(errors, vs, MissingPeriodStart, "Period start date is required.");
    }
    if d.periodEnd == "" || Calendar.Parse(d.periodEnd).None? {
      errors, vs := Report(errors, vs, MissingPeriodEnd, "Period end date is required.");
    } else if d.periodStart != "" && EndsBefore(d.periodEnd, d.periodStart) {
      errors, vs := Report(errors, vs, EndBeforeStart, "Period end date must be after start date.");
    }
    assert vs == PeriodViolations(d);
  }

  /** `entries.forEach(...)`: the messages of every entry, entry by entry. */
  method ValidateEntries(entries: seq<Entry>) returns (errors: seq<string>)
    ensures errors == Messages(EntryViolations(entries))
  {
    errors := [];
    var i := 0;
    while i < |entries|
      invariant 0 <= i <= |entries|
      invariant errors == Messages(EntryViolations(entries[..i]))
    {
      var entryErrors := ValidateEntry(i, entries[i]);
      MessagesConcat(EntryViolations(entries[..i]), RuleViolations(i, entries[i]));
      EntryViolationsPrefix(entries, i);
      errors := errors + entryErrors;
      i := i + 1;
    }
    assert entries[..i] == entries;
  }

  /** The body of the `entries.forEach` callback: the messages of entry number `i`. */
  method ValidateEntry(i: nat, entry: Entry) returns (errors: seq<string>)
    ensures errors == Messages(RuleViolations(i, entry))
  {
    errors := [];
    ghost var vs: seq<Violation> := [];
    var prefix := "Entry " + Decimal(i + 1) + ": ";
    errors, vs := CheckRule(i, entry, DateRule, prefix, errors, vs);
    errors, vs := CheckRule(i, entry, StartTimeRule, prefix, errors, vs);
    errors, vs := CheckRule(i, entry, EndTimeRule, prefix, errors, vs);
    errors, vs := CheckRule(i, entry, BreakRule, prefix, errors, vs);
    assert vs == RuleViolations(i, entry);
  }

  /** One of `validateTimesheet`'s four tests on entry `i`, reporting with the entry's prefix. */
  method CheckRule(i: nat, entry: Entry, rule: EntryRule, prefix: string,
                   errors: seq<string>, ghost vs: seq<Violation>)
    returns (errors': seq<string>, ghost vs': seq<Violation>)
    requires prefix == "Entry " + Decimal(i + 1) + ": " && errors == Messages(vs)
    ensures vs' == vs + (if Breaks(entry, rule) then [EntryViolation(i, rule)] else [])
    ensures errors' == Messages(vs')
  {
    var broken := match rule
      case DateRule => entry.date == "" || Calendar.Parse(entry.date).None?
      case StartTimeRule => entry.startTime == "" || !TimeOfDay.IsHHmm(entry.startTime)
      case EndTimeRule => entry.endTime == "" || !TimeOfDay.IsHHmm(entry.endTime)
      case BreakRule => entry.breakMins.NonNumber? || entry.breakMins.value < 0.0;
    if broken {
      errors', vs' := Report(errors, vs, EntryViolation(i, rule), prefix + RuleText(rule));
    } else {
      errors', vs' := errors, vs;
    }
  }

  /** `errors.push(message)`, with the violation the message reports. */
  method Report(errors: seq<string>, ghost vs: seq<Violation>, ghost v: Violation, message: string)
    returns (errors': seq<string>, ghost vs': seq<Violation>)
    requires errors == Messages(vs) && message == Message(v)
    ensures errors' == errors + [message] && vs' == vs + [v] && errors' == Messages(vs')
  {
    errors' := errors + [message];
    vs' := vs + [v];
  }

  lemma EntryViolationsPrefix(es: seq<Entry>, i: nat)
    requires i < |es|
    ensures EntryViolations(es[..i + 1]) == EntryViolations(es[..i]) + RuleViolations(i, es[i])
  {
    assert es[..i + 1][..i] == es[..i];
  }

  lemma MessagesConcat(a: seq<Violation>, b: seq<Violation>)
    ensures Messages(a + b) == Messages(a) + Messages(b)
  {
  }
}
