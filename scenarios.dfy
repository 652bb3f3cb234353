/**
 * Example drafts and periods, and what the validator and the seven-day gate
 * make of them.
 */
module Scenarios {
  import opened Options
  import opened Strings
  import opened Timesheets
  import Calendar
  import TimeOfDay

  /** The first week of 2024 with one well-formed row. */
  function GoodDraft(): Draft {
    Draft("emp1", "2024-01-01", "2024-01-07",
          [Entry("2024-01-01", "09:00", "17:00", Num(30.0))], 0.0)
  }

  lemma FirstOfJanuary()
    ensures Calendar.Parse("2024-01-01") == Some(Calendar.Date(2024, 1, 1))
  {
  }

  lemma SixthOfJanuary()
    ensures Calendar.Parse("2024-01-06") == Some(Calendar.Date(2024, 1, 6))
  {
  }

  lemma SeventhOfJanuary()
    ensures Calendar.Parse("2024-01-07") == Some(Calendar.Date(2024, 1, 7))
  {
  }

  lemma EighthOfJanuary()
    ensures Calendar.Parse("2024-01-08") == Some(Calendar.Date(2024, 1, 8))
  {
  }

  lemma OfficeHours()
    ensures TimeOfDay.IsHHmm("09:00") && TimeOfDay.IsHHmm("17:00")
  {
  }

  /** The well-formed draft validates to no messages, and its period is a seven-day range. */
  lemma GoodDraftAccepted()
    ensures TimesheetErrors(GoodDraft()) == []
    ensures IsSevenDayRange("2024-01-01", "2024-01-07")
  {
    FirstOfJanuary();
    SeventhOfJanuary();
    OfficeHours();
    assert EntryOk(GoodDraft().entries[0]);
    NoErrorsIffWellFormed(GoodDraft());
  }

  /**
   * Omitting the employee of a draft that is otherwise well formed yields
   * exactly the employee message.
   */
  lemma MissingEmployeeOnly(d: Draft)
    requires WellFormed(d)
    ensures TimesheetErrors(d.(employeeId := "")) == [Message(MissingEmployee)]
  {
    var e := d.(employeeId := "");
    WellFormedNoViolations(d);
    assert PeriodViolations(e) == PeriodViolations(d);
    assert EntriesViolations(e) == EntriesViolations(d);
    assert Violations(d) == PeriodViolations(d) + EntriesViolations(d);
    assert Violations(e) == [MissingEmployee] + PeriodViolations(d) + EntriesViolations(d);
  }

  /** The draft above without its employee gets exactly ["Employee is required."]. */
  lemma GoodDraftWithoutEmployee()
    ensures TimesheetErrors(GoodDraft().(employeeId := "")) == ["Employee is required."]
  {
    GoodDraftAccepted();
    NoErrorsIffWellFormed(GoodDraft());
    MissingEmployeeOnly(GoodDraft());
  }

  /** The first entry's start-time message reads "Entry 1: Start time must be in HH:mm format.". */
  lemma FirstStartTimeMessage()
    ensures Message(EntryViolation(0, StartTimeRule)) == "Entry " + "1" + ": " + "Start time must be in HH:mm format."
  {
    assert Decimal(1) == "1";
  }

  /** A first entry starting at "9:00" is reported with the first entry's start-time message. */
  lemma UnpaddedStartTimeRejected(d: Draft)
    requires |d.entries| > 0 && d.entries[0].startTime == "9:00"
    ensures Message(EntryViolation(0, StartTimeRule)) in TimesheetErrors(d)
  {
    TimeOfDay.RejectedExamples();
    assert Applies(d, EntryViolation(0, StartTimeRule));
    ErrorReported(d, EntryViolation(0, StartTimeRule));
  }

  /**
   * Two dates that parse with the end earlier get the "must be after"
   * message and neither "required" message.
   */
  lemma ReversedPeriod(d: Draft)
    requires IsDateString(d.periodStart) && IsDateString(d.periodEnd)
    requires Calendar.DayNumber(Calendar.Parse(d.periodEnd).value)
             < Calendar.DayNumber(Calendar.Parse(d.periodStart).value)
    ensures Message(EndBeforeStart) in TimesheetErrors(d)
    ensures Message(MissingPeriodStart) !in TimesheetErrors(d)
    ensures Message(MissingPeriodEnd) !in TimesheetErrors(d)
  {
    ErrorReported(d, EndBeforeStart);
    ErrorReported(d, MissingPeriodStart);
    ErrorReported(d, MissingPeriodEnd);
  }

  /** 2024-01-07 to 2024-01-01 is such a reversed period. */
  lemma ReversedFirstWeek()
    ensures IsDateString("2024-01-07") && IsDateString("2024-01-01")
    ensures Calendar.DayNumber(Calendar.Parse("2024-01-01").value)
            < Calendar.DayNumber(Calendar.Parse("2024-01-07").value)
  {
    FirstOfJanuary();
    SeventhOfJanuary();
  }

  /** Negative allowances are reported whatever else the draft holds. */
  lemma NegativeAllowancesReported(d: Draft)
    requires d.allowances < 0.0
    ensures "Allowances must be 0 or more." in TimesheetErrors(d)
  {
    ErrorReported(d, NegativeAllowances);
  }

  /**
   * The validator does not re-check the seven-day rule: the draft above over
   * eight days validates to no messages although the load gate refuses its
   * period.
   */
  lemma EightDayDraftValidates()
    ensures TimesheetErrors(GoodDraft().(periodEnd := "2024-01-08")) == []
    ensures !IsSevenDayRange("2024-01-01", "2024-01-08")
  {
    var d := GoodDraft().(periodEnd := "2024-01-08");
    FirstOfJanuary();
    EighthOfJanuary();
    OfficeHours();
    assert EntryOk(d.entries[0]);
    NoErrorsIffWellFormed(d);
  }

  /** The gate refuses a reversed period, a single day, six days and eight days, and a missing date. */
  lemma SevenDayGateRefusals()
    ensures !IsSevenDayRange("2024-01-07", "2024-01-01")
    ensures !IsSevenDayRange("2024-01-01", "2024-01-01")
    ensures !IsSevenDayRange("2024-01-01", "2024-01-06")
    ensures !IsSevenDayRange("2024-01-01", "2024-01-08")
    ensures !IsSevenDayRange("", "2024-01-07") && !IsSevenDayRange("2024-01-01", "")
  {
    FirstOfJanuary();
    SixthOfJanuary();
    SeventhOfJanuary();
    EighthOfJanuary();
  }
}
