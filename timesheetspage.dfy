/**
 * The state of the timesheet page and its handlers: choosing an employee and
 * a period, loading the week, editing rows and saving. Requests to the
 * backend are returned to the caller instead of being sent.
 */
module TimesheetsPage {
  import opened Options
  import opened Strings
  import opened Timesheets
  import opened Entries
  import Calendar

  /** One stored timesheet as the load request returns it. */
  datatype ApiTimesheet = ApiTimesheet(id: string, entries: seq<ApiEntry>, allowances: real)

  /** The arguments of `loadTimesheetMutation.mutate`. */
  datatype LoadRequest = LoadRequest(employeeId: string, periodStart: string, periodEnd: string)

  /** `addTimesheetMutation.mutate(payload)` or `updateTimesheetMutation.mutate(payload)`. */
  datatype SaveRequest = Add(payload: Payload) | Update(id: string, payload: Payload)

  const LoadGateMessage: string := "Please select employee and a valid 7-day date range."

  /** `handleLoadTimesheet`'s condition for asking the backend for a week. */
  predicate LoadAllowed(employee: string, start: string, end: string) {
    employee != "" && start != "" && end != "" && IsSevenDayRange(start, end)
  }

  /** The page's state hooks. `timesheetId` is `None` for `null`. */
  class TimesheetForm {
    var selectedEmployee: string
    var selectedWeekStart: string
    var selectedWeekEnd: string
    var timesheetEntries: seq<Entry>
    var formErrors: seq<string>
    var timesheetLoaded: bool
    var timesheetId: Option<string>
    var allowances: real

    /** The initial values of the `useState` calls. */
    constructor ()
      ensures selectedEmployee == "" && selectedWeekStart == "" && selectedWeekEnd == ""
      ensures timesheetEntries == [] && formErrors == [] && !timesheetLoaded
      ensures timesheetId == None && allowances == 0.0
    {
      selectedEmployee := "";
      selectedWeekStart := "";
      selectedWeekEnd := "";
      timesheetEntries := [];
      formErrors := [];
      timesheetLoaded := false;
      timesheetId := None;
      allowances := 0.0;
    }

    /** What `handleSave` hands to `validateTimesheet`. */
    function CurrentDraft(): (d: Draft)
      reads this
      ensures d.employeeId == selectedEmployee && d.entries == timesheetEntries
      ensures d.periodStart == selectedWeekStart && d.periodEnd == selectedWeekEnd
      ensures d.allowances == allowances
    {
      Draft(selectedEmployee, selectedWeekStart, selectedWeekEnd, timesheetEntries, allowances)
    }

    /** The employee select's `onChange`: a new employee unloads the week. */
    method SelectEmployee(value: string)
      modifies this`selectedEmployee, this`timesheetLoaded
      ensures selectedEmployee == value && !timesheetLoaded
    {
      selectedEmployee := value;
      timesheetLoaded := false;
    }

    /**
     * `handleStartChange`: a new start unloads the week and clears an end
     * date that now comes before it.
     */
    method HandleStartChange(value: string)
      modifies this`selectedWeekStart, this`selectedWeekEnd, this`timesheetLoaded
      ensures selectedWeekStart == value && !timesheetLoaded
      ensures selectedWeekEnd == if old(selectedWeekEnd) != "" && Less(old(selectedWeekEnd), value)
                                 then "" else old(selectedWeekEnd)
      ensures selectedWeekEnd == "" || !Less(selectedWeekEnd, selectedWeekStart)
    {
      var end := selectedWeekEnd;
      selectedWeekStart := value;
      timesheetLoaded := false;
      if end != "" && Less(end, value) {
        selectedWeekEnd := "";
      }
    }

    /** `handleEndChange`: a new end unloads the week. */
    method HandleEndChange(value: string)
      modifies this`selectedWeekEnd, this`timesheetLoaded
      ensures selectedWeekEnd == value && !timesheetLoaded
    {
      selectedWeekEnd := value;
      timesheetLoaded := false;
    }

    /**
     * `handleLoadTimesheet`: asks for the week only with an employee and a
     * seven-day period, and otherwise shows the one gate message.
     */
    method HandleLoadTimesheet() returns (request: Option<LoadRequest>)
      modifies this`formErrors, this`timesheetLoaded
      ensures !timesheetLoaded
      ensures request.Some? <==> LoadAllowed(selectedEmployee, selectedWeekStart, selectedWeekEnd)
      ensures request.Some? ==> request.value == LoadRequest(selectedEmployee, selectedWeekStart, selectedWeekEnd)
      ensures formErrors == if request.Some? then [] else [LoadGateMessage]
    {
      formErrors := [];
      timesheetLoaded := false;
      if selectedEmployee != "" && selectedWeekStart != "" && selectedWeekEnd != ""
         && IsSevenDayRange(selectedWeekStart, selectedWeekEnd)
      {
        request := Some(LoadRequest(selectedEmployee, selectedWeekStart, selectedWeekEnd));
      } else {
        formErrors := ["Please select employee and a valid 7-day date range."];
        request := None;
      }
    }

    /**
     * `loadTimesheetMutation.onSuccess`: the first stored timesheet, if any,
     * gives the id and the stored entries; the rows are the days of the
     * chosen period, prefilled from those entries.
     */
    method LoadSucceeded(data: seq<ApiTimesheet>)
      modifies this`timesheetId, this`timesheetEntries, this`timesheetLoaded
      ensures timesheetLoaded
      ensures timesheetId == if |data| > 0 then Some(data[0].id) else None
      ensures var api := if |data| > 0 then data[0].entries else [];
              timesheetEntries == Prefill(Dates(timesheetEntries), api)
      ensures Calendar.Parse(selectedWeekStart).None? || Calendar.Parse(selectedWeekEnd).None? ==>
                timesheetEntries == []
      ensures Calendar.Parse(selectedWeekStart).Some? && Calendar.Parse(selectedWeekEnd).Some? ==>
                |timesheetEntries|
                == Span(Calendar.Parse(selectedWeekStart).value, Calendar.Parse(selectedWeekEnd).value)
      ensures forall i :: 0 <= i < |timesheetEntries| ==>
                && Calendar.Parse(selectedWeekStart).Some?
                && Calendar.Parse(timesheetEntries[i].date).Some?
                && Calendar.DayNumber(Calendar.Parse(timesheetEntries[i].date).value)
                   == Calendar.DayNumber(Calendar.Parse(selectedWeekStart).value) + i
      ensures IsSevenDayRange(selectedWeekStart, selectedWeekEnd) ==> |timesheetEntries| == 7
    {
      var apiEntries := if |data| > 0 then data[0].entries else [];
      timesheetId := if |data| > 0 then Some(data[0].id) else None;
      var range := DateRange(selectedWeekStart, selectedWeekEnd);
      timesheetEntries := Prefill(range, apiEntries);
      assert Dates(timesheetEntries) == range;
      timesheetLoaded := true;
      SevenDayRangeSpan(selectedWeekStart, selectedWeekEnd);
    }

    /** `loadTimesheetMutation.onError`: the week is unloaded and forgets its id. */
    method LoadFailed()
      modifies this`timesheetLoaded, this`timesheetId
      ensures !timesheetLoaded && timesheetId == None
    {
      timesheetLoaded := false;
      timesheetId := None;
    }

    /** `handleEntryChange`: one field of row `idx` takes the new value. */
    method HandleEntryChange(idx: int, edit: Edit)
      modifies this`timesheetEntries
      ensures timesheetEntries == UpdateEntry(old(timesheetEntries), idx, edit)
    {
      timesheetEntries := UpdateEntry(timesheetEntries, idx, edit);
    }

    /** The start input of row `idx`: the edit is made only when the guard accepts it. */
    method ChangeStartTime(idx: nat, newStart: string) returns (accepted: bool)
      requires idx < |timesheetEntries|
      modifies this`timesheetEntries
      ensures accepted == StartAccepted(old(timesheetEntries)[idx], newStart)
      ensures timesheetEntries == if accepted then UpdateEntry(old(timesheetEntries), idx, SetStartTime(newStart))
                                  else old(timesheetEntries)
      ensures accepted ==> TimesOrdered(timesheetEntries[idx])
    {
      accepted := StartAccepted(timesheetEntries[idx], newStart);
      if accepted {
        HandleEntryChange(idx, SetStartTime(newStart));
      }
    }

    /** The end input of row `idx`: the edit is made only when the guard accepts it. */
    method ChangeEndTime(idx: nat, newEnd: string) returns (accepted: bool)
      requires idx < |timesheetEntries|
      modifies this`timesheetEntries
      ensures accepted == EndAccepted(old(timesheetEntries)[idx], newEnd)
      ensures timesheetEntries == if accepted then UpdateEntry(old(timesheetEntries), idx, SetEndTime(newEnd))
                                  else old(timesheetEntries)
      ensures accepted ==> TimesOrdered(timesheetEntries[idx])
    {
      accepted := EndAccepted(timesheetEntries[idx], newEnd);
      if accepted {
        HandleEntryChange(idx, SetEndTime(newEnd));
      }
    }

    /** The allowances input's `onChange`. */
    method SetAllowances(value: real)
      modifies this`allowances
      ensures allowances == value
    {
      allowances := value;
    }

    /**
     * `handleSave`: shows the validator's messages and, exactly when there are
     * none, sends the payload, as an update when the week has an id and as a
     * new timesheet otherwise.
     */
    method HandleSave() returns (request: Option<SaveRequest>)
      modifies this`formErrors
      ensures formErrors == TimesheetErrors(CurrentDraft())
      ensures request.Some? <==> WellFormed(CurrentDraft())
      ensures request.Some? ==> request.value.payload == BuildPayload(CurrentDraft())
      ensures request.Some? ==>
                (request.value.Update? <==> timesheetId.Some? && timesheetId.value != "")
      ensures request.Some? && request.value.Update? ==> request.value.id == timesheetId.value
    {
      var errors := ValidateTimesheet(CurrentDraft());
      formErrors := errors;
      NoErrorsIffWellFormed(CurrentDraft());
      if |errors| == 0 {
        var payload := BuildPayload(CurrentDraft());
        if timesheetId.Some? && timesheetId.value != "" {
          request := Some(Update(timesheetId.value, payload));
        } else {
          request := Some(Add(payload));
        }
      } else {
        request := None;
      }
    }
  }
}
