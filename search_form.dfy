/** The search form: two date-picker values, an inline error, and the guard that
    decides whether a search is issued. The `onSearch` callback is modelled by the
    window `HandleSearch` returns: `Some` when it is called (once), `None` when it
    is not. */
module NeoSearchForm {
  import opened NeoTypes

  /** What a date picker holds: nothing (`null`), a date whose time is not a number
      (what the picker hands over while a date is only partly typed), or an instant.
      Only `Cleared` is falsy; comparing an `Invalid` date with anything is false,
      and formatting one throws. */
  datatype PickerValue = Cleared | Invalid | Valid(at: Instant)

  const MissingDatesError: string := "Please select both start and end dates"
  const OrderError: string := "Start date must be before end date"

  class SearchForm {
    /** Offset of the browser's local time from UTC, in milliseconds. */
    const tz: int
    var startDate: PickerValue
    var endDate: PickerValue
    var error: Option<string>

    /** The default window: from now to the same time seven days later. */
    constructor (now: Instant, tz: int)
      ensures this.tz == tz && error == None
      ensures startDate == Valid(now) && endDate == Valid(AddDays(now, 7))
      ensures LocalDay(endDate.at, tz) == LocalDay(startDate.at, tz) + 7
    {
      this.tz := tz;
      startDate := Valid(now);
      endDate := Valid(AddDays(now, 7));
      error := None;
    }

    method SetStartDate(d: PickerValue)
      modifies this`startDate
      ensures startDate == d
    {
      startDate := d;
    }

    method SetEndDate(d: PickerValue)
      modifies this`endDate
      ensures endDate == d
    {
      endDate := d;
    }

    /** Closing the error banner. */
    method DismissError()
      modifies this`error
      ensures error == None
    {
      error := None;
    }

    /** The search button is disabled exactly while loading or while a date is
        cleared; a date that is not a number enables it. */
    function SearchDisabled(loading: bool): (r: bool)
      reads this
      ensures !r <==> !loading && !startDate.Cleared? && !endDate.Cleared?
    {
      loading || startDate.Cleared? || endDate.Cleared?
    }

    /** The guard sequence: a cleared date first, then the order of the two dates;
        otherwise clear the error and issue the search once, for the local days of
        both dates. Equal dates pass, the comparison being strict. A date that is
        not a number passes both guards (it is truthy, and no comparison with it
        holds); the error is cleared and formatting it throws, so nothing is issued. */
    method HandleSearch() returns (issued: Option<Window>)
      modifies this`error
      ensures startDate.Cleared? || endDate.Cleared? ==>
        error == Some(MissingDatesError) && issued == None
      ensures startDate.Valid? && endDate.Valid? && startDate.at > endDate.at ==>
        error == Some(OrderError) && issued == None
      ensures startDate.Valid? && endDate.Valid? && startDate.at <= endDate.at ==>
        error == None && issued == Some(Window(LocalDay(startDate.at, tz), LocalDay(endDate.at, tz)))
      ensures !startDate.Cleared? && !endDate.Cleared? && (startDate.Invalid? || endDate.Invalid?) ==>
        error == None && issued == None
      ensures issued.Some? ==> issued.value.start <= issued.value.end
    {
      if startDate.Cleared? || endDate.Cleared? {
        error := Some(MissingDatesError);
        return None;
      }
      if startDate.Valid? && endDate.Valid? && startDate.at > endDate.at {
        error := Some(OrderError);
        return None;
      }
      error := None;
      if startDate.Invalid? || endDate.Invalid? {
        return None;
      }
      LocalDayMonotone(startDate.at, endDate.at, tz);
      issued := Some(Window(LocalDay(startDate.at, tz), LocalDay(endDate.at, tz)));
    }
  }
}
