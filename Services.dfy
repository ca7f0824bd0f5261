/**
 * The DateTimeService of the Services namespace: jurisdiction validation, the
 * day-walking working-day counter, the weekend and public-holiday predicates,
 * and the lazily loaded holiday catalogue with its record parser.
 *
 * Reading the holiday data file and decoding its JSON are outside the model:
 * every operation that may read the file takes `decoded`, the list of records
 * the decoder would return at that moment, each record a map from key to text.
 */
module Services {

  import opened Wrappers
  import opened Data
  import opened Calendar

  // ---------------------------------------------------------------------------
  // Jurisdictions

  const StateSa: string := "sa"
  const StateNsw: string := "nsw"
  const StateVic: string := "vic"

  const ValidStates: seq<string> := [StateSa, StateNsw, StateVic]

  /**
   * `in_array($state, VALID_STATES)`. The comparison is loose, but a string
   * compared with these three non-numeric strings is compared exactly, so the
   * check is case-sensitive.
   */
  function IsValidState(state: string): (valid: bool)
    ensures valid <==> state == "sa" || state == "nsw" || state == "vic"
  {
    state in ValidStates
  }

  /** `empty($state)` for a string: the empty string and "0" are empty. */
  predicate IsEmpty(state: string)
  {
    state == "" || state == "0"
  }

  /** `implode($glue, $parts)`. */
  function Implode(glue: string, parts: seq<string>): string
  {
    if |parts| == 0 then ""
    else if |parts| == 1 then parts[0]
    else parts[0] + glue + Implode(glue, parts[1..])
  }

  /** The message of the exception thrown for a state outside ValidStates. */
  function InvalidStateMessage(): (message: string)
    ensures message == "State must be one of sa, nsw, vic"
  {
    assert Implode(", ", [StateVic]) == "vic";
    assert Implode(", ", [StateNsw, StateVic]) == "nsw, vic";
    assert ValidStates[1..] == [StateNsw, StateVic] && ValidStates[1..][1..] == [StateVic];
    "State must be one of " + Implode(", ", ValidStates)
  }

  // ---------------------------------------------------------------------------
  // Holiday catalogue

  /** One decoded JSON object of the holiday data file. */
  type JsonRecord = map<string, string>

  /** `$array[$key]`: null when the key is missing. */
  function Get(record: JsonRecord, key: string): Option<string>
  {
    if key in record then Some(record[key]) else None
  }

  /** `$array[$key] ?? $default`. */
  function GetOr(record: JsonRecord, key: string, default: string): string
  {
    if key in record then record[key] else default
  }

  /**
   * getPublicHolidayFromJSONArray, as written: the guard returns null when the
   * record HAS a "Date", so a record is kept only when it lacks one, and then
   * `$array["Date"]` is null. Name and jurisdiction default to "".
   */
  function GetPublicHolidayFromJsonArray(record: JsonRecord): (r: Option<PublicHoliday>)
    ensures r.None? <==> "Date" in record
    ensures r.Some? ==> r.value.dateYMD == None
    ensures r.Some? ==> r.value.name == (if "Holiday Name" in record then record["Holiday Name"] else "")
    ensures r.Some? ==> r.value.state == (if "Jurisdiction" in record then record["Jurisdiction"] else "")
  {
    if "Date" in record then
      None
    else
      Some(PublicHoliday(Get(record, "Date"), GetOr(record, "Holiday Name", ""), GetOr(record, "Jurisdiction", "")))
  }

  /**
   * The list fetchPublicHolidays builds from the decoded records: the records
   * the parser accepts, in the order of the file.
   */
  function ParsedHolidays(decoded: seq<JsonRecord>): (holidays: seq<PublicHoliday>)
    ensures |holidays| <= |decoded|
    ensures forall h :: h in holidays ==> h.dateYMD == None
  {
    if decoded == [] then []
    else
      var last := decoded[|decoded| - 1];
      var rest := ParsedHolidays(decoded[..|decoded| - 1]);
      match GetPublicHolidayFromJsonArray(last)
      case Some(holiday) => rest + [holiday]
      case None => rest
  }

  /**
   * What fetchPublicHolidays returns and leaves in the cache: the cache when it
   * is truthy (non-empty), otherwise the freshly parsed list.
   */
  function FetchResult(cache: seq<PublicHoliday>, decoded: seq<JsonRecord>): (holidays: seq<PublicHoliday>)
    ensures cache != [] ==> holidays == cache
    ensures cache == [] ==> |holidays| <= |decoded| && forall h :: h in holidays ==> h.dateYMD.None?
  {
    if cache != [] then cache else ParsedHolidays(decoded)
  }

  /** The `dateYMD` of every holiday, in order. */
  function DatesOf(holidays: seq<PublicHoliday>): (dates: seq<Option<string>>)
  {
    seq(|holidays|, k requires 0 <= k < |holidays| => holidays[k].dateYMD)
  }

  /**
   * What getPublicHolidaysAsYMDArray returns: nothing for an empty or invalid
   * state, otherwise the date of every fetched holiday, whatever the
   * holiday's own jurisdiction.
   */
  function YmdDates(state: string, cache: seq<PublicHoliday>, decoded: seq<JsonRecord>): (dates: seq<Option<string>>)
    ensures !IsValidState(state) ==> dates == []
    ensures IsValidState(state) ==> |dates| == |FetchResult(cache, decoded)|
    ensures IsValidState(state) ==>
      forall k :: 0 <= k < |dates| ==> dates[k] == FetchResult(cache, decoded)[k].dateYMD
  {
    if IsEmpty(state) || !IsValidState(state) then [] else DatesOf(FetchResult(cache, decoded))
  }

  // ---------------------------------------------------------------------------
  // Calendar predicates

  /** isDateOnAWeekend: the day's name is "Saturday" or "Sunday". */
  function IsDateOnAWeekend(t: int): (weekend: bool)
    ensures weekend <==> WeekdayNumber(t) == 6 || WeekdayNumber(t) == 0
  {
    DayName(t) in ["Saturday", "Sunday"]
  }

  /**
   * The membership test of isDateOnAPublicHoliday: the `Y-m-d` text of `t` is
   * one of the dates. A null entry never equals a date text, which is never
   * empty, under PHP's loose comparison either.
   */
  function IsOnHolidayList(dates: seq<Option<string>>, t: int): (onList: bool)
    ensures onList ==> exists k :: 0 <= k < |dates| && dates[k].Some? && |dates[k].value| >= 10
    ensures (forall k :: 0 <= k < |dates| ==> dates[k].None?) ==> !onList
  {
    Some(FormatYmd(t)) in dates
  }

  /** The holiday test the counter's loop applies to each cursor, for the dates its lookups see. */
  function HolidayTest(dates: seq<Option<string>>): int -> bool
  {
    t => IsOnHolidayList(dates, t)
  }

  // ---------------------------------------------------------------------------
  // Working-day counter

  /**
   * The outcomes of getNumberOfWorkingDaysBetween: the exception for a bad
   * state, the TypeError raised when the weekend filter is reached (it hands
   * the state string to a DateTime parameter), a loop that repeats one
   * iteration forever, or a count.
   */
  datatype DayCount = InvalidState(message: string) | TypeError | NoProgress | Count(days: nat)

  /** The least number of whole days that takes `fromTime` to or past `toTime`. */
  function DaysToCover(fromTime: int, toTime: int): (n: nat)
    ensures NthDay(fromTime, n) >= toTime
    ensures n > 0 ==> NthDay(fromTime, n - 1) < toTime
    decreases toTime - fromTime
  {
    if fromTime >= toTime then 0 else 1 + DaysToCover(NthDay(fromTime, 1), toTime)
  }

  /**
   * The loop from a cursor and a count onwards. A filter that fires leaves
   * cursor and count as they are, so the next iteration is the same one again:
   * that is NoProgress.
   */
  function Walk(cursor: int, toTime: int, days: nat, skipWeekends: bool, skipPublicHolidays: bool,
                isHoliday: int -> bool): (r: DayCount)
    ensures !r.InvalidState?
    decreases toTime - cursor
  {
    if cursor >= toTime then Count(days)
    else if skipPublicHolidays && !isHoliday(cursor) then NoProgress
    else if skipWeekends then TypeError
    else Walk(NthDay(cursor, 1), toTime, days + 1, skipWeekends, skipPublicHolidays, isHoliday)
  }

  /**
   * getNumberOfWorkingDaysBetween against the holiday test every lookup in
   * the loop applies: validation first, then the walk from `fromTime` with no days.
   */
  function WorkingDays(state: string, fromTime: int, toTime: int, skipWeekends: bool, skipPublicHolidays: bool,
                       isHoliday: int -> bool): (r: DayCount)
    ensures r.InvalidState? <==> !IsValidState(state)
    ensures r.InvalidState? ==> r.message == "State must be one of sa, nsw, vic"
    ensures IsValidState(state) && toTime <= fromTime ==> r == Count(0)
  {
    if !IsValidState(state) then InvalidState(InvalidStateMessage())
    else Walk(fromTime, toTime, 0, skipWeekends, skipPublicHolidays, isHoliday)
  }

  // ---------------------------------------------------------------------------
  // The service object

  class DateTimeService {

    /** The cached holiday list; [] stands for both PHP's null and an empty array, which are falsy alike. */
    var lazyLoadedPublicHolidays: seq<PublicHoliday>

    constructor ()
      ensures lazyLoadedPublicHolidays == []
    {
      lazyLoadedPublicHolidays := [];
    }

    /**
     * fetchPublicHolidays: returns the cache when it is non-empty; otherwise
     * parses the decoded records, stores the result and returns it.
     */
    method FetchPublicHolidays(decoded: seq<JsonRecord>) returns (holidays: seq<PublicHoliday>)
      modifies this
      ensures old(lazyLoadedPublicHolidays) != [] ==> holidays == old(lazyLoadedPublicHolidays)
      ensures old(lazyLoadedPublicHolidays) == [] ==> holidays == ParsedHolidays(decoded)
      ensures lazyLoadedPublicHolidays == holidays
    {
      if lazyLoadedPublicHolidays != [] {
        return lazyLoadedPublicHolidays;
      }
      var parsed: seq<PublicHoliday> := [];
      for i := 0 to |decoded|
        invariant parsed == ParsedHolidays(decoded[..i])
      {
        assert decoded[..i + 1][..i] == decoded[..i];
        var holiday := GetPublicHolidayFromJsonArray(decoded[i]);
        if holiday.Some? {
          parsed := parsed + [holiday.value];
        }
      }
      assert decoded[..|decoded|] == decoded;
      lazyLoadedPublicHolidays := parsed;
      holidays := parsed;
    }

    /**
     * getPublicHolidaysAsYMDArray: [] for an empty or invalid state without
     * touching the cache; otherwise fetches and projects every holiday to its date.
     */
    method GetPublicHolidaysAsYmdArray(state: string, decoded: seq<JsonRecord>) returns (dates: seq<Option<string>>)
      modifies this
      ensures dates == YmdDates(state, old(lazyLoadedPublicHolidays), decoded)
      ensures lazyLoadedPublicHolidays ==
        if IsValidState(state) then FetchResult(old(lazyLoadedPublicHolidays), decoded)
        else old(lazyLoadedPublicHolidays)
    {
      if IsEmpty(state) || !IsValidState(state) {
        return [];
      }
      var holidays := FetchPublicHolidays(decoded);
      dates := [];
      for i := 0 to |holidays|
        invariant |dates| == i
        invariant forall k :: 0 <= k < i ==> dates[k] == holidays[k].dateYMD
      {
        dates := dates + [holidays[i].dateYMD];
      }
    }

    /** isDateOnAPublicHoliday: the day's `Y-m-d` text is among the state's holiday dates. */
    method IsDateOnAPublicHoliday(state: string, t: int, decoded: seq<JsonRecord>) returns (onHoliday: bool)
      modifies this
      ensures onHoliday == IsOnHolidayList(YmdDates(state, old(lazyLoadedPublicHolidays), decoded), t)
      ensures lazyLoadedPublicHolidays ==
        if IsValidState(state) then FetchResult(old(lazyLoadedPublicHolidays), decoded)
        else old(lazyLoadedPublicHolidays)
    {
      var dates := GetPublicHolidaysAsYmdArray(state, decoded);
      onHoliday := Some(FormatYmd(t)) in dates;
    }

    /**
     * getNumberOfWorkingDaysBetween, with `from` and `to` already parsed to
     * timestamps. Where the source's `continue` would rerun an iteration that
     * changes nothing, forever, the model returns NoProgress.
     */
    method GetNumberOfWorkingDaysBetween(state: string, fromTime: int, toTime: int, skipWeekends: bool,
                                         skipPublicHolidays: bool, decoded: seq<JsonRecord>)
      returns (r: DayCount)
      modifies this
      ensures r == WorkingDays(state, fromTime, toTime, skipWeekends, skipPublicHolidays,
                               HolidayTest(DatesOf(FetchResult(old(lazyLoadedPublicHolidays), decoded))))
      ensures lazyLoadedPublicHolidays ==
        if IsValidState(state) && fromTime < toTime && skipPublicHolidays
        then FetchResult(old(lazyLoadedPublicHolidays), decoded)
        else old(lazyLoadedPublicHolidays)
    {
      if !IsValidState(state) {
        return InvalidState(InvalidStateMessage());
      }
      ghost var isHoliday := HolidayTest(DatesOf(FetchResult(lazyLoadedPublicHolidays, decoded)));
      var cursor, days := fromTime, 0;
      while cursor < toTime
        invariant cursor == NthDay(fromTime, days)
        invariant Walk(cursor, toTime, days, skipWeekends, skipPublicHolidays, isHoliday)
               == Walk(fromTime, toTime, 0, skipWeekends, skipPublicHolidays, isHoliday)
        invariant lazyLoadedPublicHolidays ==
          if days > 0 && skipPublicHolidays then FetchResult(old(lazyLoadedPublicHolidays), decoded)
          else old(lazyLoadedPublicHolidays)
        invariant days > 0 ==> fromTime < toTime
        decreases toTime - cursor
      {
        if skipPublicHolidays {
          ghost var cacheBefore := lazyLoadedPublicHolidays;
          var onHoliday := IsDateOnAPublicHoliday(state, cursor, decoded);
          assert YmdDates(state, cacheBefore, decoded) == DatesOf(FetchResult(old(lazyLoadedPublicHolidays), decoded));
          assert onHoliday == isHoliday(cursor);
          if !onHoliday {
            // `continue`: cursor and days stay, and the cache is now a fixed
            // point of FetchResult, so every later iteration is this one again.
            return NoProgress;
          }
        }
        if skipWeekends {
          // `isDateOnAWeekend($state)` receives a string where a DateTime is declared.
          return TypeError;
        }
        cursor := NthDay(cursor, 1);
        days := days + 1;
      }
      r := Count(days);
    }

  }

}
