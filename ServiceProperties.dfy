/**
 * What the DateTimeService does, stated across its members: the outcome of the
 * day walk in closed form, the catalogue's parse and cache behaviour, and what
 * a caller of a freshly constructed service gets.
 */
module ServiceProperties {

  import opened Wrappers
  import opened Data
  import opened Calendar
  import opened Services

  // ---------------------------------------------------------------------------
  // The day walk

  /** Every one of the `n` days from `cursor` on passes the holiday test. */
  predicate AllHolidays(isHoliday: int -> bool, cursor: int, n: nat)
  {
    forall k :: 0 <= k < n ==> isHoliday(NthDay(cursor, k))
  }

  /** With both filters off, every iteration advances one day and counts it. */
  lemma {:induction false} WalkPlainCount(cursor: int, toTime: int, days: nat, isHoliday: int -> bool)
    ensures Walk(cursor, toTime, days, false, false, isHoliday) == Count(days + DaysToCover(cursor, toTime))
    decreases toTime - cursor
  {
    if cursor < toTime {
      WalkPlainCount(NthDay(cursor, 1), toTime, days + 1, isHoliday);
    }
  }

  /** All `n` days from `cursor` on are holidays when the first is and the rest from the next day on are. */
  lemma AllHolidaysStep(isHoliday: int -> bool, cursor: int, n: nat)
    requires 1 <= n
    ensures AllHolidays(isHoliday, cursor, n)
        <==> isHoliday(cursor) && AllHolidays(isHoliday, NthDay(cursor, 1), n - 1)
  {
    var next := NthDay(cursor, 1);
    assert NthDay(cursor, 0) == cursor;
    if AllHolidays(isHoliday, cursor, n) {
      forall k | 0 <= k < n - 1
        ensures isHoliday(NthDay(next, k))
      {
        assert NthDay(next, k) == NthDay(cursor, k + 1);
      }
    }
    if isHoliday(cursor) && AllHolidays(isHoliday, next, n - 1) {
      forall k | 0 <= k < n
        ensures isHoliday(NthDay(cursor, k))
      {
        if k > 0 {
          assert NthDay(cursor, k) == NthDay(next, k - 1);
        }
      }
    }
  }

  /**
   * With only the holiday filter on, the walk counts every day when every day
   * is a holiday, and otherwise stalls on the first day that is not.
   */
  lemma {:induction false} WalkHolidaysOnly(cursor: int, toTime: int, days: nat, isHoliday: int -> bool)
    ensures Walk(cursor, toTime, days, false, true, isHoliday)
         == if AllHolidays(isHoliday, cursor, DaysToCover(cursor, toTime))
            then Count(days + DaysToCover(cursor, toTime))
            else NoProgress
    decreases toTime - cursor
  {
    if cursor < toTime {
      WalkHolidaysOnly(NthDay(cursor, 1), toTime, days + 1, isHoliday);
      AllHolidaysStep(isHoliday, cursor, DaysToCover(cursor, toTime));
    }
  }

  /**
   * A count, whenever the walk returns one, adds every one-day step from the
   * cursor to the end: no step is ever left out of it, whatever the filters.
   */
  lemma {:induction false} WalkCountIsDaysToCover(cursor: int, toTime: int, days: nat, skipWeekends: bool,
                                                   skipPublicHolidays: bool, isHoliday: int -> bool, n: nat)
    requires Walk(cursor, toTime, days, skipWeekends, skipPublicHolidays, isHoliday) == Count(n)
    ensures n == days + DaysToCover(cursor, toTime)
    decreases toTime - cursor
  {
    if cursor < toTime {
      WalkCountIsDaysToCover(NthDay(cursor, 1), toTime, days + 1, skipWeekends, skipPublicHolidays, isHoliday, n);
    }
  }

  /**
   * The outcome of getNumberOfWorkingDaysBetween for every combination of
   * inputs: validation first; an empty range counts nothing; the holiday
   * filter stalls on a non-holiday; the weekend filter, once reached, throws;
   * and the plain count is the number of days the range covers.
   */
  lemma WorkingDaysOutcome(state: string, fromTime: int, toTime: int, skipWeekends: bool,
                           skipPublicHolidays: bool, isHoliday: int -> bool)
    ensures !IsValidState(state) ==>
      WorkingDays(state, fromTime, toTime, skipWeekends, skipPublicHolidays, isHoliday).InvalidState?
    ensures IsValidState(state) && toTime <= fromTime ==>
      WorkingDays(state, fromTime, toTime, skipWeekends, skipPublicHolidays, isHoliday) == Count(0)
    ensures IsValidState(state) && fromTime < toTime && skipPublicHolidays && !isHoliday(fromTime) ==>
      WorkingDays(state, fromTime, toTime, skipWeekends, skipPublicHolidays, isHoliday) == NoProgress
    ensures IsValidState(state) && fromTime < toTime && skipWeekends
            && (!skipPublicHolidays || isHoliday(fromTime)) ==>
      WorkingDays(state, fromTime, toTime, skipWeekends, skipPublicHolidays, isHoliday) == TypeError
    ensures IsValidState(state) && !skipWeekends && !skipPublicHolidays ==>
      WorkingDays(state, fromTime, toTime, skipWeekends, skipPublicHolidays, isHoliday)
      == Count(DaysToCover(fromTime, toTime))
    ensures IsValidState(state) && !skipWeekends && skipPublicHolidays ==>
      WorkingDays(state, fromTime, toTime, skipWeekends, skipPublicHolidays, isHoliday)
      == if AllHolidays(isHoliday, fromTime, DaysToCover(fromTime, toTime))
         then Count(DaysToCover(fromTime, toTime)) else NoProgress
  {
    WalkPlainCount(fromTime, toTime, 0, isHoliday);
    WalkHolidaysOnly(fromTime, toTime, 0, isHoliday);
  }

  /** Any count the service returns is the number of one-day steps from `fromTime` to `toTime`. */
  lemma WorkingDaysCountIsDaysToCover(state: string, fromTime: int, toTime: int, skipWeekends: bool,
                                       skipPublicHolidays: bool, isHoliday: int -> bool, n: nat)
    requires WorkingDays(state, fromTime, toTime, skipWeekends, skipPublicHolidays, isHoliday) == Count(n)
    ensures n == DaysToCover(fromTime, toTime)
  {
    WalkCountIsDaysToCover(fromTime, toTime, 0, skipWeekends, skipPublicHolidays, isHoliday, n);
  }

  // ---------------------------------------------------------------------------
  // The catalogue

  /** Parsing keeps the order of the file: the parse of two runs of records is the two parses joined. */
  lemma {:induction false} ParsedHolidaysAppend(a: seq<JsonRecord>, b: seq<JsonRecord>)
    ensures ParsedHolidays(a + b) == ParsedHolidays(a) + ParsedHolidays(b)
    decreases |b|
  {
    if b == [] {
      assert a + b == a;
    } else {
      var b' := b[..|b| - 1];
      ParsedHolidaysAppend(a, b');
      assert (a + b)[..|a + b| - 1] == a + b';
      assert (a + b)[|a + b| - 1] == b[|b| - 1];
    }
  }

  /** A holiday is in the parsed list exactly when some record of the file parses to it. */
  lemma {:induction false} ParsedHolidaysMembership(decoded: seq<JsonRecord>, h: PublicHoliday)
    ensures h in ParsedHolidays(decoded)
        <==> exists i :: 0 <= i < |decoded| && GetPublicHolidayFromJsonArray(decoded[i]) == Some(h)
    decreases |decoded|
  {
    if decoded != [] {
      var init := decoded[..|decoded| - 1];
      ParsedHolidaysMembership(init, h);
      if h in ParsedHolidays(init) {
        var i :| 0 <= i < |init| && GetPublicHolidayFromJsonArray(init[i]) == Some(h);
        assert decoded[i] == init[i];
      }
      if exists i :: 0 <= i < |decoded| && GetPublicHolidayFromJsonArray(decoded[i]) == Some(h) {
        var i :| 0 <= i < |decoded| && GetPublicHolidayFromJsonArray(decoded[i]) == Some(h);
        if i < |init| {
          assert init[i] == decoded[i];
        }
      }
    }
  }

  /**
   * The parsed list is empty exactly when every record has a "Date": a file
   * whose every record is dated never fills the cache.
   */
  lemma {:induction false} ParsedHolidaysEmpty(decoded: seq<JsonRecord>)
    ensures ParsedHolidays(decoded) == [] <==> forall i :: 0 <= i < |decoded| ==> "Date" in decoded[i]
    decreases |decoded|
  {
    if decoded != [] {
      var init := decoded[..|decoded| - 1];
      ParsedHolidaysEmpty(init);
      assert forall i :: 0 <= i < |init| ==> init[i] == decoded[i];
    }
  }

  /** A non-empty cache is returned as it is, whatever the file holds. */
  lemma CachedListIgnoresSource(cache: seq<PublicHoliday>, d1: seq<JsonRecord>, d2: seq<JsonRecord>)
    requires cache != []
    ensures FetchResult(cache, d1) == FetchResult(cache, d2) == cache
  {
  }

  /**
   * A fetch leaves a cache that the next fetch of the same file returns again;
   * but an empty result is no cache at all, and the next fetch re-reads the
   * file, whatever it then holds.
   */
  lemma FetchTwice(cache: seq<PublicHoliday>, d1: seq<JsonRecord>, d2: seq<JsonRecord>)
    ensures FetchResult(FetchResult(cache, d1), d1) == FetchResult(cache, d1)
    ensures FetchResult(cache, d1) != [] ==> FetchResult(FetchResult(cache, d1), d2) == FetchResult(cache, d1)
    ensures FetchResult(cache, d1) == [] ==> FetchResult(FetchResult(cache, d1), d2) == ParsedHolidays(d2)
  {
  }

  /**
   * The holiday lookup is false for every date when the state is empty or
   * invalid, and for every date and state when the cache holds only what the
   * parser produces: none of its records has a date.
   */
  lemma NoHolidayWithoutDates(state: string, cache: seq<PublicHoliday>, decoded: seq<JsonRecord>, t: int)
    requires forall h :: h in cache ==> h.dateYMD == None
    ensures !IsOnHolidayList(YmdDates(state, cache, decoded), t)
  {
  }

  lemma InvalidStateHasNoHolidays(state: string, cache: seq<PublicHoliday>, decoded: seq<JsonRecord>, t: int)
    requires !IsValidState(state)
    ensures YmdDates(state, cache, decoded) == []
    ensures !IsOnHolidayList(YmdDates(state, cache, decoded), t)
  {
  }

  // ---------------------------------------------------------------------------
  // Callers of a fresh service

  /**
   * With the default flags (both true) and a non-empty range, a fresh
   * service never returns: the first day is never a holiday, and the
   * holiday filter's `continue` repeats that iteration forever.
   */
  method DefaultFlagsOnFreshService(state: string, fromTime: int, toTime: int, decoded: seq<JsonRecord>)
    returns (r: DayCount)
    requires IsValidState(state) && fromTime < toTime
    ensures r == NoProgress
  {
    var service := new DateTimeService();
    r := service.GetNumberOfWorkingDaysBetween(state, fromTime, toTime, true, true, decoded);
    NoHolidayWithoutDates(state, FetchResult([], decoded), decoded, fromTime);
    WorkingDaysOutcome(state, fromTime, toTime, true, true, HolidayTest(DatesOf(FetchResult([], decoded))));
  }

  /**
   * A stalled iteration repeats: looking the same day up twice on a fresh
   * service gives the same answer and leaves the same cache.
   */
  method RepeatedLookupOnFreshService(state: string, t: int, decoded: seq<JsonRecord>)
    returns (first: bool, second: bool, cacheAfterFirst: seq<PublicHoliday>, cacheAfterSecond: seq<PublicHoliday>)
    ensures first == second
    ensures cacheAfterFirst == cacheAfterSecond
  {
    var service := new DateTimeService();
    first := service.IsDateOnAPublicHoliday(state, t, decoded);
    cacheAfterFirst := service.lazyLoadedPublicHolidays;
    second := service.IsDateOnAPublicHoliday(state, t, decoded);
    cacheAfterSecond := service.lazyLoadedPublicHolidays;
  }

  /**
   * Two fetches on a fresh service: the first parses the file; the second
   * returns the first result when it was non-empty, and otherwise re-reads
   * the file, which may have changed in between.
   */
  method TwoFetchesOnFreshService(d1: seq<JsonRecord>, d2: seq<JsonRecord>)
    returns (first: seq<PublicHoliday>, second: seq<PublicHoliday>)
    ensures first == ParsedHolidays(d1)
    ensures first != [] ==> second == first
    ensures first == [] ==> second == ParsedHolidays(d2)
  {
    var service := new DateTimeService();
    first := service.FetchPublicHolidays(d1);
    second := service.FetchPublicHolidays(d2);
  }

}
