# DateTimeService in Dafny

A model of the `Services\DateTimeService` class of a small PHP business-time
service, and of the `Data\PublicHoliday` record it builds. The service:

- validates a jurisdiction ("state") against the case-sensitive list `sa`, `nsw`, `vic`;
- counts working days between two timestamps by walking a cursor forward one day at a time, with a weekend filter and a public-holiday filter that are toggled independently;
- decides whether a date falls on a weekend, and whether its `Y-m-d` text is in the holiday list;
- keeps a lazily loaded catalogue of public holidays, parsed record by record from a JSON file and cached in the field `lazyLoadedPublicHolidays`.

## Modules

- `Wrappers` (Wrappers.dfy): `Option`, standing for a value that may be PHP `null`.
- `Data` (Data.dfy): the `PublicHoliday` datatype with fields `dateYMD`, `name` and `state`.
- `Calendar` (Calendar.dfy): the part of PHP `DateTime` the service uses, on a naive clock. Timestamps are integer seconds, and a day is 86400 seconds. Epoch day 0 is 1970-01-01, a Thursday. `format('l')` and `format('Y-m-d')` are modelled as functions.
- `Services` (Services.dfy): the constants, the record parser, and the specification functions of the catalogue and of the day walk (`ParsedHolidays`, `FetchResult`, `YmdDates`, `Walk`, `WorkingDays`). The walk takes the holiday test as a function from timestamp to boolean, and the service's test is `HolidayTest`, membership of the day's `Y-m-d` text in the date list. It also holds the class `DateTimeService`. The class has the cache field and the four methods that change it. Each method runs the source's loops and is proved against those functions.
- `ServiceProperties` (ServiceProperties.dfy): the closed form of the day walk for every combination of flags, the catalogue's order, membership and emptiness, the cache's behaviour, and client methods that call a freshly constructed service.

The holiday file is read and decoded by PHP library code. Each method that may read it therefore takes `decoded: seq<map<string, string>>`, the records the decoder would return at that moment. Because the file is a parameter, the lemmas can say when the file is not read: the result does not depend on it.

## Behaviour as written

The model follows the code, including four places where the code does not do what its own names and comments describe:

- **Parser.** The comment at Services/DateTimeService.php:131 calls `Date` "the only piece of information actually needed", yet the guard at :132 returns null for every record that HAS a `"Date"`. The other records are kept with `dateYMD` null (`Services.GetPublicHolidayFromJsonArray`, `Services.ParsedHolidays`). So the catalogue never holds a date, and the holiday lookup is false for every date, state and file as long as the cache holds only parsed records (`ServiceProperties.NoHolidayWithoutDates`).
- **Cache.** The field is named `lazyLoadedPublicHolidays` (:33), but the test at :111 is the truthiness of the cached array. An empty parse result does not count as loaded, so the next call reads the file again (`ServiceProperties.FetchTwice`, `ServiceProperties.TwoFetchesOnFreshService`). A file whose records all have a date always parses to nothing (`ServiceProperties.ParsedHolidaysEmpty`).
- **Day counter.** The method counts "working days" and takes the flags `$skipWeekends` and `$skipPublicHolidays` (:41-46), but both `continue`s at :62 and :65 come before the cursor's advance at :67. A filtered day therefore repeats its iteration forever, which the model reports as `NoProgress`. The weekend filter at :64 passes the state string where `isDateOnAWeekend` declares a `DateTime` parameter, which is a `TypeError` in PHP. A count is returned only when no filter fires. That count is `DaysToCover`, the least n with `from + n·86400 >= to`, not a count of working days (`ServiceProperties.WorkingDaysOutcome`, `ServiceProperties.WorkingDaysCountIsDaysToCover`). With the default flags, a fresh service never returns for a non-empty range (`ServiceProperties.DefaultFlagsOnFreshService`).
- **Per-state dates.** `getPublicHolidaysAsYMDArray($state)` returns the dates of every cached record, whatever the record's own `state` field says (`Services.YmdDates`).

## Model

| member | source | states |
|---|---|---|
| `Services.InvalidStateMessage` | Services/DateTimeService.php:49-51 | The exception for a bad state carries "State must be one of sa, nsw, vic": the valid states joined by ", ". |
| `Services.IsValidState` | Services/DateTimeService.php:49 | `in_array($state, VALID_STATES)` holds exactly when the state is `sa`, `nsw` or `vic`, compared exactly. |
| `Services.WorkingDays` | Services/DateTimeService.php:46-59 | Validation comes first. The result is the exception exactly when the state is not one of `sa`, `nsw`, `vic` (compared exactly, so case matters). For a valid state and `to <= from`, the count is 0. |
| `Services.Walk` | Services/DateTimeService.php:60-69 | The loop, from any cursor and count, never yields the state exception. Its outcomes are a count, a TypeError, or a stall. |
| `Services.DaysToCover` | Services/DateTimeService.php:60-68 | The least n with `from + n·86400 >= to`: n days reach `to`, and n−1 days do not. |
| `Services.DateTimeService.GetNumberOfWorkingDaysBetween` | Services/DateTimeService.php:46-71 | The loop's outcome equals `WorkingDays`, with the holiday test taken over the dates of the catalogue that the first lookup fetches. The cache is fetched exactly when the state is valid, the range is non-empty and the holiday filter is on; otherwise it is unchanged. An invalid state therefore touches nothing. |
| `ServiceProperties.WalkPlainCount` | Services/DateTimeService.php:59-70 | With both filters off, each iteration advances one day and adds one. The loop ends, and the count grows by `DaysToCover`, the least n with `from + n·86400 >= to`. |
| `ServiceProperties.WalkHolidaysOnly` | Services/DateTimeService.php:60-68 | With only the holiday filter on, the walk counts every day when every day in range is a holiday. Otherwise it stalls. |
| `ServiceProperties.AllHolidaysStep` | Services/DateTimeService.php:60-68 | All n days from the cursor pass the holiday test exactly when the cursor's day does and the following n−1 days do. |
| `ServiceProperties.WalkCountIsDaysToCover` | Services/DateTimeService.php:61-68 | A filter that fires never lets the loop skip a day. Any count the walk returns adds exactly `DaysToCover` from its cursor, the least n with `cursor + n·86400 >= to`. |
| `ServiceProperties.WorkingDaysOutcome` | Services/DateTimeService.php:46-71 | The outcome for every input. An invalid state is the exception. An empty range is 0. With the holiday filter on and a non-holiday first day, the loop stalls. When the weekend filter is reached, it is a TypeError. With both filters off, the result is `DaysToCover` (the least n with `from + n·86400 >= to`). With only the holiday filter on, the result is that count if all of those days are holidays, and a stall otherwise. |
| `ServiceProperties.WorkingDaysCountIsDaysToCover` | Services/DateTimeService.php:59-70 | Every count the service returns is the least n with `from + n·86400 >= to`: the number of one-day steps from `from` to `to`, not the number of dates the range touches. |
| `ServiceProperties.DefaultFlagsOnFreshService` | Services/DateTimeService.php:46-62 | With the default flags (both true) and `from < to`, a new service stalls on its first iteration: the first day is never a holiday. |
| `ServiceProperties.RepeatedLookupOnFreshService` | Services/DateTimeService.php:61-62 | Looking the same day up twice gives the same answer and leaves the same cache. A stalled iteration is therefore repeated identically. |
| `Services.IsDateOnAWeekend` | Services/DateTimeService.php:73-76 | True exactly when the date's weekday is Saturday (6) or Sunday (0). |
| `Calendar.WeekdayNumber` | Services/DateTimeService.php:75 | The weekday number of a timestamp is in 0..6. |
| `Calendar.DayName` | Services/DateTimeService.php:75 | `format('l')`: the name is "Saturday" exactly on weekday 6 and "Sunday" exactly on weekday 0. |
| `Calendar.FormatYmd` | Services/DateTimeService.php:81 | `format("Y-m-d")`: the text has at least ten characters, so it is never empty. Its round trip on triples is `Calendar.FormatCivilRoundTrip`. |
| `Calendar.NextDayIsNextWeekday` | Services/DateTimeService.php:67 | Adding one day (`modify('+1 day')`) advances the weekday by one, and Saturday is followed by Sunday. |
| `Calendar.WeekdayPeriodic` | Services/DateTimeService.php:75 | The weekday, and so the weekend predicate, repeats every seven days. |
| `Calendar.FormatCivilRoundTrip` | Services/DateTimeService.php:81 | The `Y-m-d` text of a date with a four-digit year is ten characters long and reads back as the same year, month and day. |
| `Calendar.FormatCivilInjective` | Services/DateTimeService.php:81 | Two (year, month, day) triples with four-digit years and the same `Y-m-d` text are the same triple. This is about the triples only: `FormatYmd` is not proved injective on timestamps' days. |
| `Calendar.TestHarnessDate` | Tests/DateTimeServiceTest.php:20-28 | The harness's day is epoch day 18690, whose civil date is (2021, 3, 4). It is a Thursday, and two days later is a Saturday. |
| `Calendar.TestHarnessDateText` | Tests/DateTimeServiceTest.php:20-28 | The `Y-m-d` text of the harness's timestamp is "2021-03-04". |
| `Services.IsOnHolidayList` | Services/DateTimeService.php:81 | The `in_array` of the day's text: a match needs a non-null date of at least ten characters in the list, so a list of nulls matches no day. |
| `Services.DateTimeService.IsDateOnAPublicHoliday` | Services/DateTimeService.php:78-82 | True exactly when the date's `Y-m-d` text is among the state's holiday dates. The cache changes as a fetch changes it, and only for a valid state. |
| `ServiceProperties.InvalidStateHasNoHolidays` | Services/DateTimeService.php:78-93 | For an empty or invalid state, the date list is empty and no date is a holiday. |
| `ServiceProperties.NoHolidayWithoutDates` | Services/DateTimeService.php:78-82 | If no cached record has a date, as is the case for every record the parser produces, no date is a holiday, for any state. |
| `Services.YmdDates` | Services/DateTimeService.php:88-101 | An empty or invalid state gives []. Otherwise the result is the `dateYMD` of every fetched record, in order and with the same length, without filtering by the record's own state. |
| `Services.DateTimeService.GetPublicHolidaysAsYmdArray` | Services/DateTimeService.php:88-101 | The loop builds exactly `YmdDates`. For an empty or invalid state, the cache is untouched. |
| `Services.DateTimeService.FetchPublicHolidays` | Services/DateTimeService.php:109-127 | A non-empty cache is returned as it is. Otherwise the parsed records are stored and returned. |
| `Services.DateTimeService.constructor` | Services/DateTimeService.php:33 | A new service starts with no cache, since the field starts as null. |
| `Services.FetchResult` | Services/DateTimeService.php:109-127 | The list a fetch returns: a non-empty cache as it is, without reading the file; otherwise a freshly parsed list, no longer than the file and with no dated record. `ServiceProperties.FetchTwice` and `ServiceProperties.CachedListIgnoresSource` state how successive fetches relate. |
| `ServiceProperties.CachedListIgnoresSource` | Services/DateTimeService.php:111-113 | A non-empty cache is returned whatever the file holds: the file is not read. |
| `ServiceProperties.FetchTwice` | Services/DateTimeService.php:109-127 | A fetch leaves a cache that the next fetch of the same file returns again. A non-empty result is returned by every later fetch. An empty result makes the next fetch re-read the file. |
| `ServiceProperties.TwoFetchesOnFreshService` | Services/DateTimeService.php:109-127 | On a new service, the first fetch parses the file. The second fetch returns the first result when it is non-empty, and otherwise the parse of the file as it is now. |
| `Services.ParsedHolidays` | Services/DateTimeService.php:118-124 | The parsed list is no longer than the file, and none of its records has a date. |
| `ServiceProperties.ParsedHolidaysAppend` | Services/DateTimeService.php:118-124 | Parsing keeps the file's order: the parse of two runs of records is the two parses joined. |
| `ServiceProperties.ParsedHolidaysMembership` | Services/DateTimeService.php:118-124 | A record is in the parsed list exactly when some record of the file parses to it. |
| `ServiceProperties.ParsedHolidaysEmpty` | Services/DateTimeService.php:118-127 | The parsed list is empty exactly when every record has a `"Date"`. |
| `Services.GetPublicHolidayFromJsonArray` | Services/DateTimeService.php:129-142 | The result is null exactly when the record has a `"Date"`. Otherwise `dateYMD` is null, `name` is `"Holiday Name"` or "", and `state` is `"Jurisdiction"` or "". |

## Left out

- Reading `example_public_holidays.json` and `json_decode` (Services/DateTimeService.php:116) are file I/O and library code. The decoded records are a parameter. A file that does not decode to an array is not modelled, and neither are record values that are not strings.
- PHP `DateTime` string parsing, time zones and daylight saving (Services/DateTimeService.php:56-57) are not modelled. Inputs are timestamps that are already parsed, on a naive clock where every day has 86400 seconds.
- `getWorkingHoursBetween`, which Tests/DateTimeServiceTest.php calls, is defined in no file of the repository and is not modelled. The test harness itself only prints mismatches for that method.
- The goals listed in index.php and at the head of Services/DateTimeService.php (unit conversion, time zones, complete weeks) are not implemented in the code and are not modelled.
- Services.DateTimeService.GetNumberOfWorkingDaysBetween: where the source loops forever, the model returns `NoProgress`. It does so once a filter leaves cursor and count as they were. `ServiceProperties.RepeatedLookupOnFreshService` shows the iteration would repeat identically.
- Services.DateTimeService.GetNumberOfWorkingDaysBetween: the default values of `skipWeekends` and `skipPublicHolidays` (both true) are passed explicitly. `ServiceProperties.DefaultFlagsOnFreshService` is the call with the defaults.
- Services.IsValidState: only string states are modelled. PHP's loose `in_array` also accepts non-strings, for example `true`.
- The "Undefined array key" warning PHP emits at Services/DateTimeService.php:139 is not modelled. Only the null it yields is.
- Exceptions are modelled as outcomes carrying their message, with no stack or exception class.
- Calendar.CivilFromDays is checked only on the test harness's date. It is not proved to invert a day count.
- Writes to the public field `lazyLoadedPublicHolidays` from outside the class are not modelled as operations. The lemmas hold for any cache contents.
- Services.DateTimeService.constructor: the model writes `[]` both for the field's initial PHP `null` (Services/DateTimeService.php:33) and for the empty array stored after an empty parse (:126). Both are falsy, so the service behaves alike, but code that reads the public field directly can tell them apart; the model cannot.
- Services.DateTimeService.GetNumberOfWorkingDaysBetween: one `decoded` parameter serves every fetch within one call. PHP reads the file again at each lookup while the cache is empty (:111-116), so a file changed between iterations is not modelled. Parsed records never carry a date, so every such lookup is false either way.
