/** backend/backend/gmaps.py: the request-shaping around the Google Maps
    APIs — departure times written as "monday 10 am", the next date such a
    time falls on, the static-map argument checks, the route-matrix request
    body, and the chunked and sparsified distance-matrix requests. The HTTP
    calls themselves are parameters that map a request to its entries. */
module GMaps {
  import opened Wrappers
  import opened Strings
  import opened Locations

  datatype TravelMode = Drive | Transit | Walk

  /** `str(travel_mode)` of the `StrEnum`. */
  function ModeName(m: TravelMode): string {
    match m
    case Drive => "DRIVE"
    case Transit => "TRANSIT"
    case Walk => "WALK"
  }

  // ---------------------------------------------------------------------
  // TravelTime.from_string

  /** The `ValueError`s `from_string` can raise, by cause. */
  datatype TimeError =
    | TokenCount      // the text does not split into exactly three words
    | UnknownDay      // `days.index` finds no such day
    | ClockFormat     // "h:m" with other than one colon
    | NotAnInteger    // `int()` of the hour or minute fails
    | AmPmSuffix      // neither "am" nor "pm" after a bare hour

  /** 0 = Monday, ..., 6 = Sunday. */
  const Days: seq<string> := ["monday", "tuesday", "wednesday", "thursday", "friday", "saturday", "sunday"]

  /** Python's `list.index`: the first position holding x. */
  function IndexOf(xs: seq<string>, x: string): (r: Option<nat>)
    ensures r.Some? ==> r.value < |xs| && xs[r.value] == x && forall k :: 0 <= k < r.value ==> xs[k] != x
    ensures r.None? ==> x !in xs
  {
    if |xs| == 0 then None
    else if xs[0] == x then Some(0)
    else match IndexOf(xs[1..], x)
      case None => None
      case Some(k) => Some(k + 1)
  }

  /** A day of the week and a time of day, as `from_string` fills them in. */
  datatype Clock = Clock(day: int, hour: int, minute: int)

  /** What `from_string` computes: `None` for blank text, otherwise three
      space-separated words — a day, then either "h:m" (the third word is
      then ignored) or a bare hour followed by "am" or "pm". Hours and
      minutes are not range-checked. */
  function ParseTravelTime(timeStr: string): Result<Option<Clock>, TimeError> {
    if Strip(timeStr) == "" then Success(None)
    else
      var parts := Split(timeStr, ' ');
      if |parts| != 3 then Failure(TokenCount)
      else ParseWords(parts[0], parts[1], parts[2])
  }

  /** The three words: the day is looked up case-insensitively. */
  function ParseWords(day: string, time: string, amPm: string): Result<Option<Clock>, TimeError> {
    match IndexOf(Days, Lower(day))
    case None => Failure(UnknownDay)
    case Some(d) => ParseTime(d, time, Lower(amPm))
  }

  /** The time word, with the lower-cased suffix word. */
  function ParseTime(day: int, time: string, amPm: string): Result<Option<Clock>, TimeError> {
    if ':' in time then
      var hm := Split(time, ':');
      if |hm| != 2 then Failure(ClockFormat)
      else match (PyInt(hm[0]), PyInt(hm[1]))
        case (Some(h), Some(m)) => Success(Some(Clock(day, h, m)))
        case _ => Failure(NotAnInteger)
    else match PyInt(time)
      case None => Failure(NotAnInteger)
      case Some(h) =>
        if amPm == "pm" then Success(Some(Clock(day, if h != 12 then h + 12 else h, 0)))
        else if amPm == "am" then Success(Some(Clock(day, if h == 12 then 0 else h, 0)))
        else Failure(AmPmSuffix)
  }

  /** A departure time: a day of the week, a time of day and the place whose
      time zone they are read in. */
  class TravelTime {
    var day: int
    var hour: int
    var minute: int
    var location: Option<Location>

    constructor(day: int, hour: int, minute: int, location: Option<Location>)
      ensures this.day == day && this.hour == hour && this.minute == minute && this.location == location
    {
      this.day := day;
      this.hour := hour;
      this.minute := minute;
      this.location := location;
    }

    /** `set_location`. */
    method SetLocation(location: Location)
      modifies this
      ensures this.location == Some(location)
      ensures day == old(day) && hour == old(hour) && minute == old(minute)
    {
      this.location := Some(location);
    }
  }

  /** `from_string`: fills in a fresh `TravelTime` field by field. */
  method FromString(timeStr: string, location: Option<Location>) returns (r: Result<Option<TravelTime>, TimeError>)
    ensures r.Failure? ==> ParseTravelTime(timeStr) == Failure(r.error)
    ensures r.Success? && r.value.None? ==> ParseTravelTime(timeStr) == Success(None)
    ensures r.Success? && r.value.Some? ==>
      var t := r.value.value;
      fresh(t) && t.location == location
      && ParseTravelTime(timeStr) == Success(Some(Clock(t.day, t.hour, t.minute)))
  {
    if Strip(timeStr) == "" {
      return Success(None);
    }
    var travelTime := new TravelTime(0, 0, 0, location);
    var parts := Split(timeStr, ' ');
    if |parts| != 3 {
      return Failure(TokenCount);
    }
    var day, time, amPm := parts[0], parts[1], parts[2];
    assert ParseTravelTime(timeStr) == ParseWords(day, time, amPm);
    var index := IndexOf(Days, Lower(day));
    if index.None? {
      return Failure(UnknownDay);
    }
    travelTime.day := index.value;
    amPm := Lower(amPm);
    assert ParseTravelTime(timeStr) == ParseTime(index.value, time, amPm);
    var err := SetClock(travelTime, time, amPm);
    if err.Some? {
      return Failure(err.value);
    }
    return Success(Some(travelTime));
  }

  /** The time-of-day half of `from_string`: sets the hour (and minute)
      from the time word and the lower-cased suffix word, on a travel time
      whose minute is still the initial 0. */
  method SetClock(travelTime: TravelTime, time: string, amPm: string) returns (err: Option<TimeError>)
    requires travelTime.minute == 0
    modifies travelTime
    ensures err.Some? ==> ParseTime(old(travelTime.day), time, amPm) == Failure(err.value)
    ensures err.None? ==>
      ParseTime(old(travelTime.day), time, amPm) == Success(Some(Clock(travelTime.day, travelTime.hour, travelTime.minute)))
    ensures travelTime.day == old(travelTime.day) && travelTime.location == old(travelTime.location)
  {
    if ':' in time {
      var hm := Split(time, ':');
      if |hm| != 2 {
        return Some(ClockFormat);
      }
      var hour, minute := PyInt(hm[0]), PyInt(hm[1]);
      if hour.None? || minute.None? {
        return Some(NotAnInteger);
      }
      travelTime.hour := hour.value;
      travelTime.minute := minute.value;
    } else {
      var hour := PyInt(time);
      if hour.None? {
        return Some(NotAnInteger);
      }
      travelTime.hour := hour.value;
      if amPm == "pm" {
        if travelTime.hour != 12 {
          travelTime.hour := travelTime.hour + 12;
        }
      } else if amPm == "am" {
        if travelTime.hour == 12 {
          travelTime.hour := 0;
        }
      } else {
        return Some(AmPmSuffix);
      }
    }
    return None;
  }

  /** Blank text, and only blank text, gives no departure time. */
  lemma BlankMeansNone(timeStr: string)
    ensures ParseTravelTime(timeStr) == Success(None) <==> forall i :: 0 <= i < |timeStr| ==> IsPySpace(timeStr[i])
  {
    StripEmptyIffBlank(timeStr);
    if Strip(timeStr) != "" {
      var parts := Split(timeStr, ' ');
      if |parts| == 3 {
        WordsNeverNone(parts[0], parts[1], parts[2]);
      }
    }
  }

  /** Three words never give "no departure time": they give a time or an error. */
  lemma WordsNeverNone(day: string, time: string, amPm: string)
    ensures ParseWords(day, time, amPm) != Success(None)
  {
    match IndexOf(Days, Lower(day))
    case None =>
    case Some(d) => TimeKeepsDay(d, time, Lower(amPm));
  }

  /** A parsed day always names a weekday: the `-1` check after
      `days.index` can never fire, since an unknown day raises first. */
  lemma ParsedDayIsWeekday(timeStr: string)
    requires ParseTravelTime(timeStr).Success? && ParseTravelTime(timeStr).value.Some?
    ensures 0 <= ParseTravelTime(timeStr).value.value.day < 7
    ensures Days[ParseTravelTime(timeStr).value.value.day] == Lower(Split(timeStr, ' ')[0])
  {
    var parts := Split(timeStr, ' ');
    assert ParseTravelTime(timeStr) == ParseWords(parts[0], parts[1], parts[2]);
    var d := IndexOf(Days, Lower(parts[0]));
    assert d.Some?;
    TimeKeepsDay(d.value, parts[1], Lower(parts[2]));
  }

  lemma TimeKeepsDay(day: int, time: string, amPm: string)
    ensures ParseTime(day, time, amPm).Success? ==> ParseTime(day, time, amPm).value.Some? && ParseTime(day, time, amPm).value.value.day == day
  {
    if ':' in time {
      var hm := Split(time, ':');
      if |hm| == 2 {
        match (PyInt(hm[0]), PyInt(hm[1]))
        case (Some(h), Some(m)) =>
          assert ParseTime(day, time, amPm) == Success(Some(Clock(day, h, m)));
        case _ =>
      }
    } else {
      match PyInt(time)
      case None =>
      case Some(h) =>
    }
  }

  /** Two space-separated words are rejected as the wrong number of words,
      whatever they say. */
  lemma TwoWordsRejected(a: string, b: string)
    requires ' ' !in a && ' ' !in b && |a| > 0 && !IsPySpace(a[0])
    ensures ParseTravelTime(a + [' '] + b) == Failure(TokenCount)
  {
    var s := a + [' '] + b;
    assert Strip(s) != "" by {
      StripEmptyIffBlank(s);
      assert s[0] == a[0];
    }
    assert Split(s, ' ') == [a, b] by {
      SplitAtFirst(a, b, ' ');
      SplitWithoutSeparator(b, ' ');
    }
  }

  /** "monday 10am", the example in the source's comment, is two words and
      is rejected; "monday 10 am" is the accepted spelling. */
  lemma CommentExampleRejected()
    ensures ParseTravelTime("monday 10am") == Failure(TokenCount)
  {
    var a, b := "monday", "10am";
    assert ' ' !in a && ' ' !in b && !IsPySpace(a[0]);
    TwoWordsRejected(a, b);
    assert a + [' '] + b == "monday 10am";
  }

  lemma LowerDays(k: int)
    requires 0 <= k < 7
    ensures Lower(Days[k]) == Days[k]
    ensures IndexOf(Days, Days[k]) == Some(k)
    ensures ' ' !in Days[k]
  {
    var d := Days[k];
    assert forall i :: 0 <= i < |d| ==> 'a' <= d[i] <= 'z';
    LowerOfLowercase(d);
    DaysDistinct();
    var r := IndexOf(Days, d);
    assert r.Some?;
  }

  /** No two days share a name: they differ in length or in first letter. */
  lemma DaysDistinct()
    ensures forall i, j :: 0 <= i < j < 7 ==> Days[i] != Days[j]
  {
    forall i, j | 0 <= i < j < 7 ensures Days[i] != Days[j] {
      assert |Days[i]| != |Days[j]| || Days[i][0] != Days[j][0];
    }
  }

  lemma LowerOfLowercase(s: string)
    requires forall i :: 0 <= i < |s| ==> 'a' <= s[i] <= 'z'
    ensures Lower(s) == s
  {
  }

  /** The three words of "day time suffix". */
  lemma SplitThree(day: string, time: string, suffix: string)
    requires ' ' !in day && ' ' !in time && ' ' !in suffix
    ensures Split(day + " " + time + " " + suffix, ' ') == [day, time, suffix]
  {
    var rest := time + [' '] + suffix;
    SplitWithoutSeparator(suffix, ' ');
    SplitAtFirst(time, suffix, ' ');
    assert Split(rest, ' ') == [time, suffix];
    SplitAtFirst(day, rest, ' ');
    assert day + " " + time + " " + suffix == day + [' '] + rest;
  }

  lemma NumeralIsNotBlank(s: string)
    requires |s| > 0 && IsDecimalDigit(s[0])
    ensures Strip(s) != ""
  {
    StripEmptyIffBlank(s);
    assert !IsPySpace(s[0]);
  }

  /** Text "day time suffix" with a known day (in any case) and a time
      word that starts with a digit is read by `ParseTime`. */
  lemma KnownDayWords(day: string, k: int, time: string, suffix: string)
    requires 0 <= k < 7 && Lower(day) == Days[k] && ' ' !in day && ' ' !in time && ' ' !in suffix
    requires |time| > 0 && IsDecimalDigit(time[0])
    ensures ParseTravelTime(day + " " + time + " " + suffix) == ParseTime(k, time, Lower(suffix))
  {
    var s := day + " " + time + " " + suffix;
    SplitThree(day, time, suffix);
    assert s[|day| + 1] == time[0];
    NotBlankAt(s, |day| + 1);
    ThreeWords(s, day, time, suffix);
    KnownDay(day, k, time, suffix);
  }

  lemma NotBlankAt(s: string, i: int)
    requires 0 <= i < |s| && IsDecimalDigit(s[i])
    ensures Strip(s) != ""
  {
    StripEmptyIffBlank(s);
    assert !IsPySpace(s[i]);
  }

  lemma ThreeWords(s: string, a: string, b: string, c: string)
    requires Strip(s) != "" && Split(s, ' ') == [a, b, c]
    ensures ParseTravelTime(s) == ParseWords(a, b, c)
  {
  }

  lemma KnownDay(day: string, k: int, time: string, suffix: string)
    requires 0 <= k < 7 && Lower(day) == Days[k]
    ensures ParseWords(day, time, suffix) == ParseTime(k, time, Lower(suffix))
  {
    LowerDays(k);
  }

  lemma NumeralHasNoSeparator(n: nat)
    ensures ' ' !in NatToString(n) && ':' !in NatToString(n)
    ensures IsDecimalDigit(NatToString(n)[0])
  {
  }

  /** A bare hour: "12 am" is midnight, "12 pm" noon, "h pm" is h + 12
      (even past 23: "13 pm" gives 25) and "h am" is h; the day is read
      case-insensitively, and any other suffix is an error. */
  lemma BareHour(day: string, k: int, n: nat, suffix: string)
    requires 0 <= k < 7 && Lower(day) == Days[k] && ' ' !in day && ' ' !in suffix
    ensures var r := ParseTravelTime(day + " " + NatToString(n) + " " + suffix);
      (Lower(suffix) == "pm" ==> r == Success(Some(Clock(k, if n == 12 then 12 else n + 12, 0)))) &&
      (Lower(suffix) == "am" ==> r == Success(Some(Clock(k, if n == 12 then 0 else n, 0)))) &&
      (Lower(suffix) != "pm" && Lower(suffix) != "am" ==> r == Failure(AmPmSuffix))
  {
    NumeralHasNoSeparator(n);
    KnownDayWords(day, k, NatToString(n), suffix);
    PyIntOfNumeral(n);
    BareHourTime(k, NatToString(n), n, Lower(suffix));
  }

  lemma BareHourTime(k: int, time: string, n: int, amPm: string)
    requires ':' !in time && PyInt(time) == Some(n)
    ensures amPm == "pm" ==> ParseTime(k, time, amPm) == Success(Some(Clock(k, if n == 12 then 12 else n + 12, 0)))
    ensures amPm == "am" ==> ParseTime(k, time, amPm) == Success(Some(Clock(k, if n == 12 then 0 else n, 0)))
    ensures amPm != "pm" && amPm != "am" ==> ParseTime(k, time, amPm) == Failure(AmPmSuffix)
  {
  }

  /** "h:m": hour and minute are taken as written and the third word is
      ignored. */
  lemma HourAndMinute(day: string, k: int, hh: nat, mm: nat, suffix: string)
    requires 0 <= k < 7 && Lower(day) == Days[k] && ' ' !in day && ' ' !in suffix
    ensures ParseTravelTime(day + " " + NatToString(hh) + ":" + NatToString(mm) + " " + suffix) == Success(Some(Clock(k, hh, mm)))
  {
    var a, b := NatToString(hh), NatToString(mm);
    NumeralHasNoSeparator(hh);
    NumeralHasNoSeparator(mm);
    var time := a + [':'] + b;
    assert ' ' !in time && ':' in time && time[0] == a[0] by {
      assert time[|a|] == ':';
    }
    SplitWithoutSeparator(b, ':');
    SplitAtFirst(a, b, ':');
    assert day + " " + a + ":" + b + " " + suffix == day + " " + time + " " + suffix;
    KnownDayWords(day, k, time, suffix);
    PyIntOfNumeral(hh);
    PyIntOfNumeral(mm);
  }

  // ---------------------------------------------------------------------
  // TravelTime.to_string: the days-ahead rule

  /** A time of day as Python's `datetime.time` compares it. */
  datatype TimeOfDay = TimeOfDay(hour: int, minute: int, second: int, microsecond: int)

  predicate TimeLe(a: TimeOfDay, b: TimeOfDay) {
    a.hour < b.hour || (a.hour == b.hour &&
      (a.minute < b.minute || (a.minute == b.minute &&
        (a.second < b.second || (a.second == b.second && a.microsecond <= b.microsecond)))))
  }

  /** The `ValueError`s `to_string` raises before it formats a date. */
  datatype ToStringError = NoLocation | UnknownTimezone | InvalidTime

  /** How many days after today (in the location's time zone, where it is
      `currentWeekday` at `now`) the travel time next falls: 0 to 6 days to
      the target weekday, or a full week when that is today and the target
      time is not later than now. `time(hour, minute)` rejects an hour
      outside 0..23 or a minute outside 0..59. */
  function DaysAhead(day: int, hour: int, minute: int, location: Option<Location>,
                     timezoneAt: Location -> Option<string>, currentWeekday: int, now: TimeOfDay): Result<int, ToStringError>
    requires 0 <= currentWeekday < 7
  {
    if location.None? then Failure(NoLocation)
    else if timezoneAt(location.value).None? then Failure(UnknownTimezone)
    else if !(0 <= hour < 24 && 0 <= minute < 60) then Failure(InvalidTime)
    else
      var ahead := (day % 7 - currentWeekday) % 7;
      if ahead == 0 && TimeLe(TimeOfDay(hour, minute, 0, 0), now) then Success(7) else Success(ahead)
  }

  /** Whether the travel time falls `e` days after now: on the right weekday,
      and strictly later than now when that is today. */
  predicate FallsAfter(e: int, day: int, hour: int, minute: int, currentWeekday: int, now: TimeOfDay) {
    (currentWeekday + e) % 7 == day % 7 && (e > 0 || !TimeLe(TimeOfDay(hour, minute, 0, 0), now))
  }

  /** The result is the first day, counting from today, on which the target
      weekday and time lie strictly in the future; it is between 0 and 7,
      and 0 only when the target is later today. */
  lemma DaysAheadIsNextOccurrence(day: int, hour: int, minute: int, location: Option<Location>,
                                  timezoneAt: Location -> Option<string>, currentWeekday: int, now: TimeOfDay)
    requires 0 <= currentWeekday < 7
    ensures var r := DaysAhead(day, hour, minute, location, timezoneAt, currentWeekday, now);
      (r.Success? <==> location.Some? && timezoneAt(location.value).Some? && 0 <= hour < 24 && 0 <= minute < 60) &&
      (r.Success? ==>
        0 <= r.value <= 7 &&
        FallsAfter(r.value, day, hour, minute, currentWeekday, now) &&
        (forall e :: 0 <= e < r.value ==> !FallsAfter(e, day, hour, minute, currentWeekday, now)) &&
        (r.value == 0 ==> currentWeekday == day % 7 && !TimeLe(TimeOfDay(hour, minute, 0, 0), now)))
  {
    var r := DaysAhead(day, hour, minute, location, timezoneAt, currentWeekday, now);
    if r.Success? {
      var t := day % 7;
      var ahead := (t - currentWeekday) % 7;
      assert (currentWeekday + ahead) % 7 == t by {
        WeekdayShift(t, currentWeekday);
      }
      forall e | 0 <= e < r.value ensures !FallsAfter(e, day, hour, minute, currentWeekday, now) {
        if (currentWeekday + e) % 7 == t {
          SameWeekday(currentWeekday, e, ahead, t);
        }
      }
      if r.value == 7 {
        assert (currentWeekday + 7) % 7 == currentWeekday;
      }
    }
  }

  lemma WeekdayShift(t: int, c: int)
    requires 0 <= t < 7 && 0 <= c < 7
    ensures (c + (t - c) % 7) % 7 == t
  {
    if t >= c {
      assert (t - c) % 7 == t - c;
    } else {
      assert (t - c) % 7 == t - c + 7;
    }
  }

  /** Below a week, the weekday after e days fixes e. */
  lemma SameWeekday(c: int, e: int, ahead: int, t: int)
    requires 0 <= c < 7 && 0 <= e < 7 && 0 <= t < 7 && ahead == (t - c) % 7
    requires (c + e) % 7 == t
    ensures e == ahead
  {
    if c + e >= 7 {
      assert (c + e) % 7 == c + e - 7;
    } else {
      assert (c + e) % 7 == c + e;
    }
    if t >= c {
      assert (t - c) % 7 == t - c;
    } else {
      assert (t - c) % 7 == t - c + 7;
    }
  }

  // ---------------------------------------------------------------------
  // get_static_map argument checks

  datatype StaticMapError = ZoomOutOfRange | SizeTooLarge

  const MaxZoom: int := 21
  /** The Static Maps API's limit on either side of the image. */
  const MaxSizePixels: int := 640
  const StaticMapStyle: string := "feature:poi|visibility:off"

  /** The query parameters of a static-map request, the API key aside. */
  datatype StaticMapQuery = StaticMapQuery(center: string, zoom: int, size: string, markers: string, scale: int, style: string)

  /** `get_static_map` up to the request: the zoom must lie in 0..21 and the
      size be at most 640, checked in that order; markers default to none.
      `show` is `str` of a location ("lat,lng"). */
  function StaticMapQueryOf(center: Location, zoom: int, markers: Option<seq<Location>>, sizePixels: int, scale: int,
                            show: Location -> string): Result<StaticMapQuery, StaticMapError>
  {
    if !(0 <= zoom <= MaxZoom) then Failure(ZoomOutOfRange)
    else if sizePixels > MaxSizePixels then Failure(SizeTooLarge)
    else
      var ms := if markers.None? then [] else markers.value;
      var shown := seq(|ms|, k requires 0 <= k < |ms| => show(ms[k]));
      Success(StaticMapQuery(show(center), zoom, IntToString(sizePixels) + "x" + IntToString(sizePixels),
                             "|" + PyJoin(shown, '|'), scale, StaticMapStyle))
  }

  /** The checks: a request is formed exactly when the zoom is in range and
      the size within the limit, and a bad zoom is reported first. */
  lemma StaticMapChecks(center: Location, zoom: int, markers: Option<seq<Location>>, sizePixels: int, scale: int,
                        show: Location -> string)
    ensures var r := StaticMapQueryOf(center, zoom, markers, sizePixels, scale, show);
      (r.Success? <==> 0 <= zoom <= 21 && sizePixels <= 640) &&
      (!(0 <= zoom <= 21) ==> r == Failure(ZoomOutOfRange)) &&
      (0 <= zoom <= 21 && sizePixels > 640 ==> r == Failure(SizeTooLarge))
  {
  }

  /** The size parameter is "NxN", and the markers parameter is "|" followed
      by the markers joined with "|", so that splitting it on "|" gives ""
      and then each marker (when markers are given and none contains "|"). */
  lemma StaticMapParameters(center: Location, zoom: int, markers: seq<Location>, n: nat, scale: int,
                            show: Location -> string)
    requires 0 <= zoom <= 21 && n <= 640
    requires forall k :: 0 <= k < |markers| ==> '|' !in show(markers[k])
    ensures var r := StaticMapQueryOf(center, zoom, Some(markers), n, scale, show);
      r.Success? &&
      Split(r.value.size, 'x') == [NatToString(n), NatToString(n)] &&
      (|markers| == 0 ==> r.value.markers == "|") &&
      (|markers| > 0 ==> Split(r.value.markers, '|') == [""] + seq(|markers|, k requires 0 <= k < |markers| => show(markers[k])))
  {
    var r := StaticMapQueryOf(center, zoom, Some(markers), n, scale, show);
    var num := NatToString(n);
    assert 'x' !in num;
    SplitWithoutSeparator(num, 'x');
    SplitAtFirst(num, num, 'x');
    assert r.value.size == num + ['x'] + num;
    var shown := seq(|markers|, k requires 0 <= k < |markers| => show(markers[k]));
    if |markers| > 0 {
      SplitOfJoin(shown, '|');
      SplitAtFirst("", Join(shown, '|'), '|');
      assert "|" + Join(shown, '|') == "" + ['|'] + Join(shown, '|');
    }
  }

  // ---------------------------------------------------------------------
  // get_distance_matrix_api_payload

  /** The body of a route-matrix request. */
  datatype Payload = Payload(
    origins: seq<RouteMatrixLocation>,
    destinations: seq<RouteMatrixLocation>,
    travelMode: string,
    departureTime: Option<string>,
    routingPreference: Option<string>)

  /** `get_distance_matrix_api_payload`: the locations in route-matrix form
      and the mode, then a departure time only for transit and a routing
      preference only for driving. */
  method GetDistanceMatrixApiPayload(origins: seq<Location>, destinations: seq<Location>, travelMode: TravelMode,
                                     departureTime: Option<string>) returns (payload: Payload)
    ensures |payload.origins| == |origins| && |payload.destinations| == |destinations|
    ensures forall k :: 0 <= k < |origins| ==> FromRouteMatrixLocation(payload.origins[k]) == origins[k]
    ensures forall k :: 0 <= k < |destinations| ==> FromRouteMatrixLocation(payload.destinations[k]) == destinations[k]
    ensures payload.travelMode == ModeName(travelMode)
    ensures payload.departureTime.Some? <==> travelMode == Transit && departureTime.Some?
    ensures payload.departureTime.Some? ==> payload.departureTime == departureTime
    ensures payload.routingPreference.Some? <==> travelMode == Drive
    ensures payload.routingPreference.Some? ==> payload.routingPreference.value == "TRAFFIC_UNAWARE"
  {
    payload := Payload(
      seq(|origins|, k requires 0 <= k < |origins| => ToRouteMatrixLocation(origins[k])),
      seq(|destinations|, k requires 0 <= k < |destinations| => ToRouteMatrixLocation(destinations[k])),
      ModeName(travelMode), None, None);
    if travelMode == Transit && departureTime.Some? {
      payload := payload.(departureTime := departureTime);
    }
    if travelMode == Drive {
      payload := payload.(routingPreference := Some("TRAFFIC_UNAWARE"));
    }
  }
}
