/** The arithmetic of the `/submit_data` handler: turning the submitted
    form (airline, date, departure and arrival clock times, airports,
    distance) into the keyword arguments of `forward`, then predicting. */
module WebForm {
  import opened Wrappers
  import opened Values
  import opened PyText
  import opened Calendar
  import opened Features
  import opened Predictors
  import opened Airports
  import opened LabelEncoding

  type Form = map<string, string>

  /** The keys of the keyword arguments the handler passes to `forward`. */
  const InputKeys: set<string> := {"month", "day_of_month", "day_of_week", "dep_time", "arr_time",
                                   "carrier", "elapsed_time", "distance", "origin_airport", "dest_airport"}

  /** `int(text)`, raising a ValueError on text that is not a number or
      that has more than `MaxStrDigits` digits. */
  function PyInt(text: string): (r: Result<int, Error>)
    ensures r.Success? <==> ParseInt(text).Some?
    ensures r.Success? ==> r.value == ParseInt(text).value
    ensures r.Failure? ==> r.error == ValueError
  {
    match ParseInt(text)
    case Some(n) => Success(n)
    case None => Failure(ValueError)
  }

  /** `h, m = text.split(':')` followed by `int(h)` and `int(m)`. */
  function ParseClock(text: string): (r: Result<(int, int), Error>)
    ensures r.Success? <==>
              var parts := Split(text, ':');
              |parts| == 2 && ParseInt(parts[0]).Some? && ParseInt(parts[1]).Some?
    ensures r.Success? ==>
              && multiset(text)[':'] == 1
              && ParseInt(Split(text, ':')[0]) == Some(r.value.0)
              && ParseInt(Split(text, ':')[1]) == Some(r.value.1)
    ensures r.Failure? ==> r.error == ValueError
  {
    var parts := Split(text, ':');
    SplitCount(text, ':');
    if |parts| != 2 then Failure(ValueError)
    else
      var h :- PyInt(parts[0]);
      var m :- PyInt(parts[1]);
      Success((h, m))
  }

  /** `year, month, day = map(int, text.split('-'))` followed by
      `datetime.date(year, month, day)`. */
  function ParseDate(text: string): (r: Result<Date, Error>)
    ensures r.Success? ==> Valid(r.value) && multiset(text)['-'] == 2
    ensures r.Failure? ==> r.error == ValueError || r.error == OverflowError
  {
    var parts := Split(text, '-');
    SplitCount(text, '-');
    if |parts| != 3 then Failure(ValueError)
    else
      var year :- PyInt(parts[0]);
      var month :- PyInt(parts[1]);
      var day :- PyInt(parts[2]);
      NewDate(year, month, day)
  }

  /** Exactly when the date text is accepted, which date it gives, and
      when `date()` overflows: three pieces that `int()` reads, checked
      by `datetime.date`. */
  lemma ParseDateSpec(text: string)
    ensures var parts := Split(text, '-');
            ParseDate(text).Success? <==>
              && |parts| == 3 && ParseInt(parts[0]).Some? && ParseInt(parts[1]).Some? && ParseInt(parts[2]).Some?
              && Valid(Date(ParseInt(parts[0]).value, ParseInt(parts[1]).value, ParseInt(parts[2]).value))
    ensures var parts := Split(text, '-');
            ParseDate(text).Success? ==>
              ParseDate(text).value == Date(ParseInt(parts[0]).value, ParseInt(parts[1]).value, ParseInt(parts[2]).value)
    ensures var parts := Split(text, '-');
            ParseDate(text) == Failure(OverflowError) <==>
              && |parts| == 3 && ParseInt(parts[0]).Some? && ParseInt(parts[1]).Some? && ParseInt(parts[2]).Some?
              && !(FitsCInt(ParseInt(parts[0]).value) && FitsCInt(ParseInt(parts[1]).value)
                   && FitsCInt(ParseInt(parts[2]).value))
  {
  }

  /** Minutes since midnight of a clock time. */
  function Minutes(clock: (int, int)): int
  {
    clock.0 * 60 + clock.1
  }

  /** `abs(arr_total - dep_total)`. */
  function ElapsedTime(dep: (int, int), arr: (int, int)): (e: int)
    ensures e >= 0
    ensures e == Minutes(arr) - Minutes(dep) || e == Minutes(dep) - Minutes(arr)
    ensures e == 0 <==> Minutes(dep) == Minutes(arr)
  {
    var d := Minutes(arr) - Minutes(dep);
    if d < 0 then -d else d
  }

  /** `int(h) * 10 + int(m)`: the handler's "hhmm" number, with the factor
      10 the handler uses. */
  function TimeCode(hour: int, minute: int): int
  {
    hour * 10 + minute
  }

  /** What the handler reads off the form, before it is packed into
      keyword arguments. */
  datatype FlightRecord = FlightRecord(
    month: int, dayOfMonth: int, dayOfWeek: int, depTime: int, arrTime: int,
    carrier: string, elapsedTime: int, distance: string,
    originAirport: string, destAirport: string)

  /** The date field, read and checked: `form['date']`, split on '-',
      each piece through `int()`, then `datetime.date`. */
  function ReadDate(form: Form): (r: Result<Date, Error>)
    ensures "date" !in form ==> r == Failure(KeyError("date"))
    ensures "date" in form ==> r == ParseDate(form["date"])
    ensures r.Success? ==> Valid(r.value)
  {
    var text :- Lookup(form, "date");
    ParseDate(text)
  }

  /** The two time fields, read and parsed: both are looked up before
      either is split. */
  function ReadTimes(form: Form): (r: Result<((int, int), (int, int)), Error>)
    ensures r.Success? <==>
              && "dep_time" in form && "arr_time" in form
              && ParseClock(form["dep_time"]).Success? && ParseClock(form["arr_time"]).Success?
    ensures r.Success? ==>
              r.value == (ParseClock(form["dep_time"]).value, ParseClock(form["arr_time"]).value)
    ensures r.Failure? ==> r.error.KeyError? || r.error == ValueError
  {
    var depText :- Lookup(form, "dep_time");
    var arrText :- Lookup(form, "arr_time");
    var dep :- ParseClock(depText);
    var arr :- ParseClock(arrText);
    Success((dep, arr))
  }

  /** The record computed from the parsed fields: the date's month, day
      and weekday, the elapsed minutes, and both times as hour * 10 +
      minute, the arrival taking the departure's minute. */
  function MakeRecord(carrier: string, date: Date, dep: (int, int), arr: (int, int),
                      origin: string, dest: string, distance: string): (rec: FlightRecord)
    requires Valid(date)
    ensures 1 <= rec.month <= 12 && 1 <= rec.dayOfMonth <= 31
    ensures 0 <= rec.dayOfWeek < 7 && rec.elapsedTime >= 0
    ensures rec.elapsedTime == ElapsedTime(dep, arr)
  {
    FlightRecord(date.month, date.day, Weekday(date), TimeCode(dep.0, dep.1), TimeCode(arr.0, dep.1),
                 carrier, ElapsedTime(dep, arr), distance, origin, dest)
  }

  /** The form fields turned into a flight record, in the order the
      handler reads them, so that the first failing step decides the
      exception. */
  function ParseForm(form: Form): (r: Result<FlightRecord, Error>)
    ensures r.Success? ==>
              && "airline" in form && r.value.carrier == form["airline"]
              && "origin_airport" in form && r.value.originAirport == form["origin_airport"]
              && "dest_airport" in form && r.value.destAirport == form["dest_airport"]
              && "distance" in form && r.value.distance == form["distance"]
    ensures r.Success? ==>
              && 1 <= r.value.month <= 12 && 1 <= r.value.dayOfMonth <= 31
              && 0 <= r.value.dayOfWeek < 7 && r.value.elapsedTime >= 0
    ensures r.Failure? ==> r.error.KeyError? || r.error == ValueError || r.error == OverflowError
  {
    var carrier :- Lookup(form, "airline");
    var date :- ReadDate(form);
    var times :- ReadTimes(form);
    var origin :- Lookup(form, "origin_airport");
    var dest :- Lookup(form, "dest_airport");
    var distance :- Lookup(form, "distance");
    Success(MakeRecord(carrier, date, times.0, times.1, origin, dest, distance))
  }

  /** The keyword-argument dictionary the handler builds from the record:
      every name `forward` reads, each holding its field. */
  function AsKwargs(rec: FlightRecord): (kwargs: Kwargs)
    ensures kwargs.Keys == InputKeys && HasAll(kwargs, InputNames)
    ensures && kwargs["month"] == Int(rec.month)
            && kwargs["day_of_month"] == Int(rec.dayOfMonth)
            && kwargs["day_of_week"] == Int(rec.dayOfWeek)
            && kwargs["dep_time"] == Int(rec.depTime)
            && kwargs["arr_time"] == Int(rec.arrTime)
            && kwargs["carrier"] == Str(rec.carrier)
            && kwargs["elapsed_time"] == Int(rec.elapsedTime)
            && kwargs["distance"] == Str(rec.distance)
            && kwargs["origin_airport"] == Str(rec.originAirport)
            && kwargs["dest_airport"] == Str(rec.destAirport)
  {
    map["month" := Int(rec.month), "day_of_month" := Int(rec.dayOfMonth),
        "day_of_week" := Int(rec.dayOfWeek), "dep_time" := Int(rec.depTime),
        "arr_time" := Int(rec.arrTime), "carrier" := Str(rec.carrier),
        "elapsed_time" := Int(rec.elapsedTime), "distance" := Str(rec.distance),
        "origin_airport" := Str(rec.originAirport), "dest_airport" := Str(rec.destAirport)]
  }

  /** The `/submit_data` handler up to the probabilities: parse the form,
      then `predictor.forward(**datapoint)`. Any exception ends it; the
      handler shows the exception's text instead of a probability. */
  function SubmitData(p: Predictor, form: Form): (r: Result<ProbabilityPair, Error>)
    reads p
    ensures ParseForm(form).Failure? ==> r == Failure(ParseForm(form).error)
    ensures ParseForm(form).Success? ==> r == p.Forward(AsKwargs(ParseForm(form).value))
    ensures r.Success? ==> p.Loaded()
  {
    var rec :- ParseForm(form);
    p.Forward(AsKwargs(rec))
  }

  // ---------------------------------------------------------------------
  // The text the browser submits, and what the handler makes of it

  /** A time input's value, "HH:MM". */
  function Clock(hour: nat, minute: nat): string
  {
    Padded(hour, 2) + ":" + Padded(minute, 2)
  }

  /** A date input's value, "YYYY-MM-DD". */
  function IsoDate(year: nat, month: nat, day: nat): string
  {
    Padded(year, 4) + "-" + Padded(month, 2) + "-" + Padded(day, 2)
  }

  lemma NoSeparator(k: nat, width: nat, sep: char)
    requires !IsDigit(sep)
    ensures sep !in Padded(k, width)
  {
    PaddedDigits(k, width);
  }

  /** "HH:MM" is read back as the hour and the minute, as long as
      neither is too long for `int()`. */
  lemma ParseClockOf(hour: nat, minute: nat)
    requires NumDigits(hour) <= MaxStrDigits && NumDigits(minute) <= MaxStrDigits
    ensures ParseClock(Clock(hour, minute)) == Success((hour as int, minute as int))
  {
    var parts := [Padded(hour, 2), Padded(minute, 2)];
    NoSeparator(hour, 2, ':');
    NoSeparator(minute, 2, ':');
    assert Join(parts, ':') == Clock(hour, minute);
    SplitJoin(parts, ':');
    ParsePadded(hour, 2);
    ParsePadded(minute, 2);
  }

  /** An hour too long for `int()` makes the time field a ValueError. */
  lemma LongHour(hour: nat, minute: nat)
    requires NumDigits(hour) > MaxStrDigits
    ensures ParseClock(Clock(hour, minute)) == Failure(ValueError)
  {
    var parts := [Padded(hour, 2), Padded(minute, 2)];
    NoSeparator(hour, 2, ':');
    NoSeparator(minute, 2, ':');
    assert Join(parts, ':') == Clock(hour, minute);
    SplitJoin(parts, ':');
    PaddedDigits(hour, 2);
    PaddedLength(hour, 2);
    TooManyDigits(Padded(hour, 2));
  }

  /** "YYYY-MM-DD" is read as the three numbers handed to `datetime.date`,
      as long as none is too long for `int()`. */
  lemma ParseIsoDate(year: nat, month: nat, day: nat)
    requires NumDigits(year) <= MaxStrDigits && NumDigits(month) <= MaxStrDigits && NumDigits(day) <= MaxStrDigits
    ensures ParseDate(IsoDate(year, month, day)) == NewDate(year, month, day)
  {
    var parts := [Padded(year, 4), Padded(month, 2), Padded(day, 2)];
    NoSeparator(year, 4, '-');
    NoSeparator(month, 2, '-');
    NoSeparator(day, 2, '-');
    assert Join(parts, '-') == IsoDate(year, month, day) by {
      assert parts[1..] == [Padded(month, 2), Padded(day, 2)];
      assert parts[1..][1..] == [Padded(day, 2)];
      assert Join(parts[1..], '-') == Padded(month, 2) + "-" + Padded(day, 2);
    }
    SplitJoin(parts, '-');
    ParsePadded(year, 4);
    ParsePadded(month, 2);
    ParsePadded(day, 2);
  }

  /** "YYYY-MM-DD" of a real date is read back as that date. */
  lemma ParseDateOf(year: nat, month: nat, day: nat)
    requires Valid(Date(year, month, day))
    ensures ParseDate(IsoDate(year, month, day)) == Success(Date(year, month, day))
  {
    FewDigits(year, 4);
    FewDigits(month, 4);
    FewDigits(day, 4);
    ParseIsoDate(year, month, day);
  }

  /** A year beyond the C int range is not a ValueError but an
      OverflowError, raised before `datetime.date` checks the range. */
  lemma YearOverflow()
    ensures ParseDate(IsoDate(2147483648, 1, 1)) == Failure(OverflowError)
  {
    FewDigits(2147483648, 10);
    ParseIsoDate(2147483648, 1, 1);
  }

  /** A form as the browser fills it in: a time input holds a clock time
      of the day. */
  predicate FilledIn(form: Form, year: nat, month: nat, day: nat,
                     depHour: nat, depMinute: nat, arrHour: nat, arrMinute: nat)
  {
    && depHour < 24 && depMinute < 60 && arrHour < 24 && arrMinute < 60
    && form.Keys >= {"airline", "date", "dep_time", "arr_time", "origin_airport", "dest_airport", "distance"}
    && form["date"] == IsoDate(year, month, day)
    && form["dep_time"] == Clock(depHour, depMinute)
    && form["arr_time"] == Clock(arrHour, arrMinute)
  }

  /** On a filled-in form with a real date, the record holds the date's
      month and day and its weekday, both times as hour * 10 + minute (the
      arrival with the departure's minute), the minutes between the two
      times, and the text fields unchanged. */
  lemma ParseFilledIn(form: Form, year: nat, month: nat, day: nat,
                      depHour: nat, depMinute: nat, arrHour: nat, arrMinute: nat)
    requires FilledIn(form, year, month, day, depHour, depMinute, arrHour, arrMinute)
    requires Valid(Date(year, month, day))
    ensures ParseForm(form).Success?
    ensures var rec := ParseForm(form).value;
            && rec.month == month && rec.dayOfMonth == day
            && rec.dayOfWeek == Weekday(Date(year, month, day))
            && rec.depTime == TimeCode(depHour, depMinute)
            && rec.arrTime == TimeCode(arrHour, depMinute)
            && rec.elapsedTime == ElapsedTime((depHour, depMinute), (arrHour, arrMinute))
            && rec.carrier == form["airline"] && rec.distance == form["distance"]
            && rec.originAirport == form["origin_airport"] && rec.destAirport == form["dest_airport"]
  {
    var date := Date(year, month, day);
    ParseDateOf(year, month, day);
    FewDigits(depHour, 2);
    FewDigits(depMinute, 2);
    FewDigits(arrHour, 2);
    FewDigits(arrMinute, 2);
    ParseClockOf(depHour, depMinute);
    ParseClockOf(arrHour, arrMinute);
    var dep, arr := (depHour as int, depMinute as int), (arrHour as int, arrMinute as int);
    ParseStages(form, date, dep, arr);
  }

  /** Once the date and the times are read, the record follows. */
  lemma ParseStages(form: Form, date: Date, dep: (int, int), arr: (int, int))
    requires "airline" in form && "origin_airport" in form && "dest_airport" in form && "distance" in form
    requires ReadDate(form) == Success(date)
    requires ReadTimes(form) == Success((dep, arr))
    ensures ParseForm(form) == Success(MakeRecord(form["airline"], date, dep, arr,
                                                  form["origin_airport"], form["dest_airport"], form["distance"]))
  {
  }

  /** The form is accepted exactly when every field is there and the
      date and both times parse. */
  lemma Accepted(form: Form)
    ensures ParseForm(form).Success? <==>
              && "airline" in form && ReadDate(form).Success? && ReadTimes(form).Success?
              && "origin_airport" in form && "dest_airport" in form && "distance" in form
  {
  }

  /** Forms that agree outside the two time fields agree on the date. */
  lemma SameDate(form: Form, other: Form)
    requires "date" in form <==> "date" in other
    requires "date" in form ==> form["date"] == other["date"]
    ensures ReadDate(other) == ReadDate(form)
  {
    assert Lookup(other, "date") == Lookup(form, "date");
  }

  lemma SwappedTimes(form: Form)
    requires "dep_time" in form && "arr_time" in form
    ensures var other := ReadTimes(form["dep_time" := form["arr_time"]]["arr_time" := form["dep_time"]]);
            && (other.Success? <==> ReadTimes(form).Success?)
            && (other.Success? ==> other.value == (ReadTimes(form).value.1, ReadTimes(form).value.0))
  {
  }

  /** The arrival's minute reaches only `elapsed_time`: two forms that
      differ only in the arrival time, whose arrivals share the hour, are
      both accepted or both refused, and their records differ at most in
      the elapsed time. */
  lemma ArrivalMinuteIgnored(form: Form, other: Form)
    requires other.Keys == form.Keys
    requires forall k :: k in form && k != "arr_time" ==> other[k] == form[k]
    requires ReadTimes(form).Success? && ReadTimes(other).Success?
    requires ReadTimes(other).value.1.0 == ReadTimes(form).value.1.0
    ensures ParseForm(form).Success? <==> ParseForm(other).Success?
    ensures ParseForm(form).Success? ==>
              ParseForm(other).value == ParseForm(form).value.(elapsedTime := ParseForm(other).value.elapsedTime)
  {
    hide *;
    SameDate(form, other);
    SameTimes(form, other);
    SameFields(form, other);
    if ParseForm(form).Success? {
      ArrivalRecord(form, other);
    }
  }

  /** Forms with the same fields are accepted together. */
  lemma SameFields(form: Form, other: Form)
    requires other.Keys == form.Keys
    requires ReadDate(other) == ReadDate(form)
    requires ReadTimes(other).Success? <==> ReadTimes(form).Success?
    ensures ParseForm(form).Success? <==> ParseForm(other).Success?
  {
    Accepted(form);
    Accepted(other);
  }

  /** Forms that agree on the departure time read it alike. */
  lemma SameTimes(form: Form, other: Form)
    requires other.Keys == form.Keys
    requires forall k :: k in form && k != "arr_time" ==> other[k] == form[k]
    requires ReadTimes(form).Success? && ReadTimes(other).Success?
    ensures ReadTimes(other).value.0 == ReadTimes(form).value.0
  {
    assert other["dep_time"] == form["dep_time"];
  }

  lemma ArrivalRecord(form: Form, other: Form)
    requires other.Keys == form.Keys
    requires forall k :: k in form && k != "arr_time" ==> other[k] == form[k]
    requires ReadDate(other) == ReadDate(form)
    requires ParseForm(form).Success? && ParseForm(other).Success?
    requires ReadTimes(other).value.0 == ReadTimes(form).value.0
    requires ReadTimes(other).value.1.0 == ReadTimes(form).value.1.0
    ensures ParseForm(other).value == ParseForm(form).value.(elapsedTime := ParseForm(other).value.elapsedTime)
  {
    Accepted(form);
    Accepted(other);
    var date := ReadDate(form).value;
    var (dep, arr) := ReadTimes(form).value;
    var arr' := ReadTimes(other).value.1;
    ParseStages(form, date, dep, arr);
    ParseStages(other, date, dep, arr');
  }

  /** Swapping the departure and arrival times changes neither whether the
      form is accepted nor the elapsed time. */
  lemma ElapsedSymmetric(form: Form)
    requires "dep_time" in form && "arr_time" in form
    ensures var swapped := form["dep_time" := form["arr_time"]]["arr_time" := form["dep_time"]];
            ParseForm(form).Success? <==> ParseForm(swapped).Success?
    ensures var swapped := form["dep_time" := form["arr_time"]]["arr_time" := form["dep_time"]];
            ParseForm(form).Success? ==> ParseForm(swapped).value.elapsedTime == ParseForm(form).value.elapsedTime
  {
    var other := form["dep_time" := form["arr_time"]]["arr_time" := form["dep_time"]];
    SameDate(form, other);
    SwappedTimes(form);
    SameFields(form, other);
    if ParseForm(form).Success? {
      SwappedRecord(form, other);
    }
  }

  lemma SwappedRecord(form: Form, other: Form)
    requires other.Keys == form.Keys
    requires ReadDate(other) == ReadDate(form)
    requires ParseForm(form).Success? && ParseForm(other).Success?
    requires ReadTimes(other).value == (ReadTimes(form).value.1, ReadTimes(form).value.0)
    ensures ParseForm(other).value.elapsedTime == ParseForm(form).value.elapsedTime
  {
    hide *;
    Accepted(form);
    Accepted(other);
    var date := ReadDate(form).value;
    var (dep, arr) := ReadTimes(form).value;
    ParseStages(form, date, dep, arr);
    ParseStages(other, date, arr, dep);
  }

  lemma ClockTexts()
    ensures Clock(1, 50) == "01:50" && Clock(6, 0) == "06:00"
  {
    assert Padded(1, 2) == "01" && Padded(50, 2) == "50";
    assert Padded(6, 2) == "06" && Padded(0, 2) == "00";
  }

  /** With the factor 10, different clock times share one number:
      "01:50" and "06:00" are read as different times that both become 60. */
  lemma TimeCodeCollision()
    ensures ParseClock("01:50") == Success((1, 50)) && ParseClock("06:00") == Success((6, 0))
    ensures TimeCode(1, 50) == TimeCode(6, 0) == 60
  {
    ClockTexts();
    ParseClockOf(1, 50);
    ParseClockOf(6, 0);
  }

  /** The feature list `forward` builds from the keyword arguments of a
      record whose airline the encoder knows: the record's fields in the
      order the scaler was fitted on, the airline as its code, and the
      coordinates of both airports. */
  lemma RecordFeatures(rec: FlightRecord, enc: LabelEncoder, airports: AirportTable)
    requires InVocabulary(enc, Str(rec.carrier))
    ensures Assemble(AsKwargs(rec), Some(enc), airports)
            == Success([Int(rec.month), Int(rec.dayOfMonth), Int(rec.dayOfWeek),
                        Int(rec.depTime), Int(rec.arrTime),
                        Int(Transform(enc, Str(rec.carrier)).value),
                        Int(rec.elapsedTime), Str(rec.distance),
                        AddLongLat(airports, Str(rec.originAirport)).0, AddLongLat(airports, Str(rec.originAirport)).1,
                        AddLongLat(airports, Str(rec.destAirport)).0, AddLongLat(airports, Str(rec.destAirport)).1])
  {
    var kwargs := AsKwargs(rec);
    Layout(kwargs, Some(enc), airports);
    var fv := Assemble(kwargs, Some(enc), airports).value;
    assert fv[0] == kwargs[FeatureNames[0]] && fv[1] == kwargs[FeatureNames[1]];
    assert fv[2] == kwargs[FeatureNames[2]] && fv[3] == kwargs[FeatureNames[3]];
    assert fv[4] == kwargs[FeatureNames[4]] && fv[6] == kwargs[FeatureNames[6]];
    assert fv[7] == kwargs[FeatureNames[7]];
  }
}
