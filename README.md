# Flight delay predictor: the predictor and the form arithmetic

A Dafny model of the core of a small Flask application that predicts
whether a flight will be delayed. The model covers two parts of
`webapp/__init__.py`.

- **The `Predictor` object.** It starts with no classifier, no label
  encoder and no scaler. `load_model` unpickles the three in order.
  `_add_long_lat` looks an airport code up in a JSON table of coordinates
  and answers `(None, None)` on any miss. `forward(**kwargs)` reads ten
  keyword arguments, encodes the carrier, looks up both airports and lays
  twelve values out in the order the scaler was fitted on. It then scales
  that list and asks the classifier for the two probabilities.
- **The arithmetic of the `/submit_data` handler.** The date text
  `"Y-M-D"` is split on `-`, each piece goes through `int()`, and the
  result goes through `datetime.date` and `weekday()`. Each `"hh:mm"` is
  split on `:` into hours and minutes. The elapsed time is the absolute
  difference in minutes. The two times are encoded as the handler does it:
  `dep_time = dep_h * 10 + dep_m` and `arr_time = arr_h * 10 + dep_m`. The
  arrival therefore takes the departure's minute, and the factor is 10, not
  100. Both are reproduced as written (`WebForm.MakeRecord`), and
  `WebForm.TimeCodeCollision` and `WebForm.ArrivalMinuteIgnored` state what
  follows from them.

Modules, one per file:

- `Wrappers` holds `Option` and `Result`. A Python exception is a
  `Failure` carrying an `Error`: `KeyError`, `ValueError` (also what the
  encoder raises for a label it has not seen), `OverflowError`,
  `AttributeError`, or a load failure.
- `Values` holds the values passed around: ints, strings, coordinates and
  `None`.
- `PyText` models `str.split` with a one-character separator and `int()`
  in base 10. `int()` accepts surrounding Python whitespace, an optional
  sign, and single underscores between digits, and refuses text of more
  than 4300 digits, CPython's default `sys.get_int_max_str_digits()`. The
  module also holds zero-padded decimal text and `str(n)`, which serve as
  `int()`'s inverses within that limit.
- `Calendar` models the parts of `datetime.date` the handler uses: the
  constructor's conversion of each argument to a C `int` (an
  `OverflowError` outside -2^31..2^31-1), its range checks, `toordinal()`, and
  `weekday() == (toordinal() + 6) % 7`, as CPython computes them.
- `Airports` is the coordinate table and `_add_long_lat`.
- `LabelEncoding` is the fitted label encoder. Its classes are a sequence,
  and a label's code is its position in it.
- `Features` is the first half of `forward`, up to the feature list.
- `Predictors` holds the `Predictor` class, whose three artifacts are
  fields that `LoadModel` assigns. It also holds `Forward` and the start-up
  code in `create_app`.
- `WebForm` is the form handler's parsing and the keyword arguments it
  passes to `forward`.

A prediction requested before the artifacts are loaded fails with an
`AttributeError`, which is how the Python code fails when it calls a
method on `None`.

## Model

| member | source | states |
|---|---|---|
| Predictors.Predictor.constructor | webapp/__init__.py:10-14 | a new predictor has no classifier, no encoder and no scaler |
| Predictors.Predictor.LoadModel | webapp/__init__.py:28-39 | the three files are read in order and each artifact is stored as soon as it is read. A failing file raises, names that file, and leaves every later artifact as it was. Success means all three were read, and then the fields hold exactly those three |
| Predictors.Predictor.Forward | webapp/__init__.py:41-79 | any exception from assembling the feature list is the result. A missing scaler raises `AttributeError`. A scaler failure is passed on. A missing classifier raises `AttributeError`. On a loaded predictor the result is `predict_proba` of the scaled feature list. A success implies the predictor was loaded |
| Predictors.CreatePredictor | webapp/__init__.py:95-112 | start-up loads the default model and swallows a failed load. The predictor is fully loaded exactly when all three files load. Field by field: the classifier is what the model file gave; with no model, encoder and scaler stay None; with a model, the encoder is what its file gave; the scaler is what its file gave once the encoder loaded, and stays None otherwise |
| Predictors.ForwardTwice | webapp/__init__.py:41-79 | `forward` changes no state, so two calls on the same input agree, and before a complete load every call fails |
| Airports.AddLongLat | webapp/__init__.py:16-25 | a code whose record has both fields gives `(lat, long)`. A missing code, a missing field or a non-string key gives `(None, None)` and never raises |
| Airports.BothOrNeither | webapp/__init__.py:20-25 | the latitude is `None` exactly when the longitude is, and a coordinate comes back exactly when the record is complete |
| Airports.OtherRecordsIrrelevant | webapp/__init__.py:16-25 | adding or replacing another airport's record does not change a lookup |
| LabelEncoding.Transform | webapp/__init__.py:48-50 | encoding succeeds exactly for a label in the classes, and its code is a position holding that label. Any other label raises `ValueError` |
| LabelEncoding.TransformInjective | webapp/__init__.py:48-50 | different carriers in the vocabulary get different codes |
| LabelEncoding.DecodeEncode | webapp/__init__.py:48-50 | decoding a carrier's code with `InverseTransform`, the reference inverse (scikit-learn's `inverse_transform`, which the application never calls: the class at that position), gives the carrier back |
| LabelEncoding.EncodeDecode | webapp/__init__.py:48-50 | on a fitted encoder, whose classes are distinct, encoding the label that `InverseTransform` gives for a position gives that position back |
| Values.Lookup | webapp/__init__.py:42-47 | `kwargs[name]`, and `form[name]` in the handler, give the value for a present key and a `KeyError` naming a missing one |
| Features.EncodeCarrier | webapp/__init__.py:48-50 | with no encoder loaded the step raises `AttributeError`. Otherwise it is the encoder's transform, and it succeeds exactly for a carrier in the vocabulary |
| Features.Assemble | webapp/__init__.py:41-71 | the feature list is built exactly when all ten arguments are present, an encoder is loaded and the carrier is in its vocabulary. It then has twelve slots |
| Features.Layout | webapp/__init__.py:58-71 | slots 0-4, 6 and 7 are the arguments of the same name and slot 5 is the carrier's code. Slots 8-9 are the origin's coordinates and slots 10-11 the destination's |
| Features.EarlyFailure | webapp/__init__.py:42-47 | if an argument read before the encoder is missing, the first missing one raises its `KeyError`, whatever the encoder and the later arguments are |
| Features.EncoderFailure | webapp/__init__.py:48-50 | with the early arguments present, a missing encoder raises `AttributeError` and an unseen carrier raises `ValueError`, whatever the later arguments are |
| Features.LateFailure | webapp/__init__.py:51-57 | once the carrier is encoded, the first missing later argument raises its `KeyError` |
| Features.SwapAirports | webapp/__init__.py:53-71 | exchanging origin and destination exchanges slots 8-9 with slots 10-11 and changes no other slot |
| Features.SmokeTest | webapp/__init__.py:105-107 | the call commented out in start-up gives the ten inputs in order, with the code of "CO" and the coordinates of IAD and TPA filled in |
| PyText.Split | webapp/__init__.py:141 | `split` always gives at least one piece, and no piece contains the separator |
| PyText.JoinSplit | webapp/__init__.py:141 | joining the pieces of a split with the separator gives the text back |
| PyText.SplitJoin | webapp/__init__.py:150 | splitting joined pieces that do not contain the separator gives the pieces back |
| PyText.SplitCount | webapp/__init__.py:141 | a split gives one piece more than the text has separators |
| PyText.TrimStart | webapp/__init__.py:141 | `int()`'s leading strip removes exactly a run of leading whitespace |
| PyText.TrimEnd | webapp/__init__.py:141 | `int()`'s trailing strip removes exactly a run of trailing whitespace |
| PyText.ParseDigits | webapp/__init__.py:151 | `int()` reads up to 4300 plain digits as the number they spell |
| PyText.TooManyDigits | webapp/__init__.py:151 | `int()` refuses more than 4300 plain digits, so with `ParseDigits` plain digits parse exactly when there are at most 4300 |
| PyText.ParsePadded | webapp/__init__.py:151 | `int()` reads zero-padded decimal text such as "07" back as its number, when the text has at most 4300 digits |
| PyText.PaddedLength | webapp/__init__.py:151 | zero-padded text has as many characters as the width or the number's digits, whichever is more |
| PyText.ParseShow | webapp/__init__.py:141 | `int(str(n)) == n` for every integer `str()` can print (at most 4300 digits), negative ones included |
| Calendar.DaysInMonth | webapp/__init__.py:142 | every month has between 28 and 31 days |
| Calendar.NewDate | webapp/__init__.py:142 | `datetime.date` accepts exactly the valid dates, unchanged. A component outside the C `int` range raises `OverflowError`; any other invalid date raises `ValueError` |
| Calendar.Ordinal | webapp/__init__.py:143 | a valid date's ordinal is at least 1 |
| Calendar.Weekday | webapp/__init__.py:143 | `weekday()` is between 0 and 6 |
| Calendar.YearLength | webapp/__init__.py:143 | the ordinals of 1 January in consecutive years are 366 days apart after a leap year and 365 otherwise |
| Calendar.NextOrdinal | webapp/__init__.py:143 | the day after a valid date is valid and has the next ordinal, across the end of a month or a year too |
| Calendar.NextWeekday | webapp/__init__.py:143 | `weekday()` of the next day is one further round the week |
| Calendar.FirstDay | webapp/__init__.py:143 | 1 January of year 1 has ordinal 1 and is a Monday |
| Calendar.ThursdaySeventh | webapp/__init__.py:140-143 | the handler's example date, 2023-12-07, is valid and is a Thursday (`weekday() == 3`) |
| WebForm.PyInt | webapp/__init__.py:141 | `int(text)` succeeds exactly when the text reads as a number of at most 4300 digits, gives that number, and raises `ValueError` otherwise |
| WebForm.ParseClock | webapp/__init__.py:150-153 | `h, m = text.split(':')` plus the two `int()` calls succeed exactly when the split gives two pieces and both read as numbers. The text then contains exactly one ':', and the pair is those two numbers. Any other text raises `ValueError` |
| WebForm.ParseDate | webapp/__init__.py:141-142 | an accepted date text has exactly two '-' and gives a valid date. Any failure is a `ValueError` or an `OverflowError` |
| WebForm.ParseDateSpec | webapp/__init__.py:141-142 | the date text is accepted exactly when it splits into three pieces that `int()` reads and that form a valid date, and the date is those three numbers. It raises `OverflowError` exactly when the three pieces read as numbers and one of them is outside the C `int` range |
| WebForm.ElapsedTime | webapp/__init__.py:155 | the elapsed time is non-negative and is one of the two differences in minutes. It is 0 exactly when both times fall on the same minute |
| WebForm.ReadDate | webapp/__init__.py:137-142 | with no date field the result is `KeyError("date")`; otherwise it is exactly the parse of the field. A date read is valid |
| WebForm.ReadTimes | webapp/__init__.py:146-153 | both time fields must be present and parse, and the pair is their two parses. The errors are `KeyError` or `ValueError` |
| WebForm.MakeRecord | webapp/__init__.py:142-159 | the record holds a month in 1-12, a day in 1-31, a weekday in 0-6 and a non-negative elapsed time, the minutes between the two times |
| WebForm.ParseForm | webapp/__init__.py:133-166 | an accepted form has every field. Carrier, distance and both airports are copied unchanged, and the date fields and elapsed time are in range. A refused form raises `KeyError`, `ValueError` or `OverflowError` |
| WebForm.AsKwargs | webapp/__init__.py:168-179 | the dictionary has exactly the ten names `forward` reads, each holding its field of the record |
| WebForm.SubmitData | webapp/__init__.py:133-182 | a refused form's exception is the result. Otherwise the result is `forward` applied to the record's arguments, and a prediction implies a loaded predictor |
| WebForm.ParseClockOf | webapp/__init__.py:150-153 | "HH:MM" is read as that hour and minute, whenever neither has more than 4300 digits |
| WebForm.LongHour | webapp/__init__.py:150-153 | "HH:MM" with an hour of more than 4300 digits raises `ValueError` |
| WebForm.ParseIsoDate | webapp/__init__.py:141-142 | "YYYY-MM-DD" within the digit limit gives exactly what `datetime.date` makes of the three numbers |
| WebForm.ParseDateOf | webapp/__init__.py:141-142 | a browser's "YYYY-MM-DD" of a real date is read as that date |
| WebForm.YearOverflow | webapp/__init__.py:141-142 | the date "2147483648-01-01" raises `OverflowError`, not `ValueError` |
| WebForm.ParseFilledIn | webapp/__init__.py:137-166 | a form the browser filled in, with clock times of the day and a real date, is accepted. The record holds the month, the day and the date's weekday, `dep_h * 10 + dep_m`, `arr_h * 10 + dep_m`, the minutes between the two times, and the text fields unchanged |
| WebForm.ParseStages | webapp/__init__.py:133-166 | once the date and both times are read, the record is built from them and from the text fields |
| WebForm.Accepted | webapp/__init__.py:133-166 | the form is accepted exactly when every field is present and the date and both times parse |
| WebForm.ArrivalMinuteIgnored | webapp/__init__.py:150-159 | take two forms that differ only in the arrival time, with the same arrival hour. Both are accepted or both refused, and their records differ at most in the elapsed time |
| WebForm.ElapsedSymmetric | webapp/__init__.py:150-155 | swapping the departure and arrival times changes neither acceptance nor the elapsed time |
| WebForm.TimeCodeCollision | webapp/__init__.py:158-159 | "01:50" and "06:00" are read as different times that both encode as 60 |
| WebForm.RecordFeatures | webapp/__init__.py:41-71 | the feature list `forward` builds from a record's arguments is the record's fields in order, with the airline's code and the coordinates of both airports |

## Left out

- The Flask application is not modelled: app creation, configuration, the instance folder, the `/` route, template rendering and the `__main__` block (webapp/__init__.py:88-94, 114-130, 189-199). They are web framework plumbing.
- File I/O and unpickling are not modelled. `load_model` takes what unpickling each file gives, or None when opening or unpickling it raises. Path joining and `self.cwd` are dropped.
- Airports.AddLongLat: the JSON file is taken as already read into a table. A missing or malformed airport file, which would raise outside the `try`, is not modelled. The file is also not re-read on every lookup.
- The scaler's `transform` and the classifier's `predict_proba` are carried as opaque functions. Their floating-point numerics and the `np.array` conversion of the mixed-type feature list belong to NumPy and scikit-learn.
- Formatting the delayed probability as a percentage with one decimal (webapp/__init__.py:184-187) is not modelled. It is floating-point text formatting.
- The handler's rendering of an exception's text as HTML is not modelled. Errors are modelled by kind, not by message.
- The `print` calls and `Predictor.__str__` are not modelled. They only write to the console.
- PyText.ParseInt: non-ASCII decimal digits, which Python's `int()` also accepts, are refused.
- PyText.MaxStrDigits: the digit limit is fixed at CPython's default of 4300. Changing it with `sys.set_int_max_str_digits` or `PYTHONINTMAXSTRDIGITS` is not modelled.
- LabelEncoding.Fitted: the fitted classes are modelled as distinct but not as sorted. Sorting changes which code each carrier gets, not any property stated here.
