/** Feature-vector assembly, the first half of `Predictor.forward`: read
    the ten keyword arguments, encode the carrier, look up both airports
    and lay the twelve values out in the order the scaler was fitted on. */
module Features {
  import opened Wrappers
  import opened Values
  import opened Airports
  import opened LabelEncoding

  /** The keyword arguments `forward` reads before it encodes the carrier,
      in reading order. */
  const EarlyNames: seq<string> := ["month", "day_of_month", "day_of_week", "dep_time", "arr_time", "carrier"]

  /** The keyword arguments it reads after, in reading order. */
  const LateNames: seq<string> := ["elapsed_time", "distance", "origin_airport", "dest_airport"]

  /** All ten keyword arguments. */
  const InputNames: seq<string> := EarlyNames + LateNames

  /** The slots of the feature list, in order. */
  const FeatureNames: seq<string> := ["month", "day_of_month", "day_of_week", "dep_time", "arr_time",
                                      "carrier_number", "elapsed_time", "distance",
                                      "origin_lat", "origin_long", "dest_lat", "dest_long"]

  /** The slots copied unchanged from the keyword argument of the same name. */
  const CopiedSlots: set<nat> := {0, 1, 2, 3, 4, 6, 7}

  type Kwargs = map<string, Value>

  /** The first of `names` that is not a key of `kwargs`. */
  function FirstMissing(names: seq<string>, kwargs: Kwargs): (r: Option<string>)
    ensures r.None? <==> forall k :: k in names ==> k in kwargs
    ensures r.Some? ==> r.value in names && r.value !in kwargs
  {
    if names == [] then None
    else if names[0] !in kwargs then Some(names[0])
    else FirstMissing(names[1..], kwargs)
  }

  /** Every one of `names` is a key of `kwargs`. */
  predicate HasAll(kwargs: Kwargs, names: seq<string>)
  {
    forall k :: k in names ==> k in kwargs
  }

  /** Names that are keys do not count as missing. */
  lemma {:induction false} FirstMissingSkip(names: seq<string>, kwargs: Kwargs, n: nat)
    requires n <= |names|
    requires forall i :: 0 <= i < n ==> names[i] in kwargs
    ensures FirstMissing(names, kwargs) == FirstMissing(names[n..], kwargs)
    decreases n
  {
    if n > 0 {
      FirstMissingSkip(names[1..], kwargs, n - 1);
      assert names[1..][n - 1..] == names[n..];
    }
  }

  /** `self.encoder.transform([carrier])[0]`: an encoder still None has no
      `transform` attribute. */
  function EncodeCarrier(encoder: Option<LabelEncoder>, carrier: Value): (r: Result<int, Error>)
    ensures r.Success? <==> encoder.Some? && InVocabulary(encoder.value, carrier)
    ensures encoder.None? ==> r == Failure(AttributeError("transform"))
    ensures encoder.Some? ==> r == Transform(encoder.value, carrier)
  {
    match encoder
    case None => Failure(AttributeError("transform"))
    case Some(enc) => Transform(enc, carrier)
  }

  /** The feature list `forward` hands to the scaler, or the exception
      raised while building it. */
  function Assemble(kwargs: Kwargs, encoder: Option<LabelEncoder>, airports: AirportTable)
    : (r: Result<seq<Value>, Error>)
    ensures r.Success? <==>
              && HasAll(kwargs, InputNames)
              && encoder.Some? && InVocabulary(encoder.value, kwargs["carrier"])
    ensures r.Success? ==> |r.value| == |FeatureNames| == 12
  {
    var month :- Lookup(kwargs, "month");
    var dayOfMonth :- Lookup(kwargs, "day_of_month");
    var dayOfWeek :- Lookup(kwargs, "day_of_week");
    var depTime :- Lookup(kwargs, "dep_time");
    var arrTime :- Lookup(kwargs, "arr_time");
    var carrier :- Lookup(kwargs, "carrier");
    var carrierNumber :- EncodeCarrier(encoder, carrier);
    var elapsedTime :- Lookup(kwargs, "elapsed_time");
    var distance :- Lookup(kwargs, "distance");
    var originAirport :- Lookup(kwargs, "origin_airport");
    var destAirport :- Lookup(kwargs, "dest_airport");
    var (originLat, originLong) := AddLongLat(airports, originAirport);
    var (destLat, destLong) := AddLongLat(airports, destAirport);
    Success([month, dayOfMonth, dayOfWeek, depTime, arrTime, Int(carrierNumber),
             elapsedTime, distance, originLat, originLong, destLat, destLong])
  }

  /** Slot by slot, an assembled feature list holds the arguments of the
      same name, the carrier's code and the coordinates of both airports. */
  lemma Layout(kwargs: Kwargs, encoder: Option<LabelEncoder>, airports: AirportTable)
    requires Assemble(kwargs, encoder, airports).Success?
    ensures var fv := Assemble(kwargs, encoder, airports).value;
            && (forall i :: i in CopiedSlots ==> fv[i] == kwargs[FeatureNames[i]])
            && fv[5] == Int(Transform(encoder.value, kwargs["carrier"]).value)
            && (fv[8], fv[9]) == AddLongLat(airports, kwargs["origin_airport"])
            && (fv[10], fv[11]) == AddLongLat(airports, kwargs["dest_airport"])
  {
  }

  /** The exception `forward` raises is the first one met in reading
      order. A missing argument among the six read before the encoder
      raises its KeyError whatever the encoder and the later arguments. */
  lemma EarlyFailure(kwargs: Kwargs, encoder: Option<LabelEncoder>, airports: AirportTable)
    ensures var early := FirstMissing(EarlyNames, kwargs);
            early.Some? ==> Assemble(kwargs, encoder, airports) == Failure(KeyError(early.value))
  {
    if "month" !in kwargs {
    } else if "day_of_month" !in kwargs {
      FirstMissingSkip(EarlyNames, kwargs, 1);
    } else if "day_of_week" !in kwargs {
      FirstMissingSkip(EarlyNames, kwargs, 2);
    } else if "dep_time" !in kwargs {
      FirstMissingSkip(EarlyNames, kwargs, 3);
    } else if "arr_time" !in kwargs {
      FirstMissingSkip(EarlyNames, kwargs, 4);
    } else if "carrier" !in kwargs {
      FirstMissingSkip(EarlyNames, kwargs, 5);
    }
  }

  /** With the six early arguments present, an encoder still None raises
      an AttributeError and a carrier outside the vocabulary a ValueError,
      whatever the later arguments. */
  lemma EncoderFailure(kwargs: Kwargs, encoder: Option<LabelEncoder>, airports: AirportTable)
    requires HasAll(kwargs, EarlyNames)
    ensures encoder.None? ==> Assemble(kwargs, encoder, airports) == Failure(AttributeError("transform"))
    ensures encoder.Some? && !InVocabulary(encoder.value, kwargs["carrier"]) ==>
              Assemble(kwargs, encoder, airports) == Failure(ValueError)
  {
    assert "month" in kwargs && "day_of_month" in kwargs && "day_of_week" in kwargs;
    assert "dep_time" in kwargs && "arr_time" in kwargs && "carrier" in kwargs;
  }

  /** Only once the carrier is encoded does a missing later argument raise
      its KeyError, the first one in reading order. Airport misses never
      raise. */
  lemma LateFailure(kwargs: Kwargs, encoder: Option<LabelEncoder>, airports: AirportTable)
    requires HasAll(kwargs, EarlyNames)
    ensures var late := FirstMissing(LateNames, kwargs);
            (encoder.Some? && InVocabulary(encoder.value, kwargs["carrier"]) && late.Some?) ==>
              Assemble(kwargs, encoder, airports) == Failure(KeyError(late.value))
  {
    assert "month" in kwargs && "day_of_month" in kwargs && "day_of_week" in kwargs;
    assert "dep_time" in kwargs && "arr_time" in kwargs && "carrier" in kwargs;
    if encoder.Some? && InVocabulary(encoder.value, kwargs["carrier"]) {
      if "elapsed_time" !in kwargs {
      } else if "distance" !in kwargs {
        FirstMissingSkip(LateNames, kwargs, 1);
      } else if "origin_airport" !in kwargs {
        FirstMissingSkip(LateNames, kwargs, 2);
      } else if "dest_airport" !in kwargs {
        FirstMissingSkip(LateNames, kwargs, 3);
      }
    }
  }

  /** Exchanging the origin and destination airports exchanges slots 8-9
      with slots 10-11 and leaves every other slot as it was. */
  lemma SwapAirports(kwargs: Kwargs, encoder: Option<LabelEncoder>, airports: AirportTable)
    requires "origin_airport" in kwargs && "dest_airport" in kwargs
    ensures var swapped := kwargs["origin_airport" := kwargs["dest_airport"]]["dest_airport" := kwargs["origin_airport"]];
            var r, s := Assemble(kwargs, encoder, airports), Assemble(swapped, encoder, airports);
            && (r.Success? <==> s.Success?)
            && (r.Success? ==> s.value[..8] == r.value[..8] && s.value[8..10] == r.value[10..] && s.value[10..] == r.value[8..10])
  {
    var swapped := kwargs["origin_airport" := kwargs["dest_airport"]]["dest_airport" := kwargs["origin_airport"]];
    assert HasAll(kwargs, InputNames) <==> HasAll(swapped, InputNames);
  }

  /** The call left commented out in the application's start-up code:
      with both airports in the table and "CO" in the vocabulary, the
      feature list is the ten inputs in order with the carrier's code and
      the four coordinates filled in. */
  lemma SmokeTest(enc: LabelEncoder, airports: AirportTable, iad: map<string, Coord>, tpa: map<string, Coord>)
    requires "CO" in enc.classes
    requires "IAD" in airports && airports["IAD"] == iad && "lat" in iad && "long" in iad
    requires "TPA" in airports && airports["TPA"] == tpa && "lat" in tpa && "long" in tpa
    ensures var kwargs := map["month" := Int(1), "day_of_month" := Int(3), "day_of_week" := Int(3),
                              "dep_time" := Int(1955), "arr_time" := Int(2215), "carrier" := Str("CO"),
                              "elapsed_time" := Int(150), "distance" := Int(810),
                              "origin_airport" := Str("IAD"), "dest_airport" := Str("TPA")];
            Assemble(kwargs, Some(enc), airports)
            == Success([Int(1), Int(3), Int(3), Int(1955), Int(2215), Int(Transform(enc, Str("CO")).value),
                        Int(150), Int(810), Num(iad["lat"]), Num(iad["long"]), Num(tpa["lat"]), Num(tpa["long"])])
  {
  }
}
