/** The `Predictor` object: three artifacts that start out as None and
    that only `load_model` assigns, and `forward`, which only reads them. */
module Predictors {
  import opened Wrappers
  import opened Values
  import opened Airports
  import opened LabelEncoding
  import opened Features

  /** `predict_proba`'s row: (not delayed, delayed). */
  datatype ProbabilityPair = ProbabilityPair(notDelayed: real, delayed: real)

  /** The fitted min-max scaler; what `transform` computes belongs to the
      pickled object, so it is carried as a function. */
  datatype Scaler = Scaler(transform: seq<Value> -> Result<seq<real>, Error>)

  /** The fitted classifier, likewise. */
  datatype Classifier = Classifier(predictProba: seq<real> -> Result<ProbabilityPair, Error>)

  const DefaultModelName := "logistic_regression.pkl"
  const EncoderFileName := "label_encoder.pkl"
  const ScalerFileName := "min_max_scaler.pkl"

  class Predictor {
    var model: Option<Classifier>
    var encoder: Option<LabelEncoder>
    var scaler: Option<Scaler>
    /** The airport table stored beside the application. */
    const airports: AirportTable

    /** All three artifacts are present. */
    predicate Loaded()
      reads this
    {
      model.Some? && encoder.Some? && scaler.Some?
    }

    /** `Predictor()`: nothing loaded yet. */
    constructor (airports: AirportTable)
      ensures model.None? && encoder.None? && scaler.None?
      ensures this.airports == airports
    {
      model, encoder, scaler := None, None, None;
      this.airports := airports;
    }

    /** `load_model(model_name)`. Each `*File` argument is what opening
        and unpickling that file gives, None when that raises. The files
        are read in order and each result is stored at once, so a failure
        leaves the artifacts read before it assigned. */
    method LoadModel(modelName: string, modelFile: Option<Classifier>,
                     encoderFile: Option<LabelEncoder>, scalerFile: Option<Scaler>)
      returns (r: Result<(), Error>)
      modifies this
      ensures modelFile.None? ==>
                r == Failure(LoadError(modelName)) && model == old(model)
                && encoder == old(encoder) && scaler == old(scaler)
      ensures modelFile.Some? && encoderFile.None? ==>
                r == Failure(LoadError(EncoderFileName)) && model == modelFile
                && encoder == old(encoder) && scaler == old(scaler)
      ensures modelFile.Some? && encoderFile.Some? && scalerFile.None? ==>
                r == Failure(LoadError(ScalerFileName)) && model == modelFile
                && encoder == encoderFile && scaler == old(scaler)
      ensures r.Success? <==> modelFile.Some? && encoderFile.Some? && scalerFile.Some?
      ensures r.Success? ==> model == modelFile && encoder == encoderFile && scaler == scalerFile
    {
      if modelFile.None? {
        return Failure(LoadError(modelName));
      }
      model := modelFile;
      if encoderFile.None? {
        return Failure(LoadError(EncoderFileName));
      }
      encoder := encoderFile;
      if scalerFile.None? {
        return Failure(LoadError(ScalerFileName));
      }
      scaler := scalerFile;
      r := Success(());
    }

    /** `forward(**kwargs)`: assemble the feature list, scale it, classify
        it. It reads the artifacts and changes nothing; every exception of
        a stage reaches the caller unchanged. */
    function Forward(kwargs: Kwargs): (r: Result<ProbabilityPair, Error>)
      reads this
      ensures r.Success? ==> Loaded() && Assemble(kwargs, encoder, airports).Success?
      ensures Assemble(kwargs, encoder, airports).Failure? ==>
                r == Failure(Assemble(kwargs, encoder, airports).error)
      ensures Assemble(kwargs, encoder, airports).Success? && scaler.None? ==>
                r == Failure(AttributeError("transform"))
      ensures Assemble(kwargs, encoder, airports).Success? && scaler.Some? && model.None? ==>
                var scaled := scaler.value.transform(Assemble(kwargs, encoder, airports).value);
                r == Failure(if scaled.Failure? then scaled.error else AttributeError("predict_proba"))
      ensures Loaded() && Assemble(kwargs, encoder, airports).Success? ==>
                var scaled := scaler.value.transform(Assemble(kwargs, encoder, airports).value);
                r == if scaled.Failure? then Failure(scaled.error) else model.value.predictProba(scaled.value)
    {
      var datapoint :- Assemble(kwargs, encoder, airports);
      var s :- if scaler.Some? then Success(scaler.value) else Failure(AttributeError("transform"));
      var scaled :- s.transform(datapoint);
      var m :- if model.Some? then Success(model.value) else Failure(AttributeError("predict_proba"));
      m.predictProba(scaled)
    }
  }

  /** Start-up in `create_app`: build the predictor and try to load it; a
      failed load is swallowed and the half-loaded predictor is served. */
  method CreatePredictor(airports: AirportTable, modelFile: Option<Classifier>,
                         encoderFile: Option<LabelEncoder>, scalerFile: Option<Scaler>)
    returns (p: Predictor)
    ensures fresh(p) && p.airports == airports
    ensures p.Loaded() <==> modelFile.Some? && encoderFile.Some? && scalerFile.Some?
    ensures p.model == modelFile
    ensures modelFile.None? ==> p.encoder.None? && p.scaler.None?
    ensures modelFile.Some? ==> p.encoder == encoderFile
    ensures modelFile.Some? && encoderFile.Some? ==> p.scaler == scalerFile
    ensures modelFile.Some? && encoderFile.None? ==> p.scaler.None?
  {
    p := new Predictor(airports);
    var _ := p.LoadModel(DefaultModelName, modelFile, encoderFile, scalerFile);
  }

  /** Before a successful load every prediction fails, and `forward`
      leaves the artifacts as they were, so two calls on the same input
      agree. */
  method ForwardTwice(p: Predictor, kwargs: Kwargs) returns (first: Result<ProbabilityPair, Error>, second: Result<ProbabilityPair, Error>)
    ensures first == second
    ensures !p.Loaded() ==> first.Failure?
  {
    first := p.Forward(kwargs);
    second := p.Forward(kwargs);
  }
}
