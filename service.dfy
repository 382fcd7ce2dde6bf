/**
 * The prediction service: the artifacts loaded at startup, the guards that refuse requests when
 * some are missing, and the request paths of /info, /predict and /predict/simple. The fitted
 * scaler and regressor are opaque: each is a function that yields a result or None when it
 * raises.
 */
module Service {
  import opened Wrappers
  import opened Errors
  import opened Values
  import opened Features
  import opened Coercion
  import opened Simple

  /** The fitted regressor: predict on one scaled row. */
  datatype Model = Model(predict: seq<real> -> Option<real>)

  /** The fitted scaler: transform of one aligned row. */
  datatype Scaler = Scaler(transform: seq<Value> -> Option<seq<real>>)

  /** The process-wide artifacts; None for one that was not loaded. */
  datatype Artifacts = Artifacts(
    model: Option<Model>,
    scaler: Option<Scaler>,
    encoders: Option<Encoders>,
    featureNames: Option<seq<string>>)

  /** Python's all(): no element of the list is falsy. */
  function All(xs: seq<bool>): (r: bool)
    ensures r <==> forall i :: 0 <= i < |xs| ==> xs[i]
  {
    if xs == [] then true else xs[0] && All(xs[1..])
  }

  /** The truthiness of a loaded regressor or scaler is taken to be its presence. */
  function LoadedModel(m: Option<Model>): bool { m.Some? }
  function LoadedScaler(s: Option<Scaler>): bool { s.Some? }

  /** None and an empty mapping are falsy. */
  function TruthyEncoders(e: Option<Encoders>): bool { e.Some? && e.value != map[] }

  /** None and an empty list are falsy. */
  function TruthyNames(n: Option<seq<string>>): bool { n.Some? && n.value != [] }

  /**
   * The guard of both prediction endpoints, all([model, scaler, encoders]): every one loaded and
   * truthy, so an empty encoders mapping counts as not loaded. Feature names are not checked.
   */
  predicate PredictionReady(a: Artifacts)
    ensures PredictionReady(a) <==>
      a.model.Some? && a.scaler.Some? && a.encoders.Some? && a.encoders.value != map[]
  {
    var checks := [LoadedModel(a.model), LoadedScaler(a.scaler), TruthyEncoders(a.encoders)];
    assert checks[0] == a.model.Some? && checks[1] == a.scaler.Some? && checks[2] == TruthyEncoders(a.encoders);
    All(checks)
  }

  /** The guard of /info, all([model, scaler, encoders, feature_names]). */
  predicate InfoReady(a: Artifacts)
    ensures InfoReady(a) <==> PredictionReady(a) && a.featureNames.Some? && a.featureNames.value != []
  {
    var checks := [LoadedModel(a.model), LoadedScaler(a.scaler), TruthyEncoders(a.encoders), TruthyNames(a.featureNames)];
    assert checks[0] == a.model.Some? && checks[1] == a.scaler.Some?;
    assert checks[2] == TruthyEncoders(a.encoders) && checks[3] == TruthyNames(a.featureNames);
    All(checks)
  }

  datatype ModelInfo = ModelInfo(features: seq<string>, categoricalFeatures: set<string>, numFeatures: nat)

  /** /info: the feature list, the encoded columns and the feature count, or "not loaded". */
  function Info(a: Artifacts): (r: Result<ModelInfo, Error>)
    ensures r.Failure? <==> !InfoReady(a)
    ensures r.Failure? ==> r.error == ComponentsNotLoaded && Status(r.error) == 500
    ensures r.Success? ==> r.value.numFeatures == |r.value.features| > 0
    ensures r.Success? ==> r.value.features == a.featureNames.value && r.value.categoricalFeatures == a.encoders.value.Keys
  {
    if !InfoReady(a) then Failure(ComponentsNotLoaded)
    else Success(ModelInfo(a.featureNames.value, a.encoders.value.Keys, |a.featureNames.value|))
  }

  /**
   * prepare_features: align the request to the feature names and scale it. A missing list of
   * feature names makes the fill loop raise; a scaler that raises is re-raised.
   */
  method PrepareFeatures(row: Row, encoders: Encoders, featureNames: Option<seq<string>>, scaler: Scaler)
    returns (r: Result<seq<real>, Error>)
    ensures featureNames.None? ==> r == Failure(Unhandled)
    ensures featureNames.Some? && scaler.transform(AlignedRow(row, encoders, featureNames.value)).None?
      ==> r == Failure(Unhandled)
    ensures featureNames.Some? && scaler.transform(AlignedRow(row, encoders, featureNames.value)).Some?
      ==> r == Success(scaler.transform(AlignedRow(row, encoders, featureNames.value)).value)
  {
    if featureNames.None? {
      return Failure(Unhandled);
    }
    var aligned := AlignFeatures(row, encoders, featureNames.value);
    assert aligned == AlignedRow(row, encoders, featureNames.value);
    var scaled := scaler.transform(aligned);
    if scaled.None? {
      return Failure(Unhandled);
    }
    return Success(scaled.value);
  }

  /** Reference for what both endpoints do with a record once it is ready: prepare it and predict. */
  function Inference(a: Artifacts, row: Row): (r: Result<real, Error>)
    requires PredictionReady(a)
    ensures a.featureNames.None? ==> r == Failure(Unhandled)
    ensures r.Failure? ==> r.error == Unhandled
    ensures
      && a.featureNames.Some?
      && a.scaler.value.transform(AlignedRow(row, a.encoders.value, a.featureNames.value)).Some?
      && a.model.value.predict(a.scaler.value.transform(AlignedRow(row, a.encoders.value, a.featureNames.value)).value).Some?
      ==> r.Success?
    ensures r.Success? ==>
      && a.featureNames.Some?
      && a.scaler.value.transform(AlignedRow(row, a.encoders.value, a.featureNames.value)).Some?
      && a.model.value.predict(a.scaler.value.transform(AlignedRow(row, a.encoders.value, a.featureNames.value)).value)
         == Some(r.value)
  {
    if a.featureNames.None? then Failure(Unhandled)
    else match a.scaler.value.transform(AlignedRow(row, a.encoders.value, a.featureNames.value))
      case None => Failure(Unhandled)
      case Some(scaled) =>
        match a.model.value.predict(scaled)
        case None => Failure(Unhandled)
        case Some(price) => Success(price)
  }

  /** The success answer of /predict: the (unrounded) price and the coerced request it echoes. */
  datatype Prediction = Prediction(price: real, inputData: Row)

  /**
   * /predict. Missing artifacts are refused first; then the numeric fields are coerced, with a
   * 400 answer naming the first one that does not convert; then the coerced request is
   * predicted on. No field is required: whatever the request lacks is zero-filled.
   */
  method Predict(a: Artifacts, data: Row, p: Parsers) returns (r: Result<Prediction, Error>)
    ensures !PredictionReady(a) ==> r == Failure(ComponentsNotLoaded)
    ensures PredictionReady(a) && !AllConvert(data, NumericFields, p) ==>
      r.Failure? && r == Failure(Coerced(data, NumericFields, p).error)
    ensures forall i ::
      (PredictionReady(a) && FirstFailure(data, NumericFields, p, i) && ToFloat(data[NumericFields[i]], p).ValueError?) ==>
      (r.Failure? && Status(r.error) == 400 && Message(r.error) == Some(InvalidNumericPrefix + NumericFields[i]))
    ensures PredictionReady(a) && AllConvert(data, NumericFields, p) ==>
      var input := ConvertedRow(data, NumericFields, p);
      r == match Inference(a, input)
           case Failure(e) => Failure(e)
           case Success(price) => Success(Prediction(price, input))
  {
    if !PredictionReady(a) {
      return Failure(ComponentsNotLoaded);
    }
    var coerced := CoerceNumericFields(data, p);
    if coerced.Failure? {
      forall i | FirstFailure(data, NumericFields, p, i) && ToFloat(data[NumericFields[i]], p).ValueError?
        ensures Message(coerced.error) == Some(InvalidNumericPrefix + NumericFields[i])
      {
        RejectionMessage(data, NumericFields, p, i);
      }
      return Failure(coerced.error);
    }
    var input := coerced.value;
    forall i | FirstFailure(data, NumericFields, p, i) ensures false {
      CoercedFailsAt(data, NumericFields, p, i);
    }
    var features := PrepareFeatures(input, a.encoders.value, a.featureNames, a.scaler.value);
    if features.Failure? {
      return Failure(features.error);
    }
    var prediction := a.model.value.predict(features.value);
    if prediction.None? {
      return Failure(Unhandled);
    }
    return Success(Prediction(prediction.value, input));
  }

  /** The success answer of /predict/simple, without the rounding to two decimals. */
  datatype SimplePrediction = SimplePrediction(
    price: real,
    pricePerSqft: real,
    area: Value,
    bedrooms: Value,
    bathrooms: Value,
    locationQuality: string)

  /**
   * /predict/simple. Missing artifacts are refused first; then the defaulted record is built
   * and predicted on. An area of zero makes the price per square foot divide by zero, which
   * ends the request as an unhandled error after the prediction.
   */
  method PredictSimple(a: Artifacts, data: Row, p: Parsers) returns (r: Result<SimplePrediction, Error>)
    ensures !PredictionReady(a) ==> r == Failure(ComponentsNotLoaded)
    ensures PredictionReady(a) && SimpleRecord(data, p).Failure? ==> r == Failure(Unhandled)
    ensures PredictionReady(a) && SimpleRecord(data, p).Success? ==>
      var record := SimpleRecord(data, p).value;
      r == match Inference(a, record)
           case Failure(e) => Failure(e)
           case Success(price) =>
             if record["area"].x == 0.0 then Failure(Unhandled)
             else Success(SimplePrediction(price, price / record["area"].x, record["area"],
                                           record["bedrooms"], record["bathrooms"], LocationQuality(record)))
  {
    if !PredictionReady(a) {
      return Failure(ComponentsNotLoaded);
    }
    var merged := SimpleRecord(data, p);
    if merged.Failure? {
      return Failure(Unhandled);
    }
    var record := merged.value;
    var features := PrepareFeatures(record, a.encoders.value, a.featureNames, a.scaler.value);
    if features.Failure? {
      return Failure(features.error);
    }
    var prediction := a.model.value.predict(features.value);
    if prediction.None? {
      return Failure(Unhandled);
    }
    var area := record["area"].x;
    if area == 0.0 {
      return Failure(Unhandled);
    }
    var price := prediction.value;
    return Success(SimplePrediction(price, price / area, record["area"], record["bedrooms"],
                                    record["bathrooms"], LocationQuality(record)));
  }
}
