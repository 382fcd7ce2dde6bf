# Housing price prediction service — request-to-feature model

The service answers price predictions for houses described by twelve attributes: five numeric
ones (area, bedrooms, bathrooms, stories, parking) and seven categorical ones (mainroad,
guestroom, basement, hotwaterheating, airconditioning, prefarea, furnishingstatus). At startup
it loads a fitted regressor, a scaler, one label encoder per categorical column and the ordered
list of feature names. This project models in Dafny what the service does between receiving a
request and calling the scaler and the regressor:

- `Features` — feature alignment (`prepare_features` without the scaler): the label encoders are
  applied to the categorical columns the request carries; an unknown category gets the code 0
  and raises nothing. Every feature the request lacks is filled with 0. The columns are then
  selected in feature-name order. `AlignFeatures` runs the two loops on a column map, as the
  service does on its one-row data frame. It is proved equal, entry by entry, to the column-wise
  reference `FeatureValue`/`AlignedRow`.
- `Coercion` — the numeric-field loop of `/predict`. It rewrites each present numeric field with
  `float()` of its value. It stops at the first field that does not convert: a `ValueError`
  gives a 400 answer "Invalid numeric value for <field>". The recursive reference `Coerced` is
  characterised completely by lemmas: when it succeeds, what it changes, and which field its
  failure names.
- `Simple` — the defaulted record of `/predict/simple` and its location label.
- `Service` — the loaded-artifacts guards, `/info`, `prepare_features` including the scaler
  call, and the request paths of both prediction endpoints. The scaler and the regressor are
  opaque functions that may raise.
- `Values`, `Errors`, `Wrappers` — request values, Python's `float()`/`int()` over abstract
  string parsers, error kinds with their status codes, and Option/Result.

Behaviour of the code that the model keeps, some of it not what a reader might expect:

- `/predict` has a "Validate required fields" comment and a `required_fields` list
  (main.py:141-144), which suggest that validation was intended. Nothing ever reads the list.
  A request missing any field is accepted, and the missing features become 0
  (`AbsentFieldsAccepted`, `AlignedRowEntry`). The model follows the code and adds no
  validation.
- The fallback for an unknown category is the code 0 (main.py:64). The comment above that line
  speaks of the most frequent class, but the code writes 0, and the model follows the code.
- In `/predict`, a numeric field holding JSON null, an array or an object makes `float()` raise
  `TypeError`. That escapes the inner `except ValueError` and is answered 500 by the outer
  handler, not 400.
- In `/predict/simple` every failed `float()`/`int()` is answered 500, never 400. An area of 0
  passes the conversions, and the prediction is made. Then the price per square foot divides
  by zero, and the request ends with a 500.
- The guards test truthiness (`all([model, scaler, encoders])`). An empty encoders mapping
  therefore counts as "not loaded", and so does an empty feature-name list for `/info`. The
  prediction guards do not test the feature names at all. When they are missing,
  `prepare_features` raises and the request is answered 500.

## Model

| member | source | states |
|---|---|---|
| `Features.AlignFeatures` | main.py:56-72 | the encode and fill loops followed by the column selection give exactly one entry per feature name, and entry i is the column-wise value of feature i, whatever subset of fields the request has |
| `Features.AlignedRow` | main.py:66-72 | the prepared row has exactly as many entries as there are feature names |
| `Features.Encode` | main.py:59-64 | a known category gives its code; any other value (transform raises ValueError) gives the default 0; the result is always 0 or one of the encoder's codes, and never an error |
| `Features.AlignedRowEntry` | main.py:57-69 | an absent feature is 0; a present encoded column holds its category's code, or 0 for an unknown category; a present column without an encoder keeps the request's value |
| `Features.ExtraKeysIgnored` | main.py:72 | request keys that are not feature names do not affect the prepared row |
| `Features.ExtraEncodersIgnored` | main.py:57-58 | encoders for columns that are not feature names do not affect the prepared row |
| `Coercion.CoerceNumericFields` | main.py:146-156 | the loop over the five numeric fields succeeds exactly when every present one converts, and then changes only those fields to their numbers; otherwise it fails with the error of the first present field that does not convert |
| `Coercion.Coerced` | main.py:148-156 | the numeric fields converted one after the other, stopping at the first failure: success keeps the request's keys; a 400 failure names a field that is listed and present |
| `Coercion.FieldError` | main.py:150-156 | a ValueError gives InvalidNumeric for that field, answered 400; a TypeError gives an unhandled error, answered 500 |
| `Coercion.RejectionMessage` | main.py:152-156 | when the first failing field holds a malformed string, the answer is 400 with "Invalid numeric value for " followed by that field's name |
| `Coercion.CoercedSucceeds` | main.py:148-151 | when every present field converts, the coercion yields the request with those fields replaced by their numbers and everything else unchanged |
| `Coercion.CoercedFailsAt` | main.py:148-156 | the coercion fails at the first present field that does not convert, naming that field |
| `Coercion.FirstFailureExists` | main.py:148-156 | when some present field does not convert, a first such field exists |
| `Coercion.CoercedOutcome` | main.py:147-156 | success if and only if every present field converts; on failure, the error is that of the first failing field |
| `Coercion.AbsentFieldsAccepted` | main.py:141-149 | a request that lacks the numeric fields passes the coercion unchanged; nothing is required |
| `Values.ToFloat` | main.py:151 | float() of a number is that number; a string converts to what the float parser gives, and gives ValueError when it does not parse; null, an array or an object gives TypeError |
| `Values.ToInt` | main.py:200-209 | int() of a number truncates it toward zero (Trunc), so the result is less than 1 away and an integral number is unchanged; a string converts to what the int parser gives, and gives ValueError when it does not parse; null, an array or an object gives TypeError |
| `Values.Trunc` | main.py:201-209 | int() of a number truncates toward zero: the result lies within 1 of the number, on the side of zero |
| `Errors.Status` | main.py:153-156 | only a malformed numeric field is answered 400; every other failure is answered 500 |
| `Errors.Message` | main.py:128-131 | "Model components not loaded" for missing artifacts (here and at main.py:112 and 189); the text at main.py:155 is "Invalid numeric value for " followed by exactly the field's name; the str(e) text of an unhandled exception (main.py:178) is not modelled |
| `Errors.MessageNamesField` | main.py:155 | the "Invalid numeric value for" message determines the field it names |
| `Simple.SimpleRecord` | main.py:199-212 | the merged record has exactly the twelve listed keys, with numbers for area, bedrooms and bathrooms; any failed conversion is an unhandled error |
| `Simple.SimpleRecordSucceeds` | main.py:199-212 | the record is built exactly when every numeric field the caller gave converts; the defaults always convert |
| `Simple.SimpleRecordFields` | main.py:199-212 | each field is the caller's value, through float() for area and int() for bedrooms, bathrooms, stories and parking, and otherwise its default: area 1000, bedrooms 3, bathrooms 2, stories 1, mainroad "yes", parking 1, prefarea "no", furnishingstatus "unfurnished", "no" for the rest |
| `Simple.EmptyRequestGetsDefaults` | main.py:199-212 | a request with no fields yields exactly the record of the documented defaults |
| `Simple.LocationQuality` | main.py:230 | the label is "Good" if prefarea is "yes", and "Standard" otherwise |
| `Simple.LocationFromRequest` | main.py:210-230 | the label is "Good" exactly when the caller sent prefarea "yes"; an omitted prefarea gives "Standard" |
| `Service.All` | main.py:111 | Python's all(): true exactly when every element of the list is true |
| `Service.PredictionReady` | main.py:127 | all([model, scaler, encoders]), here and at main.py:186, holds exactly when model, scaler and encoders are loaded and the encoders mapping is not empty; feature names are not checked |
| `Service.InfoReady` | main.py:111 | all([model, scaler, encoders, feature_names]) holds exactly when the prediction guard holds and the feature-name list is loaded and not empty |
| `Service.Inference` | main.py:158-162 | prediction on a ready record, as both endpoints do it (also main.py:216-220): it succeeds exactly when the feature names are loaded and the scaler and the regressor both return, and the price is then the regressor's output on the scaled aligned row; otherwise it is an unhandled error |
| `Service.Info` | main.py:108-120 | /info fails with "not loaded" (500) exactly when the model or scaler is missing, or the encoders or feature names are missing or empty; otherwise it reports the feature list, its length and the encoded columns |
| `Service.PrepareFeatures` | main.py:50-81 | the scaler receives the aligned row; a missing feature list or a raising scaler is an unhandled error |
| `Service.Predict` | main.py:122-179 | missing artifacts give "not loaded" (500) before anything else; a non-converting numeric field gives the first field's error; for the first failing field holding a malformed string, the answer is 400 "Invalid numeric value for <field>"; otherwise the coerced request is aligned, scaled and predicted on, and echoed back |
| `Service.PredictSimple` | main.py:181-240 | missing artifacts give "not loaded" (500); otherwise the defaulted record is aligned, scaled and predicted on; an area of 0 fails after the prediction; the summary carries area, bedrooms, bathrooms and the location label |

## Left out

- interface.py, the form UI, is not part of this model: it is page layout, HTTP calls with timeouts, charts and display arithmetic.
- Loading the artifacts from files (main.py:23-48) is file I/O; the artifacts are a parameter, each either present or missing.
- The scaler's transform and the regressor's predict are floating-point numerics in a library; they are opaque functions here, with None standing for an exception.
- Service.Predict: the price is the regressor's output before `round(…, 2)`; rounding of floats is not modelled.
- Service.PredictSimple: the price and the price per square foot are not rounded to two decimals, and the division is exact real division instead of floating point.
- Python's string parsing in `float()` and `int()` is an abstract partial function (`Parsers`); numbers are reals, not 64-bit floats.
- Values.ToFloat: `float()` of a JSON integer too large for a double raises OverflowError, which both endpoints answer with 500; the model converts every number, so this path is not modelled.
- JSON booleans are not modelled (`float(True)` is 1.0). Null, arrays and objects are one value, `Other`.
- Features.Encode: a label encoder is a finite map from category string to code. A value that is not a known category string gets the fallback code 0. The model does not capture a library error other than `ValueError` that `transform` might raise for an unusual cell value.
- The encoders are visited in an arbitrary order (the dictionary's own order is not modelled). The result does not depend on the order.
- Service.Info: the encoded columns are reported as a set, without the dictionary's key order.
- Service.Info: the `model_type` and `scaler_type` fields (main.py:115, 119) are not modelled. They are the class names of the opaque regressor and scaler objects.
- The data frame is a map from column name to value. Column positions before the final selection, and the data types of the columns, are not modelled.
- The text of an unhandled exception's message (`str(e)`) is not modelled; such failures carry only their 500 status.
- Reading the request body (JSON or form), non-object JSON bodies, logging, timestamps, CORS, and the `/`, `/health` and error-handler responses (main.py:83-106, 242-248) are HTTP plumbing with no logic to model.
- The truthiness of the regressor and scaler objects is taken to be their presence.
