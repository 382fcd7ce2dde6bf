/**
 * Feature alignment: the part of prepare_features that turns a request into the row handed to
 * the scaler. Label encoders are applied to the categorical columns the request carries, every
 * feature the request lacks is zero-filled, and the columns are selected in feature order.
 */
module Features {
  import opened Values

  /** A fitted label encoder: each category it was fitted on, with its integer code. */
  type Encoder = map<string, int>

  /** The encoders by column name. */
  type Encoders = map<string, Encoder>

  /**
   * What an encoder writes into its column: the code of a known category, and the default code
   * 0 for anything else (transform raises ValueError on an unseen label, and that is caught).
   */
  function Encode(enc: Encoder, v: Value): (r: Value)
    ensures r == Num(0.0) || exists c :: c in enc && r == Num(enc[c] as real)
    ensures v.Str? && v.s in enc ==> r == Num(enc[v.s] as real)
    ensures !(v.Str? && v.s in enc) ==> r == Num(0.0)
  {
    if v.Str? && v.s in enc then Num(enc[v.s] as real) else Num(0.0)
  }

  /** Column-wise reference: the value the prepared row holds under feature `name`. */
  function FeatureValue(row: Row, encoders: Encoders, name: string): Value
  {
    if name !in row then Num(0.0)
    else if name in encoders then Encode(encoders[name], row[name])
    else row[name]
  }

  /** The prepared row as a whole: one entry per feature name, in that order. */
  function AlignedRow(row: Row, encoders: Encoders, names: seq<string>): (r: seq<Value>)
    ensures |r| == |names|
  {
    seq(|names|, i requires 0 <= i < |names| => FeatureValue(row, encoders, names[i]))
  }

  /**
   * The encode, fill and select steps as the service runs them, on a frame that is updated
   * column by column.
   */
  method AlignFeatures(row: Row, encoders: Encoders, names: seq<string>) returns (features: seq<Value>)
    ensures |features| == |names|
    ensures forall i :: 0 <= i < |names| ==> features[i] == FeatureValue(row, encoders, names[i])
  {
    var df := row;
    // Apply the label encoders to the categorical columns present in the frame.
    var todo := encoders.Keys;
    while todo != {}
      invariant df.Keys == row.Keys
      invariant forall c :: c in df ==>
        df[c] == if c in encoders && c !in todo then Encode(encoders[c], row[c]) else row[c]
      decreases todo
    {
      var col :| col in todo;
      if col in df {
        df := df[col := Encode(encoders[col], df[col])];
      }
      todo := todo - {col};
    }
    // Add every missing feature with the default value 0.
    for j := 0 to |names|
      invariant forall c :: c in df <==> c in row || c in names[..j]
      invariant forall c :: c in df ==> df[c] == FeatureValue(row, encoders, c)
    {
      if names[j] !in df {
        df := df[names[j] := Num(0.0)];
      }
    }
    // Select the columns in feature order.
    features := seq(|names|, i requires 0 <= i < |names| => df[names[i]]);
  }

  /**
   * Entry by entry: a missing feature is 0; an encoded column holds its category's code, or 0
   * for a category the encoder does not know; any other column keeps the request's value.
   */
  lemma AlignedRowEntry(row: Row, encoders: Encoders, names: seq<string>, i: int)
    requires 0 <= i < |names|
    ensures names[i] !in row ==> AlignedRow(row, encoders, names)[i] == Num(0.0)
    ensures names[i] in row && names[i] in encoders && row[names[i]].Str? && row[names[i]].s in encoders[names[i]]
      ==> AlignedRow(row, encoders, names)[i] == Num(encoders[names[i]][row[names[i]].s] as real)
    ensures names[i] in row && names[i] in encoders && !(row[names[i]].Str? && row[names[i]].s in encoders[names[i]])
      ==> AlignedRow(row, encoders, names)[i] == Num(0.0)
    ensures names[i] in row && names[i] !in encoders ==> AlignedRow(row, encoders, names)[i] == row[names[i]]
  {
  }

  /** Request keys that are not feature names do not reach the prepared row. */
  lemma ExtraKeysIgnored(row: Row, encoders: Encoders, names: seq<string>)
    ensures AlignedRow(row, encoders, names) == AlignedRow(map k | k in row && k in names :: row[k], encoders, names)
  {
  }

  /** Encoders for columns that are not feature names have no effect on the prepared row. */
  lemma ExtraEncodersIgnored(row: Row, encoders: Encoders, names: seq<string>)
    ensures AlignedRow(row, encoders, names) == AlignedRow(row, map c | c in encoders && c in names :: encoders[c], names)
  {
  }
}
