/**
 * The numeric coercion of the full prediction endpoint: each of the five numeric fields the
 * request carries is replaced by float() of its value, and the first one that does not convert
 * ends the request. Fields the request lacks are not rejected here, nor anywhere else.
 */
module Coercion {
  import opened Wrappers
  import opened Errors
  import opened Values

  const NumericFields: seq<string> := ["area", "bedrooms", "bathrooms", "stories", "parking"]

  /** float() succeeds on `f`, or the request does not carry `f`. */
  predicate Converts(data: Row, f: string, p: Parsers)
  {
    f in data ==> ToFloat(data[f], p).Converted?
  }

  predicate AllConvert(data: Row, fields: seq<string>, p: Parsers)
  {
    forall i :: 0 <= i < |fields| ==> Converts(data, fields[i], p)
  }

  /** fields[i] is the first field that the request carries and that does not convert. */
  predicate FirstFailure(data: Row, fields: seq<string>, p: Parsers, i: int)
  {
    && 0 <= i < |fields|
    && !Converts(data, fields[i], p)
    && forall j :: 0 <= j < i ==> Converts(data, fields[j], p)
  }

  /** The request after a successful coercion: every listed field it carries holds its number. */
  function ConvertedRow(data: Row, fields: seq<string>, p: Parsers): Row
    requires AllConvert(data, fields, p)
  {
    map k | k in data :: if k in fields then Num(ToFloat(data[k], p).value) else data[k]
  }

  /** The error a failed float() of `field` ends the request with. */
  function FieldError(field: string, c: Conv<real>): (e: Error)
    requires !c.Converted?
    ensures Status(e) == 400 <==> c.ValueError?
    ensures c.ValueError? ==> e == InvalidNumeric(field)
    ensures c.TypeError? ==> e == Unhandled
  {
    if c.ValueError? then InvalidNumeric(field) else Unhandled
  }

  /** Reference: the fields converted one after the other, stopping at the first failure. */
  function Coerced(data: Row, fields: seq<string>, p: Parsers): (r: Result<Row, Error>)
    ensures r.Success? ==> r.value.Keys == data.Keys
    ensures r.Failure? ==> r.error.Unhandled? || (r.error.InvalidNumeric? && r.error.field in fields && r.error.field in data)
    decreases |fields|
  {
    if fields == [] then Success(data)
    else if fields[0] !in data then Coerced(data, fields[1..], p)
    else match ToFloat(data[fields[0]], p)
      case Converted(x) => Coerced(data[fields[0] := Num(x)], fields[1..], p)
      case ValueError => Failure(InvalidNumeric(fields[0]))
      case TypeError => Failure(Unhandled)
  }

  /** When every carried field converts, the coercion succeeds with exactly ConvertedRow. */
  lemma {:induction false} CoercedSucceeds(data: Row, fields: seq<string>, p: Parsers)
    requires AllConvert(data, fields, p)
    ensures Coerced(data, fields, p) == Success(ConvertedRow(data, fields, p))
    decreases |fields|
  {
    if fields == [] {
      assert ConvertedRow(data, fields, p) == data;
    } else {
      var f, rest := fields[0], fields[1..];
      assert Converts(data, f, p);
      assert forall j :: 0 <= j < |rest| ==> rest[j] == fields[j + 1];
      if f !in data {
        CoercedSucceeds(data, rest, p);
        assert ConvertedRow(data, rest, p) == ConvertedRow(data, fields, p);
      } else {
        var x := ToFloat(data[f], p).value;
        var d := data[f := Num(x)];
        assert AllConvert(d, rest, p) by {
          forall j | 0 <= j < |rest| ensures Converts(d, rest[j], p) {
            assert Converts(data, fields[j + 1], p);
          }
        }
        CoercedSucceeds(d, rest, p);
        assert ConvertedRow(d, rest, p) == ConvertedRow(data, fields, p);
      }
    }
  }

  /** The coercion fails at the first failing field, with that field's error. */
  lemma {:induction false} CoercedFailsAt(data: Row, fields: seq<string>, p: Parsers, i: int)
    requires FirstFailure(data, fields, p, i)
    ensures Coerced(data, fields, p) == Failure(FieldError(fields[i], ToFloat(data[fields[i]], p)))
    decreases |fields|
  {
    if i > 0 {
      var f, rest := fields[0], fields[1..];
      assert Converts(data, f, p);
      assert fields[i] != f;
      var d := if f in data then data[f := Num(ToFloat(data[f], p).value)] else data;
      assert FirstFailure(d, rest, p, i - 1) by {
        assert rest[i - 1] == fields[i];
        forall j | 0 <= j < i - 1 ensures Converts(d, rest[j], p) {
          assert rest[j] == fields[j + 1] && Converts(data, fields[j + 1], p);
        }
      }
      CoercedFailsAt(d, rest, p, i - 1);
    }
  }

  /** When some carried field does not convert, there is a first one. */
  lemma {:induction false} FirstFailureExists(data: Row, fields: seq<string>, p: Parsers)
    requires !AllConvert(data, fields, p)
    ensures exists i :: FirstFailure(data, fields, p, i)
    decreases |fields|
  {
    if Converts(data, fields[0], p) {
      var rest := fields[1..];
      assert !AllConvert(data, rest, p) by {
        forall j | 0 <= j < |rest| && Converts(data, rest[j], p) ensures Converts(data, fields[j + 1], p) {}
      }
      FirstFailureExists(data, rest, p);
      var i :| FirstFailure(data, rest, p, i);
      assert FirstFailure(data, fields, p, i + 1);
    } else {
      assert FirstFailure(data, fields, p, 0);
    }
  }

  /**
   * Nothing is required: a request that carries none of the fields passes the coercion
   * unchanged, however few fields it has.
   */
  lemma AbsentFieldsAccepted(data: Row, fields: seq<string>, p: Parsers)
    requires forall i :: 0 <= i < |fields| ==> fields[i] !in data
    ensures Coerced(data, fields, p) == Success(data)
  {
    CoercedSucceeds(data, fields, p);
    assert ConvertedRow(data, fields, p) == data;
  }

  /**
   * The coercion as a whole: it succeeds exactly when every carried field converts, and then
   * only those fields change; otherwise it reports the first carried field that does not convert.
   */
  lemma CoercedOutcome(data: Row, fields: seq<string>, p: Parsers)
    ensures Coerced(data, fields, p).Success? <==> AllConvert(data, fields, p)
    ensures AllConvert(data, fields, p) ==> Coerced(data, fields, p).value == ConvertedRow(data, fields, p)
    ensures Coerced(data, fields, p).Failure? ==>
      exists i :: FirstFailure(data, fields, p, i) &&
        Coerced(data, fields, p).error == FieldError(fields[i], ToFloat(data[fields[i]], p))
  {
    if AllConvert(data, fields, p) {
      CoercedSucceeds(data, fields, p);
    } else {
      FirstFailureExists(data, fields, p);
      var i :| FirstFailure(data, fields, p, i);
      CoercedFailsAt(data, fields, p, i);
    }
  }

  /**
   * The answer to a request whose first failing numeric field is a malformed string: status
   * 400 and the text "Invalid numeric value for " followed by that field's name.
   */
  lemma RejectionMessage(data: Row, fields: seq<string>, p: Parsers, i: int)
    requires FirstFailure(data, fields, p, i) && ToFloat(data[fields[i]], p).ValueError?
    ensures Coerced(data, fields, p) == Failure(InvalidNumeric(fields[i]))
    ensures Status(Coerced(data, fields, p).error) == 400
    ensures Message(Coerced(data, fields, p).error) == Some(InvalidNumericPrefix + fields[i])
  {
    CoercedFailsAt(data, fields, p, i);
  }

  /**
   * The numeric-field loop of the full endpoint, rewriting the request in place and returning
   * at the first field that does not convert.
   */
  method CoerceNumericFields(data: Row, p: Parsers) returns (r: Result<Row, Error>)
    ensures r == Coerced(data, NumericFields, p)
    ensures r.Success? <==> AllConvert(data, NumericFields, p)
    ensures r.Success? ==> r.value == ConvertedRow(data, NumericFields, p)
    ensures r.Failure? ==>
      exists i :: FirstFailure(data, NumericFields, p, i) &&
        r.error == FieldError(NumericFields[i], ToFloat(data[NumericFields[i]], p))
  {
    CoercedOutcome(data, NumericFields, p);
    var d := data;
    for i := 0 to |NumericFields|
      invariant Coerced(d, NumericFields[i..], p) == Coerced(data, NumericFields, p)
    {
      var field := NumericFields[i];
      assert NumericFields[i..][1..] == NumericFields[i + 1..];
      if field in d {
        match ToFloat(d[field], p)
        case Converted(x) =>
          d := d[field := Num(x)];
        case ValueError =>
          return Failure(InvalidNumeric(field));
        case TypeError =>
          return Failure(Unhandled);
      }
    }
    return Success(d);
  }
}
