/**
 * The simplified prediction endpoint's request record: twelve fields, each the caller's value
 * when present and a documented default otherwise, the five numeric ones passed through float()
 * or int(). Any failed conversion raises and ends the request as an unhandled error.
 */
module Simple {
  import opened Wrappers
  import opened Errors
  import opened Values

  /** The fields of the record. */
  const SimpleFields: set<string> := {
    "area", "bedrooms", "bathrooms", "stories", "mainroad", "guestroom", "basement",
    "hotwaterheating", "airconditioning", "parking", "prefarea", "furnishingstatus"}

  /** The record literal, once its five numeric fields are converted. */
  function Record(area: real, bedrooms: int, bathrooms: int, stories: int, mainroad: Value,
                  guestroom: Value, basement: Value, hotwaterheating: Value, airconditioning: Value,
                  parking: int, prefarea: Value, furnishingstatus: Value): (r: Row)
    ensures r.Keys == SimpleFields
    ensures r["area"] == Num(area) && r["bedrooms"] == Num(bedrooms as real)
    ensures r["bathrooms"] == Num(bathrooms as real) && r["stories"] == Num(stories as real)
    ensures r["mainroad"] == mainroad && r["guestroom"] == guestroom && r["basement"] == basement
    ensures r["hotwaterheating"] == hotwaterheating && r["airconditioning"] == airconditioning
    ensures r["parking"] == Num(parking as real) && r["prefarea"] == prefarea
    ensures r["furnishingstatus"] == furnishingstatus
  {
    map[
      "area" := Num(area),
      "bedrooms" := Num(bedrooms as real),
      "bathrooms" := Num(bathrooms as real),
      "stories" := Num(stories as real),
      "mainroad" := mainroad,
      "guestroom" := guestroom,
      "basement" := basement,
      "hotwaterheating" := hotwaterheating,
      "airconditioning" := airconditioning,
      "parking" := Num(parking as real),
      "prefarea" := prefarea,
      "furnishingstatus" := furnishingstatus
    ]
  }

  /** The merged record, or the exception one of its conversions raises. */
  function SimpleRecord(data: Row, p: Parsers): (r: Result<Row, Error>)
    ensures r.Failure? ==> r.error == Unhandled
    ensures r.Success? ==> r.value.Keys == SimpleFields
    ensures r.Success? ==> r.value["area"].Num? && r.value["bedrooms"].Num? && r.value["bathrooms"].Num?
  {
    var area := ToFloat(Get(data, "area", Num(1000.0)), p);
    var bedrooms := ToInt(Get(data, "bedrooms", Num(3.0)), p);
    var bathrooms := ToInt(Get(data, "bathrooms", Num(2.0)), p);
    var stories := ToInt(Get(data, "stories", Num(1.0)), p);
    var parking := ToInt(Get(data, "parking", Num(1.0)), p);
    if area.Converted? && bedrooms.Converted? && bathrooms.Converted? && stories.Converted? && parking.Converted?
    then
      Success(Record(
        area.value,
        bedrooms.value,
        bathrooms.value,
        stories.value,
        Get(data, "mainroad", Str("yes")),
        Get(data, "guestroom", Str("no")),
        Get(data, "basement", Str("no")),
        Get(data, "hotwaterheating", Str("no")),
        Get(data, "airconditioning", Str("no")),
        parking.value,
        Get(data, "prefarea", Str("no")),
        Get(data, "furnishingstatus", Str("unfurnished"))))
    else
      Failure(Unhandled)
  }

  /** float() or int() of a present numeric field succeeds. */
  predicate NumericGiven(data: Row, key: string, p: Parsers, isFloat: bool)
  {
    key in data ==> if isFloat then ToFloat(data[key], p).Converted? else ToInt(data[key], p).Converted?
  }

  /**
   * The record is built exactly when every numeric field the caller gave converts: the
   * defaults always do.
   */
  lemma SimpleRecordSucceeds(data: Row, p: Parsers)
    ensures SimpleRecord(data, p).Success? <==>
      && NumericGiven(data, "area", p, true)
      && NumericGiven(data, "bedrooms", p, false)
      && NumericGiven(data, "bathrooms", p, false)
      && NumericGiven(data, "stories", p, false)
      && NumericGiven(data, "parking", p, false)
  {
  }

  /**
   * Field by field: a field the caller gave is kept, through float() or int() for a numeric
   * one; a field the caller left out gets its documented default.
   */
  lemma SimpleRecordFields(data: Row, p: Parsers)
    requires SimpleRecord(data, p).Success?
    ensures var r := SimpleRecord(data, p).value;
      && r["area"] == (if "area" in data then Num(ToFloat(data["area"], p).value) else Num(1000.0))
      && r["bedrooms"] == (if "bedrooms" in data then Num(ToInt(data["bedrooms"], p).value as real) else Num(3.0))
      && r["bathrooms"] == (if "bathrooms" in data then Num(ToInt(data["bathrooms"], p).value as real) else Num(2.0))
      && r["stories"] == (if "stories" in data then Num(ToInt(data["stories"], p).value as real) else Num(1.0))
      && r["parking"] == (if "parking" in data then Num(ToInt(data["parking"], p).value as real) else Num(1.0))
      && r["mainroad"] == (if "mainroad" in data then data["mainroad"] else Str("yes"))
      && r["guestroom"] == (if "guestroom" in data then data["guestroom"] else Str("no"))
      && r["basement"] == (if "basement" in data then data["basement"] else Str("no"))
      && r["hotwaterheating"] == (if "hotwaterheating" in data then data["hotwaterheating"] else Str("no"))
      && r["airconditioning"] == (if "airconditioning" in data then data["airconditioning"] else Str("no"))
      && r["prefarea"] == (if "prefarea" in data then data["prefarea"] else Str("no"))
      && r["furnishingstatus"] == (if "furnishingstatus" in data then data["furnishingstatus"] else Str("unfurnished"))
  {
  }

  /** A request with no fields gets exactly the documented defaults. */
  lemma EmptyRequestGetsDefaults(p: Parsers)
    ensures SimpleRecord(map[], p) == Success(map[
      "area" := Num(1000.0), "bedrooms" := Num(3.0), "bathrooms" := Num(2.0), "stories" := Num(1.0),
      "mainroad" := Str("yes"), "guestroom" := Str("no"), "basement" := Str("no"),
      "hotwaterheating" := Str("no"), "airconditioning" := Str("no"), "parking" := Num(1.0),
      "prefarea" := Str("no"), "furnishingstatus" := Str("unfurnished")])
  {
    assert Trunc(3.0) == 3 && Trunc(2.0) == 2 && Trunc(1.0) == 1;
    assert SimpleRecord(map[], p) == Success(Record(1000.0, 3, 2, 1, Str("yes"), Str("no"), Str("no"),
      Str("no"), Str("no"), 1, Str("no"), Str("unfurnished")));
  }

  /** The location label of the response summary. */
  function LocationQuality(record: Row): (q: string)
    requires "prefarea" in record
    ensures q == "Good" || q == "Standard"
    ensures q == "Good" <==> record["prefarea"] == Str("yes")
  {
    if record["prefarea"] == Str("yes") then "Good" else "Standard"
  }

  /** The label is "Good" exactly when the caller sent prefarea "yes"; an omitted prefarea means "no". */
  lemma LocationFromRequest(data: Row, p: Parsers)
    requires SimpleRecord(data, p).Success?
    ensures "prefarea" in SimpleRecord(data, p).value
    ensures LocationQuality(SimpleRecord(data, p).value) == "Good" <==>
      "prefarea" in data && data["prefarea"] == Str("yes")
  {
  }
}
