/** The failures a prediction request can end in, and the HTTP status each is answered with. */
module Errors {
  import opened Wrappers

  datatype Error =
    | ComponentsNotLoaded         // a guard found a missing artifact
    | InvalidNumeric(field: string) // float() raised ValueError on a numeric field of /predict
    | Unhandled                   // any other exception, caught by an endpoint's outer handler

  const NotLoadedMessage := "Model components not loaded"
  const InvalidNumericPrefix := "Invalid numeric value for "

  /** The status code the endpoint answers with: only a malformed numeric field is the client's fault. */
  function Status(e: Error): (code: int)
    ensures code == 400 || code == 500
    ensures code == 400 <==> e.InvalidNumeric?
  {
    match e
    case InvalidNumeric(_) => 400
    case _ => 500
  }

  /** The "error" text of the response; for an unhandled exception it is str(e), which is not modelled. */
  function Message(e: Error): (m: Option<string>)
    ensures m.Some? <==> !e.Unhandled?
    ensures e.ComponentsNotLoaded? ==> m == Some(NotLoadedMessage)
    ensures e.InvalidNumeric? ==>
      && |InvalidNumericPrefix| <= |m.value|
      && m.value[..|InvalidNumericPrefix|] == InvalidNumericPrefix
      && m.value[|InvalidNumericPrefix|..] == e.field
  {
    match e
    case ComponentsNotLoaded => Some(NotLoadedMessage)
    case InvalidNumeric(field) => Some(InvalidNumericPrefix + field)
    case Unhandled => None
  }

  /** The message of a rejected numeric field names that field, and only that field. */
  lemma MessageNamesField(f: string, g: string)
    requires Message(InvalidNumeric(f)) == Message(InvalidNumeric(g))
    ensures f == g
  {
  }
}
