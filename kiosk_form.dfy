/**
 * Reading and validating the embark/disembark kiosk form
 * (src/app/login/actions.ts, EmbarkAction, lines 349-376).
 */
module KioskForm {
  import opened Wrappers

  /** The three form fields the action reads; None is a field the form did not send. */
  datatype Form = Form(code: Option<string>, ship: Option<string>, status: Option<string>)

  /** A form that passed the schema: the staff code, the tri-state desired status and the ship id. */
  datatype Request = Request(code: string, desired: Option<bool>, ship: Option<string>)

  /** The schema demands a code of exactly this many characters. */
  const CodeLength := 6

  const InvalidPrefix := "Invalid data: "
  const ValidationFallback := "Validation failed."
  /** The custom message of the code's length rule. */
  const CodeFormatMessage := "Invalid code format."
  /** The schema library's own message when the code field is missing (it is then null). */
  const CodeMissingMessage := "Invalid input: expected string, received null"
  /** The custom message of the ship's minimum-length rule. */
  const ShipEmptyMessage := "Ship ID cannot be empty if provided."

  /** The `status` field: "true" and "false" become booleans, anything else (or nothing) null. */
  function ParseStatus(field: Option<string>): (r: Option<bool>)
    ensures r == Some(true) <==> field == Some("true")
    ensures r == Some(false) <==> field == Some("false")
    ensures r.None? <==> field != Some("true") && field != Some("false")
  {
    if field == Some("true") then Some(true)
    else if field == Some("false") then Some(false)
    else None
  }

  /** Messages the schema reports for the code field. */
  function CodeIssues(code: Option<string>): seq<string>
  {
    match code
    case None => [CodeMissingMessage]
    case Some(c) => if |c| == CodeLength then [] else [CodeFormatMessage]
  }

  /** Messages the schema reports for the ship field: null passes, the empty string does not. */
  function ShipIssues(ship: Option<string>): seq<string>
  {
    if ship == Some("") then [ShipEmptyMessage] else []
  }

  /** The messages joined with a separator between consecutive ones. */
  function Join(parts: seq<string>, sep: string): (r: string)
    ensures parts == [] ==> r == ""
    ensures |parts| == 1 ==> r == parts[0]
    ensures |parts| == 2 ==> r == parts[0] + sep + parts[1]
  {
    if parts == [] then ""
    else if |parts| == 1 then parts[0]
    else parts[0] + sep + Join(parts[1..], sep)
  }

  /**
   * The schema check: on failure the field messages (code first, then ship) joined with
   * spaces after "Invalid data: "; on success the parsed request.
   */
  function Validate(form: Form): (r: Result<Request, string>)
    ensures r.Ok? <==> form.code.Some? && |form.code.value| == CodeLength && form.ship != Some("")
    ensures r.Ok? ==> r.value.code == form.code.value && r.value.ship == form.ship
                      && r.value.desired == ParseStatus(form.status)
    ensures r.Err? ==> |InvalidPrefix| <= |r.error| && r.error[..|InvalidPrefix|] == InvalidPrefix
    ensures form.code.Some? && |form.code.value| != CodeLength && form.ship != Some("")
            ==> r == Err(InvalidPrefix + CodeFormatMessage)
    ensures form.code.None? && form.ship != Some("") ==> r == Err(InvalidPrefix + CodeMissingMessage)
    ensures form.code.Some? && |form.code.value| == CodeLength && form.ship == Some("")
            ==> r == Err(InvalidPrefix + ShipEmptyMessage)
    ensures form.code.Some? && |form.code.value| != CodeLength && form.ship == Some("")
            ==> r == Err(InvalidPrefix + (CodeFormatMessage + " " + ShipEmptyMessage))
    ensures form.code.None? && form.ship == Some("")
            ==> r == Err(InvalidPrefix + (CodeMissingMessage + " " + ShipEmptyMessage))
  {
    var issues := CodeIssues(form.code) + ShipIssues(form.ship);
    if issues == [] then
      Ok(Request(form.code.value, ParseStatus(form.status), form.ship))
    else
      var joined := Join(issues, " ");
      Err(InvalidPrefix + (if joined == "" then ValidationFallback else joined))
  }
}
