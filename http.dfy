/**
 * What the API handlers read out of a JSON request body and send back.
 * A string field of the body is absent, `null` or a string; JavaScript
 * truthiness then treats the empty string like the first two.
 */
module Http {
  import opened Wrappers

  datatype Field = Absent | Null | Str(text: string)

  /** `if (field)`: a present, non-null, non-empty string. */
  predicate Given(f: Field) {
    f.Str? && f.text != ""
  }

  /** `field || null` */
  function OrNull(f: Field): (r: Option<string>)
    ensures r.Some? <==> Given(f)
    ensures r.Some? ==> r.value == f.text
  {
    if Given(f) then Some(f.text) else None
  }

  /** A handler's answer: an HTTP status and the `error` or `message` text of the JSON body. */
  datatype Reply = Reply(status: nat, text: string)

  const Unauthorized := Reply(401, "Unauthorized")
  const InternalError := Reply(500, "Internal server error")
}
