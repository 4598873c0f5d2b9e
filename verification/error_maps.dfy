/**
 The field-error maps (`Record<string, string>`) that the sign-up forms build,
 one optional message per field, with `if (...) newErrors.key = message`.
 The sign-up pages take each message from a rule function returning an
 optional message, so their maps are built with `Record`; the register pages
 test each field in place, and their models write the same update inline.
 */
module ErrorMaps {
  import opened Wrappers

  /** Records the field's message, if it has one. */
  function Record(errors: map<string, string>, key: string, e: Option<string>): (r: map<string, string>)
    ensures e.Some? ==> r == errors[key := e.value]
    ensures e.None? ==> r == errors
  {
    match e
    case Some(m) => errors[key := m]
    case None => errors
  }
}
