/**
 The fold of the backend's validation messages into the field error map,
 `messages.forEach(m => newErrors[m.field] = m.message)`, shared by the
 collection-point register page and the sign-up page under components/auth.
 */
module ServerErrors {

  datatype FieldMessage = FieldMessage(field: string, message: string)

  /** No message after position `i` and before `k` is about the same field. */
  predicate LastBefore(messages: seq<FieldMessage>, i: int, k: int)
    requires 0 <= i < |messages| && k <= |messages|
  {
    forall j :: i < j < k ==> messages[j].field != messages[i].field
  }

  /** Folds the messages from the first to the last, so a later message for a field overwrites an earlier one. */
  function FoldMessages(messages: seq<FieldMessage>): (errors: map<string, string>)
    ensures errors.Keys == set i | 0 <= i < |messages| :: messages[i].field
    ensures forall i :: 0 <= i < |messages| && LastBefore(messages, i, |messages|) ==> errors[messages[i].field] == messages[i].message
  {
    if messages == [] then map[]
    else
      var init := messages[..|messages| - 1];
      var last := messages[|messages| - 1];
      assert forall i :: 0 <= i < |init| ==> init[i] == messages[i];
      FoldMessages(init)[last.field := last.message]
  }
}
