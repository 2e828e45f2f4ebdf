/** What the three record forms share: their error maps, the per-field edit and the save call. */
module Forms {
  import opened Values
  import opened ApiService

  /** The `errors` state of a form: a message per field; an emptied message stays as `''`. */
  type Errors = map<string, string>

  /** `errors[field]` is truthy: the field shows an error. */
  predicate Shows(errors: Errors, field: string) {
    field in errors && errors[field] != ""
  }

  /** `if (errors[field]) setErrors(prev => ({ ...prev, [field]: '' }))` */
  function ClearError(errors: Errors, field: string): (r: Errors)
    ensures !Shows(r, field)
    ensures forall k :: k != field ==> (k in r <==> k in errors) && (k in r ==> r[k] == errors[k])
    ensures Shows(errors, field) ==> r == errors[field := ""]
    ensures !Shows(errors, field) ==> r == errors
  {
    if Shows(errors, field) then errors[field := ""] else errors
  }

  /** An edit touches only its own field's error. */
  lemma ClearErrorKeepsOthers(errors: Errors, field: string, other: string)
    requires other != field
    ensures Shows(ClearError(errors, field), other) <==> Shows(errors, other)
  {
  }

  /** A form submits to update when it was opened on a record, otherwise to create. */
  function SaveCall(res: Resource, record: Value, payload: Value): (c: Call)
    ensures Truthy(record) ==> c == Update(res, Member(record, "id"), payload)
    ensures !Truthy(record) ==> c == Create(res, payload)
  {
    if Truthy(record) then Update(res, Member(record, "id"), payload) else Create(res, payload)
  }
}
