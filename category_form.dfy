/** The category form dialog: name, description and an active switch. */
module CategoryForm {
  import opened Wrappers
  import opened Values
  import opened Http
  import opened ApiService
  import opened Forms
  import Text

  const CategoryFields: seq<string> := ["name", "description", "isActive"]

  /** The form's field names are distinct. */
  lemma CategoryFieldsDistinct()
    ensures forall i, j :: 0 <= i < j < |CategoryFields| ==> CategoryFields[i] != CategoryFields[j]
    ensures CategoryFields[0] == "name" && CategoryFields[1] == "description" && CategoryFields[2] == "isActive"
  {
  }

  /** The form as a new category starts it: empty texts, active. */
  const CategoryReset: Record := ObjectOf(CategoryFields, [Str(""), Str(""), Bool(true)])

  /** The form opened on a category: texts copied with `''` for falsy values, the active flag kept unless undefined. */
  function Populated(category: Value): (form: Record)
    ensures Keys(form) == CategoryFields && DistinctKeys(form)
    ensures Lookup(form, "name") == Or(Member(category, "name"), Str(""))
    ensures Lookup(form, "description") == Or(Member(category, "description"), Str(""))
    ensures Member(category, "isActive") == Undefined ==> Lookup(form, "isActive") == Bool(true)
    ensures Member(category, "isActive") != Undefined ==> Lookup(form, "isActive") == Member(category, "isActive")
  {
    var active := Member(category, "isActive");
    var vals := [
      Or(Member(category, "name"), Str("")), Or(Member(category, "description"), Str("")),
      if active != Undefined then active else Bool(true)];
    CategoryFieldsDistinct();
    ObjectOfFields(CategoryFields, vals);
    ObjectOf(CategoryFields, vals)
  }

  /** The messages `validateForm` collects; `None` where it throws because the name is not a string. */
  function CategoryErrors(form: Record): (r: Option<Errors>)
    ensures r.None? <==> !Lookup(form, "name").Str?
    ensures r.Some? ==> r.value.Keys <= {"name"}
    ensures r.Some? ==> ("name" in r.value <==> Text.IsBlank(Lookup(form, "name").s))
  {
    var name := Lookup(form, "name");
    if !name.Str? then None
    else Some(if Text.IsBlank(name.s) then map["name" := "Name is required"] else map[])
  }

  /** `validateForm`'s `newErrors`. */
  method CollectErrors(form: Record) returns (r: Option<Errors>)
    ensures r == CategoryErrors(form)
  {
    var newErrors: Errors := map[];
    var name := Lookup(form, "name");
    if !name.Str? { return None; }
    if Text.IsBlank(name.s) { newErrors := newErrors["name" := "Name is required"]; }
    r := Some(newErrors);
  }

  /** The reset form lacks a name. */
  lemma ResetFormInvalid()
    ensures CategoryErrors(CategoryReset) == Some(map["name" := "Name is required"])
  {
    CategoryFieldsDistinct();
    ObjectOfFields(CategoryFields, [Str(""), Str(""), Bool(true)]);
    Text.EmptyIsBlank();
  }

  class CategoryForm {
    var formData: Record
    var loading: bool
    var errors: Errors

    constructor()
      ensures formData == CategoryReset && !loading && errors == map[]
    {
      formData, loading, errors := CategoryReset, false, map[];
    }

    /** The open effect: populate from the category, or reset; every open clears the errors. */
    method OnOpen(open: bool, category: Value)
      modifies this`formData, this`errors
      ensures open && Truthy(category) ==> formData == Populated(category)
      ensures open && !Truthy(category) ==> formData == CategoryReset
      ensures open ==> errors == map[]
      ensures !open ==> formData == old(formData) && errors == old(errors)
    {
      if open {
        if Truthy(category) {
          formData := Populated(category);
        } else {
          formData := CategoryReset;
        }
        errors := map[];
      }
    }

    /** `validateForm`: records the messages and says whether there were none; `None` where it throws. */
    method ValidateForm() returns (valid: Option<bool>)
      modifies this`errors
      ensures var r := CategoryErrors(old(formData));
              (r.None? ==> valid.None? && errors == old(errors))
              && (r.Some? ==> valid == Some(r.value == map[]) && errors == r.value)
    {
      var newErrors := CollectErrors(formData);
      if newErrors.None? {
        return None;
      }
      errors := newErrors.value;
      valid := Some(|errors| == 0);
      assert (|errors| == 0) == (errors == map[]) by {
        if |errors| == 0 { assert errors.Keys == {}; }
      }
    }

    /** `handleSubmit`: an invalid form makes no call; a valid one updates the category it was opened on, or creates one. */
    method HandleSubmit(category: Value, reply: Reply) returns (call: Option<Call>, done: bool)
      modifies this`errors, this`loading
      ensures CategoryErrors(formData) != Some(map[]) ==> call == None && !done && loading == old(loading)
      ensures CategoryErrors(formData) == Some(map[]) ==>
                call == Some(SaveCall(Categories, category, Obj(formData))) && done == reply.Replied? && !loading
      ensures CategoryErrors(formData).Some? ==> errors == CategoryErrors(formData).value
      ensures CategoryErrors(formData).None? ==> errors == old(errors)
    {
      call, done := None, false;
      var valid := ValidateForm();
      if valid != Some(true) {
        return;
      }
      loading := true;
      call := Some(SaveCall(Categories, category, Obj(formData)));
      done := reply.Replied?;
      loading := false;
    }

    /** `handleChange(field, value)`: sets that field only and clears that field's error only. */
    method HandleChange(field: string, value: Value)
      modifies this`formData, this`errors
      ensures Lookup(formData, field) == value
      ensures forall k :: k != field ==> Lookup(formData, k) == Lookup(old(formData), k)
      ensures errors == ClearError(old(errors), field)
    {
      formData := Put(formData, field, value);
      errors := ClearError(errors, field);
    }
  }
}
