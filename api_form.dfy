/** The API endpoint form dialog: name, description, URL, HTTP method and an active switch. */
module ApiForm {
  import opened Wrappers
  import opened Values
  import opened Http
  import opened ApiService
  import opened Forms
  import Text

  /** The methods the method select offers. */
  const HttpMethods: seq<string> := ["GET", "POST", "PUT", "DELETE", "PATCH", "OPTIONS", "HEAD"]

  const ApiFields: seq<string> := ["name", "description", "url", "method", "isActive"]

  /** The form's field names are distinct. */
  lemma ApiFieldsDistinct()
    ensures forall i, j :: 0 <= i < j < |ApiFields| ==> ApiFields[i] != ApiFields[j]
    ensures ApiFields[0] == "name" && ApiFields[1] == "description" && ApiFields[2] == "url"
    ensures ApiFields[3] == "method" && ApiFields[4] == "isActive"
  {
  }

  /** The form as a new endpoint starts it: empty texts, method GET, active. */
  const ApiReset: Record := ObjectOf(ApiFields, [Str(""), Str(""), Str(""), Str("GET"), Bool(true)])

  /** `api.isActive !== undefined ? api.isActive : true` */
  function ActiveOrDefault(v: Value): (r: Value)
    ensures v == Undefined ==> r == Bool(true)
    ensures v != Undefined ==> r == v
  {
    if v != Undefined then v else Bool(true)
  }

  /**
   * The form opened on an endpoint: texts copied with `''` for falsy values, the
   * method with `'GET'`, and the active flag kept unless it is undefined.
   */
  function Populated(api: Value): (form: Record)
    ensures Keys(form) == ApiFields && DistinctKeys(form)
    ensures Lookup(form, "name") == Or(Member(api, "name"), Str(""))
    ensures Lookup(form, "description") == Or(Member(api, "description"), Str(""))
    ensures Lookup(form, "url") == Or(Member(api, "url"), Str(""))
    ensures Lookup(form, "method") == Or(Member(api, "method"), Str("GET"))
    ensures Lookup(form, "isActive") == ActiveOrDefault(Member(api, "isActive"))
  {
    var vals := [
      Or(Member(api, "name"), Str("")), Or(Member(api, "description"), Str("")), Or(Member(api, "url"), Str("")),
      Or(Member(api, "method"), Str("GET")), ActiveOrDefault(Member(api, "isActive"))];
    ApiFieldsDistinct();
    ObjectOfFields(ApiFields, vals);
    ObjectOf(ApiFields, vals)
  }

  /** A new form, and a form opened on an endpoint without a method, both start on a method the select offers. */
  lemma DefaultMethodListed(api: Value)
    ensures Lookup(ApiReset, "method") == Str("GET") && "GET" in HttpMethods
    ensures !Truthy(Member(api, "method")) ==> Lookup(Populated(api), "method") == Str(HttpMethods[0])
    ensures |HttpMethods| == 7
  {
    ResetFields();
  }

  /** The messages `validateForm` collects; `None` where it throws because name or URL is not a string. */
  function ApiErrors(form: Record): (r: Option<Errors>)
    ensures r.None? <==> !(Lookup(form, "name").Str? && Lookup(form, "url").Str?)
    ensures r.Some? ==> forall k :: k in r.value ==> k in {"name", "url", "method"} && r.value[k] != ""
    ensures r.Some? ==> ("name" in r.value <==> Text.IsBlank(Lookup(form, "name").s))
    ensures r.Some? ==> ("url" in r.value <==> Text.IsBlank(Lookup(form, "url").s))
    ensures r.Some? ==> ("method" in r.value <==> !Truthy(Lookup(form, "method")))
  {
    var name, url, verb := Lookup(form, "name"), Lookup(form, "url"), Lookup(form, "method");
    if !(name.Str? && url.Str?) then None
    else
      var e1: Errors := if Text.IsBlank(name.s) then map["name" := "Name is required"] else map[];
      var e2 := if Text.IsBlank(url.s) then e1["url" := "URL is required"] else e1;
      Some(if !Truthy(verb) then e2["method" := "HTTP method is required"] else e2)
  }

  /** `validateForm`'s `newErrors`, filled check by check. */
  method CollectErrors(form: Record) returns (r: Option<Errors>)
    ensures r == ApiErrors(form)
  {
    var newErrors: Errors := map[];
    var name := Lookup(form, "name");
    if !name.Str? { return None; }
    if Text.IsBlank(name.s) { newErrors := newErrors["name" := "Name is required"]; }
    var url := Lookup(form, "url");
    if !url.Str? { return None; }
    if Text.IsBlank(url.s) { newErrors := newErrors["url" := "URL is required"]; }
    if !Truthy(Lookup(form, "method")) { newErrors := newErrors["method" := "HTTP method is required"]; }
    r := Some(newErrors);
  }

  /** The reset form field by field. */
  lemma ResetFields()
    ensures Keys(ApiReset) == ApiFields
    ensures Lookup(ApiReset, "name") == Str("") && Lookup(ApiReset, "description") == Str("") && Lookup(ApiReset, "url") == Str("")
    ensures Lookup(ApiReset, "method") == Str("GET") && Lookup(ApiReset, "isActive") == Bool(true)
  {
    ApiFieldsDistinct();
    ObjectOfFields(ApiFields, [Str(""), Str(""), Str(""), Str("GET"), Bool(true)]);
  }

  /** The reset form lacks a name and a URL; its default method needs no message. */
  lemma ResetFormInvalid()
    ensures ApiErrors(ApiReset) == Some(map["name" := "Name is required", "url" := "URL is required"])
  {
    ResetFields();
    Text.EmptyIsBlank();
  }

  class ApiForm {
    var formData: Record
    var loading: bool
    var errors: Errors

    constructor()
      ensures formData == ApiReset && !loading && errors == map[]
    {
      formData, loading, errors := ApiReset, false, map[];
    }

    /** The open effect: populate from the endpoint, or reset; every open clears the errors. */
    method OnOpen(open: bool, api: Value)
      modifies this`formData, this`errors
      ensures open && Truthy(api) ==> formData == Populated(api)
      ensures open && !Truthy(api) ==> formData == ApiReset
      ensures open ==> errors == map[]
      ensures !open ==> formData == old(formData) && errors == old(errors)
    {
      if open {
        if Truthy(api) {
          formData := Populated(api);
        } else {
          formData := ApiReset;
        }
        errors := map[];
      }
    }

    /** `validateForm`: records the messages and says whether there were none; `None` where it throws. */
    method ValidateForm() returns (valid: Option<bool>)
      modifies this`errors
      ensures var r := ApiErrors(old(formData));
              (r.None? ==> valid.None? && errors == old(errors))
              && (r.Some? ==> valid == Some(r.value == map[]) && errors == r.value)
    {
      var newErrors := CollectErrors(formData);
      if newErrors.None? {
        return None;
      }
      errors := newErrors.value;
      valid := Some(|errors| == 0);
      assert (|errors| == 0) == (errors == map[]) by {
        if |errors| == 0 { assert errors.Keys == {}; }
      }
    }

    /** `handleSubmit`: an invalid form makes no call; a valid one sends the form data as it is. */
    method HandleSubmit(api: Value, reply: Reply) returns (call: Option<Call>, done: bool)
      modifies this`errors, this`loading
      ensures ApiErrors(formData) != Some(map[]) ==> call == None && !done && loading == old(loading)
      ensures ApiErrors(formData) == Some(map[]) ==>
                call == Some(SaveCall(Apis, api, Obj(formData))) && done == reply.Replied? && !loading
      ensures ApiErrors(formData).Some? ==> errors == ApiErrors(formData).value
      ensures ApiErrors(formData).None? ==> errors == old(errors)
    {
      call, done := None, false;
      var valid := ValidateForm();
      if valid != Some(true) {
        return;
      }
      loading := true;
      call := Some(SaveCall(Apis, api, Obj(formData)));
      done := reply.Replied?;
      loading := false;
    }

    /** `handleChange(field, value)`: sets that field only and clears that field's error only. */
    method HandleChange(field: string, value: Value)
      modifies this`formData, this`errors
      ensures Lookup(formData, field) == value
      ensures forall k :: k != field ==> Lookup(formData, k) == Lookup(old(formData), k)
      ensures errors == ClearError(old(errors), field)
    {
      formData := Put(formData, field, value);
      errors := ClearError(errors, field);
    }
  }
}
