/**
 * The book form dialog: opened on a book to edit it, or empty to create one;
 * validates title, author, ISBN and price before it saves.
 */
module BookForm {
  import opened Wrappers
  import opened Values
  import opened Http
  import opened ApiService
  import opened Forms
  import Text

  /** The fields of the form, in the order the form declares them. */
  const BookFields: seq<string> := ["title", "author", "isbn", "description", "price", "categoryId"]

  /** The form's field names are distinct. */
  lemma BookFieldsDistinct()
    ensures forall i, j :: 0 <= i < j < |BookFields| ==> BookFields[i] != BookFields[j]
    ensures BookFields[0] == "title" && BookFields[1] == "author" && BookFields[2] == "isbn"
    ensures BookFields[3] == "description" && BookFields[4] == "price" && BookFields[5] == "categoryId"
  {
  }

  /** The form as a new book starts it: every field empty. */
  const BookReset: Record := ObjectOf(BookFields, [Str(""), Str(""), Str(""), Str(""), Str(""), Str("")])

  /** The form opened on a book: each field copied from the book, `''` when the book's value is falsy. */
  function Populated(book: Value): (form: Record)
    ensures Keys(form) == BookFields && DistinctKeys(form)
    ensures Lookup(form, "title") == Or(Member(book, "title"), Str(""))
    ensures Lookup(form, "author") == Or(Member(book, "author"), Str(""))
    ensures Lookup(form, "isbn") == Or(Member(book, "isbn"), Str(""))
    ensures Lookup(form, "description") == Or(Member(book, "description"), Str(""))
    ensures Lookup(form, "price") == Or(Member(book, "price"), Str(""))
    ensures Lookup(form, "categoryId") == Or(OptionalMember(Member(book, "category"), "id"), Str(""))
  {
    var vals := [
      Or(Member(book, "title"), Str("")), Or(Member(book, "author"), Str("")), Or(Member(book, "isbn"), Str("")),
      Or(Member(book, "description"), Str("")), Or(Member(book, "price"), Str("")),
      Or(OptionalMember(Member(book, "category"), "id"), Str(""))];
    BookFieldsDistinct();
    ObjectOfFields(BookFields, vals);
    ObjectOf(BookFields, vals)
  }

  /** Every populated field holds a truthy value of the book, or `''`: a price of 0 shows as empty. */
  lemma PopulatedTruthyOrEmpty(book: Value, field: string)
    requires field in BookFields
    ensures var v := Lookup(Populated(book), field); Truthy(v) || v == Str("")
    ensures Member(book, "price") == Num(0) ==> Lookup(Populated(book), "price") == Str("")
  {
    var form := Populated(book);
    var i :| 0 <= i < |BookFields| && BookFields[i] == field;
    BookFieldsDistinct();
    if i == 0 { assert field == "title"; }
    else if i == 1 { assert field == "author"; }
    else if i == 2 { assert field == "isbn"; }
    else if i == 3 { assert field == "description"; }
    else if i == 4 { assert field == "price"; }
    else { assert field == "categoryId"; }
  }

  /** The messages `validateForm` collects once title, author and ISBN are known to be strings. */
  function BookMessages(title: string, author: string, isbn: string, price: Value, isNaN: Value -> bool): Errors {
    var e1: Errors := if Text.IsBlank(title) then map["title" := "Title is required"] else map[];
    var e2 := if Text.IsBlank(author) then e1["author" := "Author is required"] else e1;
    var e3 := if Text.IsBlank(isbn) then e2["isbn" := "ISBN is required"] else e2;
    if Truthy(price) && isNaN(price) then e3["price" := "Price must be a number"] else e3
  }

  /**
   * What each check contributes: title, author and ISBN are required (not blank
   * after trimming), a non-empty price must be a number, and nothing else is reported.
   */
  lemma BookMessagesSpec(title: string, author: string, isbn: string, price: Value, isNaN: Value -> bool)
    ensures var e := BookMessages(title, author, isbn, price, isNaN);
            && (forall k :: k in e ==> k in {"title", "author", "isbn", "price"} && e[k] != "")
            && ("title" in e <==> Text.IsBlank(title))
            && ("author" in e <==> Text.IsBlank(author))
            && ("isbn" in e <==> Text.IsBlank(isbn))
            && ("price" in e <==> Truthy(price) && isNaN(price))
  {
  }

  /**
   * The messages `validateForm` collects; `None` where it throws because title,
   * author or ISBN is not a string.
   */
  function BookErrors(form: Record, isNaN: Value -> bool): (r: Option<Errors>)
    ensures r.None? <==> !(Lookup(form, "title").Str? && Lookup(form, "author").Str? && Lookup(form, "isbn").Str?)
  {
    var title, author, isbn := Lookup(form, "title"), Lookup(form, "author"), Lookup(form, "isbn");
    if !(title.Str? && author.Str? && isbn.Str?) then None
    else Some(BookMessages(title.s, author.s, isbn.s, Lookup(form, "price"), isNaN))
  }

  /** `validateForm`'s `newErrors`, filled check by check. */
  method CollectErrors(form: Record, isNaN: Value -> bool) returns (r: Option<Errors>)
    ensures r == BookErrors(form, isNaN)
  {
    var newErrors: Errors := map[];
    var title := Lookup(form, "title");
    if !title.Str? { return None; }
    if Text.IsBlank(title.s) { newErrors := newErrors["title" := "Title is required"]; }
    var author := Lookup(form, "author");
    if !author.Str? { return None; }
    if Text.IsBlank(author.s) { newErrors := newErrors["author" := "Author is required"]; }
    var isbn := Lookup(form, "isbn");
    if !isbn.Str? { return None; }
    if Text.IsBlank(isbn.s) { newErrors := newErrors["isbn" := "ISBN is required"]; }
    var price := Lookup(form, "price");
    if Truthy(price) && isNaN(price) { newErrors := newErrors["price" := "Price must be a number"]; }
    r := Some(newErrors);
  }

  /** The reset form holds `''` in every field. */
  lemma ResetFields()
    ensures Keys(BookReset) == BookFields
    ensures forall i :: 0 <= i < |BookFields| ==> Lookup(BookReset, BookFields[i]) == Str("")
  {
    BookFieldsDistinct();
    ObjectOfFields(BookFields, [Str(""), Str(""), Str(""), Str(""), Str(""), Str("")]);
  }

  /** A form reset for a new book cannot be saved: title, author and ISBN are all missing, the price is not. */
  lemma ResetFormInvalid(isNaN: Value -> bool)
    ensures BookErrors(BookReset, isNaN) == Some(map["title" := "Title is required", "author" := "Author is required", "isbn" := "ISBN is required"])
  {
    ResetFields();
    BookFieldsDistinct();
    Text.EmptyIsBlank();
  }

  /**
   * `bookData`: the form with `price` a parsed number or null, and `category`
   * a reference `{id}` or null; `categoryId` and every other field stay as they are.
   */
  function BookData(form: Record, numerics: Numerics): (payload: Record)
    ensures Lookup(payload, "price") == if Truthy(Lookup(form, "price")) then numerics.parseFloat(Lookup(form, "price")) else Null
    ensures Lookup(payload, "category") == if Truthy(Lookup(form, "categoryId")) then Obj([Field("id", numerics.parseInt(Lookup(form, "categoryId")))]) else Null
    ensures forall k :: k != "price" && k != "category" ==> Lookup(payload, k) == Lookup(form, k)
    ensures DistinctKeys(form) ==> DistinctKeys(payload)
  {
    var price := Lookup(form, "price");
    var categoryId := Lookup(form, "categoryId");
    Put(Put(form, "price", if Truthy(price) then numerics.parseFloat(price) else Null),
        "category", if Truthy(categoryId) then Obj([Field("id", numerics.parseInt(categoryId))]) else Null)
  }

  class BookForm {
    var formData: Record
    var categories: Value
    var loading: bool
    var errors: Errors

    constructor()
      ensures formData == BookReset && categories == Arr([]) && !loading && errors == map[]
    {
      formData, categories, loading, errors := BookReset, Arr([]), false, map[];
    }

    /** The open effect: populate from the book, or reset; every open clears the errors. */
    method OnOpen(open: bool, book: Value)
      modifies this`formData, this`errors
      ensures open && Truthy(book) ==> formData == Populated(book)
      ensures open && !Truthy(book) ==> formData == BookReset
      ensures open ==> errors == map[]
      ensures !open ==> formData == old(formData) && errors == old(errors)
    {
      if open {
        if Truthy(book) {
          formData := Populated(book);
        } else {
          formData := BookReset;
        }
        errors := map[];
      }
    }

    /** `fetchCategories`, once its request settled: the options of the category select. */
    method OnCategoriesFetched(reply: Reply)
      modifies this`categories
      ensures reply.Replied? ==> categories == reply.data
      ensures reply.Failed? ==> categories == old(categories)
    {
      if reply.Replied? {
        categories := reply.data;
      }
    }

    /** `validateForm`: records the messages and says whether there were none; `None` where it throws. */
    method ValidateForm(isNaN: Value -> bool) returns (valid: Option<bool>)
      modifies this`errors
      ensures var r := BookErrors(old(formData), isNaN);
              (r.None? ==> valid.None? && errors == old(errors))
              && (r.Some? ==> valid == Some(r.value == map[]) && errors == r.value)
    {
      var newErrors := CollectErrors(formData, isNaN);
      if newErrors.None? {
        return None;
      }
      errors := newErrors.value;
      valid := Some(|errors| == 0);
      assert (|errors| == 0) == (errors == map[]) by {
        if |errors| == 0 { assert errors.Keys == {}; }
      }
    }

    /**
     * `handleSubmit`: an invalid form makes no call; a valid one updates the book it
     * was opened on, or creates one. The second result says whether `onSuccess` and
     * `onClose` ran, which happens only once the call succeeded.
     */
    method HandleSubmit(book: Value, numerics: Numerics, reply: Reply) returns (call: Option<Call>, done: bool)
      modifies this`errors, this`loading
      ensures BookErrors(formData, numerics.isNaN) != Some(map[]) ==> call == None && !done && loading == old(loading)
      ensures BookErrors(formData, numerics.isNaN) == Some(map[]) ==>
                call == Some(SaveCall(Books, book, Obj(BookData(formData, numerics)))) && done == reply.Replied? && !loading
      ensures BookErrors(formData, numerics.isNaN).Some? ==> errors == BookErrors(formData, numerics.isNaN).value
      ensures BookErrors(formData, numerics.isNaN).None? ==> errors == old(errors)
    {
      call, done := None, false;
      ghost var spec := BookErrors(formData, numerics.isNaN);
      var valid := ValidateForm(numerics.isNaN);
      assert valid == Some(true) <==> spec == Some(map[]);
      if valid != Some(true) {
        return;
      }
      loading := true;
      call := Some(SaveCall(Books, book, Obj(BookData(formData, numerics))));
      done := reply.Replied?;
      loading := false;
    }

    /** `handleChange(field, value)`: sets that field only and clears that field's error only. */
    method HandleChange(field: string, value: Value)
      modifies this`formData, this`errors
      ensures Lookup(formData, field) == value
      ensures forall k :: k != field ==> Lookup(formData, k) == Lookup(old(formData), k)
      ensures errors == ClearError(old(errors), field)
    {
      formData := Put(formData, field, value);
      errors := ClearError(errors, field);
    }
  }
}
