/**
 * The dashboard page: four record lists shown one tab at a time, a search over
 * the active tab, a generic create dialog and per-row delete. A call the page
 * makes is a handler's result; the backend's reply to it is a parameter.
 */
module Dashboard {
  import opened Wrappers
  import opened Values
  import opened Seqs
  import opened Http
  import Text
  import opened ApiService

  /** The four lists the page holds. */
  datatype Lists = Lists(users: seq<Value>, books: seq<Value>, categories: seq<Value>, apis: seq<Value>)

  // ---------------------------------------------------------------------------
  // Tabs

  /** The record type of `getTabData()` for a tab index. */
  function TabType(tab: int): (kind: string)
    ensures kind == "" <==> !(0 <= tab < 4)
  {
    if tab == 0 then "user"
    else if tab == 1 then "book"
    else if tab == 2 then "category"
    else if tab == 3 then "api"
    else ""
  }

  /** The list of `getTabData()` for a tab index. */
  function TabData(tab: int, lists: Lists): (data: seq<Value>)
    ensures !(0 <= tab < 4) ==> data == []
  {
    if tab == 0 then lists.users
    else if tab == 1 then lists.books
    else if tab == 2 then lists.categories
    else if tab == 3 then lists.apis
    else []
  }

  /** The list a handler's `type` switch updates; `None` for a type no branch names. */
  function ListOfType(lists: Lists, kind: string): (list: Option<seq<Value>>)
    ensures list.Some? <==> kind == "user" || kind == "book" || kind == "category" || kind == "api"
  {
    if kind == "user" then Some(lists.users)
    else if kind == "book" then Some(lists.books)
    else if kind == "category" then Some(lists.categories)
    else if kind == "api" then Some(lists.apis)
    else None
  }

  /** The tab table and the handlers' type switches agree: each tab's type names the list that tab shows. */
  lemma TabTypeNamesTabData(tab: int, lists: Lists)
    ensures 0 <= tab < 4 ==> ListOfType(lists, TabType(tab)) == Some(TabData(tab, lists))
    ensures !(0 <= tab < 4) ==> TabType(tab) == "" && TabData(tab, lists) == [] && ListOfType(lists, TabType(tab)) == None
  {
  }

  /** Replace the list a type names, leaving the other three as they are. */
  function WithList(lists: Lists, kind: string, list: seq<Value>): (r: Lists)
    ensures ListOfType(lists, kind).Some? ==> ListOfType(r, kind) == Some(list)
    ensures forall k :: k != kind ==> ListOfType(r, k) == ListOfType(lists, k)
  {
    if kind == "user" then lists.(users := list)
    else if kind == "book" then lists.(books := list)
    else if kind == "category" then lists.(categories := list)
    else if kind == "api" then lists.(apis := list)
    else lists
  }

  /** `list.filter(item => item.id !== id)` */
  function RemoveById(list: seq<Value>, id: Value): (r: seq<Value>)
    ensures forall x :: x in r <==> x in list && Member(x, "id") != id
    ensures |r| <= |list|
    ensures (forall i :: 0 <= i < |list| ==> Member(list[i], "id") != id) ==> r == list
  {
    if list == [] then []
    else if Member(list[0], "id") == id then RemoveById(list[1..], id)
    else [list[0]] + RemoveById(list[1..], id)
  }

  /** The records that survive a delete keep their order. */
  lemma {:induction false} RemoveByIdKeepsOrder(list: seq<Value>, id: Value)
    ensures IsSubsequence(RemoveById(list, id), list)
  {
    if list != [] {
      RemoveByIdKeepsOrder(list[1..], id);
      var r := RemoveById(list, id);
      if Member(list[0], "id") != id {
        assert r[1..] == RemoveById(list[1..], id);
      } else if r != [] {
        SkipHead(r, list);
      }
    }
  }

  // ---------------------------------------------------------------------------
  // Create and delete

  /** The call `handleDelete(id, type)` makes. */
  function DeleteCall(kind: string, id: Value): (c: Option<Call>)
    ensures c.Some? <==> ListOfType(Lists([], [], [], []), kind).Some?
    ensures c.Some? ==> c.value.Delete? && c.value.id == id
    ensures kind == "user" ==> c.value.res == Users
    ensures kind == "book" ==> c.value.res == Books
    ensures kind == "category" ==> c.value.res == Categories
    ensures kind == "api" ==> c.value.res == Apis
  {
    if kind == "book" then Some(Delete(Books, id))
    else if kind == "category" then Some(Delete(Categories, id))
    else if kind == "api" then Some(Delete(Apis, id))
    else if kind == "user" then Some(Delete(Users, id))
    else None
  }

  /** The lists after a successful delete: only the list of that type loses the records with that id. */
  function AfterDelete(lists: Lists, kind: string, id: Value): (r: Lists)
    ensures ListOfType(lists, kind).Some? ==> ListOfType(r, kind) == Some(RemoveById(ListOfType(lists, kind).value, id))
    ensures forall k :: k != kind ==> ListOfType(r, k) == ListOfType(lists, k)
    ensures ListOfType(lists, kind).None? ==> r == lists
  {
    match ListOfType(lists, kind)
    case Some(list) => WithList(lists, kind, RemoveById(list, id))
    case None => lists
  }

  /** The book payload of `handleSubmit`: a truthy `categoryId` becomes a `category` reference. */
  function BookPayload(formData: Record): (payload: Record)
    ensures Truthy(Lookup(formData, "categoryId")) ==>
              Lookup(payload, "category") == Obj([Field("id", Lookup(formData, "categoryId"))])
              && "categoryId" !in Keys(payload)
              && forall k :: k != "category" && k != "categoryId" ==> Lookup(payload, k) == Lookup(formData, k)
    ensures !Truthy(Lookup(formData, "categoryId")) ==> payload == formData
    ensures DistinctKeys(formData) ==> DistinctKeys(payload)
  {
    var categoryId := Lookup(formData, "categoryId");
    if Truthy(categoryId) then Remove(Put(formData, "category", Obj([Field("id", categoryId)])), "categoryId")
    else formData
  }

  /** The call `handleSubmit` makes for the active type; none for `api` and for the empty type. */
  function CreateCall(kind: string, formData: Record): (c: Option<Call>)
    ensures c.Some? <==> kind == "user" || kind == "book" || kind == "category"
    ensures kind == "book" ==> c == Some(Create(Books, Obj(BookPayload(formData))))
    ensures kind == "user" || kind == "category" ==> c.value.Create? && c.value.body == Obj(formData)
    ensures kind == "user" ==> c.value.res == Users
    ensures kind == "category" ==> c.value.res == Categories
  {
    if kind == "user" then Some(Create(Users, Obj(formData)))
    else if kind == "book" then Some(Create(Books, Obj(BookPayload(formData))))
    else if kind == "category" then Some(Create(Categories, Obj(formData)))
    else None
  }

  /** The lists after a successful create: the answer is appended to the end of the list of that type only. */
  function AfterCreate(lists: Lists, kind: string, created: Value): (r: Lists)
    ensures CreateCall(kind, []).Some? ==> ListOfType(r, kind) == Some(ListOfType(lists, kind).value + [created])
    ensures forall k :: k != kind ==> ListOfType(r, k) == ListOfType(lists, k)
    ensures CreateCall(kind, []).None? ==> r == lists
  {
    if kind == "user" || kind == "book" || kind == "category" then
      WithList(lists, kind, ListOfType(lists, kind).value + [created])
    else lists
  }

  // ---------------------------------------------------------------------------
  // The create dialog's form

  /** One property of a model structure: a field's type, whether it is required, and its label. */
  datatype Descriptor = Descriptor(fieldType: string, required: bool, labelText: string)
  datatype Entry = Entry(key: string, descriptor: Descriptor)

  /** The field names of a structure, in declaration order. */
  function EntryKeys(structure: seq<Entry>): seq<string> {
    seq(|structure|, i requires 0 <= i < |structure| => structure[i].key)
  }

  /** A model structure is an object: no field is named twice. */
  predicate StructureKeysDistinct(structure: seq<Entry>) {
    forall i, j :: 0 <= i < j < |structure| ==> structure[i].key != structure[j].key
  }

  /** `getModelStructure(type)`: the fixed structures of the create dialog (select options left out). */
  function ModelStructure(kind: string): (s: seq<Entry>)
    ensures StructureKeysDistinct(s)
  {
    if kind == "user" then
      [Entry("username", Descriptor("string", true, "Username")),
       Entry("email", Descriptor("email", true, "Email")),
       Entry("password", Descriptor("password", true, "Password")),
       Entry("role", Descriptor("select", false, "Role")),
       Entry("isActive", Descriptor("boolean", false, "Active"))]
    else if kind == "book" then
      [Entry("title", Descriptor("string", true, "Title")),
       Entry("author", Descriptor("string", true, "Author")),
       Entry("isbn", Descriptor("string", false, "ISBN")),
       Entry("description", Descriptor("textarea", false, "Description")),
       Entry("categoryId", Descriptor("select", false, "Category")),
       Entry("published", Descriptor("boolean", false, "Published"))]
    else if kind == "category" then
      [Entry("name", Descriptor("string", true, "Name")),
       Entry("description", Descriptor("textarea", false, "Description")),
       Entry("isActive", Descriptor("boolean", false, "Active"))]
    else []
  }

  /** The value an empty form holds for a field of the given type. */
  function InitialValue(fieldType: string): Value {
    if fieldType == "boolean" then Bool(false) else Str("")
  }

  /** The keys of an empty form built over the first `i` fields of a structure: those fields' keys, in order. */
  ghost predicate PrefixKeys(empty: Record, structure: seq<Entry>, i: int)
    requires 0 <= i <= |structure|
  {
    |empty| == i && DistinctKeys(empty) && forall j :: 0 <= j < i ==> Keys(empty)[j] == structure[j].key
  }

  /** The values of an empty form built over the first `i` fields: each field's initial value. */
  ghost predicate PrefixValues(empty: Record, structure: seq<Entry>, i: int)
    requires 0 <= i <= |structure|
  {
    forall j :: 0 <= j < i ==> Lookup(empty, structure[j].key) == InitialValue(structure[j].descriptor.fieldType)
  }

  /** The next field of a distinct-keyed structure is a new key, appended after the others. */
  lemma PrefixKeysStep(empty: Record, structure: seq<Entry>, i: int, v: Value)
    requires StructureKeysDistinct(structure) && 0 <= i < |structure|
    requires PrefixKeys(empty, structure, i)
    ensures structure[i].key !in Keys(empty)
    ensures PrefixKeys(Put(empty, structure[i].key, v), structure, i + 1)
  {
    var key := structure[i].key;
    forall j | 0 <= j < i ensures Keys(empty)[j] != key {
      assert Keys(empty)[j] == structure[j].key;
    }
    assert Keys(Put(empty, key, v)) == Keys(empty) + [key];
  }

  /** Setting a new key to its initial value keeps the earlier fields' values. */
  lemma PrefixValuesStep(empty: Record, structure: seq<Entry>, i: int)
    requires StructureKeysDistinct(structure) && 0 <= i < |structure|
    requires PrefixValues(empty, structure, i)
    ensures PrefixValues(Put(empty, structure[i].key, InitialValue(structure[i].descriptor.fieldType)), structure, i + 1)
  {
    var key := structure[i].key;
    var next := Put(empty, key, InitialValue(structure[i].descriptor.fieldType));
    forall j | 0 <= j < i
      ensures Lookup(next, structure[j].key) == InitialValue(structure[j].descriptor.fieldType)
    {
      assert structure[j].key != key;
    }
  }

  /**
   * `generateEmptyForm(structure)`: one property per field of the structure, in
   * its order, holding `false` for a boolean field and `''` for any other.
   */
  method GenerateEmptyForm(structure: seq<Entry>) returns (empty: Record)
    requires StructureKeysDistinct(structure)
    ensures Keys(empty) == EntryKeys(structure)
    ensures DistinctKeys(empty)
    ensures forall i :: 0 <= i < |structure| ==>
              Lookup(empty, structure[i].key) == InitialValue(structure[i].descriptor.fieldType)
  {
    empty := [];
    var i := 0;
    while i < |structure|
      invariant 0 <= i <= |structure|
      invariant PrefixKeys(empty, structure, i) && PrefixValues(empty, structure, i)
    {
      var key := structure[i].key;
      var field := structure[i].descriptor;
      var initial: Value;
      if field.fieldType == "boolean" {
        initial := Bool(false);
      } else if field.fieldType == "select" {
        initial := Str("");
      } else {
        initial := Str("");
      }
      assert initial == InitialValue(field.fieldType);
      PrefixKeysStep(empty, structure, i, initial);
      PrefixValuesStep(empty, structure, i);
      empty := Put(empty, key, initial);
      i := i + 1;
    }
    assert Keys(empty) == EntryKeys(structure);
  }

  // ---------------------------------------------------------------------------
  // Search

  /** The call `handleSearch` makes for a search mode, record type and non-blank query. */
  function SearchCall(mode: string, kind: string, query: string): (c: Option<Call>)
    ensures c.Some? <==> ((mode == "basic" || mode == "advanced") && (kind == "book" || kind == "category"))
                         || (mode == "query" && (kind == "book" || kind == "category" || kind == "api"))
    ensures c.Some? ==> RouteOf(c.value).verb == GET && RouteOf(c.value).body == None
    ensures (mode == "basic" || mode == "advanced") && kind == "book" ==> RouteOf(c.value).path == "/books/search"
    ensures (mode == "basic" || mode == "advanced") && kind == "category" ==> RouteOf(c.value).path == "/categories/search"
    ensures mode == "query" && kind == "book" ==> RouteOf(c.value).path == "/books/search/query"
    ensures mode == "query" && kind == "category" ==> RouteOf(c.value).path == "/categories/search/query"
    ensures mode == "query" && kind == "api" ==> c == Some(GetApisByMethod(Str(Text.Upper(query))))
  {
    if mode == "basic" then
      (if kind == "book" then Some(SearchBooks([Field("title", Str(query))]))
       else if kind == "category" then Some(SearchCategories([Field("name", Str(query))]))
       else None)
    else if mode == "advanced" then
      (if kind == "book" then Some(SearchBooks([Field("title", Str(query)), Field("author", Str(query))]))
       else if kind == "category" then Some(SearchCategories([Field("name", Str(query))]))
       else None)
    else if mode == "query" then
      (if kind == "book" then Some(SearchBooksByQuery(Str(query)))
       else if kind == "category" then Some(SearchCategoriesByQuery(Str(query)))
       else if kind == "api" then Some(GetApisByMethod(Str(Text.Upper(query))))
       else None)
    else None
  }

  /** Every search request carries the query: as `title` (and `author`), `name`, `q`, or upper-cased in the path. */
  lemma SearchCarriesQuery(mode: string, kind: string, query: string)
    requires SearchCall(mode, kind, query).Some?
    ensures var c := SearchCall(mode, kind, query).value;
            (c.SearchBooks? ==> Lookup(c.params, "title") == Str(query)
                                && (mode == "advanced" <==> Lookup(c.params, "author") == Str(query)))
            && (c.SearchCategories? ==> Lookup(c.params, "name") == Str(query))
            && (c.SearchBooksByQuery? || c.SearchCategoriesByQuery? ==> Lookup(RouteOf(c).params, "q") == Str(query))
            && (c.GetApisByMethod? ==> RouteOf(c).path == "/apis/method/" + Text.Upper(query))
  {
  }

  /** `searchResults.data || []`, for a backend whose list endpoints answer with an array. */
  function ListData(data: Value): (list: seq<Value>)
    ensures data.Arr? ==> list == data.items
    ensures !Truthy(data) ==> list == []
  {
    if data.Arr? then data.items else []
  }

  /** `v.length`, for the values that have one. */
  function Length(v: Value): Value {
    match v
    case Arr(items) => Num(|items|)
    case Str(s) => Num(|s|)
    case Obj(fs) => Lookup(fs, "length")
    case _ => Undefined
  }

  /** `searchResults.data && searchResults.data.length === 0` */
  predicate NoResultsNotice(data: Value)
    ensures NoResultsNotice(data) && data.Arr? ==> data.items == []
  {
    Truthy(data) && Length(data) == Num(0)
  }

  /** An array answer raises the "no results" notice exactly when it is empty. */
  lemma NoticeIffEmptyArray(items: seq<Value>)
    ensures NoResultsNotice(Arr(items)) <==> items == []
  {
  }

  // ---------------------------------------------------------------------------
  // Table rendering

  /** The columns `renderTable` never shows. */
  predicate Hidden(column: string) {
    column == "id" || column == "password" || column == "accessToken"
  }

  /** `keys.filter(col => !['id', 'password', 'accessToken'].includes(col))` */
  function VisibleColumns(keys: seq<string>): (cols: seq<string>)
    ensures forall c :: c in cols <==> c in keys && !Hidden(c)
  {
    if keys == [] then []
    else if Hidden(keys[0]) then VisibleColumns(keys[1..])
    else [keys[0]] + VisibleColumns(keys[1..])
  }

  lemma {:induction false} VisibleColumnsKeepOrder(keys: seq<string>)
    ensures IsSubsequence(VisibleColumns(keys), keys)
  {
    if keys != [] {
      VisibleColumnsKeepOrder(keys[1..]);
      var cols := VisibleColumns(keys);
      if !Hidden(keys[0]) {
        assert cols[1..] == VisibleColumns(keys[1..]);
      } else if cols != [] {
        SkipHead(cols, keys);
      }
    }
  }

  /**
   * `Object.keys(data[0] || {})` minus the hidden columns, for records that are
   * objects as the backend sends them. Two edges of `Object.keys` are not modelled:
   * a first record that is a string or an array (index keys), and integer-like keys,
   * which JavaScript lists first in ascending order; here keys keep insertion order.
   */
  function Columns(first: Value): (cols: seq<string>)
    ensures first.Obj? ==> forall c :: c in cols <==> c in Keys(first.fields) && !Hidden(c)
    ensures !first.Obj? ==> cols == []
  {
    if first.Obj? then VisibleColumns(Keys(first.fields)) else []
  }

  /** What a table cell shows: text, or the value React renders as a child. */
  datatype Cell = Text(text: string) | Child(node: Value)

  /**
   * The cell of `renderTable` for one record and column: a truthy category shows
   * its name, a boolean Yes or No, and anything else its `toString()` text, or N/A
   * when that is missing or empty (an empty array, or one of only null entries).
   */
  function RenderCell(item: Value, column: string): (cell: Cell)
    ensures var v := Member(item, column);
            (column == "category" && Truthy(v) ==> cell == Child(Member(v, "name")))
            && (!(column == "category" && Truthy(v)) ==>
                  (v.Bool? ==> cell == Text(if v.b then "Yes" else "No"))
                  && (Nullish(v) || v == Str("") ==> cell == Text("N/A"))
                  && (v.Num? ==> cell == Text(Decimal(v.n)))
                  && (v.Str? && v.s != "" ==> cell == Text(v.s))
                  && (v.Arr? && Join(v.items) == "" ==> cell == Text("N/A"))
                  && (v.Arr? && Join(v.items) != "" ==> cell == Text(Join(v.items)))
                  && (v.Obj? ==> cell == Text("[object Object]")))
  {
    var v := Member(item, column);
    if column == "category" && Truthy(v) then Child(Member(v, "name"))
    else if v.Bool? then Text(if v.b then "Yes" else "No")
    else if Nullish(v) then Text("N/A")
    else if JsString(v) == "" then Text("N/A")
    else Text(JsString(v))
  }

  /** `renderTable(data, type)`: a "none found" panel, or a header and one row of cells per record. */
  datatype TableView = NoneFound(kind: string) | Table(columns: seq<string>, rows: seq<seq<Cell>>)

  function RenderTable(data: seq<Value>, kind: string): (view: TableView)
    ensures data == [] <==> view == NoneFound(kind)
    ensures data != [] ==> view.Table? && view.columns == Columns(data[0]) && |view.rows| == |data|
    ensures view.Table? ==> forall i, j :: 0 <= i < |data| && 0 <= j < |view.columns| ==>
              |view.rows[i]| == |view.columns| && view.rows[i][j] == RenderCell(data[i], view.columns[j])
  {
    if data == [] then NoneFound(kind)
    else
      var columns := Columns(data[0]);
      Table(columns, seq(|data|, i requires 0 <= i < |data| => seq(|columns|, j requires 0 <= j < |columns| => RenderCell(data[i], columns[j]))))
  }

  /** No column of the table is one of the hidden ones, and the shown ones keep the record's key order. */
  lemma TableHidesSecrets(data: seq<Value>, kind: string)
    requires data != [] && data[0].Obj?
    ensures forall c :: c in RenderTable(data, kind).columns <==> c in Keys(data[0].fields) && !Hidden(c)
    ensures IsSubsequence(RenderTable(data, kind).columns, Keys(data[0].fields))
  {
    VisibleColumnsKeepOrder(Keys(data[0].fields));
  }

  // ---------------------------------------------------------------------------
  // The page

  class Dashboard {
    var activeTab: int
    var users: seq<Value>
    var books: seq<Value>
    var categories: seq<Value>
    var apis: seq<Value>
    var searchQuery: string
    var searchType: string
    var filteredData: seq<Value>
    var openCreateDialog: bool
    var createType: string
    var modelStructure: seq<Entry>
    var formData: Record

    function AllLists(): Lists
      reads this
    {
      Lists(users, books, categories, apis)
    }

    /** `getDisplayData()`: the search results while a non-blank query is set, otherwise the active tab's list. */
    function DisplayData(): (shown: seq<Value>)
      reads this
      ensures Text.IsBlank(searchQuery) ==> shown == TabData(activeTab, AllLists())
      ensures !Text.IsBlank(searchQuery) ==> shown == filteredData
    {
      if !Text.IsBlank(searchQuery) then filteredData else TabData(activeTab, AllLists())
    }

    /** The page once its lists have loaded: first tab, basic search, no dialog. */
    constructor(loaded: Lists)
      ensures AllLists() == loaded && activeTab == 0
      ensures searchQuery == "" && searchType == "basic" && filteredData == []
      ensures !openCreateDialog && createType == "" && modelStructure == [] && formData == []
    {
      activeTab := 0;
      users, books, categories, apis := loaded.users, loaded.books, loaded.categories, loaded.apis;
      searchQuery, searchType, filteredData := "", "basic", [];
      openCreateDialog, createType, modelStructure, formData := false, "", [], [];
    }

    /** `handleTabChange` */
    method HandleTabChange(newValue: int)
      modifies this`activeTab
      ensures activeTab == newValue
    {
      activeTab := newValue;
    }

    /** `handleCreateClick`: opens the dialog with an empty form for the active type's structure. */
    method HandleCreateClick()
      modifies this`createType, this`modelStructure, this`formData, this`openCreateDialog
      ensures createType == TabType(activeTab) && modelStructure == ModelStructure(createType)
      ensures Keys(formData) == EntryKeys(modelStructure) && DistinctKeys(formData) && openCreateDialog
      ensures forall i :: 0 <= i < |modelStructure| ==>
                Lookup(formData, modelStructure[i].key) == InitialValue(modelStructure[i].descriptor.fieldType)
    {
      createType := TabType(activeTab);
      modelStructure := ModelStructure(createType);
      formData := GenerateEmptyForm(modelStructure);
      openCreateDialog := true;
    }

    /** `handleFormChange(field, value)` */
    method HandleFormChange(field: string, value: Value)
      modifies this`formData
      ensures Lookup(formData, field) == value
      ensures forall k :: k != field ==> Lookup(formData, k) == Lookup(old(formData), k)
    {
      formData := Put(formData, field, value);
    }

    /**
     * `handleSubmit`: create a record of the active type from the form. On success
     * the answer is appended to that type's list and the dialog closes with an
     * empty form; on failure nothing changes. The `api` type makes no call and
     * closes the dialog all the same.
     */
    method HandleSubmit(reply: Reply) returns (call: Option<Call>)
      modifies this`users, this`books, this`categories, this`openCreateDialog, this`formData
      ensures call == CreateCall(TabType(activeTab), old(formData))
      ensures call.Some? && reply.Failed? ==>
                AllLists() == old(AllLists()) && openCreateDialog == old(openCreateDialog) && formData == old(formData)
      ensures call.None? ==> AllLists() == old(AllLists()) && !openCreateDialog && formData == []
      ensures call.Some? && reply.Replied? ==>
                AllLists() == AfterCreate(old(AllLists()), TabType(activeTab), reply.data) && !openCreateDialog && formData == []
    {
      var kind := TabType(activeTab);
      call := CreateCall(kind, formData);
      if call.Some? && reply.Failed? {
        return;
      }
      if call.Some? {
        if kind == "user" {
          users := users + [reply.data];
        } else if kind == "book" {
          books := books + [reply.data];
        } else {
          categories := categories + [reply.data];
        }
      }
      openCreateDialog := false;
      formData := [];
    }

    /** `handleDelete(id, type)`: the list changes only after the backend confirmed the delete. */
    method HandleDelete(id: Value, kind: string, reply: Reply) returns (call: Option<Call>)
      modifies this`users, this`books, this`categories, this`apis
      ensures call == DeleteCall(kind, id)
      ensures call.Some? && reply.Replied? ==> AllLists() == AfterDelete(old(AllLists()), kind, id)
      ensures call.None? || reply.Failed? ==> AllLists() == old(AllLists())
    {
      call := DeleteCall(kind, id);
      if call.None? || reply.Failed? {
        return;
      }
      if kind == "book" {
        books := RemoveById(books, id);
      } else if kind == "category" {
        categories := RemoveById(categories, id);
      } else if kind == "api" {
        apis := RemoveById(apis, id);
      } else {
        users := RemoveById(users, id);
      }
    }

    /**
     * `handleSearch(query)`: a blank query clears the results without a call; otherwise
     * the mode and the active type choose the call, whose answer becomes the results.
     * The second result says whether the "no results" notice is shown.
     */
    method HandleSearch(query: string, reply: Reply) returns (call: Option<Call>, notice: bool)
      modifies this`searchQuery, this`filteredData
      ensures searchQuery == query
      ensures Text.IsBlank(query) ==> call == None
      ensures !Text.IsBlank(query) ==> call == SearchCall(searchType, TabType(activeTab), query)
      ensures call.None? || reply.Failed? ==> filteredData == [] && !notice
      ensures call.Some? && reply.Replied? ==> filteredData == ListData(reply.data) && notice == NoResultsNotice(reply.data)
    {
      searchQuery := query;
      call, notice := None, false;
      if Text.IsBlank(query) {
        filteredData := [];
        return;
      }
      call := SearchCall(searchType, TabType(activeTab), query);
      if call.None? || reply.Failed? {
        filteredData := [];
      } else {
        filteredData := ListData(reply.data);
        notice := NoResultsNotice(reply.data);
      }
    }

    /** `handleSearchTypeChange(newType)`: a new mode drops the query and its results, so the full list shows again. */
    method HandleSearchTypeChange(newType: string)
      modifies this`searchType, this`searchQuery, this`filteredData
      ensures searchType == newType && searchQuery == "" && filteredData == []
      ensures DisplayData() == TabData(activeTab, AllLists())
    {
      searchType := newType;
      searchQuery := "";
      filteredData := [];
      assert Text.TrimStart(searchQuery) == [];
    }
  }
}
