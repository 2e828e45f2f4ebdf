# Smart-MockData in Dafny

Smart-MockData is a small full-stack application. A React frontend manages four kinds of records: users, books, categories and API endpoints. It talks to a Spring Boot REST backend through an axios client.

This project models the logic that sits between the screens and the database:

- **Search bar.** The search bar keeps a history of committed queries (`SearchBar`).
- **Dashboard.** The dashboard keeps four record lists and a search state (`Dashboard`). Its handlers cover:
  - tab selection;
  - the generic create dialog;
  - delete;
  - the three search modes;
  - the table renderer's column and cell rules.
- **Forms.** Each of the three record forms (`BookForm`, `ApiForm`, `CategoryForm`) has the same parts:
  - populate-or-reset on open;
  - a required-field validator;
  - create-or-update submission;
  - per-field error clearing.

  The parts they share are in `Forms`.
- **Services.** The authentication service holds one stored session (`Auth`). The API client (`ApiService`) has:
  - a bearer-token request interceptor;
  - a response interceptor that signs the user out on 401;
  - the table of calls, each with its verb and path.
- **Backend.** The three REST controllers (`BookController`, `CategoryController`, `ApiEndpointController`) work over JPA tables (`Store.Table`). The three repositories' query methods are filters over a table's rows (`BookRepository`, `CategoryRepository`, `ApiEndpointRepository`).
- **Seeder.** The start-up seeder (`DataInitializer`) fills each empty table with sample rows.

Support modules:

- `Values` models JavaScript values: truthiness, `||`, property order, `String(v)`, and the JSON round trip of local storage.
- `Text` covers `trim`, ASCII case folding, substring tests and the JPQL `LIKE` matcher.
- `Http` describes how a request settles.
- `Entities` holds the backend's entity records.

The frontend is stateful, so its components are classes whose handlers change fields. A backend reply is a parameter of the handler that awaits it. A call a handler makes is one of its results. The backend stores are `Store.Table` objects that the controller methods change. The repository queries are functions that return the selected sub-map of a table.

A few things the proofs bring out:

- The dashboard's "advanced" book search sends the query as both title and author. The book controller lets a non-empty title win, so an advanced search returns exactly what a basic search returns (`EndToEnd.AdvancedBookSearchIsBasic`).
- A form reset for a new book or endpoint can never be submitted as it stands (`BookForm.ResetFormInvalid`, `ApiForm.ResetFormInvalid`).
- Seeding twice is the same as seeding once, including when a duplicate category name makes the book lookup fail (`DataInitializer.SeedIdempotent`).

## Model

| member | source | states |
|---|---|---|
| SearchBar.Without | src/components/SearchBar.jsx:24 | the filter keeps exactly the entries other than the query; it removes one entry from a duplicate-free history that holds the query, and none otherwise |
| SearchBar.Pushed | src/components/SearchBar.jsx:24 | the new history holds only the query and entries of the old history |
| SearchBar.PushedShape | src/components/SearchBar.jsx:24 | after a commit, the query heads the history and the history holds between 1 and 5 entries |
| SearchBar.PushedNoDuplicates | src/components/SearchBar.jsx:20-24 | a commit keeps a duplicate-free history duplicate-free (exact string comparison) |
| SearchBar.WithoutIsSubsequence | src/components/SearchBar.jsx:24 | the filtered history is a subsequence of the old one |
| SearchBar.WithoutNoDuplicates | src/components/SearchBar.jsx:24 | filtering preserves the absence of duplicates |
| SearchBar.PushedKeepsOrder | src/components/SearchBar.jsx:24 | the entries after the head are old entries in their old relative order |
| SearchBar.PushedNewWithRoom | src/components/SearchBar.jsx:24 | a new query pushed onto a history of fewer than 5 entries goes in front of every old entry, none dropped |
| SearchBar.PushedDropsOldest | src/components/SearchBar.jsx:24 | a new query arriving at a full history of 5 drops exactly the oldest entry |
| SearchBar.PushedExistingMovesToFront | src/components/SearchBar.jsx:24 | re-committing a remembered query moves it to the front and loses no entry |
| SearchBar.SearchBar.constructor | src/components/SearchBar.jsx:19-20 | the bar starts with empty text and an empty history |
| SearchBar.SearchBar.HandleInput | src/components/SearchBar.jsx:75 | typing sets the text |
| SearchBar.SearchBar.HandleSearch | src/components/SearchBar.jsx:22-28 | a query that is blank after trim changes nothing and is not reported; any other query is reported raw (untrimmed) and pushed onto the history; the history stays bounded and duplicate-free |
| SearchBar.SearchBar.HandleClear | src/components/SearchBar.jsx:30-33 | clear empties the text and reports '', leaving the history alone |
| SearchBar.SearchBar.HandleKeyPress | src/components/SearchBar.jsx:35-39 | Enter behaves exactly like the search button; any other key does nothing |
| SearchBar.SearchBar.HandleHistoryClick | src/components/SearchBar.jsx:41-44 | a history click sets and reports that entry without reordering the history |
| Dashboard.TabTypeNamesTabData | src/pages/Dashboard.jsx:116-129 | tabs 0-3 show users, books, categories and apis, and the type of each names the list it shows; any other index gives no data and type '' |
| Dashboard.TabType | src/pages/Dashboard.jsx:116-129 | the tab's record type, '' exactly for a tab other than 0-3 |
| Dashboard.TabData | src/pages/Dashboard.jsx:116-129 | the tab's list, and no data for a tab other than 0-3 |
| Dashboard.ListOfType | src/pages/Dashboard.jsx:251-270 | a list exists exactly for the types user, book, category and api |
| Dashboard.WithList | src/pages/Dashboard.jsx:204-216 | replacing the list of one type leaves the other three lists as they were |
| Dashboard.RemoveById | src/pages/Dashboard.jsx:254-266 | the filter keeps exactly the records whose id differs; with no match the list is unchanged |
| Dashboard.RemoveByIdKeepsOrder | src/pages/Dashboard.jsx:254 | the records that survive a delete keep their order |
| Dashboard.DeleteCall | src/pages/Dashboard.jsx:251-270 | a delete call goes out exactly for the four known types, carries the given id, and addresses that type's resource: users, books, categories or apis |
| Dashboard.AfterDelete | src/pages/Dashboard.jsx:251-270 | a confirmed delete filters only the list of that type; an unknown type changes no list |
| Dashboard.BookPayload | src/pages/Dashboard.jsx:207-211 | a truthy categoryId becomes category:{id} and the categoryId key is removed; otherwise the payload equals the form data |
| Dashboard.CreateCall | src/pages/Dashboard.jsx:199-217 | a create call goes out only for user, book and category, to the users, books and categories resources; the book call carries the rewritten payload and the others carry the form data |
| Dashboard.AfterCreate | src/pages/Dashboard.jsx:204-216 | on success the answer is appended to the end of the list of that type only; api and '' change no list |
| Dashboard.ModelStructure | src/pages/Dashboard.jsx:147-173 | each fixed structure names every field once |
| Dashboard.GenerateEmptyForm | src/pages/Dashboard.jsx:175-188 | the empty form has exactly the structure's keys, in order and distinct; a boolean field holds false and every other field holds '' |
| Dashboard.SearchCall | src/pages/Dashboard.jsx:291-333 | a search call is made exactly for the six supported (mode, type) pairs; every one is a GET without body, basic and advanced go to /books/search or /categories/search, query mode to /books/search/query or /categories/search/query, and an api query fetches the endpoints by the upper-cased method |
| Dashboard.SearchCarriesQuery | src/pages/Dashboard.jsx:295-325 | every search request carries the query: as title (and, in advanced mode only, author), as name, as q, or upper-cased in the method path |
| Dashboard.ListData | src/pages/Dashboard.jsx:335 | an array answer gives its items, and a missing answer gives no rows |
| Dashboard.NoResultsNotice | src/pages/Dashboard.jsx:337-339 | the notice for an array answer only when it is empty |
| Dashboard.NoticeIffEmptyArray | src/pages/Dashboard.jsx:337-339 | an array answer raises the "no results" notice exactly when it is empty |
| Dashboard.VisibleColumns | src/pages/Dashboard.jsx:488-490 | the shown columns are exactly the keys other than id, password and accessToken |
| Dashboard.VisibleColumnsKeepOrder | src/pages/Dashboard.jsx:488-490 | the shown columns keep the record's key order |
| Dashboard.Columns | src/pages/Dashboard.jsx:488-490 | the columns are the first record's keys other than id, password and accessToken, and none without a first record |
| Dashboard.RenderCell | src/pages/Dashboard.jsx:510-514 | a truthy category cell shows the category's name; otherwise booleans show Yes/No, null, undefined and '' show N/A, numbers show their decimal form, a non-empty string shows itself, an array shows its comma join (N/A when that is empty) and an object shows [object Object] |
| Dashboard.RenderTable | src/pages/Dashboard.jsx:477-514 | no data gives the "none found" panel for the type; otherwise one row per record, with one cell per visible column of the first record |
| Dashboard.TableHidesSecrets | src/pages/Dashboard.jsx:488-490 | a rendered table never has an id, password or accessToken column, and its columns keep the first record's key order |
| Dashboard.Dashboard.DisplayData | src/pages/Dashboard.jsx:354-356 | while the query is non-blank the search results are shown; otherwise the active tab's list is shown |
| Dashboard.Dashboard.constructor | src/pages/Dashboard.jsx:55-79 | the page starts on tab 0 in basic search mode, with an empty query and results, a closed dialog and the loaded lists |
| Dashboard.Dashboard.HandleTabChange | src/pages/Dashboard.jsx:112-114 | the tab index is set and nothing else changes |
| Dashboard.Dashboard.HandleCreateClick | src/pages/Dashboard.jsx:131-145 | the dialog opens on the active type's structure, with a form over exactly its keys holding false for boolean fields and '' for all others |
| Dashboard.Dashboard.HandleFormChange | src/pages/Dashboard.jsx:190-195 | one field of the form is set and the others are kept |
| Dashboard.Dashboard.HandleSubmit | src/pages/Dashboard.jsx:197-226 | the create call for the active type; on success the answer is appended and the dialog closes with an empty form; on failure nothing changes; the api type makes no call and just closes |
| Dashboard.Dashboard.HandleDelete | src/pages/Dashboard.jsx:249-276 | the lists change only after the backend confirmed the delete, and then only the list of that type |
| Dashboard.Dashboard.HandleSearch | src/pages/Dashboard.jsx:279-345 | a blank query makes no call and empties the results; otherwise the dispatch table's call; a failed or unsupported search leaves empty results with no notice; a reply fills the results, with the notice exactly for an empty data array |
| Dashboard.Dashboard.HandleSearchTypeChange | src/pages/Dashboard.jsx:347-351 | a new mode clears the query and the results, so the full tab list shows again |
| Forms.ClearError | src/components/BookForm.jsx:109-111 | after an edit the field shows no error; every other field's entry is untouched, and an error that was not showing is not changed |
| Forms.ClearErrorKeepsOthers | src/components/BookForm.jsx:107-112 | an edit to one field never changes whether another field shows an error |
| Forms.SaveCall | src/components/BookForm.jsx:89-95 | a form opened on a record calls update with that record's id; otherwise it calls create |
| BookForm.Populated | src/components/BookForm.jsx:34-42 | the form opened on a book has the six fields in order, each being the book's value or '' when that value is falsy; categoryId comes from category?.id |
| BookForm.PopulatedTruthyOrEmpty | src/components/BookForm.jsx:36-41 | every populated field holds a truthy value or ''; a price of 0 shows as '' |
| BookForm.BookErrors | src/components/BookForm.jsx:67-76 | the validator throws (no map) exactly when title, author or isbn is not a string, since trim() is called on each |
| BookForm.BookMessagesSpec | src/components/BookForm.jsx:67-76 | title, author and isbn have an error exactly when blank after trim; price has one exactly when it is non-empty and not numeric; no other key is set and every message is non-empty |
| BookForm.CollectErrors | src/components/BookForm.jsx:68-72 | the step-by-step error map equals the validator's specification |
| BookForm.ResetFields | src/components/BookForm.jsx:43-52 | the reset form holds '' in all six fields |
| BookForm.ResetFormInvalid | src/components/BookForm.jsx:43-72 | a reset form fails validation with exactly the title, author and ISBN messages |
| BookForm.BookData | src/components/BookForm.jsx:83-87 | price is parsed when set and null otherwise; category is {id: parseInt(categoryId)} when set and null otherwise; every other field is copied |
| BookForm.BookForm.constructor | src/components/BookForm.jsx:19-29 | the form starts empty, with no categories, not loading and with no errors |
| BookForm.BookForm.OnOpen | src/components/BookForm.jsx:31-55 | opening on a book populates the form and opening without one resets it; every open clears the errors; a close changes nothing |
| BookForm.BookForm.OnCategoriesFetched | src/components/BookForm.jsx:57-65 | the category options are the answer, or are kept when the request fails |
| BookForm.BookForm.ValidateForm | src/components/BookForm.jsx:67-76 | the errors become the validator's map, and the form is valid iff that map is empty |
| BookForm.BookForm.HandleSubmit | src/components/BookForm.jsx:78-105 | an invalid form makes no call; a valid one sends the built payload to update (book.id) or create, and reports success only when the call succeeded |
| BookForm.BookForm.HandleChange | src/components/BookForm.jsx:107-112 | the named field is set, the others are kept, and only that field's error is cleared |
| ApiForm.ActiveOrDefault | src/components/ApiForm.jsx:42 | an undefined flag becomes true; any other value is kept |
| ApiForm.Populated | src/components/ApiForm.jsx:36-43 | name, description and url take the record's value or ''; method takes its value or 'GET'; isActive defaults to true only when undefined |
| ApiForm.DefaultMethodListed | src/components/ApiForm.jsx:32-49 | the reset method and the fallback method are GET, which is among the seven offered methods |
| ApiForm.ApiErrors | src/components/ApiForm.jsx:57-65 | name and url have an error exactly when blank after trim; method has one exactly when it is falsy |
| ApiForm.CollectErrors | src/components/ApiForm.jsx:58-61 | the step-by-step error map equals the validator's specification |
| ApiForm.ResetFields | src/components/ApiForm.jsx:45-51 | the reset form has an empty name and url and the method GET |
| ApiForm.ResetFormInvalid | src/components/ApiForm.jsx:45-61 | a reset form fails validation with exactly the name and URL messages |
| ApiForm.ApiForm.constructor | src/components/ApiForm.jsx:22-30 | the form starts reset, not loading and with no errors |
| ApiForm.ApiForm.OnOpen | src/components/ApiForm.jsx:34-55 | opening on an endpoint populates the form and opening without one resets it; every open clears the errors |
| ApiForm.ApiForm.ValidateForm | src/components/ApiForm.jsx:57-65 | the errors become the validator's map, and the form is valid iff that map is empty |
| ApiForm.ApiForm.HandleSubmit | src/components/ApiForm.jsx:67-88 | an invalid form makes no call; a valid one sends the form data unchanged to update (api.id) or create |
| ApiForm.ApiForm.HandleChange | src/components/ApiForm.jsx:90-95 | one field is set and only its error is cleared |
| CategoryForm.Populated | src/components/CategoryForm.jsx:27-32 | name and description take the record's value or ''; isActive defaults to true only when undefined |
| CategoryForm.CategoryErrors | src/components/CategoryForm.jsx:44-50 | the only possible error is on name, and it is there exactly when the name is blank after trim |
| CategoryForm.CollectErrors | src/components/CategoryForm.jsx:45-46 | the step-by-step error map equals the validator's specification |
| CategoryForm.ResetFormInvalid | src/components/CategoryForm.jsx:33-46 | a reset form fails validation with exactly the name message |
| CategoryForm.CategoryForm.constructor | src/components/CategoryForm.jsx:17-23 | the form starts reset, not loading and with no errors |
| CategoryForm.CategoryForm.OnOpen | src/components/CategoryForm.jsx:25-42 | opening on a category populates the form and opening without one resets it; every open clears the errors |
| CategoryForm.CategoryForm.ValidateForm | src/components/CategoryForm.jsx:44-50 | the form is valid iff the name is non-blank after trim |
| CategoryForm.CategoryForm.HandleSubmit | src/components/CategoryForm.jsx:52-73 | an invalid form makes no call; a valid one calls update (category.id) when editing, and create otherwise |
| CategoryForm.CategoryForm.HandleChange | src/components/CategoryForm.jsx:75-80 | one field is set and only its error is cleared |
| Auth.AuthService.constructor | src/services/auth.service.js:41-42 | the service reads whatever session local storage already holds |
| Auth.AuthService.Login | src/services/auth.service.js:6-21 | signs in at the auth URL; stores the JSON round trip of the answer only when its accessToken is truthy; resolves with the answer data; a failure rethrows and leaves the session alone |
| Auth.AuthService.Register | src/services/auth.service.js:23-35 | posts the three fields to signup, resolves with the answer or rethrows, and never touches the session |
| Auth.AuthService.Logout | src/services/auth.service.js:37-39 | the stored session is removed unconditionally |
| Auth.AuthService.GetToken | src/services/auth.service.js:45-48 | null when no session is stored or the stored user is falsy, otherwise the stored user's accessToken; so it is truthy exactly when a stored session has a truthy token |
| Auth.AuthService.GetCurrentUser | src/services/auth.service.js:41-43 | null when no session is stored, otherwise the stored user |
| Auth.AuthService.IsAuthenticated | src/services/auth.service.js:50-53 | truthy iff getToken is truthy |
| Auth.AuthService.GetAuthHeader | src/services/auth.service.js:55-62 | {Authorization: 'Bearer ' + token} when authenticated, otherwise {} |
| Auth.AuthenticatedIffStored | src/services/auth.service.js:13-53 | since only a session with a token is ever stored, being authenticated is the same as having a stored session |
| Auth.SignInAuthenticates | src/services/auth.service.js:13-47 | after storing a sign-in answer, the user is authenticated, the token is the answer's token, and getCurrentUser returns the answer after the JSON round trip |
| Values.Put | src/components/BookForm.jsx:109 | {...prev, [field]: value} reads back value at field and every other property unchanged; a new key goes last, an existing one keeps its place |
| Values.LookupAt | src/components/BookForm.jsx:34-41 | in an object with distinct keys, reading a key gives the value stored under it |
| Values.ObjectOfFields | src/components/BookForm.jsx:34-41 | an object literal with distinct field names has those keys in order, and each reads back its own value |
| Values.RoundTripLookup | src/services/auth.service.js:14-42 | reading a property back after the JSON round trip gives the round trip of the property |
| Values.RoundTripTruthy | src/services/auth.service.js:14-47 | the JSON round trip keeps a value's truthiness |
| Values.RoundTripIdempotent | src/services/auth.service.js:14-42 | storing what was read back stores the same thing |
| ApiService.RecordRoutesDistinct | src/services/api.service.js:44-83 | for numeric ids, the verb and path of a record call determine the operation, the resource and the id: list and create are GET and POST on /res; get, update and delete are GET, PUT and DELETE on /res/id |
| ApiService.RouteOf | src/services/api.service.js:46-82 | the endpoint table: the verb, path, query parameters and body of every service call |
| ApiService.ItemPathInjective | src/services/api.service.js:51-77 | two item paths are equal only for the same resource and id |
| ApiService.ItemIsNotCollection | src/services/api.service.js:50-51 | an item path is never a collection path |
| ApiService.WithAuthorization | src/services/api.service.js:17-21 | a truthy token sets Authorization to 'Bearer ' + token; no other header changes; with no token the headers are untouched |
| ApiService.InterceptorAgreesWithAuthHeader | src/services/api.service.js:17-19 | the header the interceptor adds is the one getAuthHeader describes, and both are absent together |
| ApiService.ApiClient.OnRequest | src/services/api.service.js:15-26 | the request's headers are rewritten in place by the bearer rule |
| ApiService.ApiClient.OnResponse | src/services/api.service.js:29-42 | answers pass through with the session kept; every error is rejected; a 401 clears the session and any other error keeps it |
| ApiService.ApiClient.Send | src/services/api.service.js:5-83 | a call goes out on its verb and base URL + path, with its params and body, under the default headers plus the bearer rule; the reply then goes through the response interceptor |
| EndToEnd.Param | backend/src/main/resources/BookController.java:75-76 | a string-valued request parameter is bound when present and absent otherwise |
| EndToEnd.AdvancedBookSearchIsBasic | src/pages/Dashboard.jsx:295-307 | the advanced book search returns exactly the basic search's books, namely those whose title contains the query |
| Store.Insert | backend/src/main/resources/BookController.java:44 | an insert stores the entity under the counter's id and advances the counter; the table grows by one |
| Store.Table.constructor | backend/src/main/resources/DataInitializer.java:32 | a table starts empty, with its counter at 1 |
| Store.Table.Count | backend/src/main/resources/DataInitializer.java:32-57 | the count is 0 exactly when the table is empty |
| Store.Table.FindById | backend/src/main/resources/BookController.java:31 | the row stored under the id, if any |
| Store.Table.Save | backend/src/main/resources/BookController.java:44-61 | an entity whose id is stored replaces that row; any other entity is inserted under a fresh id; every row keeps carrying its own id |
| Store.Table.DeleteById | backend/src/main/resources/BookController.java:70 | exactly that row is removed |
| BookController.ResolveCategory | backend/src/main/resources/BookController.java:39-42 | only the category may change; it becomes the stored category when the body's category id is in the category table, and the book is otherwise left as supplied |
| BookController.TitleTakesPrecedence | backend/src/main/resources/BookController.java:78-79 | with a non-empty title, the author parameter makes no difference; the result is exactly the books whose title contains it, ignoring case |
| BookController.EmptySearchReturnsAll | backend/src/main/resources/BookController.java:82-83 | with no non-empty parameter, every book is returned |
| BookController.BookSearch | backend/src/main/resources/BookController.java:74-86 | the search answers only stored books, each as stored |
| BookController.BookController.constructor | backend/src/main/resources/BookController.java:17-21 | the controller works over the injected book and category tables |
| BookController.BookController.GetAll | backend/src/main/resources/BookController.java:23-27 | every stored book |
| BookController.BookController.GetById | backend/src/main/resources/BookController.java:29-34 | the stored book, which carries that id, or not-found when the id is absent |
| BookController.BookController.Create | backend/src/main/resources/BookController.java:36-46 | the body, with its category resolved, is saved: a new book takes a fresh id, and a body with a stored id replaces that book |
| BookController.BookController.Update | backend/src/main/resources/BookController.java:48-63 | an absent id gives not-found with the table unchanged; otherwise the body, under the path id and with its category resolved, replaces that row whole |
| BookController.BookController.Delete | backend/src/main/resources/BookController.java:65-72 | an absent id gives not-found with no change; otherwise exactly that row is removed |
| BookController.BookController.Search | backend/src/main/resources/BookController.java:74-86 | the title filter for a non-empty title, else the author filter for a non-empty author, else every book |
| BookController.BookController.SearchByQuery | backend/src/main/resources/BookController.java:88-92 | the JPQL searchBooks result |
| CategoryController.CategorySearchMatches | backend/smartmockdata/api/controller/CategoryController.java:58-65 | a non-empty name gives exactly the categories whose name contains it, ignoring case; otherwise every category |
| CategoryController.CategorySearch | backend/smartmockdata/api/controller/CategoryController.java:57-66 | the search answers only stored categories, each as stored |
| CategoryController.CategoryController.constructor | backend/smartmockdata/api/controller/CategoryController.java:16-17 | the controller works over the injected category table |
| CategoryController.CategoryController.GetAll | backend/smartmockdata/api/controller/CategoryController.java:19-23 | every stored category |
| CategoryController.CategoryController.GetById | backend/smartmockdata/api/controller/CategoryController.java:25-30 | the stored category or not-found |
| CategoryController.CategoryController.Create | backend/smartmockdata/api/controller/CategoryController.java:32-36 | the body is saved without any check |
| CategoryController.CategoryController.Update | backend/smartmockdata/api/controller/CategoryController.java:38-46 | an absent id gives not-found with no change; otherwise the body under the path id replaces that row |
| CategoryController.CategoryController.Delete | backend/smartmockdata/api/controller/CategoryController.java:48-55 | an absent id gives not-found with no change; otherwise exactly that row is removed |
| CategoryController.CategoryController.Search | backend/smartmockdata/api/controller/CategoryController.java:57-66 | the name search's result |
| CategoryController.CategoryController.SearchByQuery | backend/smartmockdata/api/controller/CategoryController.java:68-72 | the JPQL searchCategories result |
| CategoryController.CategoryController.GetActive | backend/smartmockdata/api/controller/CategoryController.java:74-78 | exactly the categories whose isActive is true |
| ApiEndpointController.ApiEndpointController.constructor | backend/smartmockdata/api/controller/ApiEndpointController.java:16-17 | the controller works over the injected endpoint table |
| ApiEndpointController.ApiEndpointController.GetAll | backend/smartmockdata/api/controller/ApiEndpointController.java:19-23 | every stored endpoint |
| ApiEndpointController.ApiEndpointController.GetById | backend/smartmockdata/api/controller/ApiEndpointController.java:25-30 | the stored endpoint or not-found |
| ApiEndpointController.ApiEndpointController.Create | backend/smartmockdata/api/controller/ApiEndpointController.java:32-36 | the body is saved without any check |
| ApiEndpointController.ApiEndpointController.Update | backend/smartmockdata/api/controller/ApiEndpointController.java:38-46 | an absent id gives not-found with no change; otherwise the body under the path id replaces that row |
| ApiEndpointController.ApiEndpointController.Delete | backend/smartmockdata/api/controller/ApiEndpointController.java:48-55 | an absent id gives not-found with no change; otherwise exactly that row is removed |
| ApiEndpointController.ApiEndpointController.GetActive | backend/smartmockdata/api/controller/ApiEndpointController.java:57-61 | exactly the active endpoints |
| ApiEndpointController.ApiEndpointController.GetByMethod | backend/smartmockdata/api/controller/ApiEndpointController.java:63-67 | exactly the endpoints whose method equals the path's method, ignoring case |
| Query.Where | backend/smartmockdata/api/repository/BookRepository.java:12 | the rows that satisfy a predicate, unchanged |
| BookRepository.FindByAuthorContainingIgnoreCase | backend/smartmockdata/api/repository/BookRepository.java:14 | exactly the books whose author contains the argument, ignoring case |
| BookRepository.FindByTitleContainingIgnoreCase | backend/smartmockdata/api/repository/BookRepository.java:16 | exactly the books whose title contains the argument, ignoring case |
| BookRepository.FindByCategoryId | backend/smartmockdata/api/repository/BookRepository.java:18 | exactly the books whose category has that id |
| BookRepository.FindByPublished | backend/smartmockdata/api/repository/BookRepository.java:20 | exactly the books with that published flag |
| BookRepository.SearchBooks | backend/smartmockdata/api/repository/BookRepository.java:22-26 | the books whose lower-cased title, author or description is LIKE the lower-cased '%q%'; a null description never matches |
| Query.LikeInfixIsContains | backend/smartmockdata/api/repository/BookRepository.java:23-25 | for a query with no wildcard, the LIKE test is a case-insensitive substring test, and it fails on null |
| BookRepository.SearchBooksMatchesSubstrings | backend/smartmockdata/api/repository/BookRepository.java:22-26 | for a query with no wildcard, searchBooks returns exactly the books whose title, author or description contains it, ignoring case |
| BookRepository.TitleMatchesAreSearchMatches | backend/smartmockdata/api/repository/BookRepository.java:16-26 | for a query with no wildcard, every book of the title filter is in the searchBooks result |
| BookRepository.PercentQueryMatchesEverything | backend/smartmockdata/api/repository/BookRepository.java:22-26 | since the JPQL query does not escape wildcards, the query "%" returns every book |
| CategoryRepository.FindByIsActive | backend/smartmockdata/api/repository/CategoryRepository.java:15 | exactly the categories with that flag |
| CategoryRepository.FindByNameContainingIgnoreCase | backend/smartmockdata/api/repository/CategoryRepository.java:17 | exactly the categories whose name contains the argument, ignoring case |
| CategoryRepository.FindByName | backend/smartmockdata/api/repository/CategoryRepository.java:19 | exactly the categories whose name equals the argument |
| CategoryRepository.SearchCategories | backend/smartmockdata/api/repository/CategoryRepository.java:21-24 | the categories whose lower-cased name or description is LIKE the lower-cased '%q%' |
| CategoryRepository.GetActiveCategories | backend/smartmockdata/api/repository/CategoryRepository.java:26-28 | exactly the active categories, each as stored |
| CategoryRepository.SearchCategoriesMatchesSubstrings | backend/smartmockdata/api/repository/CategoryRepository.java:21-24 | for a query with no wildcard, exactly the categories whose name or description contains it, ignoring case |
| CategoryRepository.NameMatchesAreSearchMatches | backend/smartmockdata/api/repository/CategoryRepository.java:17-24 | for a query with no wildcard, every name match is a searchCategories match |
| ApiEndpointRepository.FindByIsActiveTrue | backend/smartmockdata/api/repository/ApiEndpointRepository.java:12 | exactly the active endpoints |
| ApiEndpointRepository.FindByMethodIgnoreCase | backend/smartmockdata/api/repository/ApiEndpointRepository.java:14 | exactly the endpoints whose method equals the argument, ignoring case |
| ApiEndpointRepository.FindByRequiresAuth | backend/smartmockdata/api/repository/ApiEndpointRepository.java:16 | exactly the endpoints with that requiresAuth flag |
| ApiEndpointRepository.FindByNameContainingIgnoreCase | backend/smartmockdata/api/repository/ApiEndpointRepository.java:18 | exactly the endpoints whose name contains the argument, ignoring case |
| ApiEndpointRepository.MethodLookupIgnoresUpperCasing | backend/smartmockdata/api/repository/ApiEndpointRepository.java:14 | the dashboard's upper-casing of the method changes nothing in the lookup's result |
| Text.LikeLowerIsContainsIgnoreCase | backend/smartmockdata/api/repository/BookRepository.java:23 | LOWER(s) LIKE LOWER('%q%') is a case-insensitive substring test for a query with no wildcard |
| Text.BlankIffAllSpace | src/components/SearchBar.jsx:23 | a string is blank after trim exactly when every character is whitespace |
| Text.BlankIffTrimmedEmpty | src/components/BookForm.jsx:68 | !s.trim() holds exactly when the string is blank |
| Text.TrimIdempotent | src/components/SearchBar.jsx:23 | trimming a trimmed string changes nothing |
| Text.UpperIdempotent | src/pages/Dashboard.jsx:325 | upper-casing an upper-cased method name changes nothing |
| Text.Trim | src/components/SearchBar.jsx:23 | trim never lengthens a string, and what it returns neither starts nor ends with white space |
| Text.Upper | src/pages/Dashboard.jsx:325 | toUpperCase maps each character to its upper case, keeping the length |
| Text.Lower | backend/smartmockdata/api/repository/BookRepository.java:23 | LOWER maps each character to its lower case, keeping the length |
| Text.LikeLiteral | backend/smartmockdata/api/repository/BookRepository.java:23 | a LIKE pattern with no % and no _ matches exactly the string it spells |
| Entities.NewBook | backend/smartmockdata/api/model/Book.java:14-45 | a new book has no id and no category, and is not published |
| Entities.NewApiEndpoint | backend/smartmockdata/api/model/ApiEndpoint.java:50-57 | the five-argument constructor: no id, the given name, description, method, path and requiresAuth, and active by default |
| DataInitializer.FindOne | backend/src/main/resources/DataInitializer.java:58-59 | the lookup fails when several categories carry the name, finds nothing when none does, and otherwise finds a stored category with that name |
| DataInitializer.SeedUsers | backend/src/main/resources/DataInitializer.java:32-39 | after the user step the user table is never empty, and a table that held rows is untouched |
| DataInitializer.SeedCategories | backend/src/main/resources/DataInitializer.java:42-54 | after the category step the category table is never empty, and a table that held rows is untouched |
| DataInitializer.AddFiction | backend/src/main/resources/DataInitializer.java:61-73 | the fiction step keeps every existing key, and without a fiction category adds nothing |
| DataInitializer.AddNonFiction | backend/src/main/resources/DataInitializer.java:75-81 | the non-fiction step keeps every existing key, and without a non-fiction category adds nothing |
| DataInitializer.SeedBooks | backend/src/main/resources/DataInitializer.java:57-81 | the book step fails only on an empty table, and leaves a table that held rows untouched |
| DataInitializer.Seed | backend/src/main/resources/DataInitializer.java:29-83 | after run() users and categories are never empty, and a failed run leaves the books as they were |
| DataInitializer.FindCategory | backend/src/main/resources/DataInitializer.java:58-59 | findByName(name).orElse(null), computed from the rows, agrees with that lookup |
| DataInitializer.NonEmptyTablesUntouched | backend/src/main/resources/DataInitializer.java:32-57 | a table that holds rows on entry is left exactly as it was; when all three hold rows the run changes nothing and succeeds |
| DataInitializer.SeedUsersIdempotent | backend/src/main/resources/DataInitializer.java:32-39 | seeding the users twice is seeding them once |
| DataInitializer.SeedCategoriesIdempotent | backend/src/main/resources/DataInitializer.java:42-54 | seeding the categories twice is seeding them once |
| DataInitializer.SeedBooksIdempotent | backend/src/main/resources/DataInitializer.java:57-81 | against the same categories, a successful book seeding is a fixpoint: seeding the books again changes nothing |
| DataInitializer.SeedIdempotent | backend/src/main/resources/DataInitializer.java:29-83 | a second run changes nothing and ends the same way as the first |
| DataInitializer.InsertAdds | backend/src/main/resources/DataInitializer.java:35-66 | an insert leaves the table non-empty and adds only the counter's key |
| DataInitializer.NewFictionBooks | backend/src/main/resources/DataInitializer.java:61-73 | the fiction books added are published and carry the fiction category |
| DataInitializer.NewNonFictionBooks | backend/src/main/resources/DataInitializer.java:75-81 | the non-fiction book added is published and carries the non-fiction category |
| DataInitializer.NewBooks | backend/src/main/resources/DataInitializer.java:61-81 | every book the two steps add is published and carries one of the two categories found |
| DataInitializer.SeededBooksHaveStoredCategories | backend/src/main/resources/DataInitializer.java:57-81 | every seeded book is published and carries a category that the category table holds |
| DataInitializer.FreshStoreSeed | backend/src/main/resources/DataInitializer.java:29-83 | on empty tables the run succeeds, seeding users and categories, then the two fiction books under the first seeded category and the non-fiction book under the second |
| DataInitializer.FreshCategories | backend/src/main/resources/DataInitializer.java:42-59 | into an empty table go three categories; Fiction and Non-Fiction take the first two ids, and each lookup by name finds exactly its row |
| DataInitializer.FreshUsers | backend/src/main/resources/DataInitializer.java:32-39 | into an empty table go exactly two users: first the admin (ADMIN, encoded "admin123"), then the regular user with the default role |
| DataInitializer.FreshBooks | backend/src/main/resources/DataInitializer.java:61-81 | into an empty table go three books: two under fiction, then one under non-fiction, all published |
| DataInitializer.FindOneFresh | backend/src/main/resources/DataInitializer.java:58-59 | among the freshly seeded categories, each of the two names used finds exactly one row |
| DataInitializer.DataInitializer.constructor | backend/src/main/resources/DataInitializer.java:17-27 | the seeder works over the injected user, category and book tables and password encoder |
| DataInitializer.DataInitializer.Run | backend/src/main/resources/DataInitializer.java:29-83 | the tables after run(), and whether it finished, are exactly those the seeding specification gives |
| DataInitializer.DataInitializer.SeedUserTable | backend/src/main/resources/DataInitializer.java:32-39 | the user table becomes the seeded users |
| DataInitializer.DataInitializer.SeedCategoryTable | backend/src/main/resources/DataInitializer.java:42-54 | the category table becomes the seeded categories |
| DataInitializer.DataInitializer.SeedBookTable | backend/src/main/resources/DataInitializer.java:57-81 | the book table becomes the seeded books; the run fails, before any book is saved, when a lookup throws |
| DataInitializer.DataInitializer.AddFictionBooks | backend/src/main/resources/DataInitializer.java:61-73 | the two fiction books are inserted when fiction was found |
| DataInitializer.DataInitializer.AddNonFictionBooks | backend/src/main/resources/DataInitializer.java:75-81 | the non-fiction book is inserted when non-fiction was found |
| DataInitializer.DataInitializer.InsertUser | backend/src/main/resources/DataInitializer.java:35-38 | saving a user without an id inserts it under the counter's next id |
| DataInitializer.DataInitializer.InsertCategory | backend/src/main/resources/DataInitializer.java:45-53 | saving a category without an id inserts it under the counter's next id |
| DataInitializer.DataInitializer.InsertBook | backend/src/main/resources/DataInitializer.java:66-80 | saving a book without an id inserts it under the counter's next id |

## Left out

- Rendering: JSX and MUI layout, toasts, `console.error` and the loading spinners are presentation only. The `loading` flags of the forms are modelled; the dashboard's `loading`/`error` state is not.
- `fetchData` (src/pages/Dashboard.jsx:81-106) is left out. It joins four requests with `Promise.all`, which is concurrency and async I/O. `Dashboard.Dashboard.constructor` takes the loaded lists instead.
- `generateMockData` and `generateAIMock` are left out: they draw on `Math.random` and `setTimeout`.
- The form-dialog open/close handlers and `handleFormSuccess` are left out. They only toggle booleans and re-run `fetchData`.
- `Dashboard.ModelStructure`: the options of the select fields are omitted. `generateEmptyForm` reads only a field's type.
- `Dashboard.ListData`: a data value that is not an array counts as no rows. The list endpoints always answer with an array.
- Transport:
  - the axios transport and the network are parameters: the backend's answer is the `reply` argument;
  - `window.location.href = '/login'` after a 401 is left out;
  - the `ERR_NETWORK` branch only logs;
  - a rejection whose `error.message` is missing is not modelled.
- Storage: local storage is the single `session` field. A stored value that `JSON.parse` cannot read is not modelled.
- Numbers: `parseFloat`, `parseInt` and `isNaN` are an abstract `Numerics` parameter. Numbers are integers, and floating point is not modelled.
- Text: case folding is ASCII only, and `trim` uses the ECMAScript whitespace set. No Unicode case mapping is modelled.
- Backend:
  - Spring's request binding, HTTP status codes other than 200/404, and JSON serialisation are not modelled;
  - a list answer is the selected map of rows, since JPA gives no order;
  - books hold their own copy of their category, not a reference to the stored row.
- `Store.Table.Save`: an entity whose id is set but not stored is inserted under a fresh id. This is the IDENTITY behaviour of older Hibernate versions; newer ones throw instead.
- `BookController.ResolveCategory`, `BookController.BookController.Create` and `BookController.BookController.Update` do not model the failure of a save whose category does not resolve. `findById(...).ifPresent` leaves the body's own `Category` on the book when no stored row has its id, or when it has no id. The model then saves the book with that category as supplied. In the source, writing the `category_id` join column then fails: a foreign key refuses an id with no row, and an id-less category is an unsaved transient reference. That exception, and the error answer it produces, are not modelled.
- `BookController.BookController.Create` does not model a save that the database or bean validation refuses. Book.java declares `@NotBlank`/`@Size` on title and author, `@Size` and a unique column on isbn, `@Size` on description, and the `category_id` foreign key. A body breaking one of these makes `save` throw and the request answer an error with nothing stored; the model inserts it and answers Ok.
- `BookController.BookController.Update` does not model those same refusals: a body breaking Book.java's constraints, or an isbn another book already holds, makes `save` throw in the source; the model replaces the row and answers Ok.
- `ApiEndpointController.ApiEndpointController.Create` does not model bean validation: a body breaking ApiEndpoint.java's `@NotBlank` (name, method, path) or `@Size` (name, description) makes `save` throw; the model inserts it and answers Ok.
- `ApiEndpointController.ApiEndpointController.Update` does not model those same `@NotBlank`/`@Size` refusals on save; the model replaces the row and answers Ok.
- `CategoryController.CategoryController.Delete` does not model the `category_id` foreign key: deleting a category that books still reference is refused by the database in the source (unless the category side cascades, which Category.java, not part of this model, would say); the model removes the row and answers Ok.
- `Dashboard.Columns` follows insertion order of keys and treats a non-object first record as having no keys; `Object.keys` lists integer-like keys first and gives index keys for strings and arrays. Backend records hit neither case.
- `EndToEnd.Param` reads a non-string parameter as absent; axios would send its text. The pages only send strings.
- Timestamps (`@PrePersist`/`@PreUpdate`) and lazy loading are not modelled.
- `PasswordEncoder.encode` is the parameter `encode`.
- Category.java and User.java are not part of this model. The default active flag of a new category and the default role of a new user are parameters of the seeder.
- `DataInitializer.DataInitializer.Run`: the exception a duplicated category name raises is the result `false`. Rows saved before it remain, because each save commits on its own.
- `DataInitializer.SeededBooksHaveStoredCategories` is stated over the book step against the category table it is given. `Seed` gives it the category table as seeded in the same run.
- The PrivateRoute, Login and ApiDetails pages are not part of this model.
