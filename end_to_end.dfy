/** Properties that follow a dashboard search through the client to the book controller. */
module EndToEnd {
  import opened Wrappers
  import opened Values
  import opened Entities
  import Text
  import ApiService
  import Dashboard
  import BookController
  import BookRepository

  /**
   * How a `String` `@RequestParam` binds a string-valued query parameter the client
   * sent. The pages send only strings; a number or boolean, which axios would send
   * as its text, is not modelled and reads as absent.
   */
  function Param(params: Record, key: string): (p: Option<string>)
    ensures p.Some? <==> Lookup(params, key).Str?
    ensures p.Some? ==> p.value == Lookup(params, key).s
  {
    var v := Lookup(params, key);
    if v.Str? then Some(v.s) else None
  }

  /**
   * The dashboard's advanced book search sends the query as both title and author,
   * and the controller lets the title win: it answers exactly what the basic search
   * answers, the books whose title contains the query.
   */
  lemma AdvancedBookSearchIsBasic(rows: map<int, Book>, query: string)
    requires !Text.IsBlank(query)
    ensures var basic := Dashboard.SearchCall("basic", "book", query).value;
            var advanced := Dashboard.SearchCall("advanced", "book", query).value;
            && BookController.BookSearch(rows, Param(advanced.params, "title"), Param(advanced.params, "author"))
               == BookController.BookSearch(rows, Param(basic.params, "title"), Param(basic.params, "author"))
            && BookController.BookSearch(rows, Param(advanced.params, "title"), Param(advanced.params, "author"))
               == BookRepository.FindByTitleContainingIgnoreCase(rows, query)
  {
    assert query != "" by {
      Text.EmptyIsBlank();
    }
    Dashboard.SearchCarriesQuery("basic", "book", query);
    Dashboard.SearchCarriesQuery("advanced", "book", query);
  }
}
