/**
 * `/books`: CRUD over the book table, with a body's category reference
 * resolved against the category table, and the two searches.
 */
module BookController {
  import opened Wrappers
  import opened Entities
  import opened Store
  import opened Web
  import opened BookRepository
  import Text

  /**
   * When the body names a category by an id the category table holds, the stored
   * category takes its place; otherwise the book is left as it came.
   */
  function ResolveCategory(book: Book, categories: map<int, Category>): (r: Book)
    ensures r.(category := book.category) == book
    ensures book.category.Some? && book.category.value.id.Some? && book.category.value.id.value in categories ==>
              r.category == Some(categories[book.category.value.id.value])
    ensures !(book.category.Some? && book.category.value.id.Some? && book.category.value.id.value in categories) ==> r == book
  {
    if book.category.Some? && book.category.value.id.Some? && book.category.value.id.value in categories then
      book.(category := Some(categories[book.category.value.id.value]))
    else book
  }

  /** `searchBooks(title, author)`: a non-empty title wins, then a non-empty author, else every book. */
  function BookSearch(rows: map<int, Book>, title: Option<string>, author: Option<string>): (r: map<int, Book>)
    ensures forall k :: k in r ==> k in rows && r[k] == rows[k]
  {
    if title.Some? && title.value != "" then FindByTitleContainingIgnoreCase(rows, title.value)
    else if author.Some? && author.value != "" then FindByAuthorContainingIgnoreCase(rows, author.value)
    else rows
  }

  /** Title takes precedence: with a non-empty title the author parameter makes no difference. */
  lemma TitleTakesPrecedence(rows: map<int, Book>, title: string, author: Option<string>)
    requires title != ""
    ensures BookSearch(rows, Some(title), author) == BookSearch(rows, Some(title), None)
    ensures forall k :: k in BookSearch(rows, Some(title), author) <==>
              k in rows && Text.ContainsIgnoreCase(rows[k].title, title)
  {
  }

  /** With neither parameter, or only empty ones, the search returns every book. */
  lemma EmptySearchReturnsAll(rows: map<int, Book>, title: Option<string>, author: Option<string>)
    requires title.None? || title.value == ""
    requires author.None? || author.value == ""
    ensures BookSearch(rows, title, author) == rows
  {
  }

  class BookController {
    const books: Table<Book>
    const categories: Table<Category>

    ghost predicate Valid()
      reads this, books, categories
    {
      && books.Valid() && categories.Valid()
      && (forall b :: books.idOf(b) == b.id)
      && (forall b, k :: books.withId(b, k) == b.(id := Some(k)))
    }

    constructor(books: Table<Book>, categories: Table<Category>)
      ensures this.books == books && this.categories == categories
    {
      this.books := books;
      this.categories := categories;
    }

    /** `GET /books` */
    method GetAll() returns (r: Response<map<int, Book>>)
      ensures r == Ok(books.rows)
    {
      r := Ok(books.rows);
    }

    /** `GET /books/{id}`: the stored book, which carries that id, or not found. */
    method GetById(id: int) returns (r: Response<Book>)
      requires Valid()
      ensures id in books.rows ==> r == Ok(books.rows[id]) && r.body.id == Some(id)
      ensures id !in books.rows ==> r == NotFound
    {
      var found := books.FindById(id);
      r := if found.Some? then Ok(found.value) else NotFound;
    }

    /** `POST /books`: resolve the category reference, then save. */
    method Create(book: Book) returns (r: Response<Book>)
      requires Valid()
      modifies books
      ensures Valid() && r.Ok?
      ensures var resolved := ResolveCategory(book, categories.rows);
              if resolved.id.Some? && resolved.id.value in old(books.rows) then
                r.body == resolved && books.rows == old(books.rows)[resolved.id.value := resolved] && books.nextId == old(books.nextId)
              else
                r.body == resolved.(id := Some(old(books.nextId))) && books.Contents() == Insert(old(books.Contents()), resolved, books.withId)
    {
      var resolved := ResolveCategory(book, categories.rows);
      var saved := books.Save(resolved);
      r := Ok(saved);
    }

    /**
     * `PUT /books/{id}`: not found, with nothing changed, for an id the table
     * lacks; otherwise the body, with the path's id and its category resolved,
     * replaces that row whole.
     */
    method Update(id: int, book: Book) returns (r: Response<Book>)
      requires Valid()
      modifies books
      ensures Valid()
      ensures id !in old(books.rows) ==> r == NotFound && books.Contents() == old(books.Contents())
      ensures id in old(books.rows) ==>
                var stored := ResolveCategory(book.(id := Some(id)), categories.rows);
                r == Ok(stored) && stored.id == Some(id)
                && books.rows == old(books.rows)[id := stored] && books.nextId == old(books.nextId)
    {
      if !(id in books.rows) {
        return NotFound;
      }
      var withPathId := book.(id := Some(id));
      var resolved := ResolveCategory(withPathId, categories.rows);
      var saved := books.Save(resolved);
      r := Ok(saved);
    }

    /** `DELETE /books/{id}`: not found, with nothing changed, or exactly that row removed. */
    method Delete(id: int) returns (r: Response<()>)
      requires Valid()
      modifies books
      ensures Valid()
      ensures id !in old(books.rows) ==> r == NotFound && books.Contents() == old(books.Contents())
      ensures id in old(books.rows) ==> r == Ok(()) && books.rows == old(books.rows) - {id} && books.nextId == old(books.nextId)
    {
      if !(id in books.rows) {
        return NotFound;
      }
      books.DeleteById(id);
      r := Ok(());
    }

    /** `GET /books/search?title=&author=` */
    method Search(title: Option<string>, author: Option<string>) returns (r: Response<map<int, Book>>)
      ensures r == Ok(BookSearch(books.rows, title, author))
    {
      if title.Some? && title.value != "" {
        r := Ok(FindByTitleContainingIgnoreCase(books.rows, title.value));
      } else if author.Some? && author.value != "" {
        r := Ok(FindByAuthorContainingIgnoreCase(books.rows, author.value));
      } else {
        r := Ok(books.rows);
      }
    }

    /** `GET /books/search/query?q=` */
    method SearchByQuery(q: string) returns (r: Response<map<int, Book>>)
      ensures r == Ok(SearchBooks(books.rows, q))
    {
      r := Ok(SearchBooks(books.rows, q));
    }
  }
}
