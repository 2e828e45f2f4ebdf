/**
 * Selecting the rows of a table that satisfy a condition: what a derived or JPQL
 * query returns, without its order; and the JPQL infix `LIKE` the searches share.
 */
module Query {
  import opened Wrappers
  import Text

  function Where<T>(rows: map<int, T>, p: T -> bool): (r: map<int, T>)
    ensures forall k :: k in r <==> k in rows && p(rows[k])
    ensures forall k :: k in r ==> r[k] == rows[k]
  {
    map k | k in rows && p(rows[k]) :: rows[k]
  }

  /** `LOWER(field) LIKE LOWER(CONCAT('%', :query, '%'))`; a null column never matches. */
  predicate LikeInfix(field: Option<string>, query: string) {
    field.Some? && Text.Like(Text.Lower(field.value), Text.Lower("%" + query + "%"))
  }

  /** Without wildcards in the query, the pattern match is a case-insensitive substring test. */
  lemma LikeInfixIsContains(field: Option<string>, query: string)
    requires Text.NoWildcards(query)
    ensures LikeInfix(field, query) <==> field.Some? && Text.ContainsIgnoreCase(field.value, query)
  {
    if field.Some? {
      Text.LikeLowerIsContainsIgnoreCase(field.value, query);
    }
  }
}

/** The book repository's queries. */
module BookRepository {
  import opened Wrappers
  import opened Entities
  import opened Query
  import Text

  /** `findByAuthorContainingIgnoreCase(author)`: derived queries escape wildcards, so this is a plain substring test. */
  function FindByAuthorContainingIgnoreCase(rows: map<int, Book>, author: string): (r: map<int, Book>)
    ensures forall k :: k in r <==> k in rows && Text.ContainsIgnoreCase(rows[k].author, author)
    ensures forall k :: k in r ==> r[k] == rows[k]
  {
    Where(rows, (b: Book) => Text.ContainsIgnoreCase(b.author, author))
  }

  /** `findByTitleContainingIgnoreCase(title)` */
  function FindByTitleContainingIgnoreCase(rows: map<int, Book>, title: string): (r: map<int, Book>)
    ensures forall k :: k in r <==> k in rows && Text.ContainsIgnoreCase(rows[k].title, title)
    ensures forall k :: k in r ==> r[k] == rows[k]
  {
    Where(rows, (b: Book) => Text.ContainsIgnoreCase(b.title, title))
  }

  /** `findByCategoryId(categoryId)`: books without a category never match. */
  function FindByCategoryId(rows: map<int, Book>, categoryId: int): (r: map<int, Book>)
    ensures forall k :: k in r <==> k in rows && rows[k].category.Some? && rows[k].category.value.id == Some(categoryId)
    ensures forall k :: k in r ==> r[k] == rows[k]
  {
    Where(rows, (b: Book) => b.category.Some? && b.category.value.id == Some(categoryId))
  }

  /** `findByPublished(published)` */
  function FindByPublished(rows: map<int, Book>, published: bool): (r: map<int, Book>)
    ensures forall k :: k in r <==> k in rows && rows[k].published == published
    ensures forall k :: k in r ==> r[k] == rows[k]
  {
    Where(rows, (b: Book) => b.published == published)
  }

  /** The JPQL `searchBooks(query)`: title, author or description, where the query's own `%` and `_` act as wildcards. */
  function SearchBooks(rows: map<int, Book>, query: string): (r: map<int, Book>)
    ensures forall k :: k in r <==>
              (k in rows && (LikeInfix(Some(rows[k].title), query) || LikeInfix(Some(rows[k].author), query) || LikeInfix(rows[k].description, query)))
    ensures forall k :: k in r ==> r[k] == rows[k]
  {
    Where(rows, (b: Book) => LikeInfix(Some(b.title), query) || LikeInfix(Some(b.author), query) || LikeInfix(b.description, query))
  }

  /** For a wildcard-free query, `searchBooks` returns exactly the books with the query in title, author or description. */
  lemma SearchBooksMatchesSubstrings(rows: map<int, Book>, query: string)
    requires Text.NoWildcards(query)
    ensures forall k :: k in SearchBooks(rows, query) <==>
              (k in rows && (Text.ContainsIgnoreCase(rows[k].title, query) || Text.ContainsIgnoreCase(rows[k].author, query)
                             || (rows[k].description.Some? && Text.ContainsIgnoreCase(rows[k].description.value, query))))
  {
    forall k | k in rows
      ensures LikeInfix(Some(rows[k].title), query) <==> Text.ContainsIgnoreCase(rows[k].title, query)
      ensures LikeInfix(Some(rows[k].author), query) <==> Text.ContainsIgnoreCase(rows[k].author, query)
      ensures LikeInfix(rows[k].description, query) <==>
                rows[k].description.Some? && Text.ContainsIgnoreCase(rows[k].description.value, query)
    {
      LikeInfixIsContains(Some(rows[k].title), query);
      LikeInfixIsContains(Some(rows[k].author), query);
      LikeInfixIsContains(rows[k].description, query);
    }
  }

  /** For a wildcard-free query, every book the title filter finds is among the `searchBooks` results. */
  lemma TitleMatchesAreSearchMatches(rows: map<int, Book>, query: string)
    requires Text.NoWildcards(query)
    ensures forall k :: k in FindByTitleContainingIgnoreCase(rows, query) ==> k in SearchBooks(rows, query)
  {
    SearchBooksMatchesSubstrings(rows, query);
  }

  /** A query of `%` is a wildcard, not a character to look for: it selects every book. */
  lemma PercentQueryMatchesEverything(rows: map<int, Book>)
    ensures SearchBooks(rows, "%") == rows
  {
    forall k | k in rows
      ensures LikeInfix(Some(rows[k].title), "%")
    {
      var s := Text.Lower(rows[k].title);
      Text.LikeTrailingPercent(s);
      assert Text.Lower("%" + "%" + "%") == "%%%";
      assert "%%%"[1..] == "%%" && "%%"[1..] == "%";
    }
  }
}

/** The category repository's queries. */
module CategoryRepository {
  import opened Wrappers
  import opened Entities
  import opened Query
  import Text

  /** `findByIsActive(isActive)` */
  function FindByIsActive(rows: map<int, Category>, isActive: bool): (r: map<int, Category>)
    ensures forall k :: k in r <==> k in rows && rows[k].isActive == isActive
    ensures forall k :: k in r ==> r[k] == rows[k]
  {
    Where(rows, (c: Category) => c.isActive == isActive)
  }

  /** `findByNameContainingIgnoreCase(name)` */
  function FindByNameContainingIgnoreCase(rows: map<int, Category>, name: string): (r: map<int, Category>)
    ensures forall k :: k in r <==> k in rows && Text.ContainsIgnoreCase(rows[k].name, name)
    ensures forall k :: k in r ==> r[k] == rows[k]
  {
    Where(rows, (c: Category) => Text.ContainsIgnoreCase(c.name, name))
  }

  /**
   * The rows `findByName(name)` reads: its `Optional` holds the only one, is empty
   * when there is none, and the call fails when there are several.
   */
  function FindByName(rows: map<int, Category>, name: string): (r: map<int, Category>)
    ensures forall k :: k in r <==> k in rows && rows[k].name == name
    ensures forall k :: k in r ==> r[k] == rows[k]
  {
    Where(rows, (c: Category) => c.name == name)
  }

  /** The JPQL `searchCategories(query)` over name and description. */
  function SearchCategories(rows: map<int, Category>, query: string): (r: map<int, Category>)
    ensures forall k :: k in r <==> k in rows && (LikeInfix(Some(rows[k].name), query) || LikeInfix(rows[k].description, query))
    ensures forall k :: k in r ==> r[k] == rows[k]
  {
    Where(rows, (c: Category) => LikeInfix(Some(c.name), query) || LikeInfix(c.description, query))
  }

  /** The default method `getActiveCategories()`. */
  function GetActiveCategories(rows: map<int, Category>): (r: map<int, Category>)
    ensures forall k :: k in r <==> k in rows && rows[k].isActive
    ensures forall k :: k in r ==> r[k] == rows[k]
  {
    FindByIsActive(rows, true)
  }

  /** For a wildcard-free query, `searchCategories` is a case-insensitive substring search over name and description. */
  lemma SearchCategoriesMatchesSubstrings(rows: map<int, Category>, query: string)
    requires Text.NoWildcards(query)
    ensures forall k :: k in SearchCategories(rows, query) <==>
              (k in rows && (Text.ContainsIgnoreCase(rows[k].name, query)
                             || (rows[k].description.Some? && Text.ContainsIgnoreCase(rows[k].description.value, query))))
  {
    forall k | k in rows
      ensures LikeInfix(Some(rows[k].name), query) <==> Text.ContainsIgnoreCase(rows[k].name, query)
      ensures LikeInfix(rows[k].description, query) <==>
                rows[k].description.Some? && Text.ContainsIgnoreCase(rows[k].description.value, query)
    {
      LikeInfixIsContains(Some(rows[k].name), query);
      LikeInfixIsContains(rows[k].description, query);
    }
  }

  /** For a wildcard-free query, every category the name filter finds is among the `searchCategories` results. */
  lemma NameMatchesAreSearchMatches(rows: map<int, Category>, query: string)
    requires Text.NoWildcards(query)
    ensures forall k :: k in FindByNameContainingIgnoreCase(rows, query) ==> k in SearchCategories(rows, query)
  {
    SearchCategoriesMatchesSubstrings(rows, query);
  }
}

/** The API endpoint repository's queries. */
module ApiEndpointRepository {
  import opened Entities
  import opened Query
  import Text

  /** `findByIsActiveTrue()` */
  function FindByIsActiveTrue(rows: map<int, ApiEndpoint>): (r: map<int, ApiEndpoint>)
    ensures forall k :: k in r <==> k in rows && rows[k].isActive
    ensures forall k :: k in r ==> r[k] == rows[k]
  {
    Where(rows, (e: ApiEndpoint) => e.isActive)
  }

  /** `findByMethodIgnoreCase(method)` */
  function FindByMethodIgnoreCase(rows: map<int, ApiEndpoint>, httpMethod: string): (r: map<int, ApiEndpoint>)
    ensures forall k :: k in r <==> k in rows && Text.EqualsIgnoreCase(rows[k].httpMethod, httpMethod)
    ensures forall k :: k in r ==> r[k] == rows[k]
  {
    Where(rows, (e: ApiEndpoint) => Text.EqualsIgnoreCase(e.httpMethod, httpMethod))
  }

  /** `findByRequiresAuth(requiresAuth)` */
  function FindByRequiresAuth(rows: map<int, ApiEndpoint>, requiresAuth: bool): (r: map<int, ApiEndpoint>)
    ensures forall k :: k in r <==> k in rows && rows[k].requiresAuth == requiresAuth
    ensures forall k :: k in r ==> r[k] == rows[k]
  {
    Where(rows, (e: ApiEndpoint) => e.requiresAuth == requiresAuth)
  }

  /** `findByNameContainingIgnoreCase(name)` */
  function FindByNameContainingIgnoreCase(rows: map<int, ApiEndpoint>, name: string): (r: map<int, ApiEndpoint>)
    ensures forall k :: k in r <==> k in rows && Text.ContainsIgnoreCase(rows[k].name, name)
    ensures forall k :: k in r ==> r[k] == rows[k]
  {
    Where(rows, (e: ApiEndpoint) => Text.ContainsIgnoreCase(e.name, name))
  }

  /** Upper-casing the method before the lookup, as the dashboard does, changes nothing: the match ignores case. */
  lemma MethodLookupIgnoresUpperCasing(rows: map<int, ApiEndpoint>, httpMethod: string)
    ensures FindByMethodIgnoreCase(rows, Text.Upper(httpMethod)) == FindByMethodIgnoreCase(rows, httpMethod)
  {
    Text.UpperIdempotent(httpMethod);
  }
}
