/**
 * The start-up seeder: each table that is empty receives its sample rows; the
 * books are attached to the categories `findByName` finds by name.
 */
module DataInitializer {
  import opened Wrappers
  import opened Entities
  import opened Store
  import opened CategoryRepository

  /** The three tables the seeder writes. */
  datatype Seeded = Seeded(users: State<User>, categories: State<Category>, books: State<Book>)

  /**
   * `findByName(name).orElse(null)`: the one matching category, none, or the
   * failure `findByName` raises when several rows carry the name.
   */
  datatype Lookup = Unique(found: Option<Category>) | Ambiguous

  function AdminUser(encode: string -> string): User {
    User(None, "admin", "admin@example.com", encode("admin123"), ADMIN)
  }

  function RegularUser(encode: string -> string, defaultRole: Role): User {
    User(None, "user", "user@example.com", encode("user123"), defaultRole)
  }

  function FictionCategory(active: bool): Category {
    Category(None, "Fiction", Some("Fictional literature and novels"), active)
  }

  function NonFictionCategory(active: bool): Category {
    Category(None, "Non-Fiction", Some("Non-fictional books and educational content"), active)
  }

  function ScienceCategory(active: bool): Category {
    Category(None, "Science", Some("Scientific books and research"), active)
  }

  const GatsbyBlurb := "A story of the fabulously wealthy Jay Gatsby and his love for the beautiful Daisy Buchanan."
  const MockingbirdBlurb := "The story of young Scout Finch and her father Atticus in a racially divided Alabama town."
  const SapiensBlurb := "A brief history of humankind from ancient humans to the present day."

  function Gatsby(fiction: Category): Book {
    NewBook("The Great Gatsby", "F. Scott Fitzgerald").(
      description := Some(GatsbyBlurb),
      category := Some(fiction), published := true)
  }

  function Mockingbird(fiction: Category): Book {
    NewBook("To Kill a Mockingbird", "Harper Lee").(
      description := Some(MockingbirdBlurb),
      category := Some(fiction), published := true)
  }

  function Sapiens(nonFiction: Category): Book {
    NewBook("Sapiens", "Yuval Noah Harari").(
      description := Some(SapiensBlurb),
      category := Some(nonFiction), published := true)
  }

  /** A map with exactly one entry has one key. */
  lemma {:induction false} SoleKey<T>(m: map<int, T>, a: int, b: int)
    requires |m| == 1 && a in m && b in m
    ensures a == b
  {
    if a != b {
      assert {a, b} <= m.Keys;
      assert |{a, b}| == 2;
      SubsetCardinality({a, b}, m.Keys);
    }
  }

  lemma SubsetCardinality(s: set<int>, t: set<int>)
    requires s <= t
    ensures |s| <= |t|
  {
    assert t == s + (t - s);
  }

  /** A map with entries has a key. */
  lemma SomeKey<T>(m: map<int, T>)
    requires |m| > 0
    ensures exists k :: k in m
  {
    if forall k :: k !in m {
      assert false;
    }
  }

  ghost function Sole(m: map<int, Category>): (c: Category)
    requires |m| == 1
    ensures c in m.Values
  {
    SomeKey(m);
    var k :| k in m; m[k]
  }

  /** The category `findByName` answers for `name`. */
  ghost function FindOne(rows: map<int, Category>, name: string): (r: Lookup)
    ensures r == Ambiguous <==> |FindByName(rows, name)| > 1
    ensures r == Unique(None) <==> (forall k :: k in rows ==> rows[k].name != name)
    ensures r.Unique? && r.found.Some? ==> r.found.value in rows.Values && r.found.value.name == name
  {
    var m := FindByName(rows, name);
    if |m| > 1 then
      SomeKey(m);
      Ambiguous
    else if |m| == 0 then
      assert forall k :: k !in m;
      Unique(None)
    else
      SomeKey(m);
      var k :| k in m;
      assert m[k] == rows[k];
      Unique(Some(Sole(m)))
  }

  ghost function SeedUsers(s: State<User>, encode: string -> string, defaultRole: Role): (r: State<User>)
    ensures r.rows != map[]
    ensures s.rows != map[] ==> r == s
  {
    if s.rows == map[] then Insert(Insert(s, AdminUser(encode), WithUserId), RegularUser(encode, defaultRole), WithUserId)
    else s
  }

  ghost function SeedCategories(s: State<Category>, active: bool): (r: State<Category>)
    ensures r.rows != map[]
    ensures s.rows != map[] ==> r == s
  {
    if s.rows == map[] then
      Insert(Insert(Insert(s, FictionCategory(active), WithCategoryId), NonFictionCategory(active), WithCategoryId),
             ScienceCategory(active), WithCategoryId)
    else s
  }

  ghost function AddFiction(s: State<Book>, fiction: Option<Category>): (r: State<Book>)
    ensures s.rows.Keys <= r.rows.Keys
    ensures fiction.None? ==> r == s
  {
    if fiction.Some? then Insert(Insert(s, Gatsby(fiction.value), WithBookId), Mockingbird(fiction.value), WithBookId)
    else s
  }

  ghost function AddNonFiction(s: State<Book>, nonFiction: Option<Category>): (r: State<Book>)
    ensures s.rows.Keys <= r.rows.Keys
    ensures nonFiction.None? ==> r == s
  {
    if nonFiction.Some? then Insert(s, Sapiens(nonFiction.value), WithBookId) else s
  }

  /** The book table after seeding, or `None` when a category lookup fails before any book is saved. */
  ghost function SeedBooks(s: State<Book>, categories: map<int, Category>): (r: Option<State<Book>>)
    ensures r.None? ==> s.rows == map[]
    ensures s.rows != map[] ==> r == Some(s)
  {
    if s.rows != map[] then Some(s)
    else
      var fiction := FindOne(categories, "Fiction");
      var nonFiction := FindOne(categories, "Non-Fiction");
      if fiction.Ambiguous? || nonFiction.Ambiguous? then None
      else Some(AddNonFiction(AddFiction(s, fiction.found), nonFiction.found))
  }

  /** `run()`: the tables afterwards, and whether it finished without an exception. */
  ghost function Seed(s: Seeded, encode: string -> string, defaultRole: Role, categoryActive: bool): (r: (Seeded, bool))
    ensures r.0.users.rows != map[] && r.0.categories.rows != map[]
    ensures !r.1 ==> r.0.books == s.books
  {
    var users := SeedUsers(s.users, encode, defaultRole);
    var categories := SeedCategories(s.categories, categoryActive);
    var books := SeedBooks(s.books, categories.rows);
    (Seeded(users, categories, if books.Some? then books.value else s.books), books.Some?)
  }

  /** A table that already holds rows is left exactly as it was. */
  lemma NonEmptyTablesUntouched(s: Seeded, encode: string -> string, defaultRole: Role, categoryActive: bool)
    ensures var (t, _) := Seed(s, encode, defaultRole, categoryActive);
            && (s.users.rows != map[] ==> t.users == s.users)
            && (s.categories.rows != map[] ==> t.categories == s.categories)
            && (s.books.rows != map[] ==> t.books == s.books)
    ensures s.users.rows != map[] && s.categories.rows != map[] && s.books.rows != map[] ==>
              Seed(s, encode, defaultRole, categoryActive) == (s, true)
  {
  }

  lemma SeedUsersIdempotent(s: State<User>, encode: string -> string, defaultRole: Role)
    ensures SeedUsers(SeedUsers(s, encode, defaultRole), encode, defaultRole) == SeedUsers(s, encode, defaultRole)
  {
    if s.rows == map[] {
      assert s.nextId + 1 in SeedUsers(s, encode, defaultRole).rows;
    }
  }

  lemma SeedCategoriesIdempotent(s: State<Category>, active: bool)
    ensures SeedCategories(SeedCategories(s, active), active) == SeedCategories(s, active)
  {
    if s.rows == map[] {
      assert s.nextId + 2 in SeedCategories(s, active).rows;
    }
  }

  /** An insertion leaves the table non-empty and adds only the counter's key. */
  lemma InsertAdds<T>(s: State<T>, e: T, withId: (T, int) -> T)
    ensures s.nextId in Insert(s, e, withId).rows && Insert(s, e, withId).rows != map[]
    ensures forall k :: k in Insert(s, e, withId).rows && k !in s.rows ==>
              k == s.nextId && Insert(s, e, withId).rows[k] == withId(e, s.nextId)
  {
  }

  /** Against the same categories, seeding the books again changes nothing and ends the same way. */
  lemma {:induction false} SeedBooksIdempotent(s: State<Book>, categories: map<int, Category>)
    ensures var r := SeedBooks(s, categories);
            r.Some? ==> SeedBooks(r.value, categories) == r
  {
    if s.rows == map[] {
      var fiction := FindOne(categories, "Fiction");
      var nonFiction := FindOne(categories, "Non-Fiction");
      if !(fiction.Ambiguous? || nonFiction.Ambiguous?) {
        var mid := AddFiction(s, fiction.found);
        var t := AddNonFiction(mid, nonFiction.found);
        if nonFiction.found.Some? {
          InsertAdds(mid, Sapiens(nonFiction.found.value), WithBookId);
        } else if fiction.found.Some? {
          InsertAdds(Insert(s, Gatsby(fiction.found.value), WithBookId), Mockingbird(fiction.found.value), WithBookId);
        }
      }
    }
  }

  /** A second run changes nothing and ends the same way as the first. */
  lemma {:induction false} SeedIdempotent(s: Seeded, encode: string -> string, defaultRole: Role, categoryActive: bool)
    ensures var (t, ok) := Seed(s, encode, defaultRole, categoryActive);
            Seed(t, encode, defaultRole, categoryActive) == (t, ok)
  {
    SeedUsersIdempotent(s.users, encode, defaultRole);
    SeedCategoriesIdempotent(s.categories, categoryActive);
    SeedBooksIdempotent(s.books, SeedCategories(s.categories, categoryActive).rows);
    SeedBooksIdempotent(s.books, SeedCategories(SeedCategories(s.categories, categoryActive), categoryActive).rows);
  }

  lemma NewFictionBooks(s: State<Book>, fiction: Option<Category>)
    ensures var t := AddFiction(s, fiction);
            forall k :: k in t.rows && k !in s.rows ==> t.rows[k].published && t.rows[k].category == fiction
  {
    if fiction.Some? {
      var mid := Insert(s, Gatsby(fiction.value), WithBookId);
      InsertAdds(s, Gatsby(fiction.value), WithBookId);
      InsertAdds(mid, Mockingbird(fiction.value), WithBookId);
    }
  }

  lemma NewNonFictionBooks(s: State<Book>, nonFiction: Option<Category>)
    ensures var t := AddNonFiction(s, nonFiction);
            forall k :: k in t.rows && k !in s.rows ==> t.rows[k].published && t.rows[k].category == nonFiction
  {
    if nonFiction.Some? {
      InsertAdds(s, Sapiens(nonFiction.value), WithBookId);
    }
  }

  /** The books both steps add are published and carry one of the two categories found. */
  lemma {:induction false} NewBooks(s: State<Book>, fiction: Option<Category>, nonFiction: Option<Category>)
    ensures var t := AddNonFiction(AddFiction(s, fiction), nonFiction);
            forall k :: k in t.rows && k !in s.rows ==>
              t.rows[k].published && t.rows[k].category.Some?
              && (t.rows[k].category == fiction || t.rows[k].category == nonFiction)
  {
    var mid := AddFiction(s, fiction);
    var t := AddNonFiction(mid, nonFiction);
    NewFictionBooks(s, fiction);
    NewNonFictionBooks(mid, nonFiction);
    forall k | k in t.rows && k !in s.rows
      ensures t.rows[k].published && t.rows[k].category.Some?
      ensures t.rows[k].category == fiction || t.rows[k].category == nonFiction
    {
      if nonFiction.Some? && k == mid.nextId {
        assert t.rows[k] == WithBookId(Sapiens(nonFiction.value), k);
      } else {
        assert k in mid.rows && t.rows[k] == mid.rows[k];
      }
    }
  }

  /**
   * Every book the seeding adds is published and carries a category that the
   * category table it was seeded against holds (`Seed` passes the category table
   * as seeded in the same run).
   */
  lemma {:induction false} SeededBooksHaveStoredCategories(s: State<Book>, categories: map<int, Category>)
    ensures var r := SeedBooks(s, categories);
            r.Some? ==> forall k :: k in r.value.rows && k !in s.rows ==>
              r.value.rows[k].published && r.value.rows[k].category.Some?
              && r.value.rows[k].category.value in categories.Values
  {
    var fiction := FindOne(categories, "Fiction");
    var nonFiction := FindOne(categories, "Non-Fiction");
    if s.rows == map[] && !(fiction.Ambiguous? || nonFiction.Ambiguous?) {
      NewBooks(s, fiction.found, nonFiction.found);
    }
  }

  /**
   * On empty tables the run succeeds: the users and categories are seeded, and the
   * two fiction books and the non-fiction book go in with the categories just
   * seeded under the counter's first two ids (see `FreshUsers`, `FreshCategories`
   * and `FreshBooks` for what each table then holds).
   */
  lemma FreshStoreSeed(s: Seeded, encode: string -> string, defaultRole: Role, categoryActive: bool)
    requires s.users.rows == map[] && s.categories.rows == map[] && s.books.rows == map[]
    ensures var categories := SeedCategories(s.categories, categoryActive);
            var n := s.categories.nextId;
            && n in categories.rows && n + 1 in categories.rows
            && Seed(s, encode, defaultRole, categoryActive)
               == (Seeded(SeedUsers(s.users, encode, defaultRole), categories,
                          AddNonFiction(AddFiction(s.books, Some(categories.rows[n])), Some(categories.rows[n + 1]))),
                   true)
  {
    FreshCategories(s.categories, categoryActive);
  }

  /** The three categories seeded into an empty table, in which each lookup the book seeding makes finds one row. */
  lemma FreshCategories(s: State<Category>, active: bool)
    requires s.rows == map[]
    ensures var categories := SeedCategories(s, active).rows;
            && |categories| == 3
            && s.nextId in categories && s.nextId + 1 in categories
            && categories[s.nextId].name == "Fiction" && categories[s.nextId + 1].name == "Non-Fiction"
            && FindOne(categories, "Fiction") == Unique(Some(categories[s.nextId]))
            && FindOne(categories, "Non-Fiction") == Unique(Some(categories[s.nextId + 1]))
  {
    var n := s.nextId;
    assert SeedCategories(s, active).rows == map[n := FictionCategory(active).(id := Some(n)),
                             n + 1 := NonFictionCategory(active).(id := Some(n + 1)),
                             n + 2 := ScienceCategory(active).(id := Some(n + 2))];
    FindOneFresh(n, active);
  }

  lemma FreshUsers(s: State<User>, encode: string -> string, defaultRole: Role)
    requires s.rows == map[]
    ensures var t := SeedUsers(s, encode, defaultRole);
            && |t.rows| == 2 && t.rows[s.nextId] == AdminUser(encode).(id := Some(s.nextId))
            && t.rows[s.nextId + 1] == RegularUser(encode, defaultRole).(id := Some(s.nextId + 1))
  {
  }

  /** Into an empty book table go two fiction books and then one non-fiction book, all published. */
  lemma FreshBooks(s: State<Book>, fiction: Category, nonFiction: Category)
    requires s.rows == map[]
    ensures var t := AddNonFiction(AddFiction(s, Some(fiction)), Some(nonFiction));
            && |t.rows| == 3
            && t.rows[s.nextId].category == Some(fiction) && t.rows[s.nextId + 1].category == Some(fiction)
            && t.rows[s.nextId + 2].category == Some(nonFiction)
            && (forall k :: k in t.rows ==> t.rows[k].published)
  {
    var n := s.nextId;
    var b1 := Insert(s, Gatsby(fiction), WithBookId);
    var b2 := Insert(b1, Mockingbird(fiction), WithBookId);
    var t := Insert(b2, Sapiens(nonFiction), WithBookId);
    assert b1.rows == map[n := WithBookId(Gatsby(fiction), n)];
    assert |b2.rows| == 2 && b2.rows[n] == b1.rows[n];
    assert |t.rows| == 3 && t.rows[n] == b1.rows[n] && t.rows[n + 1] == b2.rows[n + 1];
  }

  /** In the freshly seeded categories, "Fiction" and "Non-Fiction" each name exactly one row. */
  lemma FindOneFresh(n: int, active: bool)
    ensures var categories := map[n := FictionCategory(active).(id := Some(n)),
                                  n + 1 := NonFictionCategory(active).(id := Some(n + 1)),
                                  n + 2 := ScienceCategory(active).(id := Some(n + 2))];
            && FindOne(categories, "Fiction") == Unique(Some(categories[n]))
            && FindOne(categories, "Non-Fiction") == Unique(Some(categories[n + 1]))
  {
    var categories := map[n := FictionCategory(active).(id := Some(n)),
                          n + 1 := NonFictionCategory(active).(id := Some(n + 1)),
                          n + 2 := ScienceCategory(active).(id := Some(n + 2))];
    assert FindByName(categories, "Fiction") == map[n := categories[n]];
    assert FindByName(categories, "Non-Fiction") == map[n + 1 := categories[n + 1]];
  }

  /** `DataInitializer`: the three repositories it writes and the password encoder it uses. */
  class DataInitializer {
    const users: Table<User>
    const categories: Table<Category>
    const books: Table<Book>
    /** `PasswordEncoder.encode` */
    const encode: string -> string
    /** The role and the active flag a new user and a new category start with. */
    const defaultRole: Role
    const categoryActive: bool

    ghost predicate Valid()
      reads this, users, categories, books
    {
      && users.Valid() && categories.Valid() && books.Valid()
      && (forall u :: users.idOf(u) == u.id) && (forall u, k :: users.withId(u, k) == WithUserId(u, k))
      && (forall c :: categories.idOf(c) == c.id) && (forall c, k :: categories.withId(c, k) == WithCategoryId(c, k))
      && (forall b :: books.idOf(b) == b.id) && (forall b, k :: books.withId(b, k) == WithBookId(b, k))
    }

    ghost function Tables(): Seeded
      reads this, users, categories, books
    {
      Seeded(users.Contents(), categories.Contents(), books.Contents())
    }

    constructor(users: Table<User>, categories: Table<Category>, books: Table<Book>,
                encode: string -> string, defaultRole: Role, categoryActive: bool)
      ensures this.users == users && this.categories == categories && this.books == books
      ensures this.encode == encode && this.defaultRole == defaultRole && this.categoryActive == categoryActive
    {
      this.users := users;
      this.categories := categories;
      this.books := books;
      this.encode := encode;
      this.defaultRole := defaultRole;
      this.categoryActive := categoryActive;
    }

    /** `run()`: `ok` is false when a category lookup throws. */
    method Run() returns (ok: bool)
      requires Valid()
      modifies users, categories, books
      ensures Valid()
      ensures (Tables(), ok) == Seed(old(Tables()), encode, defaultRole, categoryActive)
    {
      SeedUserTable();
      SeedCategoryTable();
      ok := SeedBookTable();
    }

    /** The sample users, when the user table is empty. */
    method SeedUserTable()
      requires Valid()
      modifies users
      ensures Valid()
      ensures users.Contents() == SeedUsers(old(users.Contents()), encode, defaultRole)
    {
      if users.Count() == 0 {
        InsertUser(AdminUser(encode));
        InsertUser(RegularUser(encode, defaultRole));
      }
    }

    /** The sample categories, when the category table is empty. */
    method SeedCategoryTable()
      requires Valid()
      modifies categories
      ensures Valid()
      ensures categories.Contents() == SeedCategories(old(categories.Contents()), categoryActive)
    {
      if categories.Count() == 0 {
        InsertCategory(FictionCategory(categoryActive));
        InsertCategory(NonFictionCategory(categoryActive));
        InsertCategory(ScienceCategory(categoryActive));
      }
    }

    /** `save` of a user without an id: it goes in under the counter's next id. */
    method InsertUser(u: User)
      requires Valid() && u.id == None
      modifies users
      ensures Valid()
      ensures users.Contents() == Insert(old(users.Contents()), u, WithUserId)
    {
      var saved := users.Save(u);
    }

    /** `save` of a category without an id: it goes in under the counter's next id. */
    method InsertCategory(c: Category)
      requires Valid() && c.id == None
      modifies categories
      ensures Valid()
      ensures categories.Contents() == Insert(old(categories.Contents()), c, WithCategoryId)
    {
      var saved := categories.Save(c);
    }

    /** `save` of a book without an id: it goes in under the counter's next id. */
    method InsertBook(b: Book)
      requires Valid() && b.id == None
      modifies books
      ensures Valid()
      ensures books.Contents() == Insert(old(books.Contents()), b, WithBookId)
    {
      var saved := books.Save(b);
    }

    /** The sample books, when the book table is empty; false when a lookup throws. */
    method SeedBookTable() returns (ok: bool)
      requires Valid()
      modifies books
      ensures Valid()
      ensures var r := SeedBooks(old(books.Contents()), categories.rows);
              ok == r.Some? && books.Contents() == (if r.Some? then r.value else old(books.Contents()))
    {
      if books.Count() != 0 {
        return true;
      }
      var fiction := FindCategory(categories.rows, "Fiction");
      if fiction.Ambiguous? {
        return false;
      }
      var nonFiction := FindCategory(categories.rows, "Non-Fiction");
      if nonFiction.Ambiguous? {
        return false;
      }
      AddFictionBooks(fiction.found);
      AddNonFictionBooks(nonFiction.found);
      ok := true;
    }

    /** The two fiction books, when the fiction category was found. */
    method AddFictionBooks(fiction: Option<Category>)
      requires Valid()
      modifies books
      ensures Valid()
      ensures books.Contents() == AddFiction(old(books.Contents()), fiction)
    {
      if fiction.Some? {
        InsertBook(Gatsby(fiction.value));
        InsertBook(Mockingbird(fiction.value));
      }
    }

    /** The non-fiction book, when the non-fiction category was found. */
    method AddNonFictionBooks(nonFiction: Option<Category>)
      requires Valid()
      modifies books
      ensures Valid()
      ensures books.Contents() == AddNonFiction(old(books.Contents()), nonFiction)
    {
      if nonFiction.Some? {
        InsertBook(Sapiens(nonFiction.value));
      }
    }
  }

  /** `findByName(name).orElse(null)`, with `Ambiguous` for the exception several matches raise. */
  method FindCategory(rows: map<int, Category>, name: string) returns (r: Lookup)
    ensures r == FindOne(rows, name)
  {
    var m := FindByName(rows, name);
    if |m| > 1 {
      return Ambiguous;
    } else if |m| == 0 {
      return Unique(None);
    }
    SomeKey(m);
    var k :| k in m;
    ghost var j :| j in m && m[j] == Sole(m);
    SoleKey(m, k, j);
    r := Unique(Some(m[k]));
  }
}
