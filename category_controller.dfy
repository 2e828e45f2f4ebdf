/** `/categories`: CRUD over the category table, the name searches and the active list. */
module CategoryController {
  import opened Wrappers
  import opened Entities
  import opened Store
  import opened Web
  import opened CategoryRepository
  import Text

  /** `searchCategories(name)`: a non-empty name filters by substring, else every category. */
  function CategorySearch(rows: map<int, Category>, name: Option<string>): (r: map<int, Category>)
    ensures forall k :: k in r ==> k in rows && r[k] == rows[k]
  {
    if name.Some? && name.value != "" then FindByNameContainingIgnoreCase(rows, name.value) else rows
  }

  /** The search keeps exactly the categories whose name contains a non-empty query, and all of them for none. */
  lemma CategorySearchMatches(rows: map<int, Category>, name: Option<string>)
    ensures CategorySearch(rows, name).Keys <= rows.Keys
    ensures name.Some? && name.value != "" ==>
              forall k :: k in CategorySearch(rows, name) <==> k in rows && Text.ContainsIgnoreCase(rows[k].name, name.value)
    ensures name.None? || name.value == "" ==> CategorySearch(rows, name) == rows
  {
  }

  class CategoryController {
    const categories: Table<Category>

    ghost predicate Valid()
      reads this, categories
    {
      && categories.Valid()
      && (forall c :: categories.idOf(c) == c.id)
      && (forall c, k :: categories.withId(c, k) == c.(id := Some(k)))
    }

    constructor(categories: Table<Category>)
      ensures this.categories == categories
    {
      this.categories := categories;
    }

    /** `GET /categories` */
    method GetAll() returns (r: Response<map<int, Category>>)
      ensures r == Ok(categories.rows)
    {
      r := Ok(categories.rows);
    }

    /** `GET /categories/{id}`: the stored category, which carries that id, or not found. */
    method GetById(id: int) returns (r: Response<Category>)
      requires Valid()
      ensures id in categories.rows ==> r == Ok(categories.rows[id]) && r.body.id == Some(id)
      ensures id !in categories.rows ==> r == NotFound
    {
      var found := categories.FindById(id);
      r := if found.Some? then Ok(found.value) else NotFound;
    }

    /** `POST /categories`: save the body as it came. */
    method Create(category: Category) returns (r: Response<Category>)
      requires Valid()
      modifies categories
      ensures Valid() && r.Ok?
      ensures if category.id.Some? && category.id.value in old(categories.rows) then
                r.body == category && categories.rows == old(categories.rows)[category.id.value := category]
                && categories.nextId == old(categories.nextId)
              else
                r.body == category.(id := Some(old(categories.nextId)))
                && categories.Contents() == Insert(old(categories.Contents()), category, categories.withId)
    {
      var saved := categories.Save(category);
      r := Ok(saved);
    }

    /** `PUT /categories/{id}`: not found and unchanged, or the body under the path's id replaces that row. */
    method Update(id: int, category: Category) returns (r: Response<Category>)
      requires Valid()
      modifies categories
      ensures Valid()
      ensures id !in old(categories.rows) ==> r == NotFound && categories.Contents() == old(categories.Contents())
      ensures id in old(categories.rows) ==>
                r == Ok(category.(id := Some(id)))
                && categories.rows == old(categories.rows)[id := category.(id := Some(id))]
                && categories.nextId == old(categories.nextId)
    {
      if !(id in categories.rows) {
        return NotFound;
      }
      var saved := categories.Save(category.(id := Some(id)));
      r := Ok(saved);
    }

    /** `DELETE /categories/{id}`: not found and unchanged, or exactly that row removed. */
    method Delete(id: int) returns (r: Response<()>)
      requires Valid()
      modifies categories
      ensures Valid()
      ensures id !in old(categories.rows) ==> r == NotFound && categories.Contents() == old(categories.Contents())
      ensures id in old(categories.rows) ==>
                r == Ok(()) && categories.rows == old(categories.rows) - {id} && categories.nextId == old(categories.nextId)
    {
      if !(id in categories.rows) {
        return NotFound;
      }
      categories.DeleteById(id);
      r := Ok(());
    }

    /** `GET /categories/search?name=` */
    method Search(name: Option<string>) returns (r: Response<map<int, Category>>)
      ensures r == Ok(CategorySearch(categories.rows, name))
    {
      if name.Some? && name.value != "" {
        r := Ok(FindByNameContainingIgnoreCase(categories.rows, name.value));
      } else {
        r := Ok(categories.rows);
      }
    }

    /** `GET /categories/search/query?q=` */
    method SearchByQuery(q: string) returns (r: Response<map<int, Category>>)
      ensures r == Ok(SearchCategories(categories.rows, q))
    {
      r := Ok(SearchCategories(categories.rows, q));
    }

    /** `GET /categories/active`: the categories whose flag is set. */
    method GetActive() returns (r: Response<map<int, Category>>)
      ensures r.Ok? && r.body.Keys <= categories.rows.Keys
      ensures forall k :: k in r.body <==> k in categories.rows && categories.rows[k].isActive
    {
      r := Ok(FindByIsActive(categories.rows, true));
    }
  }
}
