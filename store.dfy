/**
 * A JPA repository's table: records by id, and the identity counter that
 * numbers the next inserted record.
 */
module Store {
  import opened Wrappers

  /** A table's contents: the rows by id and the next id the counter hands out. */
  datatype State<T> = State(rows: map<int, T>, nextId: int)

  /** Ids already handed out are below the counter. */
  ghost predicate Numbered<T>(s: State<T>) {
    forall k :: k in s.rows ==> k < s.nextId
  }

  /** Inserting a new record: it takes the counter's id, and the counter moves on. */
  function Insert<T>(s: State<T>, e: T, withId: (T, int) -> T): (r: State<T>)
    ensures s.nextId !in s.rows ==> |r.rows| == |s.rows| + 1
    ensures r.rows == s.rows[s.nextId := withId(e, s.nextId)] && r.nextId == s.nextId + 1
    ensures Numbered(s) ==> Numbered(r)
  {
    State(s.rows[s.nextId := withId(e, s.nextId)], s.nextId + 1)
  }

  /** `JpaRepository` over one entity type. */
  class Table<T(!new)> {
    var rows: map<int, T>
    var nextId: int
    /** The entity's id, and the entity with its id set. */
    const idOf: T -> Option<int>
    const withId: (T, int) -> T

    ghost predicate Valid()
      reads this
    {
      && (forall e, k :: idOf(withId(e, k)) == Some(k))
      && (forall k :: k in rows ==> k < nextId && idOf(rows[k]) == Some(k))
    }

    /** An empty table whose counter starts at 1. */
    constructor(idOf: T -> Option<int>, withId: (T, int) -> T)
      requires forall e, k :: idOf(withId(e, k)) == Some(k)
      ensures Valid() && rows == map[] && nextId == 1
      ensures this.idOf == idOf && this.withId == withId
    {
      this.idOf := idOf;
      this.withId := withId;
      rows := map[];
      nextId := 1;
    }

    function Contents(): State<T>
      reads this
    {
      State(rows, nextId)
    }

    /** `count()` */
    function Count(): (n: nat)
      reads this
      ensures n == 0 <==> rows == map[]
    {
      |rows|
    }

    /** `findById(id)` */
    function FindById(id: int): (r: Option<T>)
      reads this
      ensures r.Some? <==> id in rows
      ensures r.Some? ==> r.value == rows[id]
    {
      if id in rows then Some(rows[id]) else None
    }

    /**
     * `save(e)`: a record whose id is stored replaces that row; any other record
     * is inserted under the next id. Every row keeps carrying its own id.
     */
    method Save(e: T) returns (saved: T)
      requires Valid()
      modifies this`rows, this`nextId
      ensures Valid()
      ensures idOf(e).Some? && idOf(e).value in old(rows) ==>
                saved == e && rows == old(rows)[idOf(e).value := e] && nextId == old(nextId)
      ensures !(idOf(e).Some? && idOf(e).value in old(rows)) ==>
                saved == withId(e, old(nextId)) && Contents() == Insert(old(Contents()), e, withId)
      ensures idOf(saved).Some? && idOf(saved).value in rows && rows[idOf(saved).value] == saved
    {
      if idOf(e).Some? && idOf(e).value in rows {
        rows := rows[idOf(e).value := e];
        saved := e;
      } else {
        saved := withId(e, nextId);
        rows := rows[nextId := saved];
        nextId := nextId + 1;
      }
    }

    /** `deleteById(id)`: removes that row only. */
    method DeleteById(id: int)
      requires Valid()
      modifies this`rows
      ensures Valid()
      ensures rows == old(rows) - {id}
    {
      rows := rows - {id};
    }
  }
}
