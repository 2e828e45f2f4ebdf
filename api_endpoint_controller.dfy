/** `/apis`: CRUD over the endpoint table, the active list and the lookup by HTTP method. */
module ApiEndpointController {
  import opened Wrappers
  import opened Entities
  import opened Store
  import opened Web
  import opened ApiEndpointRepository
  import Text

  class ApiEndpointController {
    const endpoints: Table<ApiEndpoint>

    ghost predicate Valid()
      reads this, endpoints
    {
      && endpoints.Valid()
      && (forall e :: endpoints.idOf(e) == e.id)
      && (forall e, k :: endpoints.withId(e, k) == e.(id := Some(k)))
    }

    constructor(endpoints: Table<ApiEndpoint>)
      ensures this.endpoints == endpoints
    {
      this.endpoints := endpoints;
    }

    /** `GET /apis` */
    method GetAll() returns (r: Response<map<int, ApiEndpoint>>)
      ensures r == Ok(endpoints.rows)
    {
      r := Ok(endpoints.rows);
    }

    /** `GET /apis/{id}`: the stored endpoint, which carries that id, or not found. */
    method GetById(id: int) returns (r: Response<ApiEndpoint>)
      requires Valid()
      ensures id in endpoints.rows ==> r == Ok(endpoints.rows[id]) && r.body.id == Some(id)
      ensures id !in endpoints.rows ==> r == NotFound
    {
      var found := endpoints.FindById(id);
      r := if found.Some? then Ok(found.value) else NotFound;
    }

    /** `POST /apis`: save the body as it came. */
    method Create(endpoint: ApiEndpoint) returns (r: Response<ApiEndpoint>)
      requires Valid()
      modifies endpoints
      ensures Valid() && r.Ok?
      ensures if endpoint.id.Some? && endpoint.id.value in old(endpoints.rows) then
                r.body == endpoint && endpoints.rows == old(endpoints.rows)[endpoint.id.value := endpoint]
                && endpoints.nextId == old(endpoints.nextId)
              else
                r.body == endpoint.(id := Some(old(endpoints.nextId)))
                && endpoints.Contents() == Insert(old(endpoints.Contents()), endpoint, endpoints.withId)
    {
      var saved := endpoints.Save(endpoint);
      r := Ok(saved);
    }

    /** `PUT /apis/{id}`: not found and unchanged, or the body under the path's id replaces that row. */
    method Update(id: int, endpoint: ApiEndpoint) returns (r: Response<ApiEndpoint>)
      requires Valid()
      modifies endpoints
      ensures Valid()
      ensures id !in old(endpoints.rows) ==> r == NotFound && endpoints.Contents() == old(endpoints.Contents())
      ensures id in old(endpoints.rows) ==>
                r == Ok(endpoint.(id := Some(id)))
                && endpoints.rows == old(endpoints.rows)[id := endpoint.(id := Some(id))]
                && endpoints.nextId == old(endpoints.nextId)
    {
      if !(id in endpoints.rows) {
        return NotFound;
      }
      var saved := endpoints.Save(endpoint.(id := Some(id)));
      r := Ok(saved);
    }

    /** `DELETE /apis/{id}`: not found and unchanged, or exactly that row removed. */
    method Delete(id: int) returns (r: Response<()>)
      requires Valid()
      modifies endpoints
      ensures Valid()
      ensures id !in old(endpoints.rows) ==> r == NotFound && endpoints.Contents() == old(endpoints.Contents())
      ensures id in old(endpoints.rows) ==>
                r == Ok(()) && endpoints.rows == old(endpoints.rows) - {id} && endpoints.nextId == old(endpoints.nextId)
    {
      if !(id in endpoints.rows) {
        return NotFound;
      }
      endpoints.DeleteById(id);
      r := Ok(());
    }

    /** `GET /apis/active`: the endpoints whose flag is set. */
    method GetActive() returns (r: Response<map<int, ApiEndpoint>>)
      ensures r.Ok? && r.body.Keys <= endpoints.rows.Keys
      ensures forall k :: k in r.body <==> k in endpoints.rows && endpoints.rows[k].isActive
    {
      r := Ok(FindByIsActiveTrue(endpoints.rows));
    }

    /** `GET /apis/method/{method}`: the endpoints whose method matches, whatever the letter case. */
    method GetByMethod(httpMethod: string) returns (r: Response<map<int, ApiEndpoint>>)
      ensures r.Ok? && r.body.Keys <= endpoints.rows.Keys
      ensures forall k :: k in r.body <==>
                k in endpoints.rows && Text.Upper(endpoints.rows[k].httpMethod) == Text.Upper(httpMethod)
    {
      r := Ok(FindByMethodIgnoreCase(endpoints.rows, httpMethod));
    }
  }
}
