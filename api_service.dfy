/**
 * The shared API client: one axios instance rooted at the backend, an interceptor
 * that adds the bearer token to every request, an interceptor that signs the
 * user out on a 401 answer, and the table of calls the pages make through it.
 */
module ApiService {
  import opened Wrappers
  import opened Values
  import opened Http
  import Auth

  const BaseUrl: string := "http://localhost:8080/api"

  /** The headers every request starts with. */
  const DefaultHeaders: Record := [Field("Content-Type", Str("application/json"))]

  datatype Resource = Users | Books | Categories | Apis

  function Segment(res: Resource): string {
    match res
    case Users => "users"
    case Books => "books"
    case Categories => "categories"
    case Apis => "apis"
  }

  /** One entry of the `ApiService` table, with its arguments. */
  datatype Call =
    | SignIn(credentials: Value)
    | SignUp(userData: Value)
    | GetAll(res: Resource)
    | GetById(res: Resource, id: Value)
    | Create(res: Resource, body: Value)
    | Update(res: Resource, id: Value, body: Value)
    | Delete(res: Resource, id: Value)
    | SearchBooks(params: Record)
    | SearchBooksByQuery(query: Value)
    | SearchCategories(params: Record)
    | SearchCategoriesByQuery(query: Value)
    | GetActiveCategories
    | GetActiveApis
    | GetApisByMethod(httpMethod: Value)

  /** What the client sends for a call: verb, path under `BaseUrl`, query parameters and body. */
  datatype Route = Route(verb: Verb, path: string, params: Record, body: Option<Value>)

  function Collection(res: Resource): string {
    "/" + Segment(res)
  }

  /** A path with an interpolated segment: `/${collection}/${id}`. */
  function Item(collection: string, id: Value): string {
    collection + "/" + JsString(id)
  }

  function RouteOf(c: Call): Route {
    match c
    case SignIn(credentials) => Route(POST, "/auth/signin", [], Some(credentials))
    case SignUp(userData) => Route(POST, "/auth/signup", [], Some(userData))
    case GetAll(res) => Route(GET, Collection(res), [], None)
    case GetById(res, id) => Route(GET, Item(Collection(res), id), [], None)
    case Create(res, body) => Route(POST, Collection(res), [], Some(body))
    case Update(res, id, body) => Route(PUT, Item(Collection(res), id), [], Some(body))
    case Delete(res, id) => Route(DELETE, Item(Collection(res), id), [], None)
    case SearchBooks(params) => Route(GET, "/books/search", params, None)
    case SearchBooksByQuery(query) => Route(GET, "/books/search/query", [Field("q", query)], None)
    case SearchCategories(params) => Route(GET, "/categories/search", params, None)
    case SearchCategoriesByQuery(query) => Route(GET, "/categories/search/query", [Field("q", query)], None)
    case GetActiveCategories => Route(GET, "/categories/active", [], None)
    case GetActiveApis => Route(GET, "/apis/active", [], None)
    case GetApisByMethod(m) => Route(GET, Item("/apis/method", m), [], None)
  }

  /** The record ids the pages pass are numbers, as the backend assigns them. */
  predicate NumericIds(c: Call) {
    (c.GetById? || c.Update? || c.Delete?) ==> c.id.Num?
  }

  /** The resource a call addresses, when it is one of the five record operations. */
  predicate IsRecordCall(c: Call) {
    c.GetAll? || c.GetById? || c.Create? || c.Update? || c.Delete?
  }

  /** The characters of a numeral. */
  predicate NumeralChar(ch: char) {
    '0' <= ch <= '9' || ch == '-'
  }

  lemma DecimalChars(n: int)
    ensures Decimal(n) != [] && forall i :: 0 <= i < |Decimal(n)| ==> NumeralChar(Decimal(n)[i])
  {
  }

  /** Two item paths under collections are equal only for the same collection and the same id. */
  lemma {:induction false} ItemPathInjective(r1: Resource, r2: Resource, n1: int, n2: int)
    requires Item(Collection(r1), Num(n1)) == Item(Collection(r2), Num(n2))
    ensures r1 == r2 && n1 == n2
  {
    var p := Item(Collection(r1), Num(n1));
    assert p[1] == Segment(r1)[0] && p[1] == Segment(r2)[0];
    var k := |Segment(r1)| + 2;
    assert p[k..] == Decimal(n1) && p[k..] == Decimal(n2);
    DecimalInjective(n1, n2);
  }

  /** An item path is never a collection path: it is longer than `/` plus the segment. */
  lemma ItemIsNotCollection(r1: Resource, r2: Resource, n: int)
    ensures Item(Collection(r1), Num(n)) != Collection(r2)
  {
    var p := Item(Collection(r1), Num(n));
    DecimalChars(n);
    assert p[1] == Segment(r1)[0] && Collection(r2)[1] == Segment(r2)[0];
    if r1 == r2 {
      assert |p| > |Collection(r2)|;
    }
  }

  /**
   * The five record operations never share a verb and path: with numeric ids, the
   * request identifies the operation, the resource and the id.
   */
  lemma RecordRoutesDistinct(c1: Call, c2: Call)
    requires IsRecordCall(c1) && IsRecordCall(c2) && NumericIds(c1) && NumericIds(c2)
    requires RouteOf(c1).verb == RouteOf(c2).verb && RouteOf(c1).path == RouteOf(c2).path
    ensures c1.res == c2.res
    ensures (c1.GetAll? <==> c2.GetAll?) && (c1.GetById? <==> c2.GetById?) && (c1.Create? <==> c2.Create?)
    ensures (c1.Update? <==> c2.Update?) && (c1.Delete? <==> c2.Delete?)
    ensures (c1.GetById? || c1.Update? || c1.Delete?) ==> c1.id == c2.id
  {
    if c1.GetAll? && c2.GetById? {
      ItemIsNotCollection(c2.res, c1.res, c2.id.n);
    } else if c1.GetById? && c2.GetAll? {
      ItemIsNotCollection(c1.res, c2.res, c1.id.n);
    } else if c1.GetAll? || c1.Create? {
      assert Collection(c1.res)[1] == Collection(c2.res)[1];
    } else {
      ItemPathInjective(c1.res, c2.res, c1.id.n, c2.id.n);
    }
  }

  /** The request interceptor's rule: a bearer header when the token is truthy, otherwise the headers as they were. */
  function WithAuthorization(headers: Record, token: Value): (h: Record)
    ensures Truthy(token) ==> Lookup(h, "Authorization") == Str("Bearer " + JsString(token))
    ensures forall k :: k != "Authorization" ==> Lookup(h, k) == Lookup(headers, k)
    ensures !Truthy(token) ==> h == headers
  {
    if Truthy(token) then Put(headers, "Authorization", Str("Bearer " + JsString(token))) else headers
  }

  /**
   * The header the interceptor adds is the one the auth service's `getAuthHeader`
   * describes, and it is absent in both exactly when nobody is signed in.
   */
  lemma InterceptorAgreesWithAuthHeader(auth: Auth.AuthService)
    ensures Lookup(WithAuthorization(DefaultHeaders, auth.GetToken()), "Authorization")
         == Lookup(auth.GetAuthHeader(), "Authorization")
  {
  }

  /** A request being prepared: the interceptor rewrites its headers in place. */
  class RequestConfig {
    var headers: Record

    constructor(headers: Record)
      ensures this.headers == headers
    {
      this.headers := headers;
    }
  }

  /** A request as it leaves the browser. */
  datatype HttpRequest = HttpRequest(verb: Verb, url: string, params: Record, body: Option<Value>, headers: Record)

  class ApiClient {
    const auth: Auth.AuthService

    constructor(auth: Auth.AuthService)
      ensures this.auth == auth
    {
      this.auth := auth;
    }

    /** The request interceptor. */
    method OnRequest(config: RequestConfig)
      modifies config
      ensures config.headers == WithAuthorization(old(config.headers), auth.GetToken())
    {
      var token := auth.GetToken();
      if Truthy(token) {
        config.headers := Put(config.headers, "Authorization", Str("Bearer " + JsString(token)));
      }
    }

    /**
     * The response interceptor: answers pass through; every error is rethrown,
     * and a 401 answer signs the user out first.
     */
    method OnResponse(reply: Reply) returns (outcome: Outcome)
      modifies auth`session
      ensures reply.Replied? ==> outcome == Resolved(reply.data) && auth.session == old(auth.session)
      ensures reply.Failed? ==> outcome == Rejected(reply.error)
      ensures reply.Failed? && reply.error.HttpError? && reply.error.status == Some(401) ==> auth.session == None
      ensures !(reply.Failed? && reply.error.HttpError? && reply.error.status == Some(401)) ==> auth.session == old(auth.session)
    {
      if reply.Replied? {
        outcome := Resolved(reply.data);
      } else {
        if reply.error.HttpError? && reply.error.status == Some(401) {
          auth.Logout();
        }
        outcome := Rejected(reply.error);
      }
    }

    /** One call through the client: route, interceptors, and the backend's reply as a parameter. */
    method Send(c: Call, reply: Reply) returns (request: HttpRequest, outcome: Outcome)
      modifies auth`session
      ensures request.verb == RouteOf(c).verb && request.url == BaseUrl + RouteOf(c).path
      ensures request.params == RouteOf(c).params && request.body == RouteOf(c).body
      ensures request.headers == WithAuthorization(DefaultHeaders, old(auth.GetToken()))
      ensures reply.Replied? ==> outcome == Resolved(reply.data) && auth.session == old(auth.session)
      ensures reply.Failed? ==> outcome == Rejected(reply.error)
      ensures reply.Failed? && reply.error.HttpError? && reply.error.status == Some(401) ==> auth.session == None
      ensures !(reply.Failed? && reply.error.HttpError? && reply.error.status == Some(401)) ==> auth.session == old(auth.session)
    {
      var route := RouteOf(c);
      var config := new RequestConfig(DefaultHeaders);
      OnRequest(config);
      request := HttpRequest(route.verb, BaseUrl + route.path, route.params, route.body, config.headers);
      outcome := OnResponse(reply);
    }
  }
}
