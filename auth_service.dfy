/**
 * The authentication service: posts credentials to the auth endpoints and keeps
 * the signed-in user under the `'user'` key of the browser's local storage.
 */
module Auth {
  import opened Wrappers
  import opened Values
  import opened Http

  const AuthUrl: string := "http://localhost:8080/api/auth/"

  /** A request the service posts directly, outside the shared API client. */
  datatype PostRequest = PostRequest(url: string, body: Value)

  class AuthService {
    /** The `'user'` entry of local storage, as `JSON.parse` reads it back; `None` when absent. */
    var session: Option<Value>

    /** Only a response carrying a truthy access token is ever stored. */
    ghost predicate Valid()
      reads this
    {
      session.Some? ==> Truthy(Member(session.value, "accessToken"))
    }

    /** The service as a page load finds it, with whatever a previous visit stored. */
    constructor(stored: Option<Value>)
      ensures session == stored
    {
      session := stored;
    }

    /**
     * `login(username, password)`: the session is stored only when the answer
     * carries a truthy access token, and a failed request leaves it untouched.
     */
    method Login(username: string, password: string, reply: Reply) returns (sent: PostRequest, outcome: Outcome)
      modifies this`session
      ensures sent == PostRequest(AuthUrl + "signin", Obj([Field("username", Str(username)), Field("password", Str(password))]))
      ensures reply.Failed? ==> outcome == Rejected(reply.error) && session == old(session)
      ensures reply.Replied? && Nullish(reply.data) ==> outcome == Rejected(TypeError) && session == old(session)
      ensures reply.Replied? && !Nullish(reply.data) ==> outcome == Resolved(reply.data)
      ensures reply.Replied? && !Nullish(reply.data) && Truthy(Member(reply.data, "accessToken")) ==>
                session == Some(JsonRoundTrip(reply.data))
      ensures reply.Replied? && !Truthy(Member(reply.data, "accessToken")) ==> session == old(session)
      ensures old(Valid()) ==> Valid()
    {
      sent := PostRequest(AuthUrl + "signin", Obj([Field("username", Str(username)), Field("password", Str(password))]));
      if reply.Failed? {
        outcome := Rejected(reply.error);
      } else if Nullish(reply.data) {
        outcome := Rejected(TypeError);
      } else {
        var token := Member(reply.data, "accessToken");
        if Truthy(token) {
          RoundTripTruthy(token);
          RoundTripLookup(reply.data.fields, "accessToken");
          session := Some(JsonRoundTrip(reply.data));
        }
        outcome := Resolved(reply.data);
      }
    }

    /** `register(username, email, password)`: never touches the stored session. */
    method Register(username: string, email: string, password: string, reply: Reply) returns (sent: PostRequest, outcome: Outcome)
      ensures sent.url == AuthUrl + "signup"
      ensures sent.body == Obj([Field("username", Str(username)), Field("email", Str(email)), Field("password", Str(password))])
      ensures reply.Replied? ==> outcome == Resolved(reply.data)
      ensures reply.Failed? ==> outcome == Rejected(reply.error)
    {
      sent := PostRequest(AuthUrl + "signup", Obj([Field("username", Str(username)), Field("email", Str(email)), Field("password", Str(password))]));
      outcome := if reply.Replied? then Resolved(reply.data) else Rejected(reply.error);
    }

    /** `logout()` */
    method Logout()
      modifies this`session
      ensures session == None && Valid()
    {
      session := None;
    }

    /** `getCurrentUser()`: null when nothing is stored. */
    function GetCurrentUser(): (user: Value)
      reads this
      ensures session.None? ==> user == Null
      ensures session.Some? ==> user == session.value
    {
      if session.None? then Null else session.value
    }

    /** `getToken()`: truthy exactly when a stored user carries a truthy access token. */
    function GetToken(): (token: Value)
      reads this
      ensures Truthy(token) <==> session.Some? && Truthy(Member(session.value, "accessToken"))
      ensures Truthy(token) ==> token == Member(session.value, "accessToken")
      ensures session.None? ==> token == Null
      ensures session.Some? && Truthy(session.value) ==> token == Member(session.value, "accessToken")
      ensures session.Some? && !Truthy(session.value) ==> token == Null
    {
      var user := GetCurrentUser();
      if Truthy(user) then Member(user, "accessToken") else Null
    }

    /** `isAuthenticated()`: `user && user.accessToken`. */
    function IsAuthenticated(): (authenticated: Value)
      reads this
      ensures Truthy(authenticated) <==> Truthy(GetToken())
    {
      var user := GetCurrentUser();
      if Truthy(user) then Member(user, "accessToken") else user
    }

    /** `getAuthHeader()`: a bearer header exactly when authenticated, otherwise no header at all. */
    function GetAuthHeader(): (header: Record)
      reads this
      ensures Truthy(IsAuthenticated()) ==> header == [Field("Authorization", Str("Bearer " + JsString(GetToken())))]
      ensures !Truthy(IsAuthenticated()) ==> header == []
    {
      var user := GetCurrentUser();
      if Truthy(user) && Truthy(Member(user, "accessToken")) then
        [Field("Authorization", Str("Bearer " + JsString(Member(user, "accessToken"))))]
      else []
    }
  }

  /** Under the service's invariant, being authenticated is the same as having a stored session. */
  lemma AuthenticatedIffStored(auth: AuthService)
    requires auth.Valid()
    ensures Truthy(auth.IsAuthenticated()) <==> auth.session.Some?
  {
  }

  /** After a successful sign-in the service reports the user as authenticated, with the answer's token. */
  lemma SignInAuthenticates(auth: AuthService, data: Value)
    requires data.Obj? && Truthy(Member(data, "accessToken"))
    requires auth.session == Some(JsonRoundTrip(data))
    ensures Truthy(auth.IsAuthenticated())
    ensures auth.GetToken() == JsonRoundTrip(Member(data, "accessToken"))
    ensures auth.GetCurrentUser() == JsonRoundTrip(data)
  {
    RoundTripTruthy(Member(data, "accessToken"));
    RoundTripLookup(data.fields, "accessToken");
  }
}
