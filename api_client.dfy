/**
 * The admin client's HTTP layer: the request interceptor that attaches the
 * stored token, the payload shaping of `projectsAPI.create`/`update`, and the
 * paths `getById`, `update` and `delete` address.  Sending is not modelled: a
 * call is described by its method, path and body.
 */
module ApiClient {
  import opened Wrappers
  import opened Js
  import Auth
  import opened AuthStore

  const ProjectIdRequired := "Project ID is required"

  /** The headers after the interceptor, given the token read from the stored session. */
  function WithAuth(headers: map<string, string>, token: Option<string>): (r: map<string, string>)
    ensures token.Some? && token.value != "" ==> r == headers["Authorization" := "Bearer " + token.value]
    ensures token.None? || token.value == "" ==> r == headers
  {
    if token.Some? && token.value != "" then headers["Authorization" := "Bearer " + token.value] else headers
  }

  /** The part of axios's request config the interceptor touches. */
  class RequestConfig {
    var headers: map<string, string>

    constructor(headers: map<string, string>)
      ensures this.headers == headers
    {
      this.headers := headers;
    }
  }

  /** `api.interceptors.request.use(...)`: add the bearer header when the session holds a token. */
  method Intercept(config: RequestConfig, session: Session)
    modifies config`headers
    ensures config.headers == WithAuth(old(config.headers), session.token)
  {
    if session.token.Some? && session.token.value != "" {
      config.headers := config.headers["Authorization" := "Bearer " + session.token.value];
    }
  }

  /** The server's gate reads back exactly the token the client attached. */
  lemma BearerRoundTrip(headers: map<string, string>, token: string)
    requires token != "" && ' ' !in token
    ensures "Authorization" in WithAuth(headers, Some(token))
    ensures Auth.Token(Some(WithAuth(headers, Some(token))["Authorization"])) == Some(token)
  {
    var fields := ["Bearer", token];
    assert fields[1..] == [token];
    assert Join(fields, ' ') == "Bearer " + token;
    Auth.TokenOfFields(fields);
  }

  /** After `login` with a well-formed token, requests pass the gate as the token's identity. */
  lemma LoggedInRequestsPass(s: Session, token: string, user: SessionUser, headers: map<string, string>,
                             jwtSecret: Option<string>, verify: Auth.Verifier)
    requires token != "" && ' ' !in token
    requires verify(token, Auth.Secret(jwtSecret)).Some?
    ensures var sent := WithAuth(headers, Apply(s, DoLogin(token, user)).token);
            "Authorization" in sent &&
            Auth.Authenticate(Some(sent["Authorization"]), jwtSecret, verify) == Auth.Proceed(verify(token, Auth.Secret(jwtSecret)).value)
  {
    BearerRoundTrip(headers, token);
  }

  /** After `logout` no header is added, so a request without one is refused with 401. */
  lemma SignedOutRequestsRefused(s: Session, headers: map<string, string>, jwtSecret: Option<string>, verify: Auth.Verifier)
    requires "Authorization" !in headers
    ensures "Authorization" !in WithAuth(headers, Apply(s, DoLogout).token)
    ensures Auth.Authenticate(None, jwtSecret, verify) == Auth.Unauthorized401(Auth.NoToken)
  {
  }

  /**
   * The payload `formatProjectData` builds: the form's fields with the category
   * id converted by `Number`, the skills kept only when they form an array
   * (an empty array otherwise) and a missing description sent as "".
   */
  function FormatProject(data: Fields): (r: Fields)
    ensures r.Keys == data.Keys + {"categoryId", "skills", "description"}
    ensures r["categoryId"] == ToNumber(Get(data, "categoryId"))
    ensures r["skills"] == if Get(data, "skills").Arr? then Get(data, "skills") else Arr([])
    ensures r["description"] == Or(Get(data, "description"), Str(""))
    ensures forall k :: k in data && k != "categoryId" && k != "skills" && k != "description" ==> r[k] == data[k]
  {
    var skills := Get(data, "skills");
    data["categoryId" := ToNumber(Get(data, "categoryId"))]
        ["skills" := if skills.Arr? then skills else Arr([])]
        ["description" := Or(Get(data, "description"), Str(""))]
  }

  /** Formatting an already formatted payload changes nothing. */
  lemma FormatProjectIdempotent(data: Fields)
    ensures FormatProject(FormatProject(data)) == FormatProject(data)
  {
    ToNumberIdempotent(Get(data, "categoryId"));
    var once := FormatProject(data);
    assert Get(once, "description") == Or(Get(data, "description"), Str(""));
  }

  /** A category id typed as digits arrives at the server as that number. */
  lemma CategoryIdOnTheWire(data: Fields, n: int)
    requires Get(data, "categoryId") == Str(IntToString(n))
    ensures WireFields(FormatProject(data))["categoryId"] == Num(n)
  {
    StringToNumberOfIntToString(n);
    var formatted := FormatProject(data);
    assert formatted["categoryId"] == Num(n);
    assert WireFields(formatted)["categoryId"] == Wire(Num(n));
  }

  /** A category id that is not a number becomes NaN, which JSON sends as null. */
  lemma NonNumericCategoryIdOnTheWire(data: Fields)
    requires ToNumber(Get(data, "categoryId")).NaN?
    ensures WireFields(FormatProject(data))["categoryId"] == Null
  {
    var formatted := FormatProject(data);
    assert WireFields(formatted)["categoryId"] == Wire(NaN);
  }

  /** The prefix of a single project's path; the id follows it. */
  const ProjectsPath := "/projects/"

  /** A request as the client issues it. */
  datatype Call =
    | GetCall(path: string)
    | PostCall(path: string, body: Fields)
    | PutCall(path: string, body: Fields)
    | DeleteCall(path: string)

  /** Either a request goes out, or the client throws before sending anything. */
  datatype Outcome = Sent(call: Call) | ThrownEarly(message: string)

  /** A template-literal segment `${id}` for an id typed `string | number`. */
  function Segment(id: Value): string
    requires id.Str? || id.Num?
  {
    if id.Str? then id.s else IntToString(id.n)
  }

  /** `projectsAPI.getById`: a falsy id throws before any request. */
  function GetById(id: Value): (r: Outcome)
    requires id.Str? || id.Num?
    ensures r.ThrownEarly? <==> id == Str("") || id == Num(0)
    ensures r.ThrownEarly? ==> r.message == ProjectIdRequired
    ensures r.Sent? ==> r.call == GetCall(ProjectsPath + Segment(id))
  {
    if !Truthy(id) then ThrownEarly(ProjectIdRequired) else Sent(GetCall(ProjectsPath + Segment(id)))
  }

  function Create(data: Fields): (r: Call)
    ensures r.PostCall? && r.path == "/projects" && r.body == FormatProject(data)
  {
    PostCall("/projects", FormatProject(data))
  }

  function Update(id: int, data: Fields): (r: Call)
    ensures r.PutCall? && r.path == ProjectsPath + IntToString(id) && r.body == FormatProject(data)
  {
    PutCall(ProjectsPath + IntToString(id), FormatProject(data))
  }

  function Delete(id: int): (r: Call)
    ensures r.DeleteCall? && r.path == ProjectsPath + IntToString(id)
  {
    DeleteCall(ProjectsPath + IntToString(id))
  }

  /** The server's `parseInt(req.params.id)` of the path segment after `/projects/` reads back the client's id. */
  lemma ProjectPathRoundTrip(id: int, data: Fields)
    ensures ParseInt(Update(id, data).path[|ProjectsPath|..]) == Some(id)
    ensures ParseInt(Delete(id).path[|ProjectsPath|..]) == Some(id)
    ensures id != 0 ==> GetById(Num(id)).Sent? && ParseInt(GetById(Num(id)).call.path[|ProjectsPath|..]) == Some(id)
  {
    ParseIntOfIntToString(id);
    assert Update(id, data).path[|ProjectsPath|..] == IntToString(id);
    assert Delete(id).path[|ProjectsPath|..] == IntToString(id);
    if id != 0 {
      assert GetById(Num(id)).call.path[|ProjectsPath|..] == IntToString(id);
    }
  }
}
