/**
 * The bearer-token gate in front of the admin routes.  The token is the
 * second space-separated field of the `Authorization` header; the first field
 * is not looked at.  Signature checking is a parameter: `verify(token, secret)`
 * yields the decoded identity, or nothing when the token does not verify.
 */
module Auth {
  import opened Wrappers
  import opened Js

  datatype Identity = Identity(id: int, email: string, role: string)

  /** `jwt.verify(token, secret)`: the payload of a token signed with `secret`, if it is one. */
  type Verifier = (string, string) -> Option<Identity>

  const NoToken := "No token provided"
  const InvalidToken := "Invalid token"

  /** What the gate does: answer 401 or 403, or attach `user` and call `next`. */
  datatype Outcome = Unauthorized401(message: string) | Forbidden403(message: string) | Proceed(user: Identity)

  /** `process.env.JWT_SECRET || 'secret'` */
  function Secret(jwtSecret: Option<string>): (r: string)
    ensures r != ""
    ensures jwtSecret.Some? && jwtSecret.value != "" ==> r == jwtSecret.value
    ensures jwtSecret.None? || jwtSecret.value == "" ==> r == "secret"
  {
    if jwtSecret.Some? && jwtSecret.value != "" then jwtSecret.value else "secret"
  }

  /** `authHeader && authHeader.split(' ')[1]`, kept only when it is a non-empty string. */
  function Token(header: Option<string>): (r: Option<string>)
    ensures r.Some? ==> r.value != "" && ' ' !in r.value
  {
    if header.None? then None
    else
      var fields := Split(header.value, ' ');
      if |fields| >= 2 && fields[1] != "" then Some(fields[1]) else None
  }

  /**
   * The token depends on the second field alone: of a header made of
   * space-free fields it is the second field when there is one and it is
   * non-empty.  Every header is such a join (`JoinSplit`).
   */
  lemma TokenOfFields(fields: seq<string>)
    requires |fields| >= 1 && forall i :: 0 <= i < |fields| ==> ' ' !in fields[i]
    ensures Token(Some(Join(fields, ' '))) == if |fields| >= 2 && fields[1] != "" then Some(fields[1]) else None
  {
    SplitJoin(fields, ' ');
  }

  /** The scheme word is ignored: `Token abc` passes like `Bearer abc`. */
  lemma SchemeIgnored(scheme: string, other: string, rest: seq<string>)
    requires ' ' !in scheme && ' ' !in other
    requires forall i :: 0 <= i < |rest| ==> ' ' !in rest[i]
    ensures Token(Some(Join([scheme] + rest, ' '))) == Token(Some(Join([other] + rest, ' ')))
  {
    SpaceFreeCons(scheme, rest);
    SpaceFreeCons(other, rest);
    TokenOfFields([scheme] + rest);
    TokenOfFields([other] + rest);
    if rest != [] {
      assert ([scheme] + rest)[1] == rest[0] == ([other] + rest)[1];
    }
  }

  lemma SpaceFreeCons(first: string, rest: seq<string>)
    requires ' ' !in first && forall i :: 0 <= i < |rest| ==> ' ' !in rest[i]
    ensures forall i :: 0 <= i < |[first] + rest| ==> ' ' !in ([first] + rest)[i]
  {
    forall i | 0 <= i < |[first] + rest| ensures ' ' !in ([first] + rest)[i] {
      if i > 0 {
        assert ([first] + rest)[i] == rest[i - 1];
      }
    }
  }

  /** A header without a space has no second field, hence no token. */
  lemma NoSpaceNoToken(header: string)
    requires ' ' !in header
    ensures Token(Some(header)) == None
  {
    assert Split(header, ' ') == [header];
  }

  /** Nothing right after the first space (`Bearer `, `Bearer  x`): no token. */
  lemma EmptySecondField(x: string)
    requires ' ' !in x
    ensures Token(Some("Bearer ")) == None
    ensures Token(Some("Bearer  " + x)) == None
  {
    var two := ["Bearer", ""];
    assert Join(two[1..], ' ') == "";
    assert "Bearer " == Join(two, ' ');
    TokenOfFields(two);
    var three := ["Bearer", "", x];
    assert three[1..][1..] == [x];
    assert Join(three[1..], ' ') == " " + x;
    assert "Bearer  " + x == Join(three, ' ');
    TokenOfFields(three);
  }

  /** `authenticateToken` as a decision on the header, the configured secret and the verifier. */
  function Authenticate(header: Option<string>, jwtSecret: Option<string>, verify: Verifier): (r: Outcome)
    ensures header.None? ==> r == Unauthorized401(NoToken)
    ensures r.Unauthorized401? <==> Token(header).None?
    ensures r.Unauthorized401? ==> r.message == NoToken
    ensures r.Forbidden403? <==> Token(header).Some? && verify(Token(header).value, Secret(jwtSecret)).None?
    ensures r.Forbidden403? ==> r.message == InvalidToken
    ensures r.Proceed? <==> Token(header).Some? && verify(Token(header).value, Secret(jwtSecret)).Some?
    ensures r.Proceed? ==> verify(Token(header).value, Secret(jwtSecret)) == Some(r.user)
  {
    match Token(header)
    case None => Unauthorized401(NoToken)
    case Some(token) =>
      match verify(token, Secret(jwtSecret))
      case None => Forbidden403(InvalidToken)
      case Some(user) => Proceed(user)
  }

  /** The request as the gate sees it: its header, and the `user` slot the gate may fill. */
  class AuthRequest {
    const authorization: Option<string>
    var user: Option<Identity>

    constructor(authorization: Option<string>)
      ensures this.authorization == authorization && user.None?
    {
      this.authorization := authorization;
      user := None;
    }
  }

  /** The middleware: `req.user` is set exactly when the request proceeds. */
  method AuthenticateToken(req: AuthRequest, jwtSecret: Option<string>, verify: Verifier) returns (o: Outcome)
    modifies req`user
    ensures o == Authenticate(req.authorization, jwtSecret, verify)
    ensures o.Proceed? ==> req.user == Some(o.user)
    ensures !o.Proceed? ==> req.user == old(req.user)
  {
    var token := Token(req.authorization);
    if token.None? {
      return Unauthorized401(NoToken);
    }
    var user := verify(token.value, Secret(jwtSecret));
    if user.None? {
      return Forbidden403(InvalidToken);
    }
    req.user := user;
    o := Proceed(user.value);
  }
}
