/** The gateway's authentication middleware
    (services/api-gateway/src/middlewares/auth.ts): a Bearer token (section
    2.1 of RFC 6750) taken from the Authorization header is sent to the
    identity service, and the request proceeds only when a user comes back.

    The identity service is reached through `validateToken`, a parameter with
    three outcomes: a user, a rejection (the client resolves to null on a
    non-200 status or an unreadable body) or a transport failure (the client's
    promise rejects). */
module GatewayAuth {
  import opened Wrappers
  import opened Json
  import Text
  import Http

  datatype User = User(id: int, email: string)

  datatype ValidationOutcome = Valid(user: User) | Rejected | Unreachable

  type Validator = string -> ValidationOutcome

  datatype AuthDecision = Deny(status: int, message: string) | Proceed(user: User)

  /** The decision, and the tokens the validator was called with. */
  datatype AuthResult = AuthResult(decision: AuthDecision, validatorCalls: seq<string>)

  const MissingMessage := "Authorization token is required"
  const InvalidMessage := "Invalid or expired token"
  const UnreachableMessage := "Could not connect to auth service"

  const Scheme := "Bearer "

  /** The header check and token extraction: a header that is absent, empty
      or does not start with `Bearer ` (case-sensitive) yields no token;
      otherwise the token is the second space-separated field. */
  function BearerToken(header: Option<string>): (t: Option<string>)
    ensures t.Some? <==> header.Some? && Text.StartsWith(header.value, Scheme)
  {
    if header.None? || header.value == "" || !Text.StartsWith(header.value, Scheme) then None
    else
      var fields := Text.Split(header.value, ' ');
      assert header.value == "Bearer" + [' '] + header.value[|Scheme|..];
      Text.SplitAfterPiece("Bearer", header.value[|Scheme|..], ' ');
      Some(fields[1])
  }

  /** `authMiddleware` as a decision. */
  function Authenticate(header: Option<string>, validate: Validator): AuthResult {
    match BearerToken(header)
    case None => AuthResult(Deny(401, MissingMessage), [])
    case Some(token) =>
      match validate(token)
      case Valid(user) => AuthResult(Proceed(user), [token])
      case Rejected => AuthResult(Deny(401, InvalidMessage), [token])
      case Unreachable => AuthResult(Deny(500, UnreachableMessage), [token])
  }

  /** The token is the text between `Bearer ` and the next space, or the end:
      `Bearer a b` gives `a`, and a bare `Bearer ` gives the empty token,
      which is still sent for validation. */
  lemma TokenIsSecondField(token: string, rest: string)
    requires ' ' !in token
    ensures BearerToken(Some(Scheme + token)) == Some(token)
    ensures BearerToken(Some(Scheme + token + " " + rest)) == Some(token)
  {
    Text.SplitWithout(token, ' ');
    Text.SplitAfterPiece("Bearer", token, ' ');
    assert Scheme + token == "Bearer" + [' '] + token;
    Text.SplitAfterPiece(token, rest, ' ');
    Text.SplitAfterPiece("Bearer", token + [' '] + rest, ' ');
    assert Scheme + token + " " + rest == "Bearer" + [' '] + (token + [' '] + rest);
  }

  /** Exactly one of the four endings happens, chosen as follows; the
      validator is called once, with the extracted token, whenever there is a
      token, and never otherwise. A transport failure never lets the request
      through (fail closed). */
  lemma AuthenticateOutcomes(header: Option<string>, validate: Validator)
    ensures var r := Authenticate(header, validate);
      && (BearerToken(header).None? ==>
            r.decision == Deny(401, MissingMessage) && r.validatorCalls == [])
      && (BearerToken(header).Some? ==>
            var token := BearerToken(header).value;
            && r.validatorCalls == [token]
            && (r.decision.Proceed? <==> validate(token).Valid?)
            && (r.decision.Proceed? ==> r.decision.user == validate(token).user)
            && (r.decision == Deny(401, InvalidMessage) <==> validate(token) == Rejected)
            && (r.decision == Deny(500, UnreachableMessage) <==> validate(token) == Unreachable))
  {
  }

  /** The incoming request, as the middleware reads and writes it. */
  class Request {
    var authorization: Option<string>
    var user: Option<User>

    constructor (authorization: Option<string>)
      ensures this.authorization == authorization && user == None
    {
      this.authorization := authorization;
      user := None;
    }
  }

  /** `authMiddleware(req, res, next)`: on success sets `req.user` and
      reports that `next` was called; on every other path answers with the
      status and message of the decision and leaves `req.user` as it was. */
  method AuthMiddleware(req: Request, res: Http.ServerResponse, validate: Validator,
                        stringify: Json -> string)
    returns (nextCalled: bool, validatorCalls: seq<string>)
    modifies req, res
    ensures var r := Authenticate(old(req.authorization), validate);
      && validatorCalls == r.validatorCalls
      && nextCalled == r.decision.Proceed?
      && req.authorization == old(req.authorization)
      && (r.decision.Proceed? ==>
            && req.user == Some(r.decision.user)
            && res.statusCode == old(res.statusCode) && res.body == old(res.body)
            && res.contentType == old(res.contentType) && res.ended == old(res.ended))
      && (r.decision.Deny? ==>
            && req.user == old(req.user)
            && res.statusCode == r.decision.status && res.contentType == Some(Http.JsonContentType) && res.ended
            && res.body == old(res.body) + stringify(Http.MessageBody(r.decision.message)))
  {
    var authHeader := req.authorization;
    validatorCalls := [];
    if authHeader.None? || authHeader.value == "" || !Text.StartsWith(authHeader.value, Scheme) {
      res.SendJson(401, Http.MessageBody(MissingMessage), stringify);
      return false, validatorCalls;
    }
    var token := BearerToken(authHeader).value;
    validatorCalls := [token];
    var outcome := validate(token);
    match outcome {
      case Rejected =>
        res.SendJson(401, Http.MessageBody(InvalidMessage), stringify);
        nextCalled := false;
      case Valid(user) =>
        req.user := Some(user);
        nextCalled := true;
      case Unreachable =>
        res.SendJson(500, Http.MessageBody(UnreachableMessage), stringify);
        nextCalled := false;
    }
  }
}
