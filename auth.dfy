/**
 * `authenticate`: take the token from the Authorization header, verify it,
 * and attach the decoded claims to the request. Token verification
 * (`jwt.verify` with the access secret) is the parameter `verify`, which
 * gives the decoded payload of a valid token and `None` otherwise.
 */
module Auth {
  import opened Wrappers
  import opened Json
  import opened Http
  import Text

  const NoToken := Response(401, ErrorPayload("No token provided"))
  const BadToken := Response(401, ErrorPayload("Token is not valid"))

  /**
   * `header?.split(" ")[1]`, kept only when it is truthy: the second
   * space-separated segment, non-empty. The first segment is not looked at.
   */
  function BearerToken(header: Option<string>): (r: Option<string>)
    ensures header.None? ==> r.None?
    ensures r.Some? ==> r.value != "" && ' ' !in r.value
  {
    match header
    case None => None
    case Some(h) =>
      var parts := Text.Split(h, " ");
      Text.SplitPiecesExclude(h, ' ');
      if |parts| > 1 && parts[1] != "" then Some(parts[1]) else None
  }

  /** The token of "<scheme> <token>", and of "<scheme> <token> <more>", is <token>, whatever <scheme> is. */
  lemma {:induction false} SecondSegmentIsToken(scheme: string, token: string, more: string)
    requires ' ' !in scheme && ' ' !in token && token != ""
    ensures BearerToken(Some(scheme + " " + token)) == Some(token)
    ensures BearerToken(Some(scheme + " " + token + " " + more)) == Some(token)
  {
    Text.SplitAt(scheme, ' ', token);
    Text.SplitWithout(token, ' ');
    Text.SplitAt(scheme, ' ', token + " " + more);
    Text.SplitAt(token, ' ', more);
    assert scheme + " " + token + " " + more == scheme + [' '] + (token + " " + more);
  }

  /** A header without a space, or one whose second segment is empty ("Bearer "), yields no token. */
  lemma {:induction false} NoSecondSegment(h: string, scheme: string)
    requires ' ' !in h && ' ' !in scheme
    ensures BearerToken(Some(h)) == None
    ensures BearerToken(Some(scheme + " ")) == None
  {
    Text.SplitWithout(h, ' ');
    Text.SplitAt(scheme, ' ', "");
    assert scheme + " " == scheme + [' '] + "";
  }

  datatype Decision = Reject(response: Response) | Accept(claims: Object)

  /** The pure part of `authenticate`: which 401 to send, or which claims to attach. */
  function Decide(header: Option<string>, verify: string -> Option<Object>): (d: Decision)
    ensures BearerToken(header).None? ==> d == Reject(NoToken)
    ensures BearerToken(header).Some? && verify(BearerToken(header).value).None? ==> d == Reject(BadToken)
    ensures d.Accept? <==> BearerToken(header).Some? && verify(BearerToken(header).value).Some?
    ensures d.Accept? ==> verify(BearerToken(header).value) == Some(d.claims)
  {
    match BearerToken(header)
    case None => Reject(NoToken)
    case Some(token) =>
      match verify(token)
      case None => Reject(BadToken)
      case Some(claims) => Accept(claims)
  }

  /** The part of an Express request the guards read and write. */
  class Request {
    const authorization: Option<string>
    var user: Option<Object>

    constructor (authorization: Option<string>)
      ensures this.authorization == authorization && user == None
    {
      this.authorization := authorization;
      user := None;
    }
  }

  /**
   * `authenticate(req, res, next)`: on success `req.user` becomes the
   * decoded claims and `next` is called once; otherwise the 401 is sent and
   * `req.user` is left as it was.
   */
  method Authenticate(req: Request, verify: string -> Option<Object>) returns (step: Step)
    modifies req
    ensures match Decide(req.authorization, verify)
            case Reject(response) => step == Respond(response) && req.user == old(req.user)
            case Accept(claims) => step == Next && req.user == Some(claims)
  {
    var token := BearerToken(req.authorization);
    if token.None? {
      return Respond(NoToken);
    }
    var decoded := verify(token.value);
    if decoded.None? {
      return Respond(BadToken);
    }
    req.user := decoded;
    step := Next;
  }
}
