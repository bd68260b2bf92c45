/** The access gate every protected route runs first: it reads the
    `Authorization` header, takes the second space-separated word as the token,
    verifies it, and on success stores the decoded user on the request and calls
    `next()`. The client builds that header as `Bearer <token>`. */
module AuthMiddleware {
  import opened Common
  import opened Auth

  const MsgNoToken: string := "Acesso negado. Token não fornecido."
  const MsgBadFormat: string := "Formato de token inválido. Use: Bearer <token>"
  const MsgInvalidToken: string := "Token inválido."

  /** `jwt.verify(token, secret)`: the decoded payload, or `None` where it throws
      (bad signature, expired, malformed). */
  type Verifier = string -> Option<Payload>

  /** ECMAScript `s.split(sep)` for a one-character separator: the pieces between
      separators, empty ones included. */
  function Split(s: string, sep: char): (parts: seq<string>)
    ensures |parts| >= 1
    ensures forall i :: 0 <= i < |parts| ==> sep !in parts[i]
  {
    if s == [] then [[]]
    else
      var rest := Split(s[1..], sep);
      if s[0] == sep then [[]] + rest else [[s[0]] + rest[0]] + rest[1..]
  }

  /** `parts.join(sep)`. */
  function Join(parts: seq<string>, sep: char): string
    requires |parts| >= 1
  {
    if |parts| == 1 then parts[0] else parts[0] + [sep] + Join(parts[1..], sep)
  }

  /** Joining the pieces back gives the original string. */
  lemma {:induction false} JoinSplit(s: string, sep: char)
    ensures Join(Split(s, sep), sep) == s
  {
    if s != [] {
      JoinSplit(s[1..], sep);
      var rest := Split(s[1..], sep);
      if s[0] == sep {
        assert Split(s, sep)[1..] == rest;
      } else if |rest| == 1 {
        assert Join(rest, sep) == rest[0];
      } else {
        var parts := Split(s, sep);
        assert parts[1..] == rest[1..];
        assert Join(rest, sep) == rest[0] + [sep] + Join(rest[1..], sep);
      }
    }
  }

  /** Splitting `p + t` where `p` has no separator glues `p` onto the first piece of `t`. */
  lemma {:induction false} SplitPrefix(p: string, t: string, sep: char)
    requires sep !in p
    ensures Split(p + t, sep) == [p + Split(t, sep)[0]] + Split(t, sep)[1..]
  {
    if p != [] {
      assert (p + t)[1..] == p[1..] + t;
      assert (p + t)[0] == p[0] && p[0] != sep;
      SplitPrefix(p[1..], t, sep);
      var parts := Split(t, sep);
      var rest := Split(p[1..] + t, sep);
      assert rest[0] == p[1..] + parts[0] && rest[1..] == parts[1..];
      assert [p[0]] + (p[1..] + parts[0]) == p + parts[0];
    } else {
      var parts := Split(t, sep);
      assert p + t == t && p + parts[0] == parts[0];
      assert parts == [parts[0]] + parts[1..];
    }
  }

  /** Splitting pieces that hold no separator undoes the join. */
  lemma {:induction false} SplitJoin(parts: seq<string>, sep: char)
    requires |parts| >= 1
    requires forall i :: 0 <= i < |parts| ==> sep !in parts[i]
    ensures Split(Join(parts, sep), sep) == parts
  {
    if |parts| == 1 {
      SplitPrefix(parts[0], [], sep);
      assert parts[0] + [] == parts[0];
    } else {
      var tail := Join(parts[1..], sep);
      SplitJoin(parts[1..], sep);
      SplitPrefix(parts[0], [sep] + tail, sep);
      assert parts[0] + [sep] + tail == parts[0] + ([sep] + tail);
      assert ([sep] + tail)[1..] == tail;
      assert Split([sep] + tail, sep) == [[]] + Split(tail, sep);
      assert parts[0] + [] == parts[0];
    }
  }

  /** `authHeader.split(' ')[1]`: `None` stands for `undefined`. */
  function SecondWord(header: string): Option<string>
  {
    var parts := Split(header, ' ');
    if |parts| > 1 then Some(parts[1]) else None
  }

  /** The header the client attaches (`Bearer ${token}`). */
  function ClientHeader(token: string): string
  {
    "Bearer " + token
  }

  datatype GateResult = Reject(status: int, msg: string) | Admit(user: UserClaim)

  /** The middleware's decision for a request carrying `header` (`None` when the
      request has no `Authorization` header). */
  function Gate(header: Option<string>, verify: Verifier): GateResult
  {
    if header.None? || header.value == [] then Reject(401, MsgNoToken)
    else
      var token := SecondWord(header.value);
      if token.None? || token.value == [] then Reject(401, MsgBadFormat)
      else
        var decoded := verify(token.value);
        if decoded.None? then Reject(401, MsgInvalidToken)
        else Admit(decoded.value.user)
  }

  /** A request is let through exactly when the header has a non-empty second
      word that verifies, and it then carries the decoded user; every rejection
      is a 401. */
  lemma GateAdmitsIff(header: Option<string>, verify: Verifier)
    ensures Gate(header, verify).Admit? <==>
      && header.Some? && header.value != []
      && SecondWord(header.value).Some? && SecondWord(header.value).value != []
      && verify(SecondWord(header.value).value).Some?
    ensures Gate(header, verify).Admit? ==>
      Gate(header, verify).user == verify(SecondWord(header.value).value).value.user
    ensures Gate(header, verify).Reject? ==> Gate(header, verify).status == 401
  {
  }

  /** No header, or an empty one, is refused before anything is verified. */
  lemma MissingHeaderRejected(verify: Verifier)
    ensures Gate(None, verify) == Reject(401, MsgNoToken)
    ensures Gate(Some([]), verify) == Reject(401, MsgNoToken)
  {
  }

  /** `"Bearer"`, `"Bearer "` and a double space before the token all lack a
      (non-empty) second word. */
  lemma MalformedHeadersRejected(scheme: string, token: string, verify: Verifier)
    requires scheme != [] && ' ' !in scheme
    ensures Gate(Some(scheme), verify) == Reject(401, MsgBadFormat)
    ensures Gate(Some(scheme + " "), verify) == Reject(401, MsgBadFormat)
    ensures Gate(Some(scheme + "  " + token), verify) == Reject(401, MsgBadFormat)
  {
    SplitJoin([scheme], ' ');
    SplitJoin([scheme, []], ' ');
    assert Join([scheme, []], ' ') == scheme + " ";
    SplitPrefix(scheme, "  " + token, ' ');
    assert scheme + "  " + token == scheme + ("  " + token);
    assert ("  " + token)[1..] == " " + token;
    assert (" " + token)[1..] == token;
  }

  /** The scheme word is never inspected: any first word followed by one space and
      a token without spaces reaches `verify` with exactly that token. */
  lemma SchemeIgnored(scheme: string, token: string, verify: Verifier)
    requires scheme != [] && ' ' !in scheme
    requires token != [] && ' ' !in token
    ensures SecondWord(scheme + " " + token) == Some(token)
    ensures Gate(Some(scheme + " " + token), verify) ==
      if verify(token).Some? then Admit(verify(token).value.user) else Reject(401, MsgInvalidToken)
  {
    SplitJoin([scheme, token], ' ');
    assert Join([scheme, token], ' ') == scheme + " " + token;
  }

  /** The header the client builds hands the server back the very token it holds. */
  lemma ClientHeaderRoundTrip(token: string)
    requires ' ' !in token
    ensures SecondWord(ClientHeader(token)) == Some(token)
  {
    SplitJoin(["Bearer", token], ' ');
    assert Join(["Bearer", token], ' ') == ClientHeader(token);
  }

  /** Registering, logging in and presenting the issued token in the client's
      header admits the request as the new user, given that `verify` accepts what
      `sign` issued and that tokens contain no spaces. */
  lemma RegisterLoginAccess(users: map<string, User>, id: UserId, username: string, email: string,
                            password: string, salt: string, hash: Hasher, compare: Comparer,
                            sign: Signer, verify: Verifier)
    requires email !in users
    requires compare(password, hash(password, salt))
    requires var p := Payload(UserClaim(id)); verify(sign(p, TokenLifetime)) == Some(p)
    requires var t := sign(Payload(UserClaim(id)), TokenLifetime); t != [] && ' ' !in t
    ensures var reply := LoginDecision(users[email := RegisteredUser(id, username, email, password, salt, hash)],
                                       email, password, compare, sign);
      reply.Success? && Gate(Some(ClientHeader(reply.body)), verify) == Admit(UserClaim(id))
  {
    RegisterThenLogin(users, id, username, email, password, salt, hash, compare, sign);
    var t := sign(Payload(UserClaim(id)), TokenLifetime);
    SchemeIgnored("Bearer", t, verify);
    assert ClientHeader(t) == "Bearer" + " " + t;
  }

  /** The Express request as the middleware sees it. */
  class Request {
    const header: Option<string>
    /** `req.user`. */
    var user: Option<UserClaim>
    /** How many times the middleware has called `next()`. */
    var nextCalls: nat

    constructor (header: Option<string>)
      ensures this.header == header && user == None && nextCalls == 0
    {
      this.header := header;
      user := None;
      nextCalls := 0;
    }
  }

  /** Runs the middleware on `req`: a rejection leaves the request untouched and
      does not call `next()`; admission sets `req.user` and calls `next()` once. */
  method Authenticate(req: Request, verify: Verifier) returns (r: GateResult)
    modifies req
    ensures r == Gate(req.header, verify)
    ensures r.Reject? ==> req.user == old(req.user) && req.nextCalls == old(req.nextCalls)
    ensures r.Admit? ==> req.user == Some(r.user) && req.nextCalls == old(req.nextCalls) + 1
  {
    r := Gate(req.header, verify);
    if r.Admit? {
      req.user := Some(r.user);
      req.nextCalls := req.nextCalls + 1;
    }
  }
}
