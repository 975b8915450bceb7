/**
 * The bearer-token gate in front of the API: `authenticateToken` takes the
 * token from the `authorization` header and has it verified; `authorizeRoles`
 * admits a verified user whose role is on the route's list. Token
 * verification (signature, expiry, secret) is an oracle passed in.
 */
module Auth {
  import opened Wrappers

  const Unauthorized: nat := 401
  const Forbidden: nat := 403

  /** The decoded token: what `req.user` holds once authentication succeeds. */
  datatype Payload = Payload(id: nat, nombre: string, email: string, rol: string)

  /** What a middleware does with the request: pass it on, or answer with a status. */
  datatype Response = Next | Respond(status: nat)

  // ---------------------------------------------------------------------------
  // String.prototype.split with a one-character separator
  // ---------------------------------------------------------------------------

  /** `s.split(sep)`: the maximal separator-free pieces, in order; there is one more piece than separators. */
  function Split(s: string, sep: char): (parts: seq<string>)
    ensures |parts| >= 1
    ensures forall i :: 0 <= i < |parts| ==> sep !in parts[i]
    ensures |parts| >= 2 <==> sep in s
    decreases |s|
  {
    if s == [] then [[]]
    else
      var rest := Split(s[1..], sep);
      if s[0] == sep then [[]] + rest
      else [[s[0]] + rest[0]] + rest[1..]
  }

  /** `parts.join(sep)`. */
  function Join(parts: seq<string>, sep: char): string
    requires |parts| >= 1
    decreases |parts|
  {
    if |parts| == 1 then parts[0] else parts[0] + [sep] + Join(parts[1..], sep)
  }

  /** Splitting loses nothing: joining the pieces gives the string back. */
  lemma {:induction false} JoinSplit(s: string, sep: char)
    ensures Join(Split(s, sep), sep) == s
    decreases |s|
  {
    if s != [] {
      var rest := Split(s[1..], sep);
      JoinSplit(s[1..], sep);
      if s[0] == sep {
        assert ([[]] + rest)[1..] == rest;
      } else {
        var parts := [[s[0]] + rest[0]] + rest[1..];
        if |rest| > 1 {
          assert parts[1..] == rest[1..];
        }
      }
    }
  }

  lemma {:induction false} SplitFree(s: string, sep: char)
    requires sep !in s
    ensures Split(s, sep) == [s]
    decreases |s|
  {
    if s != [] {
      SplitFree(s[1..], sep);
      assert [s[0]] + s[1..] == s;
    }
  }

  lemma {:induction false} SplitAt(a: string, b: string, sep: char)
    requires sep !in a
    ensures Split(a + [sep] + b, sep) == [a] + Split(b, sep)
    decreases |a|
  {
    var s := a + [sep] + b;
    if a == [] {
      assert s[1..] == b;
    } else {
      assert s[1..] == a[1..] + [sep] + b;
      SplitAt(a[1..], b, sep);
      assert [a[0]] + a[1..] == a;
    }
  }

  /** And the pieces come back: separator-free pieces split out of their join unchanged. */
  lemma {:induction false} SplitJoin(parts: seq<string>, sep: char)
    requires |parts| >= 1
    requires forall i :: 0 <= i < |parts| ==> sep !in parts[i]
    ensures Split(Join(parts, sep), sep) == parts
    decreases |parts|
  {
    if |parts| == 1 {
      SplitFree(parts[0], sep);
    } else {
      SplitJoin(parts[1..], sep);
      SplitAt(parts[0], Join(parts[1..], sep), sep);
      assert [parts[0]] + parts[1..] == parts;
    }
  }

  // ---------------------------------------------------------------------------
  // authenticateToken
  // ---------------------------------------------------------------------------

  /**
   * `authHeader && authHeader.split(' ')[1]`, with None for `undefined`. An
   * absent header, or a non-empty one without a space, yields no token. An
   * empty header is falsy, so the expression yields the empty header itself,
   * which is a token as far as `token == null` is concerned.
   */
  function ExtractToken(authorization: Option<string>): (token: Option<string>)
    ensures token.None? <==> authorization.None? || (authorization.value != "" && ' ' !in authorization.value)
    ensures authorization == Some("") ==> token == Some("")
    ensures token.Some? ==> ' ' !in token.value
  {
    match authorization
    case None => None
    case Some(h) =>
      if h == "" then Some(h)
      else
        var parts := Split(h, ' ');
        if |parts| >= 2 then Some(parts[1]) else None
  }

  /**
   * The token of a non-empty header is its second space-separated field: the
   * text after the first space, up to the next space or the end.
   */
  lemma TokenIsSecondField(h: string, token: string)
    requires h != "" && ExtractToken(Some(h)) == Some(token)
    ensures exists first ::
              && ' ' !in first
              && first + " " + token <= h
              && (|h| == |first| + 1 + |token| || h[|first| + 1 + |token|] == ' ')
  {
    var parts := Split(h, ' ');
    JoinSplit(h, ' ');
    var tail := Join(parts[1..], ' ');
    assert h == parts[0] + " " + tail;
    if |parts| == 2 {
      assert tail == token;
      assert parts[0] + " " + token == h;
    } else {
      assert tail == token + " " + Join(parts[2..], ' ');
      assert h == (parts[0] + " " + token) + " " + Join(parts[2..], ' ');
      assert h[|parts[0]| + 1 + |token|] == ' ';
    }
  }

  /** The header forms a client can send, and the token each yields. */
  lemma HeaderForms()
    ensures ExtractToken(Some("Bearer abc")) == Some("abc")
    ensures ExtractToken(Some("Bearer ")) == Some("")
    ensures ExtractToken(Some("Bearer")) == None
    ensures ExtractToken(Some("")) == Some("")
    ensures ExtractToken(None) == None
  {
    assert "Bearer abc" == "Bearer" + [' '] + "abc";
    SplitAt("Bearer", "abc", ' ');
    SplitFree("abc", ' ');
    assert "Bearer " == "Bearer" + [' '] + "";
    SplitAt("Bearer", "", ' ');
    SplitFree("Bearer", ' ');
  }

  /** How `authenticateToken` ends: 401, 403, or on to the route with the decoded user. */
  datatype Authentication = Rejected(status: nat) | Authenticated(user: Payload)

  /**
   * No token: 401. A token `verify` rejects: 403. Otherwise the request goes
   * on with `verify`'s payload as its user.
   */
  function Authenticate(authorization: Option<string>, verify: string -> Option<Payload>): (a: Authentication)
    ensures a == Rejected(Unauthorized) <==> authorization.None? || (authorization.value != "" && ' ' !in authorization.value)
    ensures a == Rejected(Forbidden) <==> ExtractToken(authorization).Some? && verify(ExtractToken(authorization).value).None?
    ensures a.Rejected? ==> a.status in {Unauthorized, Forbidden}
    ensures a.Authenticated? ==> ExtractToken(authorization).Some? && verify(ExtractToken(authorization).value) == Some(a.user)
  {
    match ExtractToken(authorization)
    case None => Rejected(Unauthorized)
    case Some(token) =>
      match verify(token)
      case None => Rejected(Forbidden)
      case Some(user) => Authenticated(user)
  }

  /** The parts of an Express request the gate reads and writes. */
  class Request {
    const authorization: Option<string>
    var user: Option<Payload>

    constructor (authorization: Option<string>)
      ensures this.authorization == authorization && user == None
    {
      this.authorization := authorization;
      user := None;
    }
  }

  /** `authenticateToken`: sets `req.user` and calls `next()` only when the token verifies. */
  method AuthenticateToken(req: Request, verify: string -> Option<Payload>) returns (response: Response)
    modifies req
    ensures var a := Authenticate(req.authorization, verify);
      && (a.Rejected? ==> response == Respond(a.status) && req.user == old(req.user))
      && (a.Authenticated? ==> response == Next && req.user == Some(a.user))
  {
    var token := ExtractToken(req.authorization);
    if token.None? {
      return Respond(Unauthorized);
    }
    var user := verify(token.value);
    if user.None? {
      return Respond(Forbidden);
    }
    req.user := user;
    response := Next;
  }

  // ---------------------------------------------------------------------------
  // authorizeRoles
  // ---------------------------------------------------------------------------

  /** `authorizeRoles(...roles)`: 401 with no user; on iff the user's role is listed; 403 otherwise. */
  function AuthorizeRoles(roles: seq<string>, user: Option<Payload>): (r: Response)
    ensures r == Respond(Unauthorized) <==> user.None?
    ensures r == Next <==> user.Some? && user.value.rol in roles
    ensures r == Respond(Forbidden) <==> user.Some? && user.value.rol !in roles
  {
    if user.None? then Respond(Unauthorized)
    else if user.value.rol !in roles then Respond(Forbidden)
    else Next
  }

  /** With an empty role list, every authenticated user is turned away with 403. */
  lemma EmptyRoleListRejectsAll(user: Payload)
    ensures AuthorizeRoles([], Some(user)) == Respond(Forbidden)
  {
  }

  /**
   * The two gates in a row: a request reaches the route iff its header
   * yields a token, `verify` accepts it, and the decoded role is listed.
   */
  lemma GatesInSequence(authorization: Option<string>, verify: string -> Option<Payload>, roles: seq<string>)
    ensures var a := Authenticate(authorization, verify);
      var user := if a.Authenticated? then Some(a.user) else None;
      AuthorizeRoles(roles, user) == Next <==>
        ExtractToken(authorization).Some? && verify(ExtractToken(authorization).value).Some?
        && verify(ExtractToken(authorization).value).value.rol in roles
  {
  }
}
