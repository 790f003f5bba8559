/** lib/basic-auth-middleware.js: parsing an `Authorization: Basic` header (section 2 of
    RFC 7617) and the ordered 401 checks. Base64 decoding (`new Buffer(s, 'base64')`) is a
    parameter `decode`. */
module BasicAuth {
  import opened Ids
  import opened Http

  const Scheme: string := "Basic "

  /** `sep` occurs in `s` at position `j`. */
  predicate Occurs(s: string, sep: string, j: int) {
    0 <= j && j + |sep| <= |s| && s[j..j + |sep|] == sep
  }

  predicate Contains(s: string, sep: string) {
    exists j | 0 <= j <= |s| :: Occurs(s, sep, j)
  }

  /** `s.indexOf(sep)`: the first position at which `sep` occurs. */
  function Find(s: string, sep: string): (r: Option<nat>)
    requires sep != ""
    ensures r.Some? ==> Occurs(s, sep, r.value)
    ensures r.Some? ==> forall j | 0 <= j < r.value :: !Occurs(s, sep, j)
    ensures r.None? ==> !Contains(s, sep)
    decreases |s|
  {
    if |s| < |sep| then None
    else if s[..|sep|] == sep then Some(0)
    else
      var rest := Find(s[1..], sep);
      assert forall j | 1 <= j :: Occurs(s, sep, j) <==> Occurs(s[1..], sep, j - 1) by {
        forall j | 1 <= j ensures Occurs(s, sep, j) <==> Occurs(s[1..], sep, j - 1) {
          if j + |sep| <= |s| {
            assert s[1..][j - 1..j - 1 + |sep|] == s[j..j + |sep|];
          }
        }
      }
      match rest
      case None => None
      case Some(i) => Some(i + 1)
  }

  /** `s.split(sep)` for a non-empty separator string. */
  function Split(s: string, sep: string): (parts: seq<string>)
    requires sep != ""
    ensures |parts| >= 1
    decreases |s|
  {
    match Find(s, sep)
    case None => [s]
    case Some(i) => [s[..i]] + Split(s[i + |sep|..], sep)
  }

  /** `parts.join(sep)`. */
  function Join(parts: seq<string>, sep: string): string
    requires |parts| >= 1
  {
    if |parts| == 1 then parts[0] else parts[0] + sep + Join(parts[1..], sep)
  }

  /** Splitting loses nothing: joining the parts with the separator gives the text back. */
  lemma {:induction false} JoinSplit(s: string, sep: string)
    requires sep != ""
    ensures Join(Split(s, sep), sep) == s
    decreases |s|
  {
    match Find(s, sep)
    case None =>
    case Some(i) =>
      JoinSplit(s[i + |sep|..], sep);
      assert Split(s, sep)[1..] == Split(s[i + |sep|..], sep);
      assert s == s[..i] + sep + s[i + |sep|..];
  }

  /** No part contains the separator. */
  lemma {:induction false} SplitPartsAreFree(s: string, sep: string, k: nat)
    requires sep != ""
    requires k < |Split(s, sep)|
    ensures !Contains(Split(s, sep)[k], sep)
    decreases |s|
  {
    match Find(s, sep)
    case None =>
    case Some(i) =>
      if k == 0 {
        forall j | Occurs(s[..i], sep, j) ensures false {
          assert s[..i][j..j + |sep|] == s[j..j + |sep|];
          assert Occurs(s, sep, j);
        }
      } else {
        SplitPartsAreFree(s[i + |sep|..], sep, k - 1);
      }
  }

  /** `parts[k]`, which is `undefined` past the end. */
  function At(parts: seq<string>, k: nat): Option<string> {
    if k < |parts| then Some(parts[k]) else None
  }

  /** The text up to the first `sep`, as `s.split(sep)[0]` gives it. */
  lemma FirstPart(s: string, sep: string)
    requires sep != ""
    ensures Split(s, sep)[0] == match Find(s, sep) case None => s case Some(i) => s[..i]
  {
  }

  /** `s.split(sep)[1]`: the text between the first and the second `sep`, or undefined. */
  lemma {:induction false} SecondPart(s: string, sep: string)
    requires sep != ""
    ensures Find(s, sep).None? ==> At(Split(s, sep), 1).None?
    ensures Find(s, sep).Some? ==>
      var i := Find(s, sep).value;
      var rest := s[i + |sep|..];
      At(Split(s, sep), 1) == Some(match Find(rest, sep) case None => rest case Some(j) => rest[..j])
  {
    match Find(s, sep)
    case None =>
    case Some(i) =>
      FirstPart(s[i + |sep|..], sep);
  }

  /** `req.auth`: `username` is `authArr[0]`, `password` is `authArr[1]` (maybe undefined). */
  datatype Credentials = Credentials(username: string, password: Option<string>)

  /** `utf8str.split(':')` read as the source reads it. */
  function ParseCredentials(text: string): Credentials {
    var parts := Split(text, ":");
    Credentials(parts[0], At(parts, 1))
  }

  /** Section 2 of RFC 7617: the user-id is the text before the first colon and the password is
      ALL of the text after it; text without a colon is not a user-pass. */
  function Rfc7617Credentials(text: string): Option<Credentials> {
    match Find(text, ":")
    case None => None
    case Some(i) => Some(Credentials(text[..i], Some(text[i + 1..])))
  }

  /** The source agrees with RFC 7617 on the user-id always, and on the password exactly when
      the password contains no colon; otherwise it keeps only the text up to that colon. */
  lemma {:induction false} PasswordStopsAtSecondColon(text: string)
    requires Find(text, ":").Some?
    ensures ParseCredentials(text).username == Rfc7617Credentials(text).value.username
    ensures ParseCredentials(text) == Rfc7617Credentials(text).value <==> !Contains(text[Find(text, ":").value + 1..], ":")
    ensures var rest := text[Find(text, ":").value + 1..];
      Contains(rest, ":") ==> ParseCredentials(text).password == Some(rest[..Find(rest, ":").value])
  {
    var i := Find(text, ":").value;
    var rest := text[i + 1..];
    FirstPart(text, ":");
    SecondPart(text, ":");
    match Find(rest, ":")
    case None =>
    case Some(j) =>
      assert Occurs(rest, ":", j);
      assert |rest[..j]| < |rest|;
  }

  /** Find is characterised by its contract: the first occurrence, or none. */
  lemma FindFirst(s: string, sep: string, i: nat)
    requires sep != "" && Occurs(s, sep, i)
    requires forall j | 0 <= j < i :: !Occurs(s, sep, j)
    ensures Find(s, sep) == Some(i)
  {
  }

  lemma OccursChar(s: string, c: char, j: int)
    ensures Occurs(s, [c], j) <==> 0 <= j < |s| && s[j] == c
  {
    if 0 <= j < |s| {
      assert s[j..j + 1] == [s[j]];
    }
  }

  /** In `u + ":" + tail` with a colon-free `u`, the first colon is the one right after `u`. */
  lemma FirstColonAfter(u: string, tail: string)
    requires ':' !in u
    ensures Find(u + ":" + tail, ":") == Some(|u|)
    ensures (u + ":" + tail)[..|u|] == u && (u + ":" + tail)[|u| + 1..] == tail
  {
    var t := u + ":" + tail;
    forall j | 0 <= j < |u| ensures !Occurs(t, ":", j) {
      OccursChar(t, ':', j);
      assert t[j] == u[j];
    }
    OccursChar(t, ':', |u|);
    FindFirst(t, ":", |u|);
    assert t[..|u|] == u;
    assert t[|u| + 1..] == tail;
  }

  /** The source cuts a password at its first colon: `user:pass:rest` gives password `pass`,
      where RFC 7617 gives `pass:rest`. */
  lemma TruncatedPassword(user: string, password: string, rest: string)
    requires ':' !in user && ':' !in password
    ensures ParseCredentials(user + ":" + (password + ":" + rest)) == Credentials(user, Some(password))
    ensures Rfc7617Credentials(user + ":" + (password + ":" + rest)) == Some(Credentials(user, Some(password + ":" + rest)))
  {
    var tail := password + ":" + rest;
    var t := user + ":" + tail;
    FirstColonAfter(user, tail);
    FirstColonAfter(password, rest);
    assert Occurs(tail, ":", |password|);
    PasswordStopsAtSecondColon(t);
  }

  /** RFC 7617 parsing is the inverse of writing a user-pass: any user-id without a colon and
      any password, colons included, come back unchanged. */
  lemma Rfc7617RoundTrip(user: string, password: string)
    requires ':' !in user
    ensures Rfc7617Credentials(user + ":" + password) == Some(Credentials(user, Some(password)))
  {
    FirstColonAfter(user, password);
  }

  /** What the middleware does: the value it writes to `req.auth` (None: not written) and the
      argument of its single call to `next` (None: `next()`). */
  datatype Decision = Decision(auth: Option<Credentials>, failure: Option<Error>)

  function Unauthorized401(message: string): Error {
    CreateError(Unauthorized, Text(message))
  }

  /** The segment of the header the credentials are decoded from: `authHeader.split('Basic ')[1]`. */
  function CredentialSegment(header: string): Option<string> {
    At(Split(header, Scheme), 1)
  }

  function Decide(header: Option<string>, decode: string -> string): (d: Decision)
    ensures d.failure.Some? ==> d.failure.value.status == Some(401)
    ensures d.failure.None? ==> d.auth.Some? && d.auth.value.username != "" && Truthy(d.auth.value.password)
  {
    if !Truthy(header) then Decision(None, Some(Unauthorized401("authorization header required")))
    else
      var segment := CredentialSegment(header.value);
      if !Truthy(segment) then Decision(None, Some(Unauthorized401("username and password required")))
      else
        var c := ParseCredentials(decode(segment.value));
        if c.username == "" then Decision(Some(c), Some(Unauthorized401("requires username")))
        else if !Truthy(c.password) then Decision(Some(c), Some(Unauthorized401("requires password")))
        else Decision(Some(c), None)
  }

  /** The checks come in the source's order: a missing header first, then a missing segment,
      then an empty username, then a missing password; and the request passes exactly when
      none of them fires. */
  lemma {:induction false} ChecksInOrder(header: Option<string>, decode: string -> string)
    ensures !Truthy(header) ==>
      Decide(header, decode) == Decision(None, Some(Unauthorized401("authorization header required")))
    ensures Truthy(header) && !Truthy(CredentialSegment(header.value)) ==>
      Decide(header, decode) == Decision(None, Some(Unauthorized401("username and password required")))
    ensures Truthy(header) && Truthy(CredentialSegment(header.value)) ==>
      var c := ParseCredentials(decode(CredentialSegment(header.value).value));
      && Decide(header, decode).auth == Some(c)
      && (c.username == "" ==> Decide(header, decode).failure == Some(Unauthorized401("requires username")))
      && (c.username != "" && !Truthy(c.password) ==>
            Decide(header, decode).failure == Some(Unauthorized401("requires password")))
      && (Decide(header, decode).failure.None? <==> c.username != "" && Truthy(c.password))
  {
  }

  /** The credentials come from the text after the FIRST `Basic ` wherever it stands, up to a
      second `Basic ` if there is one; the scheme need not open the header. */
  lemma SegmentAfterFirstScheme(header: string)
    ensures Find(header, Scheme).None? ==> CredentialSegment(header).None?
    ensures Find(header, Scheme).Some? ==>
      var rest := header[Find(header, Scheme).value + |Scheme|..];
      CredentialSegment(header) == Some(match Find(rest, Scheme) case None => rest case Some(j) => rest[..j])
  {
    SecondPart(header, Scheme);
  }

  lemma SchemeNeedNotLead()
    ensures CredentialSegment("xBasic YTpi") == Some("YTpi")
  {
    var h := "xBasic YTpi";
    assert h[0] != Scheme[0];
    assert h[1..7] == Scheme;
    FindFirst(h, Scheme, 1);
    assert h[7..] == "YTpi";
    assert Find("YTpi", Scheme) == None;
    SegmentAfterFirstScheme(h);
  }

  /** The request as the middleware sees it. */
  class Request {
    var authorization: Option<string>
    var auth: Option<Credentials>

    constructor (authorization: Option<string>)
      ensures this.authorization == authorization && auth == None
    {
      this.authorization := authorization;
      auth := None;
    }
  }

  /** The middleware itself: `next` is called exactly once, `req.auth` is written once the
      header has a credential segment. */
  method BasicAuthMiddleware(req: Request, next: Next, decode: string -> string)
    modifies req`auth, next
    ensures next.calls == old(next.calls) + [Decide(req.authorization, decode).failure]
    ensures req.auth == match Decide(req.authorization, decode).auth
                        case None => old(req.auth)
                        case Some(c) => Some(c)
  {
    var authHeader := req.authorization;
    if !Truthy(authHeader) {
      next.calls := next.calls + [Some(Unauthorized401("authorization header required"))];
      return;
    }
    var base64str := At(Split(authHeader.value, Scheme), 1);
    if !Truthy(base64str) {
      next.calls := next.calls + [Some(Unauthorized401("username and password required"))];
      return;
    }
    var utf8str := decode(base64str.value);
    var authArr := Split(utf8str, ":");
    req.auth := Some(Credentials(authArr[0], At(authArr, 1)));
    if req.auth.value.username == "" {
      next.calls := next.calls + [Some(Unauthorized401("requires username"))];
      return;
    }
    if !Truthy(req.auth.value.password) {
      next.calls := next.calls + [Some(Unauthorized401("requires password"))];
      return;
    }
    next.calls := next.calls + [None];
  }
}
