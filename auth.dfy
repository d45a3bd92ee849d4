/**
 * The request checks of the authentication blueprint (backend/auth.py):
 * the `Authorization` header and token gate, the admin gate, the password
 * and e-mail validators and the role-update rule. Token signatures, the
 * user database and password hashing are inputs.
 */
module Auth {
  import opened Common

  // ---------------------------------------------------------------------
  // str.split(" ")

  /** The index of the first `c` in `s`, or `|s|`. */
  function IndexOf(s: string, c: char): (i: nat)
    ensures i <= |s|
    ensures i < |s| ==> s[i] == c
    ensures forall k :: 0 <= k < i ==> s[k] != c
  {
    if s == [] || s[0] == c then 0 else IndexOf(s[1..], c) + 1
  }

  /** `s.split(c)` with an explicit separator: empty pieces are kept. */
  function SplitOn(s: string, c: char): (r: seq<string>)
    ensures r != []
    ensures forall p :: p in r ==> c !in p
    decreases |s|
  {
    var i := IndexOf(s, c);
    if i == |s| then [s] else [s[..i]] + SplitOn(s[i + 1..], c)
  }

  /** `c.join(parts)`. */
  function JoinOn(parts: seq<string>, c: char): string {
    if parts == [] then [] else if |parts| == 1 then parts[0] else parts[0] + [c] + JoinOn(parts[1..], c)
  }

  /** Splitting and joining again gives back the string. */
  lemma {:induction false} SplitJoin(s: string, c: char)
    ensures JoinOn(SplitOn(s, c), c) == s
    decreases |s|
  {
    var i := IndexOf(s, c);
    if i < |s| {
      SplitJoin(s[i + 1..], c);
      assert s == s[..i] + [c] + s[i + 1..];
    }
  }

  /** There is a second piece exactly when the separator occurs. */
  lemma {:induction false} SplitOnHasSecond(s: string, c: char)
    ensures |SplitOn(s, c)| >= 2 <==> c in s
  {
    var i := IndexOf(s, c);
    if c in s {
      var k :| 0 <= k < |s| && s[k] == c;
      assert i <= k;
    }
  }

  // ---------------------------------------------------------------------
  // token_required

  datatype HeaderResult = Token(token: string) | InvalidFormat | TokenMissing

  /**
   * Lines 18-26: the token is the second space-separated field of the
   * header. A header without a space is malformed; a missing header or an
   * empty second field means there is no token.
   */
  function ParseAuthorization(header: Option<string>): (r: HeaderResult)
    ensures r == InvalidFormat <==> header.Some? && ' ' !in header.value
    ensures r.Token? ==> r.token != [] && ' ' !in r.token
    ensures r.Token? ==> header.Some? && r.token == SplitOn(header.value, ' ')[1]
  {
    match header
    case None => TokenMissing
    case Some(h) =>
      var fields := SplitOn(h, ' ');
      SplitOnHasSecond(h, ' ');
      if |fields| < 2 then InvalidFormat
      else if fields[1] == [] then TokenMissing
      else Token(fields[1])
  }

  lemma {:induction false} SplitAt(s: string, c: char, i: nat)
    requires i < |s| && s[i] == c && forall k :: 0 <= k < i ==> s[k] != c
    ensures SplitOn(s, c) == [s[..i]] + SplitOn(s[i + 1..], c)
  {
  }

  lemma {:induction false} SplitNone(s: string, c: char)
    requires forall k :: 0 <= k < |s| ==> s[k] != c
    ensures SplitOn(s, c) == [s]
  {
  }

  /** The usual header, a scheme, one space and the token, yields the token. */
  lemma {:induction false} BearerHeader(scheme: string, token: string)
    requires ' ' !in scheme && ' ' !in token && token != []
    ensures ParseAuthorization(Some(scheme + " " + token)) == Token(token)
  {
    var h := scheme + " " + token;
    assert h[|scheme|] == ' ' && forall k :: 0 <= k < |scheme| ==> h[k] == scheme[k];
    SplitAt(h, ' ', |scheme|);
    assert h[|scheme| + 1..] == token;
    SplitNone(token, ' ');
  }

  /** Two spaces after the scheme leave the second field empty, which counts as no token. */
  lemma {:induction false} DoubleSpaceHeader(h: string, i: nat)
    requires i + 1 < |h| && h[i] == ' ' && h[i + 1] == ' ' && forall k :: 0 <= k < i ==> h[k] != ' '
    ensures ParseAuthorization(Some(h)) == TokenMissing
  {
    SplitAt(h, ' ', i);
    var rest := h[i + 1..];
    SplitAt(rest, ' ', 0);
    assert SplitOn(h, ' ')[1] == rest[..0];
  }

  /** A header without a space is malformed. */
  lemma {:induction false} BareTokenHeader()
    ensures ParseAuthorization(Some("abc")) == InvalidFormat
  {
    assert ' ' !in "abc";
  }

  /** What a verified token says: it expired, it is invalid, or it names a user id. */
  datatype TokenVerdict = Expired | BadToken | ForUser(id: nat)

  datatype User = User(id: nat, role: string, isActive: bool)

  datatype Gate = Allowed(user: User) | Denied(code: nat, message: string)

  /**
   * Lines 12-41: header, then token verification (`verify`), then the user
   * the token names (`users`). Every rejection is a 401.
   */
  function TokenRequired(header: Option<string>, verify: string -> TokenVerdict, users: map<nat, User>): (r: Gate)
    ensures r.Denied? ==> r.code == 401
    ensures header.Some? && ' ' !in header.value ==> r == Denied(401, "Invalid token format")
    ensures header.None? ==> r == Denied(401, "Token is missing")
    ensures ParseAuthorization(header) == InvalidFormat ==> r == Denied(401, "Invalid token format")
    ensures ParseAuthorization(header) == TokenMissing ==> r == Denied(401, "Token is missing")
    ensures ParseAuthorization(header).Token? && verify(ParseAuthorization(header).token) == Expired ==>
      r == Denied(401, "Token has expired")
    ensures ParseAuthorization(header).Token? && verify(ParseAuthorization(header).token) == BadToken ==>
      r == Denied(401, "Invalid token")
    ensures (ParseAuthorization(header).Token? && verify(ParseAuthorization(header).token).ForUser?
             && verify(ParseAuthorization(header).token).id !in users) ==>
      r == Denied(401, "Invalid token")
    ensures r.Allowed? <==>
      && ParseAuthorization(header).Token?
      && verify(ParseAuthorization(header).token).ForUser?
      && verify(ParseAuthorization(header).token).id in users
    ensures r.Allowed? ==> r.user == users[verify(ParseAuthorization(header).token).id]
  {
    match ParseAuthorization(header)
    case InvalidFormat => Denied(401, "Invalid token format")
    case TokenMissing => Denied(401, "Token is missing")
    case Token(t) =>
      match verify(t)
      case Expired => Denied(401, "Token has expired")
      case BadToken => Denied(401, "Invalid token")
      case ForUser(id) => if id in users then Allowed(users[id]) else Denied(401, "Invalid token")
  }

  // ---------------------------------------------------------------------
  // admin_required and update_user_role

  /** The session user `admin_required` consults (not the token's user). */
  datatype Session = Session(authenticated: bool, role: string)

  /** Lines 43-50: 403 unless the session user is authenticated with role "admin". */
  function AdminRequired(session: Session): (r: Option<Gate>)
    ensures r.None? <==> session.authenticated && session.role == "admin"
    ensures r.Some? ==> r.value == Denied(403, "Admin access required")
  {
    if !session.authenticated || session.role != "admin" then Some(Denied(403, "Admin access required")) else None
  }

  /** Line 328. */
  const ALLOWED_ROLES: seq<string> := ["user", "admin", "enterprise"]

  /** Python truthiness of a JSON value, as `bool(...)` computes it. */
  function Truthy(v: Value): bool {
    match v
    case VNone => false
    case VBool(b) => b
    case VInt(i) => i != 0
    case VFloat(x) => x != 0.0
    case VStr(s) => s != []
    case VList(items) => items != []
    case VDict(entries) => entries != []
  }

  datatype RoleUpdate = Updated(user: User) | Refused(code: nat, message: string)

  /**
   * Lines 315-335 behind both decorators: token first, then the admin
   * session, then the target user, then the role, which must be one of
   * the three allowed ones; `is_active` takes the truthiness of its value.
   */
  function UpdateUserRole(header: Option<string>, verify: string -> TokenVerdict, users: map<nat, User>,
                          session: Session, userId: nat, data: map<string, Value>): (r: RoleUpdate)
    ensures r.Updated? <==>
      && TokenRequired(header, verify, users).Allowed?
      && session.authenticated && session.role == "admin"
      && userId in users
      && ("role" in data ==> data["role"].VStr? && data["role"].s in ALLOWED_ROLES)
    ensures r.Updated? ==> r.user.id == users[userId].id
    ensures r.Updated? && "role" in data ==> r.user.role == data["role"].s && r.user.role in ALLOWED_ROLES
    ensures r.Updated? && "role" !in data ==> r.user.role == users[userId].role
    ensures r.Updated? ==> r.user.isActive == if "is_active" in data then Truthy(data["is_active"]) else users[userId].isActive
    ensures TokenRequired(header, verify, users).Denied? ==>
      r == Refused(TokenRequired(header, verify, users).code, TokenRequired(header, verify, users).message)
    ensures TokenRequired(header, verify, users).Allowed? && !(session.authenticated && session.role == "admin") ==>
      r == Refused(403, "Admin access required")
    ensures (TokenRequired(header, verify, users).Allowed? && session.authenticated && session.role == "admin"
             && userId !in users) ==>
      r == Refused(404, "User not found")
    ensures (TokenRequired(header, verify, users).Allowed? && session.authenticated && session.role == "admin"
             && userId in users && "role" in data && !(data["role"].VStr? && data["role"].s in ALLOWED_ROLES)) ==>
      r == Refused(400, "Invalid role")
  {
    match TokenRequired(header, verify, users)
    case Denied(code, message) => Refused(code, message)
    case Allowed(_) =>
      match AdminRequired(session)
      case Some(denied) => Refused(denied.code, denied.message)
      case None =>
        if userId !in users then Refused(404, "User not found")
        else
          var user := users[userId];
          if "role" in data && !(data["role"].VStr? && data["role"].s in ALLOWED_ROLES) then Refused(400, "Invalid role")
          else
            var role := if "role" in data then data["role"].s else user.role;
            var active := if "is_active" in data then Truthy(data["is_active"]) else user.isActive;
            Updated(User(user.id, role, active))
  }

  /** An update never gives a user a role outside the allowed three, if the user had one before. */
  lemma {:induction false} UpdateKeepsRolesAllowed(header: Option<string>, verify: string -> TokenVerdict, users: map<nat, User>,
                                session: Session, userId: nat, data: map<string, Value>)
    requires userId in users && users[userId].role in ALLOWED_ROLES
    ensures var r := UpdateUserRole(header, verify, users, session, userId, data);
      r.Updated? ==> r.user.role in ALLOWED_ROLES
  {
  }

  // ---------------------------------------------------------------------
  // validate_password

  predicate IsUpper(c: char) { 'A' <= c <= 'Z' }
  predicate IsLowerCase(c: char) { 'a' <= c <= 'z' }

  predicate HasChar(s: string, p: char -> bool) {
    exists i :: 0 <= i < |s| && p(s[i])
  }

  const PASSWORD_OK := "Password is valid"
  const PASSWORD_SHORT := "Password must be at least 8 characters long"
  const PASSWORD_NO_UPPER := "Password must contain at least one uppercase letter"
  const PASSWORD_NO_LOWER := "Password must contain at least one lowercase letter"
  const PASSWORD_NO_DIGIT := "Password must contain at least one number"

  /**
   * Lines 56-70: valid exactly when at least 8 characters long with an
   * upper-case letter, a lower-case letter and a digit; otherwise the
   * message names the first check that fails.
   */
  function ValidatePassword(password: string): (r: (bool, string))
    ensures r.0 <==> |password| >= 8 && HasChar(password, IsUpper) && HasChar(password, IsLowerCase)
                     && HasChar(password, IsAsciiDigit)
    ensures r.0 ==> r.1 == PASSWORD_OK
    ensures |password| < 8 ==> r.1 == PASSWORD_SHORT
    ensures |password| >= 8 && !HasChar(password, IsUpper) ==> r.1 == PASSWORD_NO_UPPER
    ensures |password| >= 8 && HasChar(password, IsUpper) && !HasChar(password, IsLowerCase) ==> r.1 == PASSWORD_NO_LOWER
    ensures (|password| >= 8 && HasChar(password, IsUpper) && HasChar(password, IsLowerCase)
             && !HasChar(password, IsAsciiDigit)) ==> r.1 == PASSWORD_NO_DIGIT
  {
    if |password| < 8 then (false, PASSWORD_SHORT)
    else if !HasChar(password, IsUpper) then (false, PASSWORD_NO_UPPER)
    else if !HasChar(password, IsLowerCase) then (false, PASSWORD_NO_LOWER)
    else if !HasChar(password, IsAsciiDigit) then (false, PASSWORD_NO_DIGIT)
    else (true, PASSWORD_OK)
  }

  /** Each failure message is distinct from the success message, so the flag and the message agree. */
  lemma {:induction false} PasswordMessageDecides(password: string)
    ensures ValidatePassword(password).0 <==> ValidatePassword(password).1 == PASSWORD_OK
  {
    assert PASSWORD_OK[9] == 'i' && PASSWORD_SHORT[9] == 'm';
    assert PASSWORD_NO_UPPER[9] == 'm' && PASSWORD_NO_LOWER[9] == 'm' && PASSWORD_NO_DIGIT[9] == 'm';
  }

  // ---------------------------------------------------------------------
  // validate_email

  predicate IsLetter(c: char) { IsUpper(c) || IsLowerCase(c) }

  predicate LocalChar(c: char) {
    IsLetter(c) || IsAsciiDigit(c) || c == '.' || c == '_' || c == '%' || c == '+' || c == '-'
  }

  predicate DomainChar(c: char) {
    IsLetter(c) || IsAsciiDigit(c) || c == '.' || c == '-'
  }

  predicate All(s: string, p: char -> bool) {
    forall k :: 0 <= k < |s| ==> p(s[k])
  }

  /**
   * The pattern `local@domain.tld` read declaratively: some split of `s`
   * into a non-empty local part, "@", a non-empty domain, "." and a
   * top-level domain of at least two letters.
   */
  predicate EmailPattern(s: string) {
    exists i, d :: 0 < i && i + 1 < d && d + 3 <= |s| && Split3(s, i, d)
  }

  predicate Split3(s: string, i: int, d: int)
    requires 0 < i && i + 1 < d && d + 3 <= |s|
  {
    && s[i] == '@' && s[d] == '.'
    && All(s[..i], LocalChar) && All(s[i + 1..d], DomainChar) && All(s[d + 1..], IsLetter)
  }

  /**
   * The same pattern computed without search: the '@' must be the first
   * one (no part admits a second), and the top-level domain starts after
   * the last dot (it admits no dot).
   */
  function MatchesEmail(s: string): (b: bool) {
    var i := IndexOf(s, '@');
    i < |s| &&
      var rest := s[i + 1..];
      var d := LastDot(rest);
      0 < i && 0 < d && d + 3 <= |rest|
      && All(s[..i], LocalChar) && All(rest[..d], DomainChar) && All(rest[d + 1..], IsLetter)
  }

  /** The index of the last '.' in `s`, or -1. */
  function LastDot(s: string): (r: int)
    ensures -1 <= r < |s|
    ensures r >= 0 ==> s[r] == '.'
    ensures forall k :: r < k < |s| ==> s[k] != '.'
  {
    if s == [] then -1 else if s[|s| - 1] == '.' then |s| - 1 else LastDot(s[..|s| - 1])
  }

  /** The search-free reading and the declarative one accept the same strings. */
  lemma {:induction false} MatchesEmailIffPattern(s: string)
    ensures MatchesEmail(s) <==> EmailPattern(s)
  {
    if MatchesEmail(s) {
      MatchGivesPattern(s);
    }
    if EmailPattern(s) {
      var i, d :| 0 < i && i + 1 < d && d + 3 <= |s| && Split3(s, i, d);
      PatternGivesMatch(s, i, d);
    }
  }

  lemma {:induction false} MatchGivesPattern(s: string)
    requires MatchesEmail(s)
    ensures EmailPattern(s)
  {
    var i := IndexOf(s, '@');
    var rest := s[i + 1..];
    var d := LastDot(rest);
    assert s[i + 1..i + 1 + d] == rest[..d];
    assert s[i + 1 + d + 1..] == rest[d + 1..];
    assert Split3(s, i, i + 1 + d);
  }

  lemma {:induction false} PatternGivesMatch(s: string, i: int, d: int)
    requires 0 < i && i + 1 < d && d + 3 <= |s| && Split3(s, i, d)
    ensures MatchesEmail(s)
  {
    FirstAtIs(s, i);
    var rest := s[i + 1..];
    assert rest[d - i - 1] == '.';
    assert rest[d - i..] == s[d + 1..];
    LastDotIs(rest, d - i - 1);
    assert rest[..d - i - 1] == s[i + 1..d];
  }

  /** An '@' preceded only by local-part characters is the first '@'. */
  lemma {:induction false} FirstAtIs(s: string, j: nat)
    requires j < |s| && s[j] == '@' && All(s[..j], LocalChar)
    ensures IndexOf(s, '@') == j
  {
    assert forall k :: 0 <= k < j ==> s[..j][k] == s[k];
  }

  /** A '.' followed only by letters is the last '.'. */
  lemma {:induction false} LastDotIs(s: string, e: nat)
    requires e < |s| && s[e] == '.' && All(s[e + 1..], IsLetter)
    ensures LastDot(s) == e
  {
    assert forall k :: e < k < |s| ==> s[e + 1..][k - e - 1] == s[k];
  }

  /**
   * Lines 51-54: `re.match` with `^...$`. Python's `$` also matches just
   * before a final newline, so one trailing "\n" is accepted.
   */
  function ValidateEmail(email: string): (ok: bool)
    ensures ok <==> EmailPattern(email)
                    || (email != [] && email[|email| - 1] == '\n' && EmailPattern(email[..|email| - 1]))
  {
    BothReadings(email);
    MatchesEmail(email) || (email != [] && email[|email| - 1] == '\n' && MatchesEmail(email[..|email| - 1]))
  }

  lemma {:induction false} BothReadings(email: string)
    ensures MatchesEmail(email) <==> EmailPattern(email)
    ensures email != [] ==> (MatchesEmail(email[..|email| - 1]) <==> EmailPattern(email[..|email| - 1]))
  {
    MatchesEmailIffPattern(email);
    if email != [] {
      MatchesEmailIffPattern(email[..|email| - 1]);
    }
  }

  /** How many times `c` occurs in `s`. */
  function CountChar(s: string, c: char): nat {
    if s == [] then 0 else CountChar(s[..|s| - 1], c) + (if s[|s| - 1] == c then 1 else 0)
  }

  /** An accepted address has exactly one '@'. */
  lemma {:induction false} EmailHasOneAt(email: string)
    requires ValidateEmail(email)
    ensures CountChar(email, '@') == 1
  {
    if MatchesEmail(email) {
      MatchHasOneAt(email);
    } else {
      var s := email[..|email| - 1];
      MatchHasOneAt(s);
      assert email == s + ['\n'];
      NewlineKeepsCount(s);
    }
  }

  lemma {:induction false} NewlineKeepsCount(s: string)
    ensures CountChar(s + ['\n'], '@') == CountChar(s, '@')
  {
    assert (s + ['\n'])[..|s|] == s;
  }

  lemma {:induction false} MatchHasOneAt(s: string)
    requires MatchesEmail(s)
    ensures CountChar(s, '@') == 1
  {
    var i := IndexOf(s, '@');
    var rest := s[i + 1..];
    var d := LastDot(rest);
    NoCharCount(s[..i], '@');
    forall k | 0 <= k < |rest| ensures rest[k] != '@' {
      if k < d { assert rest[k] == rest[..d][k]; }
      else if k > d { assert rest[k] == rest[d + 1..][k - d - 1]; }
    }
    NoCharCount(rest, '@');
    CountCharAppend(s[..i] + [s[i]], rest, '@');
    CountCharAppend(s[..i], [s[i]], '@');
    assert s == s[..i] + [s[i]] + rest;
  }

  lemma {:induction false} NoCharCount(s: string, c: char)
    requires forall k :: 0 <= k < |s| ==> s[k] != c
    ensures CountChar(s, c) == 0
  {
    if s != [] {
      NoCharCount(s[..|s| - 1], c);
    }
  }

  lemma {:induction false} CountCharAppend(a: string, b: string, c: char)
    ensures CountChar(a + b, c) == CountChar(a, c) + CountChar(b, c)
  {
    if b != [] {
      CountCharAppend(a, b[..|b| - 1], c);
      assert (a + b)[..|a + b| - 1] == a + b[..|b| - 1];
    } else {
      assert a + b == a;
    }
  }

  /** A trailing newline is accepted; a one-letter top-level domain is not. */
  lemma {:induction false} EmailExamples()
    ensures ValidateEmail("a@b.cd\n")
    ensures !ValidateEmail("a@b.c")
  {
    var s := "a@b.cd";
    assert s + "\n" == "a@b.cd\n";
    assert Split3(s, 1, 3) by {
      assert s[..1] == "a" && s[2..3] == "b" && s[4..] == "cd";
    }
    var t := "a@b.c";
    MatchesEmailIffPattern(t);
    assert IndexOf(t, '@') == 1;
    assert t[2..] == "b.c";
    assert LastDot(t[2..]) == 1;
    assert t[|t| - 1] != '\n';
  }
}
