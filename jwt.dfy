/**
 * JSON Web Tokens, as far as the services rely on them. A token is the canonical text of its
 * claims under the one configured signing secret: `Sign` writes that text and `Verify` accepts
 * exactly the texts `Sign` can produce. Header, base64url, JSON and HMAC are not modelled.
 */
module Jwt {
  import opened Wrappers
  import opened Entities

  /**
   * The payloads the services sign. jsonwebtoken adds `iat`, the issue time in whole seconds.
   * Session: `{ email, role }` signed at login. PasswordReset: `{ user: id, email }` signed by
   * forgotPassword.
   */
  datatype Claims =
    | Session(email: string, role: Role, iat: nat)
    | PasswordReset(user: nat, email: string, iat: nat)

  /** `Math.floor(Date.now() / 1000)` for a clock reading in milliseconds. */
  function IssuedAt(nowMs: nat): nat {
    nowMs / 1000
  }

  // ---- decimal numerals ----

  predicate IsDigit(c: char) {
    '0' <= c <= '9'
  }

  predicate AllDigits(s: string) {
    forall i :: 0 <= i < |s| ==> IsDigit(s[i])
  }

  /** A numeral without superfluous leading zeros. */
  predicate Canonical(s: string) {
    |s| > 0 && AllDigits(s) && (|s| > 1 ==> s[0] != '0')
  }

  function DigitChar(d: nat): (c: char)
    requires d < 10
    ensures IsDigit(c) && (c as int) - ('0' as int) == d
  {
    (('0' as int) + d) as char
  }

  function DigitValue(c: char): (d: nat)
    requires IsDigit(c)
    ensures d < 10 && DigitChar(d) == c
  {
    (c as int) - ('0' as int)
  }

  function Decimal(n: nat): (s: string)
    ensures |s| > 0 && AllDigits(s)
    decreases n
  {
    if n < 10 then [DigitChar(n)] else Decimal(n / 10) + [DigitChar(n % 10)]
  }

  function Value(s: string): nat
    requires AllDigits(s)
  {
    if s == [] then 0 else Value(s[..|s| - 1]) * 10 + DigitValue(s[|s| - 1])
  }

  lemma {:induction false} DecimalLeadsNonZero(n: nat)
    requires n > 0
    ensures Decimal(n)[0] != '0'
    decreases n
  {
    if n >= 10 {
      DecimalLeadsNonZero(n / 10);
    }
  }

  lemma {:induction false} DecimalIsCanonical(n: nat)
    ensures Canonical(Decimal(n))
  {
    if n >= 10 {
      DecimalLeadsNonZero(n);
    }
  }

  lemma {:induction false} ValueOfDecimal(n: nat)
    ensures Value(Decimal(n)) == n
    decreases n
  {
    var s := Decimal(n);
    if n >= 10 {
      ValueOfDecimal(n / 10);
      assert s[..|s| - 1] == Decimal(n / 10);
    }
  }

  lemma {:induction false} ValueLeadingNonZero(s: string)
    requires |s| > 0 && AllDigits(s) && s[0] != '0'
    ensures Value(s) >= 1
    decreases |s|
  {
    if |s| > 1 {
      ValueLeadingNonZero(s[..|s| - 1]);
    }
  }

  lemma {:induction false} DecimalOfValue(s: string)
    requires Canonical(s)
    ensures Decimal(Value(s)) == s
    decreases |s|
  {
    if |s| > 1 {
      var p := s[..|s| - 1];
      var d := DigitValue(s[|s| - 1]);
      ValueLeadingNonZero(p);
      DecimalOfValue(p);
      var v := Value(s);
      assert v == Value(p) * 10 + d;
      assert v / 10 == Value(p) && v % 10 == d;
      assert s == p + [s[|s| - 1]];
    }
  }

  // ---- fields separated by '.' ----

  /** The length of the longest run of digits at the front of `s`. */
  function DigitRun(s: string): (k: nat)
    ensures k <= |s| && AllDigits(s[..k])
    ensures k < |s| ==> !IsDigit(s[k])
  {
    if s == [] || !IsDigit(s[0]) then 0
    else
      var k := 1 + DigitRun(s[1..]);
      assert s[..k] == [s[0]] + s[1..][..k - 1];
      k
  }

  /** A canonical numeral followed by '.', and what comes after the '.'. */
  function NumberField(s: string): Option<(nat, string)> {
    var k := DigitRun(s);
    if k < |s| && s[k] == '.' && Canonical(s[..k]) then Some((Value(s[..k]), s[k + 1..])) else None
  }

  lemma {:induction false} DigitRunStopsAtDot(d: string, rest: string)
    requires AllDigits(d)
    ensures DigitRun(d + "." + rest) == |d|
    decreases |d|
  {
    if d != [] {
      assert (d + "." + rest)[1..] == d[1..] + "." + rest;
      DigitRunStopsAtDot(d[1..], rest);
    }
  }

  lemma NumberFieldOfDecimal(n: nat, rest: string)
    ensures NumberField(Decimal(n) + "." + rest) == Some((n, rest))
  {
    var d := Decimal(n);
    var s := d + "." + rest;
    DigitRunStopsAtDot(d, rest);
    assert s[..|d|] == d;
    assert s[|d| + 1..] == rest;
    DecimalIsCanonical(n);
    ValueOfDecimal(n);
  }

  lemma NumberFieldInverse(s: string, n: nat, rest: string)
    requires NumberField(s) == Some((n, rest))
    ensures s == Decimal(n) + "." + rest
  {
    var k := DigitRun(s);
    DecimalOfValue(s[..k]);
    assert s == s[..k] + [s[k]] + s[k + 1..];
  }

  // ---- signing and verifying ----

  function RoleTag(r: Role): char {
    match r
    case SUPER => 'P'
    case SUB => 'B'
  }

  function TagRole(c: char): Option<Role> {
    if c == 'P' then Some(SUPER) else if c == 'B' then Some(SUB) else None
  }

  /** `jwtService.sign` / `jwt.sign(payload, secret, {})`. */
  function Sign(c: Claims): string {
    match c
    case Session(email, role, iat) => ['S', RoleTag(role), '.'] + Decimal(iat) + "." + email
    case PasswordReset(user, email, iat) => "R." + Decimal(user) + "." + Decimal(iat) + "." + email
  }

  /** `jwt.verify(token, secret)`: the claims, or `None` where jsonwebtoken throws. */
  function Verify(token: string): Option<Claims> {
    if |token| >= 3 && token[0] == 'S' && token[2] == '.' && TagRole(token[1]).Some? then
      ParseSession(TagRole(token[1]).value, token[3..])
    else if |token| >= 2 && token[0] == 'R' && token[1] == '.' then
      ParseReset(token[2..])
    else None
  }

  function ParseSession(role: Role, body: string): Option<Claims> {
    match NumberField(body)
    case None => None
    case Some((iat, email)) => Some(Session(email, role, iat))
  }

  function ParseReset(body: string): Option<Claims> {
    match NumberField(body)
    case None => None
    case Some((user, rest)) =>
      match NumberField(rest)
      case None => None
      case Some((iat, email)) => Some(PasswordReset(user, email, iat))
  }

  lemma SessionSigned(email: string, role: Role, iat: nat)
    ensures Verify(Sign(Session(email, role, iat))) == Some(Session(email, role, iat))
  {
    var body := Decimal(iat) + "." + email;
    var t := ['S', RoleTag(role), '.'] + body;
    assert t == Sign(Session(email, role, iat));
    assert t[0] == 'S' && t[2] == '.' && TagRole(t[1]) == Some(role);
    assert t[3..] == body;
    NumberFieldOfDecimal(iat, email);
    assert ParseSession(role, body) == Some(Session(email, role, iat));
  }

  lemma ResetSigned(user: nat, email: string, iat: nat)
    ensures Verify(Sign(PasswordReset(user, email, iat))) == Some(PasswordReset(user, email, iat))
  {
    var rest := Decimal(iat) + "." + email;
    var body := Decimal(user) + "." + rest;
    var t := "R." + body;
    assert t == Sign(PasswordReset(user, email, iat));
    assert t[0] == 'R' && t[1] == '.' && t[2..] == body;
    NumberFieldOfDecimal(user, rest);
    NumberFieldOfDecimal(iat, email);
    assert ParseReset(body) == Some(PasswordReset(user, email, iat));
  }

  /** A signed token verifies, and yields exactly the claims it was signed with. */
  lemma VerifySigned(c: Claims)
    ensures Verify(Sign(c)) == Some(c)
  {
    match c
    case Session(email, role, iat) => SessionSigned(email, role, iat);
    case PasswordReset(user, email, iat) => ResetSigned(user, email, iat);
  }

  lemma SessionTokenIsSigned(token: string, c: Claims)
    requires |token| >= 3 && token[0] == 'S' && token[2] == '.' && TagRole(token[1]).Some?
    requires Verify(token) == Some(c)
    ensures token == Sign(c)
  {
    var body := token[3..];
    var role := TagRole(token[1]).value;
    var f := NumberField(body).value;
    assert c == Session(f.1, role, f.0);
    NumberFieldInverse(body, f.0, f.1);
    assert RoleTag(role) == token[1];
    assert token == ['S', RoleTag(role), '.'] + body;
    SessionText(RoleTag(role), Decimal(f.0), f.1);
  }

  lemma SessionText(tag: char, a: string, e: string)
    ensures ['S', tag, '.'] + a + "." + e == ['S', tag, '.'] + (a + "." + e)
  {
  }

  lemma ResetText(a: string, b: string, e: string)
    ensures "R." + a + "." + b + "." + e == "R." + (a + "." + (b + "." + e))
  {
  }

  lemma ResetTokenIsSigned(token: string, c: Claims)
    requires |token| >= 2 && token[0] == 'R' && token[1] == '.'
    requires ParseReset(token[2..]) == Some(c)
    ensures token == Sign(c)
  {
    var body := token[2..];
    var f := NumberField(body).value;
    var g := NumberField(f.1).value;
    assert c == PasswordReset(f.0, g.1, g.0);
    NumberFieldInverse(body, f.0, f.1);
    NumberFieldInverse(f.1, g.0, g.1);
    assert token == "R." + body;
    ResetText(Decimal(f.0), Decimal(g.0), g.1);
  }

  /** Only signed tokens verify: a token that verifies is the signature of its own claims. */
  lemma OnlySignedVerify(token: string, c: Claims)
    requires Verify(token) == Some(c)
    ensures token == Sign(c)
  {
    if |token| >= 3 && token[0] == 'S' && token[2] == '.' && TagRole(token[1]).Some? {
      SessionTokenIsSigned(token, c);
    } else {
      ResetTokenIsSigned(token, c);
    }
  }

  /** Different claims give different tokens. */
  lemma SignInjective(c1: Claims, c2: Claims)
    ensures Sign(c1) == Sign(c2) <==> c1 == c2
  {
    VerifySigned(c1);
    VerifySigned(c2);
  }
}
