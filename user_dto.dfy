/**
 * The request bodies of the user endpoints and the constraints `CreateUserDto` declares on its
 * fields. The constraints are stated as the set of class-validator violations a body produces.
 */
module UserDto {
  import opened Wrappers
  import opened Entities
  import opened Http

  /** The registration body. `is_active` and `role` are optional; `phone` is kept as its text. */
  datatype CreateUserDto = CreateUserDto(
    firstName: string,
    lastName: string,
    phone: string,
    email: string,
    password: string,
    isActive: Option<bool>,
    role: Option<Role>)

  /** The role a registration body declares: `role?: ROLE = ROLE.SUPER`. */
  function DeclaredRole(dto: CreateUserDto): Role {
    dto.role.GetOr(SUPER)
  }

  /** The profile-update body; an absent field (`undefined`) leaves its column as it is. */
  datatype UpdateUserDto = UpdateUserDto(
    firstName: Option<string>,
    lastName: Option<string>,
    phone: Option<string>,
    isActive: Option<bool>)

  // ---- the password pattern /^(?=.*\d)(?=.*[A-Z])(?=.*[a-z]).{8,12}$/ ----

  /** The characters a JavaScript `.` does not match. */
  predicate IsLineTerminator(c: char) {
    c == '\n' || c == '\r' || c == '\U{2028}' || c == '\U{2029}'
  }

  /** The classes `\d`, `[A-Z]` and `[a-z]`, all ASCII (the pattern has no `u` flag). */
  datatype CharClass = Digit | Upper | Lower

  predicate InClass(c: char, k: CharClass) {
    match k
    case Digit => '0' <= c <= '9'
    case Upper => 'A' <= c <= 'Z'
    case Lower => 'a' <= c <= 'z'
  }

  /** The lookahead `(?=.*X)` at the start of `s`: a character of class X after only `.`-characters. */
  predicate Lookahead(s: string, k: CharClass) {
    s != [] && (InClass(s[0], k) || (!IsLineTerminator(s[0]) && Lookahead(s[1..], k)))
  }

  /** `s.length` in JavaScript: a character beyond U+FFFF takes two UTF-16 code units. */
  function Utf16Length(s: string): (n: nat)
    ensures |s| <= n <= 2 * |s|
  {
    if s == [] then 0 else (if s[0] as int > 0xFFFF then 2 else 1) + Utf16Length(s[1..])
  }

  predicate NoLineTerminator(s: string) {
    forall i :: 0 <= i < |s| ==> !IsLineTerminator(s[i])
  }

  predicate Has(s: string, k: CharClass) {
    exists i :: 0 <= i < |s| && InClass(s[i], k)
  }

  /**
   * The anchored pattern: the three lookaheads at position 0, then `.{8,12}$`, that is 8 to 12
   * code units none of which is a line terminator.
   */
  predicate PatternMatches(s: string) {
    && Lookahead(s, Digit) && Lookahead(s, Upper) && Lookahead(s, Lower)
    && NoLineTerminator(s) && 8 <= Utf16Length(s) <= 12
  }

  lemma {:induction false} LookaheadOnOneLine(s: string, k: CharClass)
    requires NoLineTerminator(s)
    ensures Lookahead(s, k) <==> Has(s, k)
    decreases |s|
  {
    if s != [] {
      LookaheadOnOneLine(s[1..], k);
      if Has(s, k) && !InClass(s[0], k) {
        var i :| 0 <= i < |s| && InClass(s[i], k);
        assert InClass(s[1..][i - 1], k);
      }
    }
  }

  /** What the pattern accepts, without lookaheads: one line, each class present, 8 to 12 code units. */
  lemma PatternCharacterisation(s: string)
    ensures PatternMatches(s) <==>
      && NoLineTerminator(s) && Has(s, Digit) && Has(s, Upper) && Has(s, Lower)
      && 8 <= Utf16Length(s) <= 12
  {
    if NoLineTerminator(s) {
      LookaheadOnOneLine(s, Digit);
      LookaheadOnOneLine(s, Upper);
      LookaheadOnOneLine(s, Lower);
    }
  }

  // ---- class-validator ----

  datatype Field = FirstName | LastName | Phone | Email | Password

  /** A failed constraint: `@IsNotEmpty()`, `@MinLength(8)`, `@MaxLength(12)`, `@Matches(…, { message })`. */
  datatype Violation =
    | IsNotEmpty(field: Field)
    | MinLength(min: nat)
    | MaxLength(max: nat)
    | PatternMismatch(message: Message)

  /**
   * The violations of the password's constraints. MinLength and MaxLength use validator.js's
   * `isLength`, which counts a surrogate pair once, that is counts characters; the pattern counts
   * UTF-16 code units.
   */
  function PasswordViolations(pw: string): (r: set<Violation>)
    ensures PatternMismatch(PasswordInvalid) in r <==> !PatternMatches(pw)
    ensures forall v :: v in r && v.PatternMismatch? ==> v.message == PasswordInvalid
    ensures MinLength(8) in r <==> |pw| < 8
    ensures MaxLength(12) in r <==> |pw| > 12
  {
    (if pw == "" then {IsNotEmpty(Password)} else {})
    + (if |pw| < 8 then {MinLength(8)} else {})
    + (if |pw| > 12 then {MaxLength(12)} else {})
    + (if !PatternMatches(pw) then {PatternMismatch(PasswordInvalid)} else {})
  }

  /**
   * A password passes every constraint exactly when it is one line of 8 or more characters and
   * at most 12 UTF-16 code units, with an ASCII digit, an upper-case and a lower-case ASCII letter.
   * It then has between 8 and 12 characters.
   */
  lemma PasswordAccepted(pw: string)
    ensures PasswordViolations(pw) == {} <==>
      && 8 <= |pw| && Utf16Length(pw) <= 12 && NoLineTerminator(pw)
      && Has(pw, Digit) && Has(pw, Upper) && Has(pw, Lower)
    ensures PasswordViolations(pw) == {} ==> 8 <= |pw| <= 12
  {
    PatternCharacterisation(pw);
    if PasswordViolations(pw) == {} {
      assert PatternMismatch(PasswordInvalid) !in PasswordViolations(pw);
    }
  }

  /** The violations of a registration body; `@IsEmail()` is not part of this model. */
  function Violations(dto: CreateUserDto): (r: set<Violation>)
    ensures r == {} <==>
      && dto.firstName != "" && dto.lastName != "" && dto.phone != "" && dto.email != ""
      && PasswordViolations(dto.password) == {}
    ensures PasswordViolations(dto.password) <= r
  {
    (if dto.firstName == "" then {IsNotEmpty(FirstName)} else {})
    + (if dto.lastName == "" then {IsNotEmpty(LastName)} else {})
    + (if dto.phone == "" then {IsNotEmpty(Phone)} else {})
    + (if dto.email == "" then {IsNotEmpty(Email)} else {})
    + PasswordViolations(dto.password)
  }
}
