/**
 * The sign-up schema of lib/signUpSchema.ts: password strength, the name and
 * phone patterns, and the password-confirmation refinement. Each regular
 * expression becomes a predicate over the characters of the string.
 */
module SignUpSchema {
  import opened Forms

  datatype SignUpForm = SignUpForm(
    email: string, password: string, confirmPassword: string,
    firstName: string, middleName: string, lastName: string, phoneNumber: string)

  // ------------------------------------------------------------- password

  predicate HasUpper(s: string) { exists i :: 0 <= i < |s| && IsAsciiUpper(s[i]) }
  predicate HasLower(s: string) { exists i :: 0 <= i < |s| && IsAsciiLower(s[i]) }
  predicate HasDigit(s: string) { exists i :: 0 <= i < |s| && IsAsciiDigit(s[i]) }

  /** Some character lies outside [A-Za-z0-9]. */
  predicate HasSpecial(s: string)
  {
    exists i :: 0 <= i < |s| && !(IsAsciiLetter(s[i]) || IsAsciiDigit(s[i]))
  }

  /** The password rules, all of which must hold. */
  predicate StrongPassword(p: string)
  {
    Utf16Length(p) >= 8 && HasUpper(p) && HasLower(p) && HasDigit(p) && HasSpecial(p)
  }

  /** One issue on the password path for each failed check, in the schema's order. */
  function PasswordCheckIssues(long: bool, upper: bool, lower: bool, digit: bool, special: bool): (r: seq<Issue>)
    ensures r == [] <==> long && upper && lower && digit && special
    ensures |r| == (if long then 0 else 1) + (if upper then 0 else 1) + (if lower then 0 else 1)
                   + (if digit then 0 else 1) + (if special then 0 else 1)
    ensures forall i :: 0 <= i < |r| ==> r[i].path == "password"
    ensures !long ==> Issue("password", "Password must be at least 8 characters") in r
    ensures !upper ==> Issue("password", "Must contain at least one uppercase letter") in r
    ensures !lower ==> Issue("password", "Must contain at least one lowercase letter") in r
    ensures !digit ==> Issue("password", "Must contain at least one number") in r
    ensures !special ==> Issue("password", "Must contain at least one special character") in r
  {
    var rs := (if long then [] else [Issue("password", "Password must be at least 8 characters")])
      + (if upper then [] else [Issue("password", "Must contain at least one uppercase letter")])
      + (if lower then [] else [Issue("password", "Must contain at least one lowercase letter")])
      + (if digit then [] else [Issue("password", "Must contain at least one number")]);
    rs + (if special then [] else [Issue("password", "Must contain at least one special character")])
  }

  /** Every password check runs, so each broken rule contributes its own issue. */
  function PasswordIssues(p: string): (r: seq<Issue>)
    ensures r == [] <==> StrongPassword(p)
    ensures |r| <= 5 && forall i :: 0 <= i < |r| ==> r[i].path == "password"
    ensures Utf16Length(p) < 8 ==> Issue("password", "Password must be at least 8 characters") in r
    ensures !HasUpper(p) ==> Issue("password", "Must contain at least one uppercase letter") in r
    ensures !HasLower(p) ==> Issue("password", "Must contain at least one lowercase letter") in r
    ensures !HasDigit(p) ==> Issue("password", "Must contain at least one number") in r
    ensures !HasSpecial(p) ==> Issue("password", "Must contain at least one special character") in r
  {
    PasswordCheckIssues(Utf16Length(p) >= 8, HasUpper(p), HasLower(p), HasDigit(p), HasSpecial(p))
  }

  /**
   * The length rule counts UTF-16 code units: eight characters always
   * suffice, and so do four characters from outside the Basic Multilingual Plane.
   */
  lemma PasswordLengthInCodeUnits(p: string)
    ensures |p| >= 8 ==> Utf16Length(p) >= 8
    ensures Utf16Length(p) >= 8 ==> |p| >= 4
  {
    Utf16LengthBounds(p);
  }

  // ---------------------------------------------------------------- names

  /** The character class [a-zA-Z\s'-]. */
  predicate IsNameChar(c: char)
  {
    IsAsciiLetter(c) || IsJsWhitespace(c) || c == '\'' || c == '-'
  }

  /** The whole string matches ^[a-zA-Z\s'-]+$. */
  predicate MatchesNamePattern(s: string)
  {
    |s| >= 1 && forall i :: 0 <= i < |s| ==> IsNameChar(s[i])
  }

  /** Name characters are all in the Basic Multilingual Plane, so each counts once. */
  lemma {:induction false} NameCharsCountOnce(s: string)
    ensures (forall i :: 0 <= i < |s| ==> IsNameChar(s[i])) ==> Utf16Length(s) == |s|
  {
    if s != [] {
      NameCharsCountOnce(s[..|s| - 1]);
    }
  }

  /** A name field: a minimum length, then the pattern; both checks run. */
  function NameIssues(path: string, s: string, minLength: nat, minMessage: string): (r: seq<Issue>)
    ensures r == [] <==> |s| >= minLength && MatchesNamePattern(s)
    ensures forall i :: 0 <= i < |r| ==> r[i].path == path
  {
    NameCharsCountOnce(s);
    (if Utf16Length(s) >= minLength then [] else [Issue(path, minMessage)])
    + (if MatchesNamePattern(s) then [] else [Issue(path, "No numbers or emojis")])
  }

  // ---------------------------------------------------------------- phone

  predicate AllDigits(s: string)
  {
    forall i :: 0 <= i < |s| ==> IsAsciiDigit(s[i])
  }

  /** How a matcher reads ^\+?[0-9]{10,15}$: take a leading '+', then demand 10 to 15 digits. */
  predicate PhoneMatches(s: string)
  {
    var digits := if |s| > 0 && s[0] == '+' then s[1..] else s;
    10 <= |digits| <= 15 && AllDigits(digits)
  }

  /** The language of the pattern: an optional '+' followed by 10 to 15 digits and nothing else. */
  ghost predicate IsPhoneNumber(s: string)
  {
    exists d :: AllDigits(d) && 10 <= |d| <= 15 && (s == d || s == "+" + d)
  }

  lemma PhoneMatchesExactly(s: string)
    ensures PhoneMatches(s) <==> IsPhoneNumber(s)
  {
    if PhoneMatches(s) {
      if |s| > 0 && s[0] == '+' {
        assert s == "+" + s[1..];
        assert AllDigits(s[1..]);
      } else {
        assert AllDigits(s);
      }
    }
    if IsPhoneNumber(s) {
      var d :| AllDigits(d) && 10 <= |d| <= 15 && (s == d || s == "+" + d);
      if s == d {
        assert IsAsciiDigit(s[0]);
      } else {
        assert s[1..] == d;
      }
    }
  }

  // --------------------------------------------------------------- schema

  /** The field rules of the schema, without the confirmation refinement. */
  predicate FieldsValid(f: SignUpForm, isEmail: string -> bool)
  {
    && isEmail(f.email)
    && StrongPassword(f.password)
    && |f.confirmPassword| >= 1
    && |f.firstName| >= 2 && MatchesNamePattern(f.firstName)
    && |f.middleName| >= 1 && MatchesNamePattern(f.middleName)
    && |f.lastName| >= 2 && MatchesNamePattern(f.lastName)
    && PhoneMatches(f.phoneNumber)
  }

  /** The three name fields, in form order. */
  function NamesIssues(f: SignUpForm): (r: seq<Issue>)
    ensures r == [] <==>
              && |f.firstName| >= 2 && MatchesNamePattern(f.firstName)
              && |f.middleName| >= 1 && MatchesNamePattern(f.middleName)
              && |f.lastName| >= 2 && MatchesNamePattern(f.lastName)
    ensures forall i :: 0 <= i < |r| ==> r[i].path != "confirmPassword"
  {
    NameIssues("firstName", f.firstName, 2, "First name is required")
    + NameIssues("middleName", f.middleName, 1, "Middle name is required")
    + NameIssues("lastName", f.lastName, 2, "Last name is required")
  }

  /** The field issues in form order, given the outcome of each field's check. */
  function FieldCheckIssues(email: bool, password: seq<Issue>, confirm: bool, names: seq<Issue>, phone: bool)
    : (r: seq<Issue>)
    requires forall i :: 0 <= i < |password| ==> password[i].path == "password"
    requires forall i :: 0 <= i < |names| ==> names[i].path != "confirmPassword"
    ensures r == [] <==> email && password == [] && confirm && names == [] && phone
    ensures Issue("confirmPassword", "Passwords do not match") !in r
  {
    var head := (if email then [] else [Issue("email", "Invalid email address")]) + password
      + (if confirm then [] else [Issue("confirmPassword", "Please confirm your password")]);
    assert Issue("confirmPassword", "Passwords do not match") !in head;
    head + names + (if phone then [] else [Issue("phoneNumber", "Invalid phone number")])
  }

  function FieldIssues(f: SignUpForm, isEmail: string -> bool): (r: seq<Issue>)
    ensures r == [] <==> FieldsValid(f, isEmail)
    ensures Issue("confirmPassword", "Passwords do not match") !in r
  {
    Utf16LengthZero(f.confirmPassword);
    FieldCheckIssues(isEmail(f.email), PasswordIssues(f.password), Utf16Length(f.confirmPassword) >= 1,
                     NamesIssues(f), PhoneMatches(f.phoneNumber))
  }

  /**
   * signUpSchema: the field issues, then the refinement. Every input here is
   * a string, so no field issue stops the refinement from running.
   */
  function SignUpIssues(f: SignUpForm, isEmail: string -> bool): (r: seq<Issue>)
    ensures r == [] <==> FieldsValid(f, isEmail) && f.password == f.confirmPassword
    ensures f.password != f.confirmPassword <==>
              |r| > 0 && r[|r| - 1] == Issue("confirmPassword", "Passwords do not match")
  {
    FieldIssues(f, isEmail)
    + (if f.password == f.confirmPassword then [] else [Issue("confirmPassword", "Passwords do not match")])
  }

  /** A form whose fields are all valid is rejected only for the mismatch, on the confirmPassword path. */
  lemma MismatchIsTheOnlyIssue(f: SignUpForm, isEmail: string -> bool)
    requires FieldsValid(f, isEmail) && f.password != f.confirmPassword
    ensures SignUpIssues(f, isEmail) == [Issue("confirmPassword", "Passwords do not match")]
  {
  }
}
