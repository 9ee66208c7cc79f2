/**
 * includes/auth.php: the session test behind every admin page and the password
 * policy. `strlen` counts UTF-8 bytes; the character classes `[A-Z]`, `[a-z]`
 * and `[0-9]` only ever match ASCII bytes, which in UTF-8 are exactly the ASCII
 * characters, so testing characters gives the same answer as testing bytes.
 */
module Auth {
  import opened Wrappers
  import opened Php

  /** Lines 11-13: `isset($_SESSION['user_id']) && !empty(...)`; None stands for
      an unset or null entry. */
  function IsLoggedIn(userId: Option<Scalar>): (ok: bool)
    ensures ok <==> userId.Some? && Truthy(userId.value)
    ensures userId == Some(Str("0")) || userId == Some(Int(0)) || userId == Some(Str("")) ==> !ok
  {
    userId.Some? && Truthy(userId.value)
  }

  /** The entries of the returned error list. */
  datatype PasswordError = TooShort | NoUpper | NoLower | NoDigit

  /** The position of each check in the function. */
  function Rank(e: PasswordError): nat {
    match e
    case TooShort => 0
    case NoUpper => 1
    case NoLower => 2
    case NoDigit => 3
  }

  predicate HasUpper(s: string) {
    exists i :: 0 <= i < |s| && IsUpper(s[i])
  }

  predicate HasLower(s: string) {
    exists i :: 0 <= i < |s| && IsLower(s[i])
  }

  predicate HasDigit(s: string) {
    exists i :: 0 <= i < |s| && IsDigit(s[i])
  }

  /** Whether the password meets the policy. */
  predicate Strong(password: string) {
    Utf8Length(password) >= 8 && HasUpper(password) && HasLower(password) && HasDigit(password)
  }

  /** Lines 148-168: one error per failed check, in the order of the checks. */
  function ValidatePassword(password: string): (errors: seq<PasswordError>)
    ensures errors == [] <==> Strong(password)
    ensures TooShort in errors <==> Utf8Length(password) < 8
    ensures NoUpper in errors <==> !HasUpper(password)
    ensures NoLower in errors <==> !HasLower(password)
    ensures NoDigit in errors <==> !HasDigit(password)
    ensures |errors| <= 4
    ensures forall i, j :: 0 <= i < j < |errors| ==> Rank(errors[i]) < Rank(errors[j])
  {
    Report(Utf8Length(password) < 8, !HasUpper(password), !HasLower(password), !HasDigit(password))
  }

  /** The error list for the outcomes of the four checks: one entry per failed
      check, in the order of the checks. */
  function Report(short: bool, noUpper: bool, noLower: bool, noDigit: bool): (errors: seq<PasswordError>)
    ensures errors == [] <==> !short && !noUpper && !noLower && !noDigit
    ensures TooShort in errors <==> short
    ensures NoUpper in errors <==> noUpper
    ensures NoLower in errors <==> noLower
    ensures NoDigit in errors <==> noDigit
    ensures |errors| <= 4
    ensures forall i, j :: 0 <= i < j < |errors| ==> Rank(errors[i]) < Rank(errors[j])
  {
    Prepend(short, TooShort,
      Prepend(noUpper, NoUpper,
        Prepend(noLower, NoLower,
          Prepend(noDigit, NoDigit, []))))
  }

  predicate Ascending(errors: seq<PasswordError>) {
    forall i, j :: 0 <= i < j < |errors| ==> Rank(errors[i]) < Rank(errors[j])
  }

  /** The list of a later check's errors, preceded by `e` when its check failed. */
  function Prepend(failed: bool, e: PasswordError, rest: seq<PasswordError>): (errors: seq<PasswordError>)
    requires Ascending(rest)
    requires forall x :: x in rest ==> Rank(e) < Rank(x)
    ensures Ascending(errors)
    ensures forall x :: x in errors <==> (failed && x == e) || x in rest
    ensures |errors| <= |rest| + 1
    ensures errors == [] <==> !failed && rest == []
  {
    if failed then
      assert forall i :: 1 <= i < |[e] + rest| ==> ([e] + rest)[i] in rest;
      [e] + rest
    else rest
  }

  /** For ASCII text the byte length is the character count. */
  lemma {:induction false} AsciiLength(s: string)
    requires forall i :: 0 <= i < |s| ==> s[i] as int < 0x80
    ensures Utf8Length(s) == |s|
  {
    if s != [] {
      AsciiLength(s[1..]);
    }
  }

  /** A password of eight ASCII characters with an upper-case letter, a lower-case
      letter and a digit passes. */
  lemma StrongExample()
    ensures ValidatePassword("Secret12") == []
  {
    var p := "Secret12";
    assert IsUpper(p[0]) && IsLower(p[1]) && IsDigit(p[6]);
    AsciiLength(p);
  }

  lemma SecretabLength()
    ensures Utf8Length("Secretab") == 8
  {
    AsciiLength("Secretab");
  }

  lemma SecretabNoDigit()
    ensures !HasDigit("Secretab")
  {
    var q := "Secretab";
    forall i | 0 <= i < |q|
      ensures !IsDigit(q[i])
    {
    }
  }

  /** The same password without its digit fails on exactly that check. */
  lemma MissingDigitExample()
    ensures ValidatePassword("Secretab") == [NoDigit]
  {
    var q := "Secretab";
    assert IsUpper(q[0]) && IsLower(q[1]);
    SecretabLength();
    SecretabNoDigit();
    assert Report(false, false, false, true) == [NoDigit];
  }
}
