/**
 * Shared vocabulary of the expense tracker's domain layer: identifiers,
 * optional values, the exceptions the models raise, money bounds, and the
 * string operations the models rely on (Python's `str.strip()` and
 * `str.upper()`, and the case-insensitive comparison behind Django's
 * `iexact` lookup, which PostgreSQL evaluates as `UPPER(a) = UPPER(b)`).
 */
module Common {

  /** Primary key of a `User` row. Django's auto-incremented keys start
      at 1, so a set user key is never falsy. */
  type UserId = x: nat | 1 <= x witness 1

  /** Primary key of an owned row. The source uses UUIDs; the model draws
      fresh keys from a counter kept by the database. */
  type Id = nat

  datatype Option<T> = None | Some(value: T)

  /** `if not key:` on a nullable text key: Python refuses both None and
      the empty string. */
  predicate KeySet(key: Option<string>)
  {
    key.Some? && key.value != ""
  }

  /** The exceptions the domain layer raises. `DoesNotExist` is the ORM's
      `Model.DoesNotExist`; `AttributeError` stands for dereferencing a
      foreign key that is NULL. `FieldInvalid` is a `ValidationError` raised
      by a field declaration or a field validator during `clean_fields`,
      whose message is Django's own. */
  datatype Error =
    | PermissionDenied(message: string)
    | ValidationError(field: string, message: string)
    | FieldInvalid
    | DoesNotExist
    | AttributeError(message: string)

  /** A check that either passes or raises. */
  datatype Outcome = Pass | Fail(error: Error)

  /** A computation that either returns a value or raises. */
  datatype Result<T> = Ok(value: T) | Err(error: Error)

  /** Messages several models' `clean()` share. */
  const UserMissingMessage: string := "User does not exists."
  const NameRequiredMessage: string := "Name is required."
  const NameBlankMessage: string := "Name cannot be blank or whitespace."
  const CurrencyMissingMessage: string := "Currency does not exists."
  const AmountRequiredMessage: string := "Amount is required."
  const CategoryMissingMessage: string := "Category does not exists."
  const CategoryNotYoursMessage: string := "Category does not belongs to you."
  const AccountMissingMessage: string := "Fund Account does not exists."
  const AccountNotYoursMessage: string := "Fund Account does not belongs to you."

  /** Exclusive upper bound, in cents, of a `DecimalField(max_digits=14,
      decimal_places=2)`: at most twelve digits before the point. */
  const MaxCents14: int := 100_000_000_000_000

  /** The same bound for `max_digits=16`. */
  const MaxCents16: int := 10_000_000_000_000_000

  /** One `if not ok: raise ValidationError({field: message})` of a
      `clean()` method. */
  function Check(ok: bool, field: string, message: string): (r: Outcome)
    ensures r.Pass? <==> ok
    ensures !ok ==> r == Fail(ValidationError(field, message))
  {
    if ok then Pass else Fail(ValidationError(field, message))
  }

  /** Two checks run one after the other: the first failure is raised. */
  function Then(first: Outcome, rest: Outcome): (r: Outcome)
    ensures r.Pass? <==> first.Pass? && rest.Pass?
    ensures first.Fail? ==> r == first
    ensures first.Pass? ==> r == rest
  {
    if first.Fail? then first else rest
  }

  // ---------------------------------------------------------------------
  // Whitespace and str.strip()
  // ---------------------------------------------------------------------

  /** The characters Python's `str.isspace()` accepts, which are the ones
      `str.strip()` removes when called without an argument. */
  predicate IsSpace(c: char)
  {
    || c == ' ' || c == '\t' || c == '\n' || c == '\r'
    || c == '\U{000B}' || c == '\U{000C}'
    || ('\U{001C}' <= c <= '\U{001F}')
    || c == '\U{0085}' || c == '\U{00A0}' || c == '\U{1680}'
    || ('\U{2000}' <= c <= '\U{200A}')
    || c == '\U{2028}' || c == '\U{2029}' || c == '\U{202F}'
    || c == '\U{205F}' || c == '\U{3000}'
  }

  /** Every character of `s` is whitespace (so `not s.strip()` holds). */
  predicate AllSpace(s: string)
  {
    forall i :: 0 <= i < |s| ==> IsSpace(s[i])
  }

  /** `s.strip()`: leading and trailing whitespace removed. The result has
      no whitespace at either end, and it is empty exactly when `s` is
      whitespace only. */
  function Strip(s: string): (r: string)
    ensures |r| <= |s|
    ensures r == [] || (!IsSpace(r[0]) && !IsSpace(r[|r| - 1]))
    ensures r == [] <==> AllSpace(s)
    decreases |s|
  {
    if s == [] then s
    else if IsSpace(s[0]) then Strip(s[1..])
    else if IsSpace(s[|s| - 1]) then Strip(s[..|s| - 1])
    else s
  }

  /** Cutting one more whitespace character off the front: an infix of
      `s[1..]` between whitespace is an infix of `s` between whitespace. */
  lemma InfixAfterSpace(s: string, i: nat, j: nat)
    requires s != [] && IsSpace(s[0]) && i <= j <= |s| - 1
    requires AllSpace(s[1..][..i]) && AllSpace(s[1..][j..])
    ensures s[1..][i..j] == s[i + 1..j + 1]
    ensures AllSpace(s[..i + 1]) && AllSpace(s[j + 1..])
  {
    assert s[j + 1..] == s[1..][j..];
    forall k | 0 <= k < i + 1
      ensures IsSpace(s[k])
    {
      if k > 0 {
        assert s[k] == s[1..][..i][k - 1];
      }
    }
  }

  /** Cutting one more whitespace character off the back. */
  lemma InfixBeforeSpace(s: string, i: nat, j: nat)
    requires s != [] && IsSpace(s[|s| - 1]) && i <= j <= |s| - 1
    requires AllSpace(s[..|s| - 1][..i]) && AllSpace(s[..|s| - 1][j..])
    ensures s[..|s| - 1][i..j] == s[i..j]
    ensures AllSpace(s[..i]) && AllSpace(s[j..])
  {
    assert s[..i] == s[..|s| - 1][..i];
    forall k | j <= k < |s|
      ensures IsSpace(s[k])
    {
      if k < |s| - 1 {
        assert s[k] == s[..|s| - 1][j..][k - j];
      }
    }
  }

  /** `strip()` removes only whitespace, and only at the ends: the result is
      the infix of `s` left once a whitespace prefix and a whitespace suffix
      are cut off. */
  lemma {:induction false} StripIsInfix(s: string)
    ensures exists i, j :: 0 <= i <= j <= |s| && Strip(s) == s[i..j] && AllSpace(s[..i]) && AllSpace(s[j..])
    decreases |s|
  {
    if s == [] {
      assert Strip(s) == s[0..0] && AllSpace(s[..0]) && AllSpace(s[0..]);
    } else if IsSpace(s[0]) {
      var t := s[1..];
      StripIsInfix(t);
      var i, j :| 0 <= i <= j <= |t| && Strip(t) == t[i..j] && AllSpace(t[..i]) && AllSpace(t[j..]);
      InfixAfterSpace(s, i, j);
      assert Strip(s) == s[i + 1..j + 1];
    } else if IsSpace(s[|s| - 1]) {
      var t := s[..|s| - 1];
      StripIsInfix(t);
      var i, j :| 0 <= i <= j <= |t| && Strip(t) == t[i..j] && AllSpace(t[..i]) && AllSpace(t[j..]);
      InfixBeforeSpace(s, i, j);
      assert Strip(s) == s[i..j];
    } else {
      assert Strip(s) == s[0..|s|] && AllSpace(s[..0]) && AllSpace(s[|s|..]);
    }
  }

  /** `strip()` is idempotent. */
  lemma StripIdempotent(s: string)
    ensures Strip(Strip(s)) == Strip(s)
  {
  }

  /** The check `clean()` makes of a required text field: `if not value`
      raises the "required" message, `if not value.strip()` the "blank" one. */
  function RequireText(field: string, value: string, requiredMessage: string, blankMessage: string): (r: Outcome)
    ensures r.Pass? <==> !AllSpace(value)
    ensures value == [] ==> r == Fail(ValidationError(field, requiredMessage))
    ensures value != [] && AllSpace(value) ==> r == Fail(ValidationError(field, blankMessage))
  {
    if value == [] then Fail(ValidationError(field, requiredMessage))
    else if Strip(value) == [] then Fail(ValidationError(field, blankMessage))
    else Pass
  }

  /** The name check most models share. */
  function RequireName(name: string): (r: Outcome)
    ensures r.Pass? <==> !AllSpace(name)
    ensures r == RequireText("name", name, NameRequiredMessage, NameBlankMessage)
  {
    RequireText("name", name, NameRequiredMessage, NameBlankMessage)
  }

  // ---------------------------------------------------------------------
  // Case
  // ---------------------------------------------------------------------

  /** Upper-casing of one character (ASCII letters only). */
  function UpperChar(c: char): (u: char)
    ensures IsSpace(u) <==> IsSpace(c)
    ensures !('a' <= u <= 'z')
    ensures 'a' <= c <= 'z' ==> u != c
  {
    if 'a' <= c <= 'z' then (c as int - 32) as char else c
  }

  /** `s.upper()` on the ASCII letters; every other character is kept. */
  function Upper(s: string): (r: string)
    ensures |r| == |s|
    ensures forall i :: 0 <= i < |s| ==> r[i] == UpperChar(s[i])
    ensures forall i :: 0 <= i < |r| ==> !('a' <= r[i] <= 'z')
  {
    seq(|s|, i requires 0 <= i < |s| => UpperChar(s[i]))
  }

  /** Upper-casing twice is upper-casing once. */
  lemma UpperIdempotent(s: string)
    ensures Upper(Upper(s)) == Upper(s)
  {
  }

  /** Upper-casing keeps the whitespace where it was, so it commutes with
      `strip()`. */
  lemma {:induction false} StripUpperCommute(s: string)
    ensures Strip(Upper(s)) == Upper(Strip(s))
    decreases |s|
  {
    if s != [] && IsSpace(s[0]) {
      assert Upper(s[1..]) == Upper(s)[1..];
      StripUpperCommute(s[1..]);
    } else if s != [] && IsSpace(s[|s| - 1]) {
      assert Upper(s[..|s| - 1]) == Upper(s)[..|s| - 1];
      StripUpperCommute(s[..|s| - 1]);
    }
  }

  /** Django's `iexact` lookup on PostgreSQL: `UPPER(a) = UPPER(b)`. */
  predicate IEquals(a: string, b: string)
  {
    Upper(a) == Upper(b)
  }
}
