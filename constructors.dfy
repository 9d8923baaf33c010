/**
 * Validating constructors for the branded primitives
 * (`packages/core/src/types/constructors.ts`). Each brand becomes a subset
 * type whose membership test is exactly the constructor's check, so a value
 * of the brand can only come from a successful constructor call (or from
 * code that proves the check itself). A thrown `Error` is an `Err` result
 * with the same message.
 */
module Constructors {
  import opened JsValue
  import opened JsString

  /** A character allowed in each part of an e-mail address: `[^\s@]`. */
  predicate EmailChar(c: char) {
    !IsSpace(c) && c != '@'
  }

  predicate AllEmailChars(s: string) {
    forall k :: 0 <= k < |s| ==> EmailChar(s[k])
  }

  /**
   * What `/^[^\s@]+@[^\s@]+\.[^\s@]+$/` accepts, read off the pattern: three
   * non-empty runs of `[^\s@]` separated by `@` and by a `.`.
   */
  ghost predicate EmailPattern(s: string) {
    exists i, j :: 0 < i && i + 1 < j && j + 1 < |s| && s[i] == '@' && s[j] == '.'
                   && AllEmailChars(s[..i]) && AllEmailChars(s[i + 1..j]) && AllEmailChars(s[j + 1..])
  }

  /** A dot with at least one character on each side. */
  predicate HasInnerDot(d: string) {
    |d| >= 3 && (d[1] == '.' || HasInnerDot(d[1..]))
  }

  lemma {:induction false} HasInnerDotIff(d: string)
    ensures HasInnerDot(d) <==> exists j :: 0 < j < |d| - 1 && d[j] == '.'
  {
    if |d| >= 3 {
      HasInnerDotIff(d[1..]);
      if exists j :: 0 < j < |d| - 1 && d[j] == '.' {
        var j :| 0 < j < |d| - 1 && d[j] == '.';
        if j > 1 { assert d[1..][j - 1] == '.'; }
      }
    }
  }

  /**
   * The check `EmailFrom` runs, written as a scan: split at the first `@`,
   * which must not be first, leave no space or further `@` anywhere, and
   * require an inner dot after the `@`.
   */
  predicate IsEmail(s: string) {
    var at := IndexOf(s, '@');
    0 < at < |s| && AllEmailChars(s[..at]) && AllEmailChars(s[at + 1..]) && HasInnerDot(s[at + 1..])
  }

  lemma IsEmailToPattern(s: string)
    requires IsEmail(s)
    ensures EmailPattern(s)
  {
    var at := IndexOf(s, '@');
    var d := s[at + 1..];
    HasInnerDotIff(d);
    var j :| 0 < j < |d| - 1 && d[j] == '.';
    var jj := at + 1 + j;
    assert s[jj] == '.';
    assert s[at + 1..jj] == d[..j];
    assert s[jj + 1..] == d[j + 1..];
    assert AllEmailChars(d[..j]) && AllEmailChars(d[j + 1..]);
  }

  lemma PatternToIsEmail(s: string, i: int, j: int)
    requires 0 < i && i + 1 < j && j + 1 < |s| && s[i] == '@' && s[j] == '.'
    requires AllEmailChars(s[..i]) && AllEmailChars(s[i + 1..j]) && AllEmailChars(s[j + 1..])
    ensures IsEmail(s)
  {
    assert forall k :: 0 <= k < i ==> s[k] == s[..i][k];
    var at := IndexOf(s, '@');
    assert at == i;
    var d := s[i + 1..];
    assert d[j - i - 1] == '.';
    HasInnerDotIff(d);
    forall k | 0 <= k < |d| ensures EmailChar(d[k]) {
      if k < j - i - 1 {
        assert d[k] == s[i + 1..j][k];
      } else if k > j - i - 1 {
        assert d[k] == s[j + 1..][k - (j - i)];
      }
    }
  }

  /** The scan accepts exactly the strings the regular expression matches. */
  lemma IsEmailMatchesPattern(s: string)
    ensures IsEmail(s) <==> EmailPattern(s)
  {
    if IsEmail(s) {
      IsEmailToPattern(s);
    }
    if EmailPattern(s) {
      var i, j :| 0 < i && i + 1 < j && j + 1 < |s| && s[i] == '@' && s[j] == '.'
                  && AllEmailChars(s[..i]) && AllEmailChars(s[i + 1..j]) && AllEmailChars(s[j + 1..]);
      PatternToIsEmail(s, i, j);
    }
  }

  type Email = s: string | IsEmail(s) witness "a@b.c"

  /** `EmailFrom(s)`: throws "Invalid Email" unless the pattern matches; returns `s` unchanged. */
  function EmailFrom(s: string): (r: Result<Email>)
    ensures r.Ok? <==> IsEmail(s)
    ensures r.Ok? ==> r.value == s
    ensures r.Err? ==> r.error == "Invalid Email"
  {
    if IsEmail(s) then Ok(s) else Err("Invalid Email")
  }

  /** A string with a character that is not white space, so that its left trim, and hence its trim, is not empty. */
  type NonEmpty = s: string | TrimStart(s) != "" witness "x"

  /** `NonEmptyFrom(s)`: throws unless `s` has a non-space character; returns `s` untrimmed. */
  function NonEmptyFrom(s: string): (r: Result<NonEmpty>)
    ensures r.Ok? <==> exists k :: 0 <= k < |s| && !IsSpace(s[k])
    ensures r.Ok? ==> r.value == s
    ensures r.Err? ==> r.error == "Empty string"
  {
    TrimEmptyIffAllSpace(s);
    if Trim(s) == "" then Err("Empty string") else Ok(s)
  }

  type PositiveInt = n: int | n > 0 witness 1

  /** `PositiveIntFrom(n)` over integers: throws for `n <= 0`. */
  function PositiveIntFrom(n: int): (r: Result<PositiveInt>)
    ensures r.Ok? <==> n > 0
    ensures r.Ok? ==> r.value == n
    ensures r.Err? ==> r.error == "Not positive int"
  {
    if n <= 0 then Err("Not positive int") else Ok(n)
  }

  /** An API key: at least 3 UTF-16 code units long. */
  type ApiKey = s: string | Utf16Length(s) >= 3 witness "key"

  /** `ApiKeyFrom(s)`: throws for an empty string or one shorter than 3 code units. */
  function ApiKeyFrom(s: string): (r: Result<ApiKey>)
    ensures r.Ok? <==> Utf16Length(s) >= 3
    ensures r.Ok? ==> r.value == s
    ensures r.Err? ==> r.error == "Invalid API key"
  {
    if s == "" || Utf16Length(s) < 3 then Err("Invalid API key") else Ok(s)
  }

  /** An idempotency key: at least 8 UTF-16 code units long. */
  type IdempotencyKey = s: string | Utf16Length(s) >= 8 witness "idem-key"

  /** `IdempotencyKeyFrom(s)`: throws for an empty string or one shorter than 8 code units. */
  function IdempotencyKeyFrom(s: string): (r: Result<IdempotencyKey>)
    ensures r.Ok? <==> Utf16Length(s) >= 8
    ensures r.Ok? ==> r.value == s
    ensures r.Err? ==> r.error == "Invalid idempotency key"
  {
    if s == "" || Utf16Length(s) < 8 then Err("Invalid idempotency key") else Ok(s)
  }

  /** The cases the repository's brand tests exercise. */
  lemma BrandExamples()
    ensures ApiKeyFrom("").Err? && ApiKeyFrom("abc123456") == Ok("abc123456")
    ensures PositiveIntFrom(0).Err? && PositiveIntFrom(5) == Ok(5)
  {
  }

  /**
   * Lengths are UTF-16 lengths: two emoji make a 4-unit API key, and
   * `"ab"` followed by a non-BMP character is 4 units, while `"ab"` alone is too short.
   */
  lemma KeyLengthsInCodeUnits()
    ensures ApiKeyFrom("\U{1F600}\U{1F600}") == Ok("\U{1F600}\U{1F600}")
    ensures IdempotencyKeyFrom("\U{1F600}\U{1F600}\U{1F600}\U{1F600}").Ok?
    ensures ApiKeyFrom("ab").Err?
  {
    var e := "\U{1F600}";
    assert Utf16Length(e) == 2 by {
      assert e[1..] == [];
    }
    Utf16LengthAppend(e, e);
    Utf16LengthAppend(e + e, e + e);
    assert e + e + e + e == (e + e) + (e + e);
  }
}
