/**
 * The string built-ins the modelled code relies on: `String.prototype.trim`,
 * `split` on a one-character separator, `Array.prototype.join`,
 * `startsWith`, and the decimal rendering of an integer in a template
 * literal, and `length`, which counts UTF-16 code units.
 */
module JsString {

  /** The UTF-16 code units of one character: two for a character beyond U+FFFF. */
  function CodeUnits(c: char): nat {
    if c as int > 0xFFFF then 2 else 1
  }

  /** `s.length`: the number of UTF-16 code units, between one and two per character. */
  function Utf16Length(s: string): (n: nat)
    ensures |s| <= n <= 2 * |s|
  {
    if s == [] then 0 else CodeUnits(s[0]) + Utf16Length(s[1..])
  }

  /** `length` adds up over concatenation. */
  lemma {:induction false} Utf16LengthAppend(a: string, b: string)
    ensures Utf16Length(a + b) == Utf16Length(a) + Utf16Length(b)
  {
    if a == [] {
      assert a + b == b;
    } else {
      assert (a + b)[0] == a[0] && (a + b)[1..] == a[1..] + b;
      Utf16LengthAppend(a[1..], b);
    }
  }

  /** A string of characters up to U+FFFF has one code unit per character. */
  lemma {:induction false} Utf16LengthBmp(s: string)
    requires forall i :: 0 <= i < |s| ==> s[i] as int <= 0xFFFF
    ensures Utf16Length(s) == |s|
  {
    if s != [] {
      Utf16LengthBmp(s[1..]);
    }
  }

  /**
   * JavaScript's white space and line terminators, the set that `trim()`
   * removes and that `\s` matches.
   */
  predicate IsSpace(c: char) {
    c == '\t' || c == '\n' || c == '\U{000B}' || c == '\U{000C}' || c == '\r' || c == ' '
    || c == '\U{00A0}' || c == '\U{1680}' || ('\U{2000}' <= c <= '\U{200A}')
    || c == '\U{2028}' || c == '\U{2029}' || c == '\U{202F}' || c == '\U{205F}'
    || c == '\U{3000}' || c == '\U{FEFF}'
  }

  predicate AllSpace(s: string) {
    forall k :: 0 <= k < |s| ==> IsSpace(s[k])
  }

  /** Removes leading white space: the result is the suffix that starts at the first non-space. */
  function TrimStart(s: string): (r: string)
    ensures |r| <= |s| && r == s[|s| - |r|..]
    ensures AllSpace(s[..|s| - |r|])
    ensures r != [] ==> !IsSpace(r[0])
  {
    if |s| > 0 && IsSpace(s[0]) then
      var r := TrimStart(s[1..]);
      assert s[1..][..|s| - 1 - |r|] == s[1..|s| - |r|];
      r
    else s
  }

  /** Removes trailing white space: the result is the prefix that ends at the last non-space. */
  function TrimEnd(s: string): (r: string)
    ensures |r| <= |s| && r == s[..|r|]
    ensures AllSpace(s[|r|..])
    ensures r != [] ==> !IsSpace(r[|r| - 1])
  {
    if |s| > 0 && IsSpace(s[|s| - 1]) then
      var r := TrimEnd(s[..|s| - 1]);
      assert s[..|s| - 1][..|r|] == s[..|r|];
      assert s[|r|..] == s[..|s| - 1][|r|..] + [s[|s| - 1]];
      r
    else s
  }

  /** `s.trim()`. */
  function Trim(s: string): string {
    TrimEnd(TrimStart(s))
  }

  /** Where `trim()` cuts `s`: white space before `i`, the result from `i` to `j`, white space after `j`. */
  lemma TrimBounds(s: string) returns (i: nat, j: nat)
    ensures i <= j <= |s| && Trim(s) == s[i..j]
    ensures AllSpace(s[..i]) && AllSpace(s[j..])
  {
    var t := TrimStart(s);
    var r := TrimEnd(t);
    i := |s| - |t|;
    j := i + |r|;
    assert t == s[i..];
    assert r == s[i..j];
    assert s[j..] == t[|r|..];
  }

  /**
   * `trim()` cuts `s` into white space, a middle part and white space, and the
   * middle part neither starts nor ends with white space.
   */
  lemma TrimShape(s: string)
    ensures exists i, j :: 0 <= i <= j <= |s| && Trim(s) == s[i..j]
                           && AllSpace(s[..i]) && AllSpace(s[j..])
    ensures Trim(s) != [] ==> !IsSpace(Trim(s)[0]) && !IsSpace(Trim(s)[|Trim(s)| - 1])
  {
    var i, j := TrimBounds(s);
    var t := TrimStart(s);
    var r := TrimEnd(t);
    if r != [] {
      assert r[0] == t[0];
    }
  }

  /** `s.trim() === ""` exactly when `s` is all white space. */
  lemma TrimEmptyIffAllSpace(s: string)
    ensures Trim(s) == "" <==> AllSpace(s)
  {
    var t := TrimStart(s);
    if Trim(s) == "" {
      assert s == s[..|s| - |t|] + t;
    }
  }

  /** Trimming twice is trimming once. */
  lemma TrimIdempotent(s: string)
    ensures Trim(Trim(s)) == Trim(s)
  {
    var r := Trim(s);
    TrimShape(s);
    if r != [] {
      assert TrimStart(r) == r;
      assert TrimEnd(r) == r;
    }
  }

  /** A string that neither starts nor ends with white space is its own trim. */
  lemma TrimNoSpaceEnds(s: string)
    requires s != [] && !IsSpace(s[0]) && !IsSpace(s[|s| - 1])
    ensures Trim(s) == s
  {
    assert TrimStart(s) == s;
  }

  lemma {:induction false} TrimStartSkipsSpace(pre: string, x: string)
    requires AllSpace(pre)
    ensures TrimStart(pre + x) == TrimStart(x)
    decreases |pre|
  {
    var s := pre + x;
    if |pre| == 0 {
      assert s == x;
    } else {
      assert s[0] == pre[0];
      assert TrimStart(s) == TrimStart(s[1..]);
      assert s[1..] == pre[1..] + x;
      TrimStartSkipsSpace(pre[1..], x);
    }
  }

  lemma {:induction false} TrimEndSkipsSpace(x: string, post: string)
    requires AllSpace(post)
    ensures TrimEnd(x + post) == TrimEnd(x)
    decreases |post|
  {
    var s := x + post;
    if |post| == 0 {
      assert s == x;
    } else {
      var p' := post[..|post| - 1];
      assert s[|s| - 1] == post[|post| - 1];
      assert TrimEnd(s) == TrimEnd(s[..|s| - 1]);
      assert s[..|s| - 1] == x + p';
      TrimEndSkipsSpace(x, p');
    }
  }

  lemma {:induction false} TrimStartAppend(x: string, y: string)
    requires !AllSpace(x)
    ensures TrimStart(x + y) == TrimStart(x) + y
    decreases |x|
  {
    if IsSpace(x[0]) {
      assert (x + y)[1..] == x[1..] + y;
      assert !AllSpace(x[1..]) by {
        var k :| 0 <= k < |x| && !IsSpace(x[k]);
        assert x[1..][k - 1] == x[k];
      }
      TrimStartAppend(x[1..], y);
    }
  }

  /** White space around a string does not change its trim. */
  lemma TrimIgnoresPadding(pre: string, x: string, post: string)
    requires AllSpace(pre) && AllSpace(post)
    ensures Trim(pre + x + post) == Trim(x)
  {
    var s := pre + x + post;
    assert s == pre + (x + post);
    TrimStartSkipsSpace(pre, x + post);
    if AllSpace(x) {
      TrimEmptyIffAllSpace(x);
      TrimStartSkipsSpace(x, post);
      TrimStartSkipsSpace(post, []);
      assert post + [] == post;
      assert TrimStart(s) == [];
    } else {
      TrimStartAppend(x, post);
      TrimEndSkipsSpace(TrimStart(x), post);
    }
  }

  /** `s.startsWith(p)`. */
  predicate StartsWith(s: string, p: string) {
    |p| <= |s| && s[..|p|] == p
  }

  /** `parts.join(sep)`. */
  function Join(parts: seq<string>, sep: string): string {
    if |parts| == 0 then ""
    else if |parts| == 1 then parts[0]
    else parts[0] + sep + Join(parts[1..], sep)
  }

  /** Index of the first occurrence of `c` in `s`, or `|s|` if there is none. */
  function IndexOf(s: string, c: char): (i: nat)
    ensures i <= |s|
    ensures forall k :: 0 <= k < i ==> s[k] != c
    ensures i < |s| ==> s[i] == c
  {
    if |s| == 0 then 0
    else if s[0] == c then 0
    else 1 + IndexOf(s[1..], c)
  }

  /** `s.split(c)` for a one-character separator: the pieces between separators, at least one. */
  function Split(s: string, c: char): (r: seq<string>)
    ensures |r| >= 1
    ensures forall k :: 0 <= k < |r| ==> c !in r[k]
    decreases |s|
  {
    var i := IndexOf(s, c);
    if i == |s| then [s]
    else [s[..i]] + Split(s[i + 1..], c)
  }

  /** Splitting and joining on the same separator gives the string back. */
  lemma {:induction false} JoinSplit(s: string, c: char)
    ensures Join(Split(s, c), [c]) == s
    decreases |s|
  {
    var i := IndexOf(s, c);
    if i < |s| {
      var rest := Split(s[i + 1..], c);
      JoinSplit(s[i + 1..], c);
      assert Split(s, c) == [s[..i]] + rest;
      assert (Split(s, c))[1..] == rest;
      assert s == s[..i] + [c] + s[i + 1..];
    }
  }

  /** Joining pieces that do not contain the separator and splitting again gives the pieces back. */
  lemma {:induction false} SplitJoin(parts: seq<string>, c: char)
    requires |parts| >= 1
    requires forall k :: 0 <= k < |parts| ==> c !in parts[k]
    ensures Split(Join(parts, [c]), c) == parts
    decreases |parts|
  {
    var p := parts[0];
    assert IndexOf(p, c) == |p| by { IndexOfAbsent(p, c); }
    if |parts| == 1 {
      assert Join(parts, [c]) == p;
    } else {
      var tail := Join(parts[1..], [c]);
      var s := p + [c] + tail;
      assert Join(parts, [c]) == s;
      IndexOfPrefix(p, c, tail);
      assert s[..|p|] == p;
      assert s[|p| + 1..] == tail;
      SplitJoin(parts[1..], c);
      assert parts == [p] + parts[1..];
    }
  }

  lemma IndexOfAbsent(s: string, c: char)
    requires c !in s
    ensures IndexOf(s, c) == |s|
  {
  }

  lemma IndexOfPrefix(p: string, c: char, tail: string)
    requires c !in p
    ensures IndexOf(p + [c] + tail, c) == |p|
  {
    var s := p + [c] + tail;
    assert s[|p|] == c;
    assert forall k :: 0 <= k < |p| ==> s[k] == p[k];
  }

  /** The decimal digit for `d`. */
  function Digit(d: nat): char
    requires d < 10
  {
    "0123456789"[d]
  }

  /** `String(n)` for a natural number, in decimal without leading zeros. */
  function NatToString(n: nat): (r: string)
    ensures |r| >= 1
    ensures forall k :: 0 <= k < |r| ==> '0' <= r[k] <= '9'
  {
    if n < 10 then [Digit(n)] else NatToString(n / 10) + [Digit(n % 10)]
  }

  /** `String(n)` for an integer, with a leading `-` for negatives. */
  function IntToString(n: int): (r: string)
    ensures |r| >= 1
    ensures forall k :: 0 <= k < |r| ==> r[k] == '-' || '0' <= r[k] <= '9'
  {
    if n < 0 then "-" + NatToString(-n) else NatToString(n)
  }

  /** Reads a string of decimal digits back as a number. */
  function ParseDigits(s: string): nat
    requires forall k :: 0 <= k < |s| ==> '0' <= s[k] <= '9'
  {
    if |s| == 0 then 0
    else ParseDigits(s[..|s| - 1]) * 10 + ((s[|s| - 1] as int) - ('0' as int))
  }

  lemma DigitValue(d: nat)
    requires d < 10
    ensures (Digit(d) as int) - ('0' as int) == d
  {
  }

  lemma {:induction false} ParseNatToString(n: nat)
    ensures ParseDigits(NatToString(n)) == n
  {
    if n < 10 {
      DigitValue(n);
      assert [Digit(n)][..0] == [];
    } else {
      var s := NatToString(n / 10);
      var d := n % 10;
      ParseNatToString(n / 10);
      DigitValue(d);
      var t := s + [Digit(d)];
      assert t[..|t| - 1] == s;
      assert ParseDigits(t) == ParseDigits(s) * 10 + d;
      assert (n / 10) * 10 + d == n;
    }
  }

  lemma NatToStringInjective(a: nat, b: nat)
    requires NatToString(a) == NatToString(b)
    ensures a == b
  {
    ParseNatToString(a);
    ParseNatToString(b);
  }

  lemma SignChar(a: int)
    ensures IntToString(a)[0] == '-' <==> a < 0
  {
    if a >= 0 {
      assert '0' <= NatToString(a)[0] <= '9';
    }
  }

  /** Negative numbers with the same rendering are equal. */
  lemma NegativeRenderingsInjective(a: int, b: int)
    requires a < 0 && b < 0 && IntToString(a) == IntToString(b)
    ensures a == b
  {
    SameAfterSign(NatToString(-a), NatToString(-b));
    NatToStringInjective(-a, -b);
  }

  /** Two strings behind the same sign are equal. */
  lemma SameAfterSign(x: string, y: string)
    requires "-" + x == "-" + y
    ensures x == y
  {
    assert x == ("-" + x)[1..] && y == ("-" + y)[1..];
  }

  /** Distinct numbers render as distinct strings. */
  lemma IntToStringInjective(a: int, b: int)
    ensures IntToString(a) == IntToString(b) ==> a == b
  {
    if IntToString(a) == IntToString(b) {
      if a < 0 && b < 0 {
        NegativeRenderingsInjective(a, b);
      } else if a >= 0 && b >= 0 {
        NatToStringInjective(a, b);
      } else {
        SignChar(a);
        SignChar(b);
      }
    }
  }
}
