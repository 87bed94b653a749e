/**
 * The string operations the games rely on: decimal rendering of an index in a
 * template literal, `toUpperCase`, and the `\s` class of a JavaScript regular
 * expression.
 */
module Text {
  import opened Common

  /** The decimal digit of `d` (`d < 10`). */
  function Digit(d: nat): (c: char)
    requires d < 10
    ensures '0' <= c <= '9'
  {
    "0123456789"[d]
  }

  /** `${n}` for a non-negative integer n: its decimal digits, no leading zero. */
  function ShowNat(n: nat): (r: string)
    ensures |r| >= 1
    ensures forall k :: 0 <= k < |r| ==> '0' <= r[k] <= '9'
    ensures n >= 10 <==> |r| >= 2
    decreases n
  {
    if n < 10 then [Digit(n)] else ShowNat(n / 10) + [Digit(n % 10)]
  }

  /** Different numbers render differently, so rendered ids never collide. */
  lemma {:induction false} ShowNatInjective(a: nat, b: nat)
    requires ShowNat(a) == ShowNat(b)
    ensures a == b
    decreases a
  {
    var sa, sb := ShowNat(a), ShowNat(b);
    if a >= 10 && b >= 10 {
      assert sa[..|sa| - 1] == ShowNat(a / 10);
      assert sb[..|sb| - 1] == ShowNat(b / 10);
      ShowNatInjective(a / 10, b / 10);
      assert Digit(a % 10) == sa[|sa| - 1] == sb[|sb| - 1] == Digit(b % 10);
      DigitInjective(a % 10, b % 10);
      SplitLastDigit(a);
      SplitLastDigit(b);
    } else if a < 10 && b < 10 {
      assert Digit(a) == sa[0] == sb[0] == Digit(b);
      DigitInjective(a, b);
    }
  }

  lemma {:induction false} DigitInjective(x: nat, y: nat)
    requires x < 10 && y < 10
    requires Digit(x) == Digit(y)
    ensures x == y
  {
  }

  lemma {:induction false} SplitLastDigit(n: nat)
    ensures n == 10 * (n / 10) + n % 10
  {
  }

  /**
   * `toUpperCase` on one character. Lower-case ASCII letters and the Latin-1
   * lower-case letters U+00E0..U+00FE (except U+00F7, the division sign) map
   * to their capitals; every other character is left as it is.
   */
  function Upper(c: char): (u: char)
    ensures !('a' <= u <= 'z')
    ensures 'A' <= c <= 'Z' ==> u == c
    ensures IsJsSpace(u) <==> IsJsSpace(c)
    ensures 'a' <= c <= 'z' ==> u as int == c as int - 32
    ensures '\U{00E0}' <= c <= '\U{00FE}' && c != '\U{00F7}' ==> u as int == c as int - 32
    ensures !('a' <= c <= 'z') && !('\U{00E0}' <= c <= '\U{00FE}' && c != '\U{00F7}') ==> u == c
  {
    if 'a' <= c <= 'z' then (c as int - 32) as char
    else if '\U{00E0}' <= c <= '\U{00FE}' && c != '\U{00F7}' then (c as int - 32) as char
    else c
  }

  /** Upper-casing twice is upper-casing once. */
  lemma {:induction false} UpperIdempotent(c: char)
    ensures Upper(Upper(c)) == Upper(c)
  {
  }

  function UpperString(s: string): (r: string)
    ensures |r| == |s|
    ensures forall k :: 0 <= k < |s| ==> r[k] == Upper(s[k])
  {
    seq(|s|, k requires 0 <= k < |s| => Upper(s[k]))
  }

  /**
   * The characters `\s` matches in a JavaScript regular expression: the
   * ECMAScript WhiteSpace and LineTerminator code points.
   */
  predicate IsJsSpace(c: char) {
    || '\U{0009}' <= c <= '\U{000D}'   // tab, line feed, vertical tab, form feed, carriage return
    || c == ' ' || c == '\U{00A0}' || c == '\U{1680}'
    || '\U{2000}' <= c <= '\U{200A}'
    || c == '\U{2028}' || c == '\U{2029}' || c == '\U{202F}' || c == '\U{205F}'
    || c == '\U{3000}' || c == '\U{FEFF}'
  }

  /** `s.replace(/\s+/g, '')`: every white-space character removed, the rest in order. */
  function StripSpaces(s: string): (r: string)
    ensures |r| <= |s|
    ensures forall k :: 0 <= k < |r| ==> !IsJsSpace(r[k])
    ensures forall x :: multiset(r)[x] == if IsJsSpace(x) then 0 else multiset(s)[x]
  {
    if |s| == 0 then []
    else
      assert s == [s[0]] + s[1..];
      if IsJsSpace(s[0]) then StripSpaces(s[1..])
      else [s[0]] + StripSpaces(s[1..])
  }

  /** Every kept character comes from the input, and every character that is not white space is kept. */
  lemma {:induction false} StripSpacesMembers(s: string)
    ensures forall k :: 0 <= k < |StripSpaces(s)| ==> StripSpaces(s)[k] in s
    ensures forall k :: 0 <= k < |s| && !IsJsSpace(s[k]) ==> s[k] in StripSpaces(s)
  {
    var r := StripSpaces(s);
    forall k | 0 <= k < |r|
      ensures r[k] in s
    {
      assert r[k] in multiset(r);
    }
    forall k | 0 <= k < |s| && !IsJsSpace(s[k])
      ensures s[k] in r
    {
      assert s[k] in multiset(s);
    }
  }

  /** A single character is kept exactly when it is not white space. */
  lemma {:induction false} StripSpacesChar(c: char)
    ensures StripSpaces([c]) == if IsJsSpace(c) then [] else [c]
  {
    assert [c][1..] == [];
  }

  /** One step of the stripping loop: the first character, kept or not, then the rest. */
  lemma {:induction false} StripSpacesUnfold(s: string)
    requires |s| > 0
    ensures StripSpaces(s) == (if IsJsSpace(s[0]) then [] else [s[0]]) + StripSpaces(s[1..])
  {
  }

  /**
   * Stripping distributes over concatenation; with `StripSpacesChar` this
   * says the kept characters stay in their order.
   */
  lemma {:induction false} StripSpacesConcat(a: string, b: string)
    ensures StripSpaces(a + b) == StripSpaces(a) + StripSpaces(b)
    decreases |a|
  {
    if |a| == 0 {
      assert a + b == b;
    } else {
      StripSpacesConcat(a[1..], b);
      StripSpacesConcatStep(a, b);
    }
  }

  /** The inductive step of `StripSpacesConcat`: from the tail of a to the whole of a. */
  lemma {:induction false} StripSpacesConcatStep(a: string, b: string)
    requires |a| > 0
    requires StripSpaces(a[1..] + b) == StripSpaces(a[1..]) + StripSpaces(b)
    ensures StripSpaces(a + b) == StripSpaces(a) + StripSpaces(b)
  {
    var head := if IsJsSpace(a[0]) then [] else [a[0]];
    var x, y := StripSpaces(a[1..]), StripSpaces(b);
    StripSpacesUnfoldAppend(a, b);
    StripSpacesUnfold(a);
    ConcatAssoc(head, x, y);
  }

  /** One step of the stripping loop over a + b, with a not empty. */
  lemma {:induction false} StripSpacesUnfoldAppend(a: string, b: string)
    requires |a| > 0
    ensures StripSpaces(a + b) == (if IsJsSpace(a[0]) then [] else [a[0]]) + StripSpaces(a[1..] + b)
  {
    assert (a + b)[0] == a[0] && (a + b)[1..] == a[1..] + b;
    StripSpacesUnfold(a + b);
  }

  /** A string with no white space is its own stripped form. */
  lemma {:induction false} StripSpacesFixes(s: string)
    requires forall k :: 0 <= k < |s| ==> !IsJsSpace(s[k])
    ensures StripSpaces(s) == s
  {
    if |s| > 0 {
      StripSpacesFixes(s[1..]);
    }
  }
}
