/**
 * The handful of JavaScript string and number primitives the site's
 * handlers lean on, written out so that their edge cases are explicit:
 * the white-space class shared by `String.prototype.trim`, `parseInt` and
 * the regular-expression class `\s`; `trim`; ASCII case folding for
 * case-insensitive matching; substring search; `split(c)[0]`; the UTF-16
 * `length` of a string; `parseInt` without a radix and `Number.prototype.toString`
 * on integers.
 */
module JsText {

  /** JavaScript's WhiteSpace and LineTerminator code points. */
  predicate IsWhitespace(c: char) {
    || c == '\t' || c == '\n' || c == '\U{B}' || c == '\U{C}' || c == '\r' || c == ' '
    || c == '\U{A0}' || c == '\U{1680}' || ('\U{2000}' <= c <= '\U{200A}')
    || c == '\U{2028}' || c == '\U{2029}' || c == '\U{202F}' || c == '\U{205F}'
    || c == '\U{3000}' || c == '\U{FEFF}'
  }

  predicate AllWhitespace(s: string) {
    forall k :: 0 <= k < |s| ==> IsWhitespace(s[k])
  }

  /** Number of white-space characters at the front of `s`. */
  function LeadingWhitespace(s: string): (n: nat)
    ensures n <= |s|
    ensures AllWhitespace(s[..n])
    ensures n < |s| ==> !IsWhitespace(s[n])
  {
    if s == [] || !IsWhitespace(s[0]) then 0
    else
      var n := 1 + LeadingWhitespace(s[1..]);
      assert s[..n] == [s[0]] + s[1..][..n - 1];
      n
  }

  /** Number of white-space characters at the end of `s`. */
  function TrailingWhitespace(s: string): (n: nat)
    ensures n <= |s|
    ensures AllWhitespace(s[|s| - n..])
    ensures n < |s| ==> !IsWhitespace(s[|s| - n - 1])
  {
    if s == [] || !IsWhitespace(s[|s| - 1]) then 0
    else
      var init := s[..|s| - 1];
      var n := 1 + TrailingWhitespace(init);
      assert s[|s| - n..] == init[|init| - (n - 1)..] + [s[|s| - 1]];
      n
  }

  /** `s.trimStart()` */
  function TrimStart(s: string): string {
    s[LeadingWhitespace(s)..]
  }

  /** `s.trim()`: the slice of `s` left after dropping white space at both ends. */
  function Trim(s: string): (r: string)
    ensures r == "" <==> AllWhitespace(s)
    ensures r != "" ==> !IsWhitespace(r[0]) && !IsWhitespace(r[|r| - 1])
    ensures r != "" ==> exists i :: OccursAt(s, r, i)
  {
    var lead := LeadingWhitespace(s);
    if lead == |s| then
      assert s[..lead] == s;
      ""
    else
      var t := s[lead..];
      var trail := TrailingWhitespace(t);
      assert !IsWhitespace(t[0]);
      var r := t[..|t| - trail];
      assert OccursAt(s, r, lead);
      r
  }

  /** Trimming a trimmed string changes nothing. */
  lemma TrimIdempotent(s: string)
    ensures Trim(Trim(s)) == Trim(s)
  {
    var r := Trim(s);
    if r != "" {
      assert LeadingWhitespace(r) == 0;
      assert TrimStart(r) == r;
      assert TrailingWhitespace(r) == 0;
    }
  }

  /** The lower-case form the case-insensitive comparison uses (ASCII letters only). */
  function ToLowerChar(c: char): char {
    if 'A' <= c <= 'Z' then (c as int + 32) as char else c
  }

  function ToLower(s: string): (r: string)
    ensures |r| == |s|
    ensures forall k :: 0 <= k < |s| ==> r[k] == ToLowerChar(s[k])
  {
    if s == [] then [] else [ToLowerChar(s[0])] + ToLower(s[1..])
  }

  /** `needle` occurs in `hay` starting at index `i`. */
  ghost predicate OccursAt(hay: string, needle: string, i: int) {
    0 <= i && i + |needle| <= |hay| && hay[i..i + |needle|] == needle
  }

  /** Substring search (`hay.includes(needle)`), scanning from the front. */
  function Contains(hay: string, needle: string): (b: bool)
    ensures b <==> exists i :: OccursAt(hay, needle, i)
    decreases |hay|
  {
    if |needle| <= |hay| && hay[..|needle|] == needle then
      assert OccursAt(hay, needle, 0);
      true
    else if |needle| > |hay| then
      assert forall i :: !OccursAt(hay, needle, i);
      false
    else
      var b := Contains(hay[1..], needle);
      forall i | 1 <= i
        ensures OccursAt(hay, needle, i) <==> OccursAt(hay[1..], needle, i - 1)
      {
        if i + |needle| <= |hay| {
          SliceOfSuffix(hay, i - 1, i - 1 + |needle|);
        }
      }
      if b then
        assert exists i :: OccursAt(hay, needle, i) by {
          var j :| OccursAt(hay[1..], needle, j);
          assert OccursAt(hay, needle, j + 1);
        }
        true
      else
        false
  }

  lemma SliceOfSuffix(s: string, i: nat, j: nat)
    requires i <= j < |s|
    ensures s[1..][i..j] == s[i + 1..j + 1]
  {
  }

  /** Lower-casing twice is lower-casing once. */
  lemma ToLowerIdempotent(s: string)
    ensures ToLower(ToLower(s)) == ToLower(s)
  {
    var once := ToLower(s);
    assert forall k :: 0 <= k < |s| ==> ToLowerChar(once[k]) == once[k];
  }

  /** SQL `field ILIKE '%term%'` for a term without wildcards: case-insensitive substring. */
  predicate ILikeContains(field: string, term: string) {
    Contains(ToLower(field), ToLower(term))
  }

  /** The empty term occurs in every field. */
  lemma EmptyTermMatchesEverything(field: string)
    ensures ILikeContains(field, "")
  {
    assert OccursAt(ToLower(field), ToLower(""), 0);
  }

  /** `s.split(c)[0]`: everything before the first `c`, or all of `s`. */
  function BeforeFirst(s: string, c: char): (r: string)
    ensures |r| <= |s| && r == s[..|r|]
    ensures c !in r
    ensures |r| < |s| ==> s[|r|] == c
  {
    if s == [] then ""
    else if s[0] == c then ""
    else [s[0]] + BeforeFirst(s[1..], c)
  }

  /** `s.length`: the number of UTF-16 code units, two for a code point above U+FFFF. */
  function JsLength(s: string): (n: nat)
    ensures |s| <= n <= 2 * |s|
  {
    if s == [] then 0
    else (if s[0] as int > 0xFFFF then 2 else 1) + JsLength(s[1..])
  }

  /** The value `parseInt` produces: an integer or NaN. */
  datatype JsNumber = NaN | Int(value: int)

  /** JavaScript truthiness of a number: NaN and 0 are falsy. */
  predicate Truthy(x: JsNumber) {
    x.Int? && x.value != 0
  }

  function DigitValue(c: char): (d: nat)
    ensures d < 36
  {
    if '0' <= c <= '9' then c as int - '0' as int
    else if 'a' <= c <= 'z' then c as int - 'a' as int + 10
    else if 'A' <= c <= 'Z' then c as int - 'A' as int + 10
    else 35
  }

  predicate IsDigit(c: char, radix: nat) {
    ('0' <= c <= '9' || 'a' <= c <= 'z' || 'A' <= c <= 'Z') && DigitValue(c) < radix
  }

  /** Length of the longest prefix of `s` made of digits in `radix`. */
  function DigitRun(s: string, radix: nat): (n: nat)
    ensures n <= |s|
    ensures forall k :: 0 <= k < n ==> IsDigit(s[k], radix)
    ensures n < |s| ==> !IsDigit(s[n], radix)
  {
    if s == [] || !IsDigit(s[0], radix) then 0 else 1 + DigitRun(s[1..], radix)
  }

  /** The value of a string of digits, most significant first. */
  function DigitsValue(s: string, radix: nat): nat {
    if s == [] then 0
    else DigitsValue(s[..|s| - 1], radix) * radix + DigitValue(s[|s| - 1])
  }

  /**
   * `parseInt(s)` with no radix: skip leading white space, take an optional
   * sign, then read the digits (`ParseUnsigned`).
   */
  function ParseInt(s: string): (x: JsNumber)
    ensures TrimStart(s) == [] ==> x.NaN?
    ensures var t := TrimStart(s);
      t != [] && t[0] != '-' && t[0] != '+' && !IsDigit(t[0], 10) ==> x.NaN?
    ensures var t := TrimStart(s);
      x.Int? && x.value < 0 ==> t != [] && t[0] == '-'
  {
    var t := TrimStart(s);
    if t != [] && t[0] == '-' then
      match ParseUnsigned(t[1..])
      case NaN => NaN
      case Int(v) => Int(-v)
    else if t != [] && t[0] == '+' then ParseUnsigned(t[1..])
    else ParseUnsigned(t)
  }

  /**
   * The unsigned part of `parseInt`: a `0x`/`0X` prefix selects radix 16,
   * otherwise radix 10; the longest run of digits is read and an empty run
   * gives NaN.
   */
  function ParseUnsigned(u: string): (x: JsNumber)
    ensures x.Int? ==> x.value >= 0
  {
    var hex := |u| >= 2 && u[0] == '0' && (u[1] == 'x' || u[1] == 'X');
    var radix := if hex then 16 else 10;
    var body := if hex then u[2..] else u;
    var n := DigitRun(body, radix);
    if n == 0 then NaN else Int(DigitsValue(body[..n], radix))
  }

  function DecimalDigit(d: nat): char
    requires d < 10
  {
    ['0', '1', '2', '3', '4', '5', '6', '7', '8', '9'][d]
  }

  /** The decimal numeral of a natural number. */
  function NatToString(m: nat): (r: string)
    ensures |r| > 0
    ensures forall k :: 0 <= k < |r| ==> '0' <= r[k] <= '9'
  {
    if m < 10 then [DecimalDigit(m)] else NatToString(m / 10) + [DecimalDigit(m % 10)]
  }

  /** `n.toString()` for an integer `n`. */
  function IntToString(n: int): (r: string)
    ensures |r| > 0
    ensures r[0] == '-' <==> n < 0
    ensures forall k :: (if n < 0 then 1 else 0) <= k < |r| ==> '0' <= r[k] <= '9'
    ensures n < 0 ==> |r| > 1
  {
    if n < 0 then "-" + NatToString(-n) else NatToString(n)
  }

  lemma DecimalDigitValue(d: nat)
    requires d < 10
    ensures DigitValue(DecimalDigit(d)) == d
  {
  }

  lemma {:induction false} NatToStringValue(m: nat)
    ensures DigitsValue(NatToString(m), 10) == m
  {
    var r := NatToString(m);
    if m >= 10 {
      NatToStringValue(m / 10);
      assert r[..|r| - 1] == NatToString(m / 10);
      DecimalDigitValue(m % 10);
      assert DigitsValue(r, 10) == (m / 10) * 10 + m % 10;
    } else {
      DecimalDigitValue(m);
    }
  }

  lemma {:induction false} DigitRunAll(r: string)
    requires forall k :: 0 <= k < |r| ==> '0' <= r[k] <= '9'
    ensures DigitRun(r, 10) == |r|
  {
    if r != [] {
      DigitRunAll(r[1..]);
    }
  }

  /** The unsigned reader gives back the value of a decimal numeral. */
  lemma {:induction false} ParseUnsignedOfNumeral(m: nat)
    ensures ParseUnsigned(NatToString(m)) == Int(m)
  {
    var u := NatToString(m);
    assert !(|u| >= 2 && u[0] == '0' && (u[1] == 'x' || u[1] == 'X'));
    DigitRunAll(u);
    NatToStringValue(m);
    assert u[..|u|] == u;
  }

  /** A string that starts with a non-white-space character is its own `trimStart()`. */
  lemma TrimStartNoLeading(s: string)
    requires s != [] && !IsWhitespace(s[0])
    ensures TrimStart(s) == s
  {
  }

  /** `parseInt` stops at the first character that is not a digit. */
  lemma ParseIntStopsAtNonDigit()
    ensures ParseInt("12px") == Int(12)
  {
    assert TrimStart("12px") == "12px";
    assert DigitRun("px", 10) == 0;
    assert DigitRun("12px", 10) == 2;
    assert "12px"[..2] == "12" && "12"[..1] == "1";
    assert DigitsValue("12", 10) == 12;
  }

  /** A sign and a `0x` prefix are read before the digits, which are then hexadecimal. */
  lemma ParseIntSignedHex()
    ensures ParseInt("-0x1A") == Int(-26)
  {
    assert TrimStart("-0x1A") == "-0x1A";
    assert "-0x1A"[1..] == "0x1A" && "0x1A"[2..] == "1A";
    assert DigitRun("1A", 16) == 2;
    assert "1A"[..2] == "1A" && "1A"[..1] == "1";
    assert DigitsValue("1A", 16) == 26;
  }

  /** Reading back a number that `toString` wrote gives the same number. */
  lemma ParseIntOfIntToString(n: int)
    ensures ParseInt(IntToString(n)) == Int(n)
  {
    var m := if n < 0 then -n else n;
    var u := NatToString(m);
    var s := IntToString(n);
    TrimStartNoLeading(s);
    ParseUnsignedOfNumeral(m);
    if n < 0 {
      assert s[1..] == u;
    }
  }
}

/** Generic sequence helpers: the `Array.prototype.filter` used throughout the source. */
module Seqs {

  /** `s.filter(keep)`: the elements satisfying `keep`, in their original order. */
  function Filter<T(!new)>(s: seq<T>, keep: T -> bool): (r: seq<T>)
    ensures |r| <= |s|
    ensures forall x :: x in r <==> x in s && keep(x)
  {
    if s == [] then []
    else (if keep(s[0]) then [s[0]] else []) + Filter(s[1..], keep)
  }

  /** Filtering distributes over concatenation, which is what keeping the original order means. */
  lemma {:induction false} FilterConcat<T(!new)>(a: seq<T>, b: seq<T>, keep: T -> bool)
    ensures Filter(a + b, keep) == Filter(a, keep) + Filter(b, keep)
  {
    if a != [] {
      assert (a + b)[1..] == a[1..] + b;
      FilterConcat(a[1..], b, keep);
    } else {
      assert a + b == b;
    }
  }

  /** A filter every element passes returns its input unchanged. */
  lemma {:induction false} FilterAll<T(!new)>(s: seq<T>, keep: T -> bool)
    requires forall x :: x in s ==> keep(x)
    ensures Filter(s, keep) == s
  {
    if s != [] {
      FilterAll(s[1..], keep);
    }
  }

  /** Filters with predicates that agree on every element give the same result. */
  lemma {:induction false} FilterAgree<T(!new)>(s: seq<T>, keep: T -> bool, keep': T -> bool)
    requires forall x :: x in s ==> keep(x) == keep'(x)
    ensures Filter(s, keep) == Filter(s, keep')
  {
    if s != [] {
      FilterAgree(s[1..], keep, keep');
    }
  }

  /** `a` is `b` with some elements left out, the rest in their original order. */
  predicate Subsequence<T(==)>(a: seq<T>, b: seq<T>)
    decreases |b|
  {
    if a == [] then true
    else if b == [] then false
    else (a[0] == b[0] && Subsequence(a[1..], b[1..])) || Subsequence(a, b[1..])
  }

  /** A filter keeps the order of what it keeps. */
  lemma {:induction false} FilterIsSubsequence<T(!new)>(s: seq<T>, keep: T -> bool)
    ensures Subsequence(Filter(s, keep), s)
  {
    if s != [] {
      FilterIsSubsequence(s[1..], keep);
      var r := Filter(s, keep);
      if keep(s[0]) {
        assert r[0] == s[0] && r[1..] == Filter(s[1..], keep);
      } else {
        assert r == Filter(s[1..], keep);
      }
    }
  }
}
