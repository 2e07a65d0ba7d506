/**
 * Models of the JavaScript built-ins that the handlers of both front-ends
 * lean on: `String.prototype.trim`, `parseInt` without a radix, the
 * conversion of an integer to its decimal text, `replace` with a
 * one-character pattern and an empty replacement, and the
 * `filter(x => x !== v)` and `splice(i, 1)` idioms on arrays.
 */
module JsBuiltins {

  datatype Option<+T> = None | Some(value: T)

  /** The ECMAScript WhiteSpace and LineTerminator code points:
      what `trim` strips and what `parseInt` skips before the number. */
  predicate IsSpace(c: char) {
    || c == '\t' || c == '\n' || c == '\U{000B}' || c == '\U{000C}' || c == '\r'
    || c == ' ' || c == '\U{00A0}' || c == '\U{1680}'
    || ('\U{2000}' <= c <= '\U{200A}')
    || c == '\U{2028}' || c == '\U{2029}' || c == '\U{202F}' || c == '\U{205F}'
    || c == '\U{3000}' || c == '\U{FEFF}'
  }

  /** Leading white space removed: what remains is a suffix of `s` that does not start with a space. */
  function TrimStart(s: string): (r: string)
    ensures |r| <= |s| && r == s[|s| - |r|..]
    ensures forall k :: 0 <= k < |s| - |r| ==> IsSpace(s[k])
    ensures r == [] || !IsSpace(r[0])
  {
    if s != [] && IsSpace(s[0]) then TrimStart(s[1..]) else s
  }

  /** Trailing white space removed: what remains is a prefix of `s` that does not end with a space. */
  function TrimEnd(s: string): (r: string)
    ensures |r| <= |s| && r == s[..|r|]
    ensures forall k :: |r| <= k < |s| ==> IsSpace(s[k])
    ensures r == [] || !IsSpace(r[|r| - 1])
  {
    if s != [] && IsSpace(s[|s| - 1]) then TrimEnd(s[..|s| - 1]) else s
  }

  /** `String.prototype.trim`: white space dropped from both ends. */
  function Trim(s: string): string
    decreases |s|
  {
    if s == [] then []
    else if IsSpace(s[0]) then Trim(s[1..])
    else if IsSpace(s[|s| - 1]) then Trim(s[..|s| - 1])
    else s
  }

  /** Trimming both ends at once is trimming the front, then the back. */
  lemma {:induction false} TrimIsBothEnds(s: string)
    ensures Trim(s) == TrimEnd(TrimStart(s))
    decreases |s|
  {
    if s != [] {
      if IsSpace(s[0]) {
        TrimIsBothEnds(s[1..]);
      } else if IsSpace(s[|s| - 1]) {
        var init := s[..|s| - 1];
        TrimIsBothEnds(init);
        assert init[0] == s[0];
        assert TrimStart(init) == init;
      }
    }
  }

  /** What the handlers' `if (name)` tests after trimming: the result is empty exactly when
      `s` holds nothing but white space, and otherwise neither starts nor ends with a space. */
  lemma TrimOfBlank(s: string)
    ensures Trim(s) == [] <==> forall k :: 0 <= k < |s| ==> IsSpace(s[k])
    ensures Trim(s) != [] ==> !IsSpace(Trim(s)[0]) && !IsSpace(Trim(s)[|Trim(s)| - 1])
  {
    TrimIsBothEnds(s);
    var t := TrimStart(s);
    var r := TrimEnd(t);
    if r == [] {
      assert t == [];
    } else {
      assert r[0] == t[0];
      assert t[0] == s[|s| - |t|];
    }
  }

  predicate IsDecimalDigit(c: char) { '0' <= c <= '9' }

  predicate IsHexDigit(c: char) {
    IsDecimalDigit(c) || ('a' <= c <= 'f') || ('A' <= c <= 'F')
  }

  /** A digit of the radix `parseInt` settled on: 16 after a `0x` prefix, 10 otherwise. */
  predicate IsDigitOf(c: char, hex: bool) {
    if hex then IsHexDigit(c) else IsDecimalDigit(c)
  }

  function DigitValue(c: char, hex: bool): (v: nat)
    requires IsDigitOf(c, hex)
    ensures v < (if hex then 16 else 10)
  {
    if IsDecimalDigit(c) then (c as int) - ('0' as int)
    else if 'a' <= c <= 'f' then (c as int) - ('a' as int) + 10
    else (c as int) - ('A' as int) + 10
  }

  predicate AllDigitsOf(s: string, hex: bool) {
    forall k :: 0 <= k < |s| ==> IsDigitOf(s[k], hex)
  }

  /** The value of a run of digits, most significant first. */
  function DigitsValue(d: string, hex: bool): nat
    requires AllDigitsOf(d, hex)
  {
    if d == [] then 0
    else DigitsValue(d[..|d| - 1], hex) * (if hex then 16 else 10) + DigitValue(d[|d| - 1], hex)
  }

  /** The longest prefix of `s` made of digits: `parseInt` stops at the first other character. */
  function LeadingDigits(s: string, hex: bool): (r: string)
    ensures |r| <= |s| && r == s[..|r|]
    ensures AllDigitsOf(r, hex)
    ensures |r| == |s| || !IsDigitOf(s[|r|], hex)
  {
    if s != [] && IsDigitOf(s[0], hex) then [s[0]] + LeadingDigits(s[1..], hex) else []
  }

  predicate HasHexPrefix(s: string) {
    |s| >= 2 && s[0] == '0' && (s[1] == 'x' || s[1] == 'X')
  }

  /** `parseInt(s)` with no radix: skip leading white space, take one optional sign,
      read hexadecimal after a `0x`/`0X` prefix and decimal otherwise, stop at the first
      character that is not a digit. No digit at all gives NaN, modelled as None. */
  function ParseInt(s: string): Option<int> {
    ParseSigned(TrimStart(s))
  }

  /** The number after the white space: a leading `-` negates, a leading `+` is dropped. */
  function ParseSigned(t: string): Option<int> {
    if t != [] && t[0] == '-' then
      match ParseUnsigned(t[1..])
      case Some(v) => Some(-v)
      case None => None
    else if t != [] && t[0] == '+' then ParseUnsigned(t[1..])
    else ParseUnsigned(t)
  }

  /** The magnitude after the sign. */
  function ParseUnsigned(u: string): (r: Option<int>)
    ensures r.Some? ==> r.value >= 0
  {
    var hex := HasHexPrefix(u);
    var digits := LeadingDigits(if hex then u[2..] else u, hex);
    if digits == [] then None else Some(DigitsValue(digits, hex))
  }

  function DigitChar(d: nat): (c: char)
    requires d < 10
    ensures IsDecimalDigit(c) && DigitValue(c, false) == d
  {
    (('0' as int) + d) as char
  }

  /** The decimal text of a natural number, most significant digit first, without leading zeros. */
  function NatToDecimal(n: nat): (r: string)
    ensures |r| > 0 && AllDigitsOf(r, false)
    ensures |r| > 1 ==> r[0] != '0'
  {
    if n < 10 then [DigitChar(n)] else NatToDecimal(n / 10) + [DigitChar(n % 10)]
  }

  /** The text JavaScript gives an integer-valued number: `${n}` and `String(n)`. */
  function IntToDecimal(n: int): string {
    if n < 0 then "-" + NatToDecimal(-n) else NatToDecimal(n)
  }

  lemma {:induction false} DecimalValueOfNat(n: nat)
    ensures DigitsValue(NatToDecimal(n), false) == n
  {
    if n >= 10 {
      var d := NatToDecimal(n / 10);
      assert (d + [DigitChar(n % 10)])[..|d|] == d;
      DecimalValueOfNat(n / 10);
    } else {
      assert [DigitChar(n)][..0] == [];
    }
  }

  lemma {:induction false} LeadingDigitsOfRun(d: string, hex: bool)
    requires AllDigitsOf(d, hex)
    ensures LeadingDigits(d, hex) == d
  {
    if d != [] {
      LeadingDigitsOfRun(d[1..], hex);
      assert [d[0]] + d[1..] == d;
    }
  }

  /** `parseInt` on a run of decimal digits that is not itself `0x…`, with or without a minus sign. */
  lemma ParseIntOfDigits(d: string, negative: bool)
    requires d != [] && AllDigitsOf(d, false) && !HasHexPrefix(d)
    ensures var v: int := DigitsValue(d, false);
            ParseInt(if negative then "-" + d else d) == Some(if negative then -v else v)
  {
    LeadingDigitsOfRun(d, false);
    assert ParseUnsigned(d) == Some(DigitsValue(d, false));
    var s := if negative then "-" + d else d;
    assert !IsSpace(s[0]);
    assert TrimStart(s) == s;
    if negative {
      assert s[1..] == d;
    }
  }

  /** Reading back the decimal text of any integer with `parseInt` gives the integer. */
  lemma ParseIntOfDecimal(n: int)
    ensures ParseInt(IntToDecimal(n)) == Some(n)
  {
    var m: nat := if n < 0 then -n else n;
    var d := NatToDecimal(m);
    DecimalValueOfNat(m);
    assert !HasHexPrefix(d);
    ParseIntOfDigits(d, n < 0);
  }

  /** A text that starts with neither white space, a sign nor a digit holds no number: NaN.
      "null", the text a null amount is shown with, is one. */
  lemma ParseIntOfNonNumber(s: string)
    requires s != [] && !IsSpace(s[0]) && s[0] != '-' && s[0] != '+' && !IsDecimalDigit(s[0])
    ensures ParseInt(s) == None
  {
    assert TrimStart(s) == s;
    assert !HasHexPrefix(s);
    assert LeadingDigits(s, false) == [];
  }

  /** `s.replace(c, '')`: the first occurrence of `c` is taken out, the rest stays in order. */
  function RemoveFirst(s: string, c: char): (r: string)
    ensures c !in s ==> r == s
    ensures c in s ==> |r| == |s| - 1
  {
    if s == [] then []
    else if s[0] == c then s[1..]
    else [s[0]] + RemoveFirst(s[1..], c)
  }

  /** The character taken out is the first `c`, at index `i`; what precedes and follows it is
      kept, in order. */
  lemma {:induction false} RemoveFirstTakesOutFirst(s: string, c: char, i: nat)
    requires i < |s| && s[i] == c && c !in s[..i]
    ensures RemoveFirst(s, c) == s[..i] + s[i + 1..]
  {
    if i > 0 {
      assert s[0] in s[..i];
      assert s[1..][..i - 1] == s[1..i];
      RemoveFirstTakesOutFirst(s[1..], c, i - 1);
      assert s[1..][i..] == s[i + 1..];
      assert [s[0]] + s[1..i] == s[..i];
    }
  }

  lemma {:induction false} RemoveFirstOfSuffix(t: string, c: char)
    requires c !in t
    ensures RemoveFirst(t + [c], c) == t
  {
    if t != [] {
      assert (t + [c])[1..] == t[1..] + [c];
      RemoveFirstOfSuffix(t[1..], c);
    }
  }

  /** No element occurs twice. */
  predicate NoDup<T(==)>(s: seq<T>) {
    forall i, j :: 0 <= i < j < |s| ==> s[i] != s[j]
  }

  /** `s.filter(x => x !== v)`. */
  function Without(s: seq<string>, v: string): (r: seq<string>)
    ensures |r| <= |s|
    ensures forall x :: x in r <==> x in s && x != v
  {
    if s == [] then []
    else (if s[0] == v then [] else [s[0]]) + Without(s[1..], v)
  }

  /** `s.splice(i, 1)`: the element at `i` taken out. */
  function RemoveAt<T>(s: seq<T>, i: nat): (r: seq<T>)
    requires i < |s|
    ensures |r| == |s| - 1
  {
    s[..i] + s[i + 1..]
  }

  /** Filtering a value out of a list with no repeats keeps the list free of repeats. */
  lemma {:induction false} WithoutKeepsNoDup(s: seq<string>, v: string)
    requires NoDup(s)
    ensures NoDup(Without(s, v))
  {
    if s != [] {
      assert NoDup(s[1..]);
      WithoutKeepsNoDup(s[1..], v);
      assert s[0] !in s[1..];
    }
  }

  /** On a list with no repeats, filtering out an element that is present removes exactly that
      one position and keeps every other element in its order. */
  lemma {:induction false} WithoutRemovesOnePosition(s: seq<string>, i: nat)
    requires NoDup(s) && i < |s|
    ensures Without(s, s[i]) == RemoveAt(s, i)
  {
    if i == 0 {
      assert s[0] !in s[1..];
      WithoutOfAbsent(s[1..], s[0]);
    } else {
      assert NoDup(s[1..]);
      WithoutRemovesOnePosition(s[1..], i - 1);
      assert s[1..][i - 1] == s[i];
      assert s[1..][..i - 1] == s[1..i];
      assert s[1..][i..] == s[i + 1..];
    }
  }

  /** Filtering out a value that is not in the list changes nothing. */
  lemma {:induction false} WithoutOfAbsent(s: seq<string>, v: string)
    requires v !in s
    ensures Without(s, v) == s
  {
    if s != [] {
      WithoutOfAbsent(s[1..], v);
    }
  }
}
