/**
 The few pieces of Ruby and Rails behaviour the services lean on, written out:
 `Integer#to_s`, `String#to_i`, `Object#blank?` / `presence`, ASCII `downcase`,
 the `ILIKE '%q%'` substring test and `Array#[start, length]`.
 */
module RubyCore {

  datatype Option<T> = None | Some(value: T) {
    function GetOr(default: T): T {
      if Some? then value else default
    }
  }

  function Max(a: int, b: int): int { if a < b then b else a }
  function Min(a: int, b: int): int { if a < b then a else b }

  // ---------------------------------------------------------------------------
  // Integer#to_s (base 10)

  predicate IsDigit(c: char) { '0' <= c <= '9' }

  function DigitChar(d: nat): (c: char)
    requires d < 10
    ensures IsDigit(c) && c as int - '0' as int == d
  {
    ('0' as int + d) as char
  }

  function DigitValue(c: char): nat
    requires IsDigit(c)
  {
    c as int - '0' as int
  }

  predicate AllDigits(s: string) {
    forall i :: 0 <= i < |s| ==> IsDigit(s[i])
  }

  /** Decimal rendering of a natural number: no sign, no leading zeros. */
  function NatToString(n: nat): (s: string)
    ensures |s| >= 1 && AllDigits(s)
    ensures n >= 10 <==> |s| >= 2
    decreases n
  {
    if n < 10 then [DigitChar(n)] else NatToString(n / 10) + [DigitChar(n % 10)]
  }

  /** `Integer#to_s`: a leading '-' for negative numbers. */
  function IntToString(n: int): string {
    if n < 0 then "-" + NatToString(-n) else NatToString(n)
  }

  lemma {:induction false} NatToStringInjective(a: nat, b: nat)
    ensures NatToString(a) == NatToString(b) ==> a == b
    decreases a
  {
    if NatToString(a) == NatToString(b) && a >= 10 && b >= 10 {
      var sa, sb := NatToString(a), NatToString(b);
      assert sa == NatToString(a / 10) + [DigitChar(a % 10)];
      assert sb == NatToString(b / 10) + [DigitChar(b % 10)];
      assert sa[|sa| - 1] == DigitChar(a % 10) && sb[|sb| - 1] == DigitChar(b % 10);
      assert sa[..|sa| - 1] == NatToString(a / 10);
      assert sb[..|sb| - 1] == NatToString(b / 10);
      NatToStringInjective(a / 10, b / 10);
    }
  }

  lemma IntToStringSign(n: int)
    ensures |IntToString(n)| >= 1
    ensures IntToString(n)[0] == '-' <==> n < 0
  {
    if n >= 0 {
      assert IsDigit(NatToString(n)[0]);
    }
  }

  /** Distinct integers have distinct decimal renderings. */
  lemma IntToStringInjective(a: int, b: int)
    ensures IntToString(a) == IntToString(b) ==> a == b
  {
    IntToStringSign(a);
    IntToStringSign(b);
    if IntToString(a) == IntToString(b) {
      if a < 0 && b < 0 {
        assert NatToString(-a) == IntToString(a)[1..];
        assert NatToString(-b) == IntToString(b)[1..];
        NatToStringInjective(-a, -b);
      } else if a >= 0 && b >= 0 {
        NatToStringInjective(a, b);
      }
    }
  }

  // ---------------------------------------------------------------------------
  // String#to_i (base 10, no error on bad input)

  /** Ruby's `isspace`: space, tab, newline, vertical tab, form feed, carriage return. */
  predicate IsSpace(c: char) { c == ' ' || '\t' <= c <= '\r' }

  function SkipSpaces(s: string): (t: string)
    ensures |t| <= |s| && t == s[|s| - |t|..]
    ensures |t| > 0 ==> !IsSpace(t[0])
  {
    if |s| > 0 && IsSpace(s[0]) then SkipSpaces(s[1..]) else s
  }

  /**
   The digits `to_i` reads from the front of `s`: a run of digits in which a
   single underscore may stand between two digits ("1_000" reads as 1000).
   */
  function DigitRun(s: string): (ds: string)
    ensures AllDigits(ds) && |ds| <= |s|
  {
    if |s| == 0 || !IsDigit(s[0]) then []
    else
      var rest := if |s| >= 3 && s[1] == '_' && IsDigit(s[2]) then s[2..] else s[1..];
      [s[0]] + DigitRun(rest)
  }

  /** The value of a digit string, read most significant digit first. */
  function DigitsValue(ds: string): nat
    requires AllDigits(ds)
  {
    if |ds| == 0 then 0 else DigitsValue(ds[..|ds| - 1]) * 10 + DigitValue(ds[|ds| - 1])
  }

  /**
   `String#to_i`: leading whitespace, an optional sign, then the digit run; 0 if
   none. A string of digits reads as its decimal value, and only a leading '-'
   can make the result negative.
   */
  function StrToI(s: string): (r: int)
    ensures AllDigits(s) ==> r == DigitsValue(s)
    ensures r < 0 ==> |SkipSpaces(s)| > 0 && SkipSpaces(s)[0] == '-'
  {
    DigitRunOfAllDigits(s);
    var t := SkipSpaces(s);
    if |t| > 0 && t[0] == '-' then 0 - DigitsValue(DigitRun(t[1..]))
    else if |t| > 0 && t[0] == '+' then DigitsValue(DigitRun(t[1..]))
    else DigitsValue(DigitRun(t))
  }

  lemma {:induction false} DigitRunOfDigits(s: string)
    requires AllDigits(s)
    ensures DigitRun(s) == s
  {
    if |s| > 0 {
      assert !(|s| >= 3 && s[1] == '_');
      DigitRunOfDigits(s[1..]);
    }
  }

  lemma DigitRunOfAllDigits(s: string)
    ensures AllDigits(s) ==> DigitRun(s) == s && SkipSpaces(s) == s
  {
    if AllDigits(s) {
      DigitRunOfDigits(s);
      if |s| > 0 {
        assert !IsSpace(s[0]);
      }
    }
  }

  lemma {:induction false} DigitsValueOfNatToString(n: nat)
    ensures DigitsValue(NatToString(n)) == n
    decreases n
  {
    var s := NatToString(n);
    if n >= 10 {
      assert s == NatToString(n / 10) + [DigitChar(n % 10)];
      assert s[..|s| - 1] == NatToString(n / 10);
      DigitsValueOfNatToString(n / 10);
    }
  }

  /** Reading back what `Integer#to_s` wrote gives the integer: `n.to_s.to_i == n`. */
  lemma StrToIOfIntToString(n: int)
    ensures StrToI(IntToString(n)) == n
  {
    var s := IntToString(n);
    var m: nat := if n < 0 then -n else n;
    var digits := NatToString(m);
    DigitRunOfDigits(digits);
    DigitsValueOfNatToString(m);
    assert !IsSpace(s[0]);
    assert SkipSpaces(s) == s;
    if n < 0 {
      assert s == "-" + digits;
      assert s[1..] == digits;
    } else {
      assert s == digits;
      assert s[0] != '-' && s[0] != '+';
    }
  }

  // ---------------------------------------------------------------------------
  // Request parameters, blank? and presence

  /** A value handed to the service: `nil`, an Integer, or a String (as HTTP delivers). */
  datatype Param = Nil | IntParam(i: int) | StrParam(s: string)

  /**
   `[[:space:]]` on UTF-8 text: the Unicode White_Space characters, which take
   in the ASCII ones `IsSpace` names and add NEL, NO-BREAK SPACE, OGHAM SPACE
   MARK, the spaces U+2000..U+200A, the line and paragraph separators, NARROW
   NO-BREAK SPACE, MEDIUM MATHEMATICAL SPACE and IDEOGRAPHIC SPACE.
   */
  predicate IsUnicodeSpace(c: char) {
    IsSpace(c) || c == '\U{0085}' || c == '\U{00A0}' || c == '\U{1680}' ||
    ('\U{2000}' <= c <= '\U{200A}') || c == '\U{2028}' || c == '\U{2029}' ||
    c == '\U{202F}' || c == '\U{205F}' || c == '\U{3000}'
  }

  /** `String#blank?`, that is `/\A[[:space:]]*\z/`: empty or Unicode whitespace only. */
  predicate BlankString(s: string) {
    forall i :: 0 <= i < |s| ==> IsUnicodeSpace(s[i])
  }

  /** `Object#blank?`: nil is blank, an Integer never is, a String when it is. */
  predicate Blank(p: Param) {
    match p
    case Nil => true
    case IntParam(_) => false
    case StrParam(s) => BlankString(s)
  }

  /** `to_i` on nil (0), on an Integer (itself) and on a String. */
  function ToI(p: Param): int {
    match p
    case Nil => 0
    case IntParam(i) => i
    case StrParam(s) => StrToI(s)
  }

  /** `p.presence&.to_i`: nothing for a blank value, its `to_i` otherwise. */
  function PresentToI(p: Param): (r: Option<int>)
    ensures r.None? <==> Blank(p)
    ensures r.Some? ==> r.value == ToI(p)
    ensures p.IntParam? ==> r == Some(p.i)
  {
    if Blank(p) then None else Some(ToI(p))
  }

  /** A bound sent as the decimal text of an integer means that integer. */
  lemma PresentToIOfIntToString(n: int)
    ensures PresentToI(StrParam(IntToString(n))) == Some(n)
  {
    var s := IntToString(n);
    IntToStringSign(n);
    if n >= 0 {
      assert IsDigit(NatToString(n)[0]);
    }
    assert !IsUnicodeSpace(s[0]);
    StrToIOfIntToString(n);
  }

  /** A no-break space alone is blank, so it gives no bound at all. */
  lemma NoBreakSpaceIsBlank()
    ensures PresentToI(StrParam("\U{00A0}")) == None
  {
    var s := "\U{00A0}";
    assert |s| == 1 && s[0] == '\U{00A0}';
    assert BlankString(s);
  }

  // ---------------------------------------------------------------------------
  // Case-insensitive substring (ILIKE '%pattern%' without wildcards)

  /** ASCII `downcase` of one character. */
  function LowerChar(c: char): char {
    if 'A' <= c <= 'Z' then (c as int + 32) as char else c
  }

  function Lower(s: string): (r: string)
    ensures |r| == |s|
    ensures forall i :: 0 <= i < |s| ==> r[i] == LowerChar(s[i])
  {
    seq(|s|, i requires 0 <= i < |s| => LowerChar(s[i]))
  }

  /** `part` occurs in `text` starting at index `i`. */
  predicate OccursAt(text: string, part: string, i: int) {
    0 <= i <= |text| - |part| && text[i..i + |part|] == part
  }

  predicate Contains(text: string, part: string) {
    exists i | 0 <= i <= |text| - |part| :: OccursAt(text, part, i)
  }

  /** `text ILIKE '%pattern%'`, reading every character of the pattern literally. */
  predicate ILikeContains(text: string, pattern: string) {
    Contains(Lower(text), Lower(pattern))
  }

  // ---------------------------------------------------------------------------
  // Array#[start, length] for a non-negative start

  /**
   `a[start, len]`: nil when `start` lies past the end, otherwise the (possibly
   shorter or empty) run of at most `len` elements from `start`.
   */
  function ArraySlice<T>(a: seq<T>, start: nat, len: nat): (r: Option<seq<T>>)
    ensures r.None? <==> start > |a|
    ensures r.Some? ==> |r.value| == Min(len, |a| - start)
    ensures r.Some? ==> forall i :: 0 <= i < |r.value| ==> r.value[i] == a[start + i]
  {
    if start > |a| then None else Some(a[start..Min(start + len, |a|)])
  }
}
