/** Shared vocabulary: optional values, Go's uint64 modulus, and the decimal
    rendering that `fmt`'s `%d` and `strconv` produce for integers. */
module Common {

  /** A Go value that may be nil, or an `error` that may be nil. */
  datatype Option<+T> = None | Some(value: T)

  /** 2^64: Go's `uint64` arithmetic wraps around modulo this value. */
  const Uint64Modulus: nat := 0x1_0000_0000_0000_0000

  predicate IsDigit(c: char) {
    '0' <= c <= '9'
  }

  predicate AllDigits(s: string) {
    forall i :: 0 <= i < |s| ==> IsDigit(s[i])
  }

  function DigitChar(d: nat): (c: char)
    requires d < 10
    ensures IsDigit(c) && c as int - '0' as int == d
  {
    ('0' as int + d) as char
  }

  /** Decimal rendering of a natural number, without leading zeros. */
  function NatToString(n: nat): (s: string)
    ensures 1 <= |s| && AllDigits(s)
    ensures |s| > 1 ==> s[0] != '0'
    decreases n
  {
    if n < 10 then [DigitChar(n)] else NatToString(n / 10) + [DigitChar(n % 10)]
  }

  /** Decimal rendering of an integer, as `%d` and `strconv.Itoa` give it. */
  function IntToString(n: int): (s: string)
    ensures 1 <= |s|
    ensures n < 0 <==> s[0] == '-'
  {
    if n < 0 then "-" + NatToString(-n) else NatToString(n)
  }

  /** The value of a string of decimal digits (0 for the empty string). */
  function DigitsValue(s: string): nat
    requires AllDigits(s)
  {
    if s == [] then 0 else DigitsValue(s[..|s| - 1]) * 10 + (s[|s| - 1] as int - '0' as int)
  }

  /** Reading back a rendered natural number gives that number. */
  lemma {:induction false} DigitsValueOfNatToString(n: nat)
    ensures DigitsValue(NatToString(n)) == n
    decreases n
  {
    if n >= 10 {
      DigitsValueOfNatToString(n / 10);
      var s := NatToString(n);
      assert s[..|s| - 1] == NatToString(n / 10);
    }
  }

  /** Go's `unicode.IsSpace`: the characters with Unicode's White_Space
      property. */
  predicate IsSpace(c: char) {
    c == '\t' || c == '\n' || c == '\U{0B}' || c == '\U{0C}' || c == '\r' || c == ' '
    || c == '\U{85}' || c == '\U{A0}' || c == '\U{1680}' || ('\U{2000}' <= c <= '\U{200A}')
    || c == '\U{2028}' || c == '\U{2029}' || c == '\U{202F}' || c == '\U{205F}' || c == '\U{3000}'
  }

  predicate AllSpace(s: string) {
    forall i :: 0 <= i < |s| ==> IsSpace(s[i])
  }

  /** How many white-space characters `s` starts with. */
  function LeadingSpaces(s: string): (i: nat)
    ensures i <= |s|
    ensures forall k :: 0 <= k < i ==> IsSpace(s[k])
    ensures i < |s| ==> !IsSpace(s[i])
  {
    if |s| > 0 && IsSpace(s[0]) then
      var k := LeadingSpaces(s[1..]);
      assert forall m :: 1 <= m < k + 1 ==> s[m] == s[1..][m - 1];
      k + 1
    else 0
  }

  /** Where the white space that `s` ends with begins. */
  function TrailingSpaces(s: string): (j: nat)
    ensures j <= |s|
    ensures forall k :: j <= k < |s| ==> IsSpace(s[k])
    ensures 0 < j ==> !IsSpace(s[j - 1])
  {
    if |s| > 0 && IsSpace(s[|s| - 1]) then TrailingSpaces(s[..|s| - 1]) else |s|
  }

  /** Go's `strings.TrimSpace`: `s` without its leading and trailing white
      space. */
  function TrimSpace(s: string): string
  {
    var rest := s[LeadingSpaces(s)..];
    rest[..TrailingSpaces(rest)]
  }

  /** Trimming keeps a middle slice of the text and cuts only white space
      from either end; what it keeps neither starts nor ends with white
      space. */
  lemma TrimSpaceShape(s: string)
    ensures var i := LeadingSpaces(s);
            var t := TrimSpace(s);
            && i + |t| <= |s| && t == s[i..i + |t|]
            && (forall k :: 0 <= k < i ==> IsSpace(s[k]))
            && (forall k :: i + |t| <= k < |s| ==> IsSpace(s[k]))
            && (t != "" ==> !IsSpace(t[0]) && !IsSpace(t[|t| - 1]))
  {
    var i := LeadingSpaces(s);
    var rest := s[i..];
    var j := TrailingSpaces(rest);
    forall k | i + j <= k < |s| ensures IsSpace(s[k]) {
      assert rest[k - i] == s[k];
    }
  }

  /** Trimming leaves nothing exactly when the text is all white space. */
  lemma TrimSpaceEmptyIffBlank(s: string)
    ensures TrimSpace(s) == "" <==> AllSpace(s)
  {
    TrimSpaceShape(s);
    var i := LeadingSpaces(s);
    if TrimSpace(s) != "" {
      assert !IsSpace(s[i]);
    }
  }

  /** Go's `math.Floor` and `math.Ceil` followed by a conversion to `int`,
      on exact reals. */
  function Floor(x: real): (n: int)
    ensures n as real <= x < n as real + 1.0
  {
    x.Floor
  }

  function Ceil(x: real): (n: int)
    ensures n as real - 1.0 < x <= n as real
  {
    -((-x).Floor)
  }
}
