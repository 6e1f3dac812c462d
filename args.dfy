/** The arguments of a console command line (console/args.go): bounds-checked
    accessors and the decimal parses `strconv.ParseInt(s, 10, 32)` and
    `strconv.ParseUint(s, 10, 32)` that back them. Each typed accessor comes
    twice: as the source has it, where a failed parse still reports success,
    and as intended. */
module Console {
  import opened Common

  const Int32Bound: nat := 0x8000_0000
  const Uint32Bound: nat := 0x1_0000_0000

  /** `strconv.ParseUint(s, 10, 32)`: one or more decimal digits (no sign,
      no underscores) whose value fits in 32 bits. */
  function ParseUint32(s: string): (r: Option<nat>)
    ensures r.Some? <==> s != "" && AllDigits(s) && DigitsValue(s) < Uint32Bound
    ensures r.Some? ==> r.value == DigitsValue(s) && r.value < Uint32Bound
  {
    if s != "" && AllDigits(s) && DigitsValue(s) < Uint32Bound then Some(DigitsValue(s)) else None
  }

  /** `strconv.ParseInt(s, 10, 32)`: an optional `+` or `-`, then one or more
      decimal digits, whose signed value lies in [-2^31, 2^31). */
  function ParseInt32(s: string): (r: Option<int>)
    ensures r.Some? ==> -(Int32Bound as int) <= r.value < Int32Bound
  {
    if s == "" then None
    else
      var negative := s[0] == '-';
      var body := if s[0] == '+' || s[0] == '-' then s[1..] else s;
      if body == "" || !AllDigits(body) then None
      else
        var magnitude := DigitsValue(body);
        if !negative && magnitude >= Int32Bound then None
        else if negative && magnitude > Int32Bound then None
        else Some(if negative then -(magnitude as int) else magnitude)
  }

  /** Every 32-bit value is read back from its decimal rendering. */
  lemma ParseInt32OfIntToString(n: int)
    requires -(Int32Bound as int) <= n < Int32Bound
    ensures ParseInt32(IntToString(n)) == Some(n)
  {
    var s := IntToString(n);
    if n < 0 {
      assert s[1..] == NatToString(-n);
      DigitsValueOfNatToString(-n);
    } else {
      DigitsValueOfNatToString(n);
    }
  }

  /** Every unsigned 32-bit value is read back from its decimal rendering. */
  lemma ParseUint32OfNatToString(n: nat)
    requires n < Uint32Bound
    ensures ParseUint32(NatToString(n)) == Some(n)
  {
    DigitsValueOfNatToString(n);
  }

  /** What a successful signed parse accepted: a sign or none, then digits
      whose value is the magnitude of the result. */
  lemma ParseInt32Accepts(s: string)
    requires ParseInt32(s).Some?
    ensures var body := if s[0] == '+' || s[0] == '-' then s[1..] else s;
            && body != "" && AllDigits(body)
            && ParseInt32(s).value == if s[0] == '-' then -(DigitsValue(body) as int) else DigitsValue(body)
  {
  }

  /** Conversely, every optional sign followed by digits whose signed value
      lies in the 32-bit range is accepted with that value, leading zeros
      and a signed zero included. */
  lemma ParseInt32AcceptsEveryInRange(s: string, sign: string, body: string)
    requires s == sign + body && (sign == "" || sign == "+" || sign == "-")
    requires body != "" && AllDigits(body)
    requires if sign == "-" then DigitsValue(body) <= Int32Bound else DigitsValue(body) < Int32Bound
    ensures ParseInt32(s) == Some(if sign == "-" then -(DigitsValue(body) as int) else DigitsValue(body))
  {
    if sign == "" {
      assert IsDigit(body[0]);
      assert s == body;
    } else {
      assert s[0] == sign[0] && s[1..] == body;
    }
  }

  /** The rendering of a value outside the 32-bit range is refused. */
  lemma ParseInt32RefusesOutOfRange(n: int)
    requires n < -(Int32Bound as int) || Int32Bound <= n
    ensures ParseInt32(IntToString(n)) == None
  {
    var s := IntToString(n);
    if n < 0 {
      assert s[1..] == NatToString(-n);
      DigitsValueOfNatToString(-n);
    } else {
      DigitsValueOfNatToString(n);
    }
  }

  /** Text that is not a number and a sign without digits are refused; a
      sign, leading zeros and a negative zero are accepted. */
  lemma ParseInt32Examples(word: string, sign: string, zeros: string, unsigned: string, minusZero: string, plusFive: string)
    requires word == "abc" && sign == "-" && zeros == "+007"
    requires unsigned == "007" && minusZero == "-0" && plusFive == "+5"
    ensures ParseInt32(word) == None && ParseInt32("") == None && ParseInt32(sign) == None
    ensures ParseInt32(zeros) == Some(7) && ParseInt32(unsigned) == Some(7)
    ensures ParseInt32(minusZero) == Some(0) && ParseInt32(plusFive) == Some(5)
  {
    assert !IsDigit(word[0]);
    var body := zeros[1..];
    assert body == "007" == unsigned;
    assert body[..2] == "00" && body[..2][..1] == "0" && body[..2][..1][..0] == "";
    assert DigitsValue(body[..2][..1]) == 0;
    assert DigitsValue(body[..2]) == 0;
    assert DigitsValue(body) == 7;
    assert IsDigit(unsigned[0]);
    assert minusZero[1..] == "0" && "0"[..0] == "";
    assert DigitsValue("0") == 0;
    assert plusFive[1..] == "5" && "5"[..0] == "";
    assert DigitsValue("5") == 5;
  }

  /** A command line: the raw text and its space-separated words. */
  datatype Args = Args(line: string, args: seq<string>)
  {
    /** The number of words. */
    function Len(): (n: nat)
      ensures n == |args|
    {
      |args|
    }

    /** The word at `idx`, and whether there is one. */
    function String(idx: nat): (r: (string, bool))
      ensures r.1 <==> idx < Len()
      ensures r.1 ==> r.0 == args[idx]
      ensures !r.1 ==> r.0 == ""
    {
      if idx >= Len() then ("", false) else (args[idx], true)
    }

    /** The word at `idx` as a 32-bit signed number: success only when the
        word exists and parses. */
    function Int(idx: nat): (r: (int, bool))
      ensures r.1 <==> idx < Len() && ParseInt32(args[idx]).Some?
      ensures r.1 ==> r.0 == ParseInt32(args[idx]).value
      ensures !r.1 ==> r.0 == 0
    {
      var (s, ok) := String(idx);
      if !ok then (0, false)
      else match ParseInt32(s)
        case None => (0, false)
        case Some(v) => (v, true)
    }

    /** The word at `idx` as a 32-bit unsigned number. */
    function Uint(idx: nat): (r: (nat, bool))
      ensures r.1 <==> idx < Len() && ParseUint32(args[idx]).Some?
      ensures r.1 ==> r.0 == ParseUint32(args[idx]).value
      ensures !r.1 ==> r.0 == 0
    {
      var (s, ok) := String(idx);
      if !ok then (0, false)
      else match ParseUint32(s)
        case None => (0, false)
        case Some(v) => (v, true)
    }

    /** The word at `idx` as a float, under the given parse. */
    function Float64(idx: nat, parseFloat: string -> Option<real>): (r: (real, bool))
      ensures r.1 <==> idx < Len() && parseFloat(args[idx]).Some?
      ensures r.1 ==> r.0 == parseFloat(args[idx]).value
      ensures !r.1 ==> r.0 == 0.0
    {
      var (s, ok) := String(idx);
      if !ok then (0.0, false)
      else match parseFloat(s)
        case None => (0.0, false)
        case Some(v) => (v, true)
    }

    /** `Int` as written: the success flag of the word lookup is the named
        result itself, so a failed parse leaves it set. */
    function IntAsWritten(idx: nat): (r: (int, bool))
      ensures r.1 <==> idx < Len()
      ensures r.1 && ParseInt32(args[idx]).Some? ==> r.0 == ParseInt32(args[idx]).value
      ensures !r.1 || ParseInt32(args[idx]).None? ==> r.0 == 0
    {
      var (s, ok) := String(idx);
      if !ok then (0, ok)
      else match ParseInt32(s)
        case None => (0, ok)
        case Some(v) => (v, true)
    }

    function UintAsWritten(idx: nat): (r: (nat, bool))
      ensures r.1 <==> idx < Len()
      ensures r.1 && ParseUint32(args[idx]).Some? ==> r.0 == ParseUint32(args[idx]).value
      ensures !r.1 || ParseUint32(args[idx]).None? ==> r.0 == 0
    {
      var (s, ok) := String(idx);
      if !ok then (0, ok)
      else match ParseUint32(s)
        case None => (0, ok)
        case Some(v) => (v, true)
    }

    function Float64AsWritten(idx: nat, parseFloat: string -> Option<real>): (r: (real, bool))
      ensures r.1 <==> idx < Len()
      ensures r.1 && parseFloat(args[idx]).Some? ==> r.0 == parseFloat(args[idx]).value
      ensures !r.1 || parseFloat(args[idx]).None? ==> r.0 == 0.0
    {
      var (s, ok) := String(idx);
      if !ok then (0.0, ok)
      else match parseFloat(s)
        case None => (0.0, ok)
        case Some(v) => (v, true)
    }
  }

  /** A rendered 32-bit number is read back by `Int`. */
  lemma IntReadsRendering(a: Args, idx: nat, n: int)
    requires idx < a.Len() && a.args[idx] == IntToString(n)
    requires -(Int32Bound as int) <= n < Int32Bound
    ensures a.Int(idx) == (n, true)
  {
    ParseInt32OfIntToString(n);
  }

  lemma UintReadsRendering(a: Args, idx: nat, n: nat)
    requires idx < a.Len() && a.args[idx] == NatToString(n) && n < Uint32Bound
    ensures a.Uint(idx) == (n, true)
  {
    ParseUint32OfNatToString(n);
  }

  /** As written, `Int` agrees with the intended accessor except on a word
      that exists but does not parse, where it claims success with 0. */
  lemma IntAsWrittenMisreportsFailure(a: Args, idx: nat)
    ensures idx < a.Len() && ParseInt32(a.args[idx]).None? ==>
              a.IntAsWritten(idx) == (0, true) && a.Int(idx) == (0, false)
    ensures idx >= a.Len() || ParseInt32(a.args[idx]).Some? ==> a.IntAsWritten(idx) == a.Int(idx)
  {
  }

  lemma UintAsWrittenMisreportsFailure(a: Args, idx: nat)
    ensures idx < a.Len() && ParseUint32(a.args[idx]).None? ==>
              a.UintAsWritten(idx) == (0, true) && a.Uint(idx) == (0, false)
    ensures idx >= a.Len() || ParseUint32(a.args[idx]).Some? ==> a.UintAsWritten(idx) == a.Uint(idx)
  {
  }

  lemma Float64AsWrittenMisreportsFailure(a: Args, idx: nat, parseFloat: string -> Option<real>)
    ensures idx < a.Len() && parseFloat(a.args[idx]).None? ==>
              a.Float64AsWritten(idx, parseFloat) == (0.0, true) && a.Float64(idx, parseFloat) == (0.0, false)
    ensures idx >= a.Len() || parseFloat(a.args[idx]).Some? ==>
              a.Float64AsWritten(idx, parseFloat) == a.Float64(idx, parseFloat)
  {
  }

  /** The console line `count abc`: as written `Int(1)` gives (0, true),
      the intended accessor (0, false). */
  lemma IntAsWrittenCounterexample(a: Args)
    requires a == Args("count abc", ["count", "abc"])
    ensures a.IntAsWritten(1) == (0, true) && a.Int(1) == (0, false)
    ensures a.UintAsWritten(1) == (0, true) && a.Uint(1) == (0, false)
  {
    assert !IsDigit(a.args[1][0]);
  }
}
