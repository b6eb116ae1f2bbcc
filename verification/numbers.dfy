/** JavaScript numbers as the validators see them: the result of
    `parseFloat`, `parseInt` and of the implicit `Number(...)` conversion,
    which may be NaN or an infinity. Finite values are exact reals; only
    the overflow of `parseInt` to an infinity is modelled, not the rounding
    of decimal text to the nearest double. */
module Numbers {
  import opened Js
  import opened Text

  datatype Num = NaN | PosInf | NegInf | Fin(v: real)

  /** `Number.isInteger`. */
  predicate IsInteger(x: Num) {
    x.Fin? && IsIntegral(x.v)
  }

  /** `x < t`, `x <= t`, `x > t` and `x >= t` against a finite bound:
      every comparison with NaN is false. */
  predicate Lt(x: Num, t: real) { x.NegInf? || (x.Fin? && x.v < t) }
  predicate Le(x: Num, t: real) { x.NegInf? || (x.Fin? && x.v <= t) }
  predicate Gt(x: Num, t: real) { x.PosInf? || (x.Fin? && x.v > t) }
  predicate Ge(x: Num, t: real) { x.PosInf? || (x.Fin? && x.v >= t) }

  /** `10^e` for an integer exponent. */
  function Pow10(e: int): (r: real)
    ensures r > 0.0
  {
    if e >= 0 then Pow(10, e) as real else 1.0 / (Pow(10, -e) as real)
  }

  /** Smallest magnitude that IEEE double conversion rounds to an infinity:
      2^1024 - 2^970, halfway between the largest finite double
      (2^1024 - 2^971) and 2^1024. */
  const OverflowBound: nat :=
    179769313486231580793728971405303415079934132710037826936173778980444968292764750946649017977587207096330286416692887910946555547851940402630657488671505820681908902000708383676273854845817711531764475730270069855571366959622842914819860834936475292719074168444365510704342711559699508093042880177904174497792

  /** `Math.round` on a finite number: the nearest integer, halves
      rounding up. */
  function Round(x: real): (r: int)
    ensures r as real - 0.5 <= x < r as real + 0.5
  {
    (x + 0.5).Floor
  }

  /** The double nearest to an integer, as far as overflow is concerned. */
  function FromInteger(i: int): (r: Num)
    ensures -(OverflowBound as int) < i < OverflowBound ==> r == Fin(i as real)
    ensures i >= OverflowBound ==> r == PosInf
    ensures i <= -(OverflowBound as int) ==> r == NegInf
    ensures r.Fin? ==> IsIntegral(r.v)
  {
    if i >= OverflowBound then PosInf
    else if i <= -(OverflowBound as int) then NegInf
    else Fin(i as real)
  }

  /** A number read from the front of a string and how many characters it used. */
  datatype Scan<T> = Scan(value: T, len: nat)

  /** The exponent part `e`/`E`, an optional sign and at least one digit. */
  function Exponent(s: string): (r: Option<Scan<int>>)
    ensures r.Some? ==> 2 <= r.value.len <= |s|
  {
    if |s| >= 2 && (s[0] == 'e' || s[0] == 'E') then
      var (negative, rest) := SplitSign(s[1..]);
      var signLen := |s| - 1 - |rest|;
      var n := DigitRun(rest);
      if n == 0 then None
      else
        var mag := DigitsValue(rest[..n]) as int;
        Some(Scan(if negative then -mag else mag, 1 + signLen + n))
    else None
  }

  /** The value of the digits before and after the point:
      `whole.fraction`. */
  function Mantissa(whole: string, fraction: string): (r: real)
    requires AllDigits(whole) && AllDigits(fraction)
    ensures r >= 0.0
  {
    DigitsValue(whole) as real + DigitsValue(fraction) as real / Pow(10, |fraction|) as real
  }

  /** Whether `s` starts an unsigned decimal literal: a digit, or a point
      followed by a digit. */
  predicate StartsDecimal(s: string) {
    (|s| > 0 && IsDigit(s[0])) || (|s| > 1 && s[0] == '.' && IsDigit(s[1]))
  }

  /** The longest prefix of `s` that is an unsigned decimal literal
      (`12`, `1.5`, `.5`, `5.`, `1e3`, `2.5E-2`), with its value. */
  function UnsignedDecimal(s: string): (r: Option<Scan<real>>)
    ensures r.Some? ==> 0 < r.value.len <= |s| && r.value.value >= 0.0
    ensures r.None? <==> !StartsDecimal(s)
  {
    var i := DigitRun(s);
    var hasDot := i < |s| && s[i] == '.';
    var f := if hasDot then DigitRun(s[i + 1..]) else 0;
    assert i == 0 && f == 0 <==> !StartsDecimal(s) by {
      if i == 0 && hasDot && |s| > 1 && IsDigit(s[1]) {
        assert s[i + 1..][0] == s[1];
      }
    }
    if i == 0 && f == 0 then None
    else
      var mantissa := Mantissa(s[..i], if hasDot then s[i + 1..][..f] else "");
      Some(WithExponent(mantissa, if hasDot then i + 1 + f else i, s))
  }

  /** The literal whose mantissa ends at `len`, scaled by the exponent part
      that follows, if there is one. */
  function WithExponent(mantissa: real, len: nat, s: string): (r: Scan<real>)
    requires 0 < len <= |s| && mantissa >= 0.0
    ensures 0 < r.len <= |s| && r.value >= 0.0
  {
    match Exponent(s[len..])
    case None => Scan(mantissa, len)
    case Some(e) =>
      var scale := Pow10(e.value);
      assert mantissa * scale >= 0.0;
      Scan(mantissa * scale, len + e.len)
  }

  /** An optional leading `+` or `-`: whether it was `-`, and the rest. */
  function SplitSign(s: string): (r: (bool, string))
    ensures r.1 == s || (|s| > 0 && r.1 == s[1..] && (s[0] == '+' || s[0] == '-'))
  {
    if |s| > 0 && s[0] == '-' then (true, s[1..])
    else if |s| > 0 && s[0] == '+' then (false, s[1..])
    else (false, s)
  }

  function Signed(negative: bool, x: real): real {
    if negative then -x else x
  }

  /** `parseFloat(s)`: leading white space is skipped, then the longest
      prefix that reads as a signed decimal literal or `Infinity`. */
  function ParseFloat(s: string): Num {
    var (negative, body) := SplitSign(TrimStart(s));
    if |body| >= 8 && body[..8] == "Infinity" then (if negative then NegInf else PosInf)
    else
      match UnsignedDecimal(body)
      case None => NaN
      case Some(d) => Fin(Signed(negative, d.value))
  }

  /** The value of a digit in bases up to 36, if it is one. */
  function DigitIn(c: char, radix: nat): Option<nat> {
    var d :=
      if IsDigit(c) then c as int - '0' as int
      else if 'a' <= c <= 'z' then c as int - 'a' as int + 10
      else if 'A' <= c <= 'Z' then c as int - 'A' as int + 10
      else 36;
    if d < radix then Some(d) else None
  }

  /** Length of the longest prefix of digits of the given radix. */
  function RadixRun(s: string, radix: nat): (n: nat)
    ensures n <= |s|
    ensures forall i :: 0 <= i < n ==> DigitIn(s[i], radix).Some?
  {
    if |s| > 0 && DigitIn(s[0], radix).Some? then 1 + RadixRun(s[1..], radix) else 0
  }

  /** `high * radix` on naturals. */
  function Shift(high: nat, radix: nat): (r: nat)
    ensures radix > 0 ==> r >= high
  {
    high * radix
  }

  function RadixValue(s: string, radix: nat): nat
    requires forall i :: 0 <= i < |s| ==> DigitIn(s[i], radix).Some?
  {
    if |s| == 0 then 0
    else
      var init := s[..|s| - 1];
      assert forall i :: 0 <= i < |init| ==> DigitIn(init[i], radix).Some? by {
        forall i | 0 <= i < |init| ensures DigitIn(init[i], radix).Some? {
          assert init[i] == s[i];
        }
      }
      var high: nat := RadixValue(init, radix);
      var low: nat := DigitIn(s[|s| - 1], radix).value;
      Shift(high, radix) + low
  }

  /** `parseInt(s)` without a radix argument: leading white space, a sign,
      an optional `0x`/`0X` that selects base 16, then the longest run of
      digits. The result is an integer, an infinity (overflow) or NaN. */
  function ParseInt(s: string): (r: Num)
    ensures r.Fin? ==> IsIntegral(r.v)
  {
    var (negative, body) := SplitSign(TrimStart(s));
    var hex := |body| >= 2 && body[0] == '0' && (body[1] == 'x' || body[1] == 'X');
    var radix := if hex then 16 else 10;
    var digits := if hex then body[2..] else body;
    var n := RadixRun(digits, radix);
    if n == 0 then NaN
    else
      var mag := RadixValue(digits[..n], radix) as int;
      FromInteger(if negative then -mag else mag)
  }

  /** `0x…`, `0o…` and `0b…` literals, which must be entirely digits. */
  function RadixLiteral(digits: string, radix: nat): Num {
    if |digits| > 0 && RadixRun(digits, radix) == |digits| then
      FromInteger(RadixValue(digits, radix))
    else NaN
  }

  /** `Number(s)` for a string: surrounding white space is ignored, the
      empty string is 0, and the rest must be one whole numeric literal. */
  function StrToNumber(s: string): Num {
    var t := Trim(s);
    if t == "" then Fin(0.0)
    else if |t| >= 2 && t[0] == '0' && (t[1] == 'x' || t[1] == 'X') then RadixLiteral(t[2..], 16)
    else if |t| >= 2 && t[0] == '0' && (t[1] == 'o' || t[1] == 'O') then RadixLiteral(t[2..], 8)
    else if |t| >= 2 && t[0] == '0' && (t[1] == 'b' || t[1] == 'B') then RadixLiteral(t[2..], 2)
    else
      var (negative, body) := SplitSign(t);
      if body == "Infinity" then (if negative then NegInf else PosInf)
      else
        match UnsignedDecimal(body)
        case Some(d) => if d.len == |body| then Fin(Signed(negative, d.value)) else NaN
        case None => NaN
  }

  /** `Number(v)` for a JSON value: arrays convert through their string
      form, so `[]` is 0, `[x]` converts like `x` (except that a boolean
      inside an array reads as text and gives NaN), and longer arrays and
      objects give NaN. */
  function ToNumber(j: Json): Num
    decreases j
  {
    match j
    case JNull => Fin(0.0)
    case JBool(b) => Fin(if b then 1.0 else 0.0)
    case JNum(n) => Fin(n)
    case JStr(s) => StrToNumber(s)
    case JObj(_) => NaN
    case JArr(xs) =>
      if |xs| == 0 then Fin(0.0)
      else if |xs| == 1 then (if xs[0].JBool? then NaN else ToNumber(xs[0]))
      else NaN
  }

  /** `a / b` for a finite dividend. A zero divisor is taken as +0. */
  function Divide(a: real, b: Num): (r: Num)
    ensures b.Fin? && b.v != 0.0 ==> r == Fin(a / b.v)
    ensures b.NaN? ==> r.NaN?
  {
    match b
    case NaN => NaN
    case PosInf => Fin(0.0)
    case NegInf => Fin(0.0)
    case Fin(d) =>
      if d != 0.0 then Fin(a / d)
      else if a > 0.0 then PosInf
      else if a < 0.0 then NegInf
      else NaN
  }

  /** Every digit string of ordinary size reads back as its value through
      `parseFloat`, `Number` and `parseInt`. */
  lemma DecimalTextRoundTrip(n: nat)
    requires n < OverflowBound
    ensures ParseFloat(NatToString(n)) == Fin(n as real)
    ensures StrToNumber(NatToString(n)) == Fin(n as real)
    ensures ParseInt(NatToString(n)) == Fin(n as real)
  {
    var s := NatToString(n);
    DigitsNoSpace(s);
    assert SplitSign(s) == (false, s);
    AllDigitsScan(s);
    assert ParseFloat(s) == Fin(n as real) by {
      assert !(|s| >= 8 && s[..8] == "Infinity") by {
        if |s| >= 8 { assert s[..8][0] == s[0]; }
      }
    }
    assert StrToNumber(s) == Fin(n as real) by {
      assert s != "Infinity" by { assert IsDigit(s[0]); }
      assert |s| >= 2 ==> IsDigit(s[1]);
    }
    assert ParseInt(s) == Fin(n as real) by {
      RadixDecimal(s);
      assert s[..|s|] == s;
      assert |s| >= 2 ==> IsDigit(s[1]);
    }
  }

  /** A word that starts with neither white space, a sign, `Infinity` nor
      a decimal literal reads as NaN, and trimming leaves it alone when it
      also ends in a non-space. */
  lemma WordIsNaN(s: string)
    requires |s| > 0 && !IsSpace(s[0]) && !IsSpace(s[|s| - 1])
    requires s[0] != '+' && s[0] != '-' && s[0] != 'I' && !StartsDecimal(s)
    ensures Trim(s) == s && ParseFloat(s) == NaN
  {
    assert TrimStart(s) == s;
    assert TrimEnd(s) == s;
    assert SplitSign(s) == (false, s);
    assert !(|s| >= 8 && s[..8] == "Infinity") by {
      if |s| >= 8 { assert s[..8][0] == s[0]; }
    }
  }

  /** Digit strings have no white space to trim. */
  lemma DigitsNoSpace(s: string)
    requires |s| > 0 && AllDigits(s)
    ensures TrimStart(s) == s && Trim(s) == s
  {
    assert !IsSpace(s[0]) && !IsSpace(s[|s| - 1]);
  }

  /** A digit string is one unsigned decimal literal, read in full. */
  lemma AllDigitsScan(s: string)
    requires |s| > 0 && AllDigits(s)
    ensures DigitRun(s) == |s|
    ensures UnsignedDecimal(s) == Some(Scan(DigitsValue(s) as real, |s|))
  {
    DigitRunAll(s);
    assert s[..|s|] == s;
    var m := Mantissa(s, "");
    assert m == DigitsValue(s) as real;
    assert Exponent(s[|s|..]).None? by { assert s[|s|..] == ""; }
    assert WithExponent(m, |s|, s) == Scan(m, |s|);
  }

  lemma {:induction false} DigitRunAll(s: string)
    requires AllDigits(s)
    ensures DigitRun(s) == |s|
  {
    if |s| > 0 {
      DigitRunAll(s[1..]);
    }
  }

  /** Base-10 digits mean the same to `RadixRun`/`RadixValue` as to `DigitsValue`. */
  lemma {:induction false} RadixDecimal(s: string)
    requires AllDigits(s)
    ensures RadixRun(s, 10) == |s|
    ensures forall i :: 0 <= i < |s| ==> DigitIn(s[i], 10).Some?
    ensures RadixValue(s, 10) == DigitsValue(s)
  {
    if |s| > 0 {
      RadixDecimal(s[1..]);
      RadixDecimal(s[..|s| - 1]);
    }
  }
}
