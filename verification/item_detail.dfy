/** The pure pieces of the item page (`src/pages/ItemDetail.tsx`): the
    field validators, the guard of `calculateRunsForProbability` and the
    TOTAL RUNTIME text. */
module ItemDetail {
  import opened Js
  import opened Text
  import opened Numbers
  import opened RarityInputs

  /** `calculateRunsForProbability(rarity, probability)`: infinity for a
      rarity of at most 1; otherwise the logarithm formula, which is a
      parameter here. */
  function RunsForProbability(rarity: Num, probability: real, logFormula: (real, real) -> Num): (r: Num)
    ensures Le(rarity, 1.0) ==> r == PosInf
    ensures rarity.Fin? && rarity.v > 1.0 ==> r == logFormula(rarity.v, probability)
    ensures rarity.NaN? || rarity.PosInf? ==> r.NaN?
  {
    if Le(rarity, 1.0) then PosInf
    else if rarity.Fin? then logFormula(rarity.v, probability)
    else NaN
  }

  /** `validateRarity(value)`: the one-over field on its own. */
  function ValidateRarity(value: string): (r: string)
    ensures r == "" <==> OneOverAccepted(value) && Trim(value) != ""
    ensures Trim(value) == "" <==> r == RequiredError
    ensures r != "" && Trim(value) != "" ==> r == OneOverError
  {
    assert Trim("") == "";
    ValidateRarityInputs("", value)
  }

  const RunsRequired := "Total runs count is required"
  const RunsNotANumber := "Total runs must be a number"
  const RunsNotWhole := "Total runs must be a whole number"
  const RunsNegative := "Total runs cannot be negative"
  const RunsTooMany := "Total runs cannot exceed 1,000,000"

  /** `validateRuns(value)`: blank, not a number, not whole, negative, too
      many, in that order. */
  function ValidateRuns(value: string): (r: string)
    ensures r == "" <==> Trim(value) != "" && ParseInt(value).Fin? && 0.0 <= ParseInt(value).v <= 1000000.0
    ensures r == RunsRequired <==> Trim(value) == ""
    ensures r == RunsNotANumber <==> Trim(value) != "" && ParseInt(value).NaN?
    ensures r == RunsNegative ==> Trim(value) != "" && Lt(ParseInt(value), 0.0)
    ensures r == RunsTooMany ==> Trim(value) != "" && Gt(ParseInt(value), 1000000.0)
  {
    if Trim(value) == "" then RunsRequired
    else
      var n := ParseInt(value);
      if n.NaN? then RunsNotANumber
      else if !IsInteger(n) then RunsNotWhole
      else if Lt(n, 0.0) then RunsNegative
      else if Gt(n, 1000000.0) then RunsTooMany
      else ""
  }

  /** The "whole number" message is reached exactly when `parseInt` reads
      so many digits that the number overflows to an infinity: `parseInt`
      never yields a finite fraction. */
  lemma WholeNumberOnlyOnOverflow(value: string)
    ensures ValidateRuns(value) == RunsNotWhole <==>
      Trim(value) != "" && (ParseInt(value).PosInf? || ParseInt(value).NegInf?)
  {
  }

  const MinutesRequired := "Minutes per run is required"
  const MinutesNotANumber := "Minutes per run must be a number"
  const MinutesNegative := "Minutes per run cannot be negative"
  const MinutesTooMany := "Minutes per run cannot exceed 10,000"

  /** `validateMinutesPerRun(value)`: blank, not a number, negative, too
      many, in that order. */
  function ValidateMinutesPerRun(value: string): (r: string)
    ensures r == "" <==> Trim(value) != "" && ParseFloat(value).Fin? && 0.0 <= ParseFloat(value).v <= 10000.0
    ensures r == MinutesRequired <==> Trim(value) == ""
    ensures r == MinutesNotANumber <==> Trim(value) != "" && ParseFloat(value).NaN?
    ensures r == MinutesNegative <==> Trim(value) != "" && Lt(ParseFloat(value), 0.0)
    ensures r == MinutesTooMany <==> Trim(value) != "" && Gt(ParseFloat(value), 10000.0)
  {
    if Trim(value) == "" then MinutesRequired
    else
      var n := ParseFloat(value);
      if n.NaN? then MinutesNotANumber
      else if Lt(n, 0.0) then MinutesNegative
      else if Gt(n, 10000.0) then MinutesTooMany
      else ""
  }

  /* ---------------- TOTAL RUNTIME ---------------- */

  /** What the runtime box shows: nothing yet, or hours and minutes. */
  datatype Runtime = NoTime | HoursMinutes(hours: int, minutes: int)

  /** "0 min", "M min", "Nh" or "Nh Mm". */
  function RuntimeText(t: Runtime): (s: string)
    ensures |s| > 0
  {
    match t
    case NoTime => "0 min"
    case HoursMinutes(h, m) =>
      if h == 0 then IntToString(m) + " min"
      else if m == 0 then IntToString(h) + "h"
      else IntToString(h) + "h " + IntToString(m) + "m"
  }

  /** A non-empty run of decimal digits. */
  predicate IsNumeral(d: string) {
    |d| > 0 && AllDigits(d)
  }

  /** Reads a runtime text back as hours and minutes: "M min" is `(0, M)`,
      "Nh" is `(N, 0)` and "Nh Mm" is `(N, M)`; anything else is `None`. */
  function ReadRuntime(s: string): Option<(int, int)> {
    if |s| >= 4 && s[|s| - 4..] == " min" && IsNumeral(s[..|s| - 4]) then
      Some((0, DigitsValue(s[..|s| - 4])))
    else if |s| > 0 && s[|s| - 1] == 'h' && IsNumeral(s[..|s| - 1]) then
      Some((DigitsValue(s[..|s| - 1]), 0))
    else if |s| > 0 && s[|s| - 1] == 'm' then
      var k := DigitRun(s);
      if 0 < k && k + 2 < |s| && s[k] == 'h' && s[k + 1] == ' ' && IsNumeral(s[k + 2..|s| - 1]) then
        Some((DigitsValue(s[..k]), DigitsValue(s[k + 2..|s| - 1])))
      else None
    else None
  }

  /** The digits of `n` followed by a text that does not start with a digit:
      the leading digit run is exactly the number. */
  lemma DigitRunOfNumeral(n: nat, rest: string)
    requires |rest| > 0 && !IsDigit(rest[0])
    ensures DigitRun(NatToString(n) + rest) == |NatToString(n)|
  {
    var a := NatToString(n);
    assert (a + rest)[|a|] == rest[0];
  }

  /** The box text reads back as the hours and minutes it was made from,
      for non-negative values; "0 min" reads as no time at all. */
  lemma ReadRuntimeText(t: Runtime)
    requires t.HoursMinutes? ==> t.hours >= 0 && t.minutes >= 0
    ensures ReadRuntime(RuntimeText(t)) == Some(if t.NoTime? then (0, 0) else (t.hours, t.minutes))
  {
    match t
    case NoTime =>
      var s := RuntimeText(t);
      assert s[..|s| - 4] == "0";
      assert DigitsValue("0") == DigitsValue("") * 10 + DigitValue('0');
    case HoursMinutes(h, m) =>
      var s := RuntimeText(t);
      if h == 0 {
        assert s[|s| - 4..] == " min" && s[..|s| - 4] == NatToString(m);
      } else if m == 0 {
        assert s[..|s| - 1] == NatToString(h);
      } else {
        var a := NatToString(h);
        var b := NatToString(m);
        assert s == a + ("h " + b + "m");
        DigitRunOfNumeral(h, "h " + b + "m");
        assert s[..|a|] == a && s[|a| + 2..|s| - 1] == b;
      }
  }

  /** The JS remainder `a % b` on finite numbers: the sign follows `a`. */
  function JsRem(a: real, b: real): (r: real)
    requires b != 0.0
    ensures a >= 0.0 && b > 0.0 ==> 0.0 <= r < b && r == a - (a / b).Floor as real * b
  {
    var q := a / b;
    var t := if q >= 0.0 then q.Floor else -((-q).Floor);
    assert a >= 0.0 && b > 0.0 ==> t == q.Floor && 0.0 <= a - t as real * b < b by {
      if a >= 0.0 && b > 0.0 {
        QuotientNonNegative(a, b);
        RemainderBounds(a, b);
      }
    }
    a - t as real * b
  }

  /** For a non-negative `a` and a positive `b`, `a` less the whole
      multiples of `b` in it lies in `[0, b)`. */
  lemma RemainderBounds(a: real, b: real)
    requires a >= 0.0 && b > 0.0
    ensures 0.0 <= a - (a / b).Floor as real * b < b
  {
    var q := a / b;
    var t := q.Floor as real;
    assert q * b == a;
    ScaleAtMost(t, q, b);
    ScaleBelow(q, t + 1.0, b);
    assert (t + 1.0) * b == t * b + b;
  }

  /** A non-negative number divided by a positive one is non-negative. */
  lemma QuotientNonNegative(a: real, b: real)
    requires a >= 0.0 && b > 0.0
    ensures a / b >= 0.0
  {
    var q := a / b;
    assert q * b == a;
    if q < 0.0 {
      ScaleBelow(q, 0.0, b);
      assert false;
    }
  }

  /** Scaling by a positive number keeps `<=`. */
  lemma ScaleAtMost(x: real, y: real, b: real)
    requires x <= y && b > 0.0
    ensures x * b <= y * b
  {
  }

  /** Scaling by a positive number keeps `<`. */
  lemma ScaleBelow(x: real, y: real, b: real)
    requires x < y && b > 0.0
    ensures x * b < y * b
  {
  }

  /** The hours and minutes the page computes, as written: whole hours,
      then the leftover minutes rounded separately. */
  function RuntimeAsWritten(runs: real, minutesPerRun: real): (t: Runtime)
    ensures runs * minutesPerRun == 0.0 <==> t.NoTime?
    ensures runs * minutesPerRun > 0.0 ==>
      t.HoursMinutes? && t.hours >= 0 && 0 <= t.minutes <= 60
      && t.hours as real * 60.0 <= runs * minutesPerRun < (t.hours + 1) as real * 60.0
  {
    var total := runs * minutesPerRun;
    if total == 0.0 then NoTime
    else HoursMinutes((total / 60.0).Floor, Round(JsRem(total, 60.0)))
  }

  /** The box text as written. */
  function TotalRuntimeAsWritten(runs: real, minutesPerRun: real): (s: string)
    ensures |s| > 0
    ensures runs * minutesPerRun == 0.0 ==> s == "0 min"
    ensures runs * minutesPerRun > 0.0 ==> (ReadRuntime(s).Some?
      && var (h, m) := ReadRuntime(s).value;
      h as real * 60.0 <= runs * minutesPerRun < (h + 1) as real * 60.0 && 0 <= m <= 60)
  {
    var t := RuntimeAsWritten(runs, minutesPerRun);
    assert runs * minutesPerRun > 0.0 ==> ReadRuntime(RuntimeText(t)) == Some((t.hours, t.minutes)) by {
      if runs * minutesPerRun > 0.0 { ReadRuntimeText(t); }
    }
    RuntimeText(t)
  }

  /** As written, a leftover of 59.5 minutes or more is shown as a full 60
      minutes next to the hours. */
  lemma AsWrittenShowsSixtyMinutes(runs: real, minutesPerRun: real)
    requires runs * minutesPerRun > 0.0
    ensures RuntimeAsWritten(runs, minutesPerRun).minutes == 60 <==>
      JsRem(runs * minutesPerRun, 60.0) >= 59.5
  {
  }

  /** One run of 119.5 minutes reads "1h 60m". */
  lemma AsWrittenExample()
    ensures RuntimeAsWritten(1.0, 119.5) == HoursMinutes(1, 60)
    ensures TotalRuntimeAsWritten(1.0, 119.5) == "1h 60m"
  {
    assert JsRem(119.5, 60.0) == 59.5;
    assert IntToString(1) == "1";
    assert IntToString(60) == "60" by {
      assert NatToString(6) == "6";
    }
  }

  /** The evident intent: round the total to whole minutes first, then
      split it into hours and minutes below 60. */
  function RuntimeCorrected(runs: real, minutesPerRun: real): (t: Runtime)
    ensures Round(runs * minutesPerRun) == 0 <==> t.NoTime?
    ensures t.HoursMinutes? ==> 0 <= t.minutes < 60 && t.hours * 60 + t.minutes == Round(runs * minutesPerRun)
  {
    var total := Round(runs * minutesPerRun);
    if total == 0 then NoTime else HoursMinutes(total / 60, total % 60)
  }

  /** The box text with the intended rounding. */
  function TotalRuntimeCorrected(runs: real, minutesPerRun: real): (s: string)
    ensures |s| > 0
    ensures Round(runs * minutesPerRun) == 0 ==> s == "0 min"
    ensures 0 < Round(runs * minutesPerRun) < 60 ==> s == NatToString(Round(runs * minutesPerRun)) + " min"
    ensures (Round(runs * minutesPerRun) >= 60 && Round(runs * minutesPerRun) % 60 == 0) ==>
      s == NatToString(Round(runs * minutesPerRun) / 60) + "h"
    ensures Round(runs * minutesPerRun) >= 0 ==>
      ReadRuntime(s) == Some((Round(runs * minutesPerRun) / 60, Round(runs * minutesPerRun) % 60))
  {
    var t := RuntimeCorrected(runs, minutesPerRun);
    assert Round(runs * minutesPerRun) >= 0 ==>
      ReadRuntime(RuntimeText(t)) == Some(if t.NoTime? then (0, 0) else (t.hours, t.minutes)) by {
      if Round(runs * minutesPerRun) >= 0 { ReadRuntimeText(t); }
    }
    RuntimeText(t)
  }

  /** With the intended rounding the text never shows 60 or more minutes,
      and the hours and minutes it shows add up to the rounded total. */
  lemma CorrectedMinutesBelowSixty(runs: real, minutesPerRun: real)
    requires runs * minutesPerRun >= 0.0
    ensures var (h, m) := ReadRuntime(TotalRuntimeCorrected(runs, minutesPerRun)).value;
      0 <= m < 60 && h * 60 + m == Round(runs * minutesPerRun)
  {
  }

  /** The corrected text differs from the written one only on the rounding
      edge: for a positive total whose leftover is below 59.5 minutes both
      show the same hours and minutes. */
  lemma CorrectedAgreesOffTheEdge(runs: real, minutesPerRun: real)
    requires runs * minutesPerRun >= 0.5
    requires JsRem(runs * minutesPerRun, 60.0) < 59.5
    ensures RuntimeCorrected(runs, minutesPerRun) == RuntimeAsWritten(runs, minutesPerRun)
  {
    var total := runs * minutesPerRun;
    var h := (total / 60.0).Floor;
    var rest := JsRem(total, 60.0);
    assert rest == total - h as real * 60.0;
    assert Round(total) == h * 60 + Round(rest);
  }

  /** With the intended rounding, 119.5 minutes read "2h". */
  lemma CorrectedExample()
    ensures RuntimeCorrected(1.0, 119.5) == HoursMinutes(2, 0)
    ensures TotalRuntimeCorrected(1.0, 119.5) == "2h"
  {
    assert Round(119.5) == 120;
    assert IntToString(2) == "2";
  }
}
