/** `validateRarityInputs` (`src/utils/rarityUtils.ts`): the drop rate is
    entered either as a percentage chance or as "1 over N"; at least one
    must be filled in, and every filled-in one must be in range. */
module RarityInputs {
  import opened Text
  import opened Numbers

  const RequiredError := "Drop rate is required"
  const ChanceError := "Chance must be greater than 0 and up to 100"
  const OneOverError := "1 Over must be between 1 and 100,000,000,000"

  /** A parsed number in the half-open range (0, hi]; NaN and the
      infinities are outside every such range. */
  predicate InRange(x: Num, hi: real) {
    x.Fin? && 0.0 < x.v <= hi
  }

  /** The source's rejection test `isNaN(x) || x <= 0 || x > hi` is the
      complement of the range. */
  lemma OutOfRange(x: Num, hi: real)
    requires hi > 0.0
    ensures x.NaN? || Le(x, 0.0) || Gt(x, hi) <==> !InRange(x, hi)
  {
  }

  /** A field passes when it is blank or parses into its range. */
  predicate FieldAccepted(value: string, hi: real) {
    Trim(value) == "" || InRange(ParseFloat(value), hi)
  }

  predicate ChanceAccepted(value: string) { FieldAccepted(value, 100.0) }
  predicate OneOverAccepted(value: string) { FieldAccepted(value, 100000000000.0) }

  /** `validateRarityInputs(chanceValue, oneOverValue)`: "" when the pair is
      acceptable, otherwise the message of the first failing check. */
  function ValidateRarityInputs(chanceValue: string, oneOverValue: string): (r: string)
    ensures r == RequiredError <==> Trim(chanceValue) == "" && Trim(oneOverValue) == ""
    ensures r == ChanceError <==> !ChanceAccepted(chanceValue)
    ensures r == OneOverError <==> ChanceAccepted(chanceValue) && !OneOverAccepted(oneOverValue)
    ensures r == "" <==> ((Trim(chanceValue) != "" || Trim(oneOverValue) != "")
      && ChanceAccepted(chanceValue) && OneOverAccepted(oneOverValue))
  {
    if Trim(chanceValue) == "" && Trim(oneOverValue) == "" then RequiredError
    else
      var chance := ParseFloat(chanceValue);
      var oneOver := ParseFloat(oneOverValue);
      OutOfRange(chance, 100.0);
      OutOfRange(oneOver, 100000000000.0);
      if Trim(chanceValue) != "" && (chance.NaN? || Le(chance, 0.0) || Gt(chance, 100.0)) then ChanceError
      else if Trim(oneOverValue) != "" && (oneOver.NaN? || Le(oneOver, 0.0) || Gt(oneOver, 100000000000.0)) then OneOverError
      else ""
  }

  /** A chance written as a word (letters only, not `Infinity`) is not a
      number and is rejected with the chance message, whatever the other
      field holds. */
  lemma WordIsNotAChance(chance: string, oneOver: string)
    requires |chance| > 0 && chance[0] != 'I'
    requires forall i :: 0 <= i < |chance| ==> IsLetter(chance[i])
    ensures ValidateRarityInputs(chance, oneOver) == ChanceError
  {
    WordIsNaN(chance);
  }

  /** A whole-number chance of 0 or above 100 is out of range. */
  lemma ChanceOutOfRange(n: nat, oneOver: string)
    requires n == 0 || 100 < n < OverflowBound
    ensures ValidateRarityInputs(NatToString(n), oneOver) == ChanceError
  {
    ParsesAsNumber(NatToString(n), n);
  }

  /** A whole-number chance from 1 to 100 on its own passes. */
  lemma ChanceInRange(n: nat)
    requires 0 < n <= 100
    ensures ValidateRarityInputs(NatToString(n), "") == ""
  {
    ParsesAsNumber(NatToString(n), n);
    assert Trim("") == "";
  }

  /** A decimal numeral is not blank and parses to its value. */
  lemma ParsesAsNumber(s: string, n: nat)
    requires s == NatToString(n) && n < OverflowBound
    ensures Trim(s) != "" && ParseFloat(s) == Fin(n as real)
  {
    DecimalTextRoundTrip(n);
    DigitsNoSpace(s);
  }
}
