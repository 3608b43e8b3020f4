/** Numeral agreement for the word "модель" (model) in the results counter,
    and the brand-card counter that does without it. */
module Plural {
  import opened Text

  const One := "модель"
  const Few := "модели"
  const Many := "моделей"

  /** `getModelWord`: the form of the noun that follows a count. */
  function GetModelWord(count: nat): (w: string)
    ensures w == One || w == Few || w == Many
  {
    var lastDigit := count % 10;
    var lastTwoDigits := count % 100;
    if 11 <= lastTwoDigits <= 14 then Many
    else if lastDigit == 1 then One
    else if 2 <= lastDigit <= 4 then Few
    else Many
  }

  /** The Russian cardinal plural categories of an integer count. */
  datatype Category = CatOne | CatFew | CatMany

  /** Russian plural rule of the Unicode CLDR for integers:
      one when i % 10 = 1 and i % 100 != 11; few when i % 10 is 2..4 and
      i % 100 is not 12..14; many otherwise. */
  function CldrCategory(i: nat): Category {
    if i % 10 == 1 && i % 100 != 11 then CatOne
    else if 2 <= i % 10 <= 4 && !(12 <= i % 100 <= 14) then CatFew
    else CatMany
  }

  function FormOf(c: Category): string {
    match c
    case CatOne => One
    case CatFew => Few
    case CatMany => Many
  }

  /** `getModelWord` picks the form of the CLDR category of the count. */
  lemma GetModelWordIsCldr(count: nat)
    ensures GetModelWord(count) == FormOf(CldrCategory(count))
  {
  }

  lemma {:induction false} LastDigitOfLastTwo(n: nat)
    ensures n % 100 % 10 == n % 10
  {
    var q := n / 100;
    var r := n % 100;
    assert n == 100 * q + r;
    assert n == 10 * (10 * q + r / 10) + r % 10;
  }

  /** The form depends only on the last two digits of the count. */
  lemma {:induction false} GetModelWordLastTwoDigits(count: nat)
    ensures GetModelWord(count) == GetModelWord(count % 100)
    ensures GetModelWord(count + 100) == GetModelWord(count)
  {
    LastTwoDigitsFacts(count);
    var r := count % 100;
    assert GetModelWord(r) == (if 11 <= r <= 14 then Many else if r % 10 == 1 then One
      else if 2 <= r % 10 <= 4 then Few else Many);
  }

  lemma {:induction false} LastTwoDigitsFacts(n: nat)
    ensures n % 100 % 10 == n % 10 && n % 100 % 100 == n % 100
    ensures (n + 100) % 100 == n % 100 && (n + 100) % 10 == n % 10
  {
    LastDigitOfLastTwo(n);
    var q := n / 100;
    var r := n % 100;
    assert n + 100 == 100 * (q + 1) + r;
    assert n + 100 == 10 * (n / 10 + 10) + n % 10;
  }

  /** Counts of each form. */
  lemma GetModelWordExamples()
    ensures GetModelWord(1) == One && GetModelWord(21) == One && GetModelWord(31) == One
    ensures GetModelWord(2) == Few && GetModelWord(3) == Few && GetModelWord(4) == Few
    ensures GetModelWord(22) == Few && GetModelWord(33) == Few
    ensures GetModelWord(0) == Many && GetModelWord(5) == Many && GetModelWord(11) == Many
    ensures GetModelWord(12) == Many && GetModelWord(13) == Many && GetModelWord(14) == Many
    ensures GetModelWord(25) == Many && GetModelWord(100) == Many
  {
  }

  /** The results counter: `${n} ${getModelWord(n)}`, the count followed by
      the form its CLDR plural category calls for. */
  function ResultsCountText(n: nat): (r: string)
    ensures r == NatToString(n) + " " + FormOf(CldrCategory(n))
  {
    GetModelWordIsCldr(n);
    NatToString(n) + " " + GetModelWord(n)
  }

  /** The brand-card counter: `${n} моделей`, the "many" form whatever the
      count. It reads like the results counter exactly for the counts of the
      "many" category. */
  function BrandCountText(n: nat): (r: string)
    ensures r == ResultsCountText(n)[..|NatToString(n)| + 1] + Many
    ensures r == ResultsCountText(n) <==> CldrCategory(n) == CatMany
  {
    var prefix := NatToString(n) + " ";
    GetModelWordIsCldr(n);
    assert ResultsCountText(n) == prefix + GetModelWord(n);
    assert ResultsCountText(n)[..|prefix|] == prefix;
    assert (prefix + Many)[|prefix|..] == Many;
    assert (prefix + GetModelWord(n))[|prefix|..] == GetModelWord(n);
    prefix + Many
  }

  /** The brand card agrees with the results counter exactly for the counts
      whose form is "many"; for one model it reads "1 моделей". */
  lemma {:induction false} BrandCountAgreementIff(n: nat)
    ensures BrandCountText(n) == ResultsCountText(n) <==> GetModelWord(n) == Many
    ensures BrandCountText(1) == "1 моделей" && ResultsCountText(1) == "1 модель"
  {
    GetModelWordIsCldr(n);
    OneModelTexts();
  }

  lemma OneModelTexts()
    ensures BrandCountText(1) == "1 моделей" && ResultsCountText(1) == "1 модель"
  {
    assert NatToString(1) == "1" && GetModelWord(1) == One;
  }
}
