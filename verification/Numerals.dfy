/** Decimal and hexadecimal texts, as sequences of UTF-16 code units. */
module Numerals {

  /** Texts are sequences of UTF-16 units. */
  type Words = seq<nat>

  /** The UTF-16 units of an ASCII text. */
  function Units(text: string): seq<nat> {
    seq(|text|, i requires 0 <= i < |text| => text[i] as int)
  }

  /*** Decimal ***/

  function Digits(n: nat): seq<nat> {
    if n < 10 then [48 + n] else Digits(n / 10) + [48 + n % 10]
  }

  predicate IsDigit(unit: nat) {
    48 <= unit <= 57
  }

  predicate AllDigits(text: seq<nat>) {
    forall i | 0 <= i < |text| :: IsDigit(text[i])
  }

  function Number(text: seq<nat>): nat
    requires AllDigits(text)
  {
    if text == [] then 0 else 10 * Number(text[..|text| - 1]) + (text[|text| - 1] - 48)
  }

  /** `0`, or digits without a leading zero. */
  predicate IsDecimal(text: seq<nat>) {
    && text != [] && AllDigits(text)
    && (|text| > 1 ==> text[0] != 48)
  }

  lemma {:induction false} NumberOfDigits(n: nat)
    ensures IsDecimal(Digits(n)) && Number(Digits(n)) == n
    ensures n > 0 ==> Digits(n)[0] != 48
  {
    if n >= 10 {
      NumberOfDigits(n / 10);
      assert Digits(n)[..|Digits(n)| - 1] == Digits(n / 10);
    }
  }

  lemma {:induction false} DigitsOfNumber(text: seq<nat>)
    requires IsDecimal(text)
    ensures Digits(Number(text)) == text
    ensures text[0] != 48 ==> Number(text) > 0
  {
    var init := text[..|text| - 1];
    if init != [] {
      DigitsOfNumber(init);
      assert text == init + [text[|text| - 1]];
      assert Number(text) / 10 == Number(init) && Number(text) % 10 == text[|text| - 1] - 48;
    } else {
      assert Number(init) == 0;
    }
  }

  /*** Hexadecimal ***/

  predicate IsHexDigit(unit: nat) {
    48 <= unit <= 57 || 65 <= unit <= 70 || 97 <= unit <= 102
  }

  function HexDigitValue(unit: nat): (v: nat)
    requires IsHexDigit(unit)
    ensures v < 16
  {
    if unit <= 57 then unit - 48 else if unit <= 70 then unit - 55 else unit - 87
  }

  /** `toLowerCase` on ASCII. */
  function LowerUnit(unit: nat): nat {
    if 65 <= unit <= 90 then unit + 32 else unit
  }

  function Lower(text: seq<nat>): seq<nat> {
    seq(|text|, i requires 0 <= i < |text| => LowerUnit(text[i]))
  }

  predicate IsHex(text: seq<nat>, length: nat) {
    |text| == length && forall i | 0 <= i < |text| :: IsHexDigit(text[i])
  }

  function HexValue(text: seq<nat>): nat
    requires IsHex(text, |text|)
  {
    if text == [] then 0 else 16 * HexValue(text[..|text| - 1]) + HexDigitValue(text[|text| - 1])
  }

  /** Two hex texts of one length denote the same number exactly when they differ only in case. */
  lemma {:induction false} HexIsCaseBlind(a: seq<nat>, b: seq<nat>, length: nat)
    requires IsHex(a, length) && IsHex(b, length)
    ensures HexValue(a) == HexValue(b) <==> Lower(a) == Lower(b)
  {
    if length > 0 {
      var k := length - 1;
      HexIsCaseBlind(a[..k], b[..k], k);
      assert Lower(a) == Lower(a[..k]) + [LowerUnit(a[k])] && Lower(a)[..k] == Lower(a[..k]);
      assert Lower(b) == Lower(b[..k]) + [LowerUnit(b[k])] && Lower(b)[..k] == Lower(b[..k]);
      assert Lower(a)[k] == LowerUnit(a[k]) && Lower(b)[k] == LowerUnit(b[k]);
      assert HexDigitValue(a[k]) == HexDigitValue(b[k]) <==> LowerUnit(a[k]) == LowerUnit(b[k]);
    }
  }
}
