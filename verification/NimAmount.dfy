/** Luna amounts, `frontend/app/wallet/nim-amount.ts`. */
module NimAmount {
  import opened Digests
  import opened Numerals
  import opened Policies

  const LUNA_PER_NIM := 100000

  /** A JavaScript value offered as an amount. */
  datatype Value = BigInt(value: int) | Finite(number: real) | NonFinite | Other

  datatype Reason = NotANumber | NotFinite | NotAnInteger | NotPositive | Unsafe

  predicate IsInteger(x: real) {
    x == x.Floor as real
  }

  /** Why a value cannot be paid. */
  function Rejection(v: Value): Option<Reason> {
    match v
    case BigInt(n) => if n <= 0 then Some(NotPositive) else if n > MAX_SAFE_INTEGER then Some(Unsafe) else None
    case Other => Some(NotANumber)
    case NonFinite => Some(NotFinite)
    case Finite(x) =>
      if !IsInteger(x) then Some(NotAnInteger)
      else if x <= 0.0 then Some(NotPositive)
      else if x > MAX_SAFE_INTEGER as real then Some(Unsafe)
      else None
  }

  datatype Shown = Luna(amount: nat) | Refused(reason: Reason)

  /** What can be displayed; `Other` is not in the parameter's type. */
  function Displayable(v: Value): Shown
    requires !v.Other?
  {
    match v
    case BigInt(n) => if n < 0 then Refused(NotPositive) else Luna(n)
    case NonFinite => Refused(NotFinite)
    case Finite(x) =>
      if !IsInteger(x) then Refused(NotAnInteger)
      else if x < 0.0 then Refused(NotPositive)
      else if x > MAX_SAFE_INTEGER as real then Refused(Unsafe)
      else Luna(x.Floor)
  }

  /** Displaying refuses for the same reasons as paying, but for zero and for big integers beyond the safe range. */
  lemma DisplayAgreesWithPayment(v: Value)
    requires !v.Other?
    ensures Displayable(v).Refused?
        <==> Rejection(v).Some? && v != BigInt(0) && v != Finite(0.0) && !(v.BigInt? && v.value > MAX_SAFE_INTEGER)
    ensures Displayable(v).Refused? ==> Rejection(v) == Some(Displayable(v).reason)
  {}

  /*** The display format ***/

  function ZeroDigits(n: nat): seq<nat> {
    seq(n, _ => 48)
  }

  function PadStart(t: seq<nat>, width: nat): seq<nat> {
    if |t| < width then ZeroDigits(width - |t|) + t else t
  }

  function DropTrailingZeros(t: seq<nat>): seq<nat> {
    if t != [] && t[|t| - 1] == 48 then DropTrailingZeros(t[..|t| - 1]) else t
  }

  function Decimals(luna: nat): seq<nat> {
    DropTrailingZeros(PadStart(Digits(luna % LUNA_PER_NIM), 5))
  }

  function FormatNim(luna: nat): seq<nat> {
    if luna % LUNA_PER_NIM == 0 then Digits(luna / LUNA_PER_NIM) + Units(" NIM")
    else Digits(luna / LUNA_PER_NIM) + [46] + Decimals(luna) + Units(" NIM")
  }

  function Pow10(n: nat): nat {
    if n == 0 then 1 else 10 * Pow10(n - 1)
  }

  lemma {:induction false} DigitsFit(n: nat, width: nat)
    requires n < Pow10(width) && width > 0
    ensures |Digits(n)| <= width
  {
    if n >= 10 { DigitsFit(n / 10, width - 1); }
  }

  lemma {:induction false} PaddingKeepsNumber(k: nat, t: seq<nat>)
    requires AllDigits(t)
    ensures AllDigits(ZeroDigits(k) + t) && Number(ZeroDigits(k) + t) == Number(t)
  {
    var s := ZeroDigits(k) + t;
    if t != [] {
      PaddingKeepsNumber(k, t[..|t| - 1]);
      assert s[..|s| - 1] == ZeroDigits(k) + t[..|t| - 1];
    } else if k > 0 {
      PaddingKeepsNumber(k - 1, t);
      assert s[..|s| - 1] == ZeroDigits(k - 1) + t;
    } else {
      assert s == t;
    }
  }

  lemma {:induction false} DroppingScales(t: seq<nat>)
    requires AllDigits(t)
    ensures var d := DropTrailingZeros(t);
            && |d| <= |t| && AllDigits(d) && Number(t) == Number(d) * Pow10(|t| - |d|)
            && (d != [] ==> d[|d| - 1] != 48)
  {
    if t != [] && t[|t| - 1] == 48 {
      var u, d := t[..|t| - 1], DropTrailingZeros(t);
      DroppingScales(u);
      TenTimes(Number(d), Pow10(|u| - |d|));
      assert Number(t) == 10 * Number(u) && Pow10(|t| - |d|) == 10 * Pow10(|u| - |d|);
    }
  }

  lemma TenTimes(a: nat, b: nat)
    ensures a * (10 * b) == 10 * (a * b)
  {}

  lemma FractionDenotes(f: nat)
    requires f < 100000
    ensures var d := DropTrailingZeros(PadStart(Digits(f), 5));
            && |d| <= 5 && AllDigits(d) && Number(d) * Pow10(5 - |d|) == f
            && (d != [] ==> d[|d| - 1] != 48) && (d == [] ==> f == 0)
  {
    var p := PadStart(Digits(f), 5);
    PaddedNumber(f, p);
    DroppingScales(p);
    var d := DropTrailingZeros(p);
    if d == [] { assert Number(d) == 0; }
  }

  lemma PaddedNumber(f: nat, p: seq<nat>)
    requires f < 100000 && p == PadStart(Digits(f), 5)
    ensures |p| == 5 && AllDigits(p) && Number(p) == f
  {
    NumberOfDigits(f);
    FiveDigits(f);
    var d := Digits(f);
    if |d| < 5 { PaddingKeepsNumber(5 - |d|, d); }
  }

  lemma FiveDigits(f: nat)
    requires f < 100000
    ensures |Digits(f)| <= 5
  {
    assert Pow10(5) == 100000;
    DigitsFit(f, 5);
  }

  /** The digits after the point; none for a whole number of NIM. */
  function FractionOf(luna: nat): seq<nat> {
    if luna % LUNA_PER_NIM == 0 then [] else Decimals(luna)
  }

  /** The text denotes exactly the amount, in at most five decimals without a trailing zero. */
  lemma FormatDenotes(luna: nat)
    ensures var whole, d := Digits(luna / LUNA_PER_NIM), FractionOf(luna);
            && FormatNim(luna) == whole + (if d == [] then [] else [46] + d) + Units(" NIM")
            && AllDigits(whole) && AllDigits(d) && |d| <= 5 && (d != [] ==> d[|d| - 1] != 48)
            && luna == Number(whole) * LUNA_PER_NIM + Number(d) * Pow10(5 - |d|)
  {
    NumberOfDigits(luna / LUNA_PER_NIM);
    FractionOfDenotes(luna);
    FormatParts(luna);
    WholeAndFraction(luna);
  }

  lemma WholeAndFraction(luna: nat)
    ensures luna == luna / LUNA_PER_NIM * LUNA_PER_NIM + luna % LUNA_PER_NIM
  {}

  lemma FractionOfDenotes(luna: nat)
    ensures var d := FractionOf(luna);
            && AllDigits(d) && |d| <= 5 && (d != [] ==> d[|d| - 1] != 48)
            && Number(d) * Pow10(5 - |d|) == luna % LUNA_PER_NIM
  {
    FractionDenotes(luna % LUNA_PER_NIM);
    if luna % LUNA_PER_NIM == 0 { assert Number([]) == 0; }
  }

  lemma FormatParts(luna: nat)
    ensures var whole, d := Digits(luna / LUNA_PER_NIM), FractionOf(luna);
            FormatNim(luna) == whole + (if d == [] then [] else [46] + d) + Units(" NIM")
  {
    var whole, d := Digits(luna / LUNA_PER_NIM), FractionOf(luna);
    FractionDenotes(luna % LUNA_PER_NIM);
    if luna % LUNA_PER_NIM == 0 { assert whole + [] == whole; } else { assert whole + [46] + d == whole + ([46] + d); }
  }
}
