/** The mobile network code of a cell, which may come packed: the number of its digits in the
    bits from 28 up and its value below. */
module Mnc {
  import opened Wire

  const MNC_INT_MAX := 999
  const PACK := 0x1000_0000

  // ------------------------------------------------------------- decimal text

  function Digit(n: nat): char
    requires n < 10
  {
    '0' + n as char
  }

  function Decimal(n: nat): string {
    if n < 10 then [Digit(n)] else Decimal(n / 10) + [Digit(n % 10)]
  }

  function ToString(n: int): string { if n < 0 then "-" + Decimal(-n) else Decimal(n) }

  function Zeros(n: nat): string { seq(n, _ => '0') }

  /** What printing with a zero-padded field width gives: never less than the whole number. */
  function Padded(n: nat, width: nat): string {
    var s := Decimal(n);
    if |s| < width then Zeros(width - |s|) + s else s
  }

  predicate IsNumeral(s: string) { forall i | 0 <= i < |s| :: '0' <= s[i] <= '9' }

  function Read(s: string): nat
    requires IsNumeral(s)
  {
    if s == "" then 0 else 10 * Read(s[..|s| - 1]) + (s[|s| - 1] - '0') as nat
  }

  function Pow10(n: nat): nat { if n == 0 then 1 else 10 * Pow10(n - 1) }

  // -------------------------------------------------------------- the decoder

  /** Bounded printing fails rather than cut a text. */
  function Print(s: string, limit: nat, was: string): string {
    if s == "" || |s| > limit then was else s
  }

  /** The text that stands for a code; `was` is the one it replaces. */
  function Decoded(mnc: Word, was: string): string {
    if mnc > MNC_INT_MAX then Print(Padded(mnc % PACK, mnc / PACK), mnc / PACK, was) else ToString(mnc)
  }

  class Cell {
    var mcc: string
    var mnc: string
    var cellId: Word

    method Init(mcc: Word, mnc: Word, cellId: Word)
      modifies this
      ensures this.mcc == ToString(mcc) && this.mnc == Decoded(mnc, old(this.mnc)) && this.cellId == cellId
    {
      if mnc > MNC_INT_MAX {
        var digits := mnc / PACK;
        var value := mnc % PACK;
        var text := Padded(value, digits);
        var size := if |text| > digits then -1 else |text|;
        if size > 0 {
          this.mnc := text;
        }
      } else {
        this.mnc := ToString(mnc);
      }
      this.mcc := ToString(mcc);
      this.cellId := cellId;
    }
  }

  // --------------------------------------------------------------- the meaning

  lemma {:induction false} DecimalReads(n: nat)
    ensures Decimal(n) != "" && IsNumeral(Decimal(n)) && Read(Decimal(n)) == n
  {
    if n >= 10 {
      DecimalReads(n / 10);
      var s := Decimal(n);
      assert s[..|s| - 1] == Decimal(n / 10);
    } else {
      assert Decimal(n)[..0] == "";
    }
  }

  lemma {:induction false} DecimalLength(n: nat, d: nat)
    requires d > 0
    ensures |Decimal(n)| <= d <==> n < Pow10(d)
  {
    if n >= 10 {
      if d > 1 {
        DecimalLength(n / 10, d - 1);
      }
    } else {
      PowerAtLeastTen(d);
    }
  }

  lemma {:induction false} PowerAtLeastTen(d: nat)
    requires d > 0
    ensures Pow10(d) >= 10
  {
    if d > 1 {
      PowerAtLeastTen(d - 1);
    }
  }

  lemma {:induction false} ZerosRead(k: nat, s: string)
    requires IsNumeral(s)
    ensures IsNumeral(Zeros(k) + s) && Read(Zeros(k) + s) == Read(s)
    decreases k + |s|
  {
    var t := Zeros(k) + s;
    if s != "" {
      ZerosRead(k, s[..|s| - 1]);
      assert t[..|t| - 1] == Zeros(k) + s[..|s| - 1];
    } else if k > 0 {
      ZerosRead(k - 1, s);
      assert t[..|t| - 1] == Zeros(k - 1) + s;
    } else {
      assert t == s;
    }
  }

  /** Padding keeps the number, and gives the wanted width exactly when the number fits. */
  lemma PaddedReads(n: nat, width: nat)
    ensures IsNumeral(Padded(n, width)) && Read(Padded(n, width)) == n
    ensures |Padded(n, width)| >= width
    ensures Padded(n, width) != "" && (|Padded(n, width)| == width <==> width > 0 && n < Pow10(width))
  {
    DecimalReads(n);
    var s := Decimal(n);
    if |s| < width {
      ZerosRead(width - |s|, s);
    }
    if width > 0 {
      DecimalLength(n, width);
    }
  }

  /** Plain codes are printed with a sign and no padding. */
  lemma ToStringReads(n: int)
    ensures var s := ToString(n);
            if n >= 0 then IsNumeral(s) && Read(s) == n
            else |s| > 1 && s[0] == '-' && IsNumeral(s[1..]) && Read(s[1..]) == -n
  {
    DecimalReads(if n < 0 then -n else n);
    assert n < 0 ==> ToString(n)[1..] == Decimal(-n);
  }

  lemma ThreeDigits()
    ensures Pow10(3) == 1000
  {
    assert Pow10(3) == 10 * Pow10(2) && Pow10(2) == 10 * Pow10(1);
  }

  /** A packed code is accepted if and only if it has digits and its value fits them.  Its text
      is then the numeral of that value with exactly that many digits; otherwise the text stays. */
  lemma PackedMnc(mnc: Word, was: string)
    requires mnc >= Pow10(3)
    ensures var d, v := mnc / PACK, mnc % PACK;
            if d >= 1 && v < Pow10(d)
            then |Decoded(mnc, was)| == d && IsNumeral(Decoded(mnc, was)) && Read(Decoded(mnc, was)) == v
            else Decoded(mnc, was) == was
  {
    ThreeDigits();
    PaddedReads(mnc % PACK, mnc / PACK);
  }

  predicate Packable(d: nat, v: nat) { 1 <= d <= 7 && v < Pow10(d) }

  function Pack(d: nat, v: nat): int { d * PACK + v }

  lemma PackFits(d: nat, v: nat)
    requires Packable(d, v)
    ensures MNC_INT_MAX < Pack(d, v) < 0x8000_0000
    ensures Pack(d, v) / PACK == d && Pack(d, v) % PACK == v
  {
    assert Pow10(7) == 10_000_000 && v < PACK by {
      PowerGrows(d, 7);
      assert Pow10(7) == 10 * Pow10(6) && Pow10(6) == 10 * Pow10(5) && Pow10(5) == 10 * Pow10(4);
      assert Pow10(4) == 10 * Pow10(3) && Pow10(3) == 10 * Pow10(2) && Pow10(2) == 10 * Pow10(1);
    }
  }

  lemma {:induction false} PowerGrows(a: nat, b: nat)
    requires a <= b
    ensures Pow10(a) <= Pow10(b)
  {
    if a < b {
      PowerGrows(a, b - 1);
    }
  }

  /** Decoding undoes packing for every number of digits there is room for. */
  lemma DecodingInvertsPacking(d: nat, v: nat, was: string)
    requires Packable(d, v)
    ensures -0x8000_0000 <= Pack(d, v) < 0x8000_0000
    ensures var s := Decoded(Pack(d, v), was); |s| == d && IsNumeral(s) && Read(s) == v
  {
    PackFits(d, v);
    PackedMnc(Pack(d, v), was);
  }

  /** Codes that differ in value or only in leading zeros have different texts. */
  lemma DistinctCodesStayDistinct(d: nat, v: nat, e: nat, w: nat, was: string, were: string)
    requires Packable(d, v) && Packable(e, w) && (d, v) != (e, w)
    ensures -0x8000_0000 <= Pack(d, v) < 0x8000_0000 && -0x8000_0000 <= Pack(e, w) < 0x8000_0000
    ensures Decoded(Pack(d, v), was) != Decoded(Pack(e, w), were)
  {
    DecodingInvertsPacking(d, v, was);
    DecodingInvertsPacking(e, w, were);
  }

  /** A plain code has the text of the packed code with as many digits as it needs. */
  lemma PlainIsPacked(n: nat, was: string)
    requires n < Pow10(3)
    ensures var d := |Decimal(n)|;
            && Packable(d, n) && -0x8000_0000 <= Pack(d, n) < 0x8000_0000
            && Decoded(n, was) == Decoded(Pack(d, n), was)
  {
    var d := |Decimal(n)|;
    DecimalReads(n);
    DecimalLength(n, d);
    DecimalLength(n, 3);
    ThreeDigits();
    PackFits(d, n);
    PaddedReads(n, d);
  }
}
