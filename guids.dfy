/** `System.Guid` and its default `ToString()` ("D" format:
    xxxxxxxx-xxxx-xxxx-xxxx-xxxxxxxxxxxx, lower-case hexadecimal). A Guid is
    modelled by its 128-bit value read in the order the digits are printed. */
module Guids {

  const GuidBound: nat := 0x1_0000_0000_0000_0000_0000_0000_0000_0000

  type GuidValue = n: nat | n < GuidBound

  datatype Guid = Guid(value: GuidValue)

  function Pow16(k: nat): (p: nat)
    ensures p > 0
  {
    if k == 0 then 1 else 16 * Pow16(k - 1)
  }

  function HexDigit(d: nat): (c: char)
    requires d < 16
  {
    if d < 10 then ('0' as int + d) as char else ('a' as int + d - 10) as char
  }

  /** The lowest `width` hexadecimal digits of `n`, most significant first. */
  function Hex(n: nat, width: nat): (r: string)
    ensures |r| == width
    ensures forall i :: 0 <= i < width ==> r[i] != '-'
  {
    if width == 0 then [] else Hex(n / 16, width - 1) + [HexDigit(n % 16)]
  }

  /** `Guid.ToString()`. */
  function ToString(g: Guid): (r: string)
    ensures |r| == 36
    ensures r[8] == '-' && r[13] == '-' && r[18] == '-' && r[23] == '-'
  {
    var h := Hex(g.value, 32);
    h[..8] + "-" + h[8..12] + "-" + h[12..16] + "-" + h[16..20] + "-" + h[20..]
  }

  lemma HexDigitInjective(a: nat, b: nat)
    requires a < 16 && b < 16 && HexDigit(a) == HexDigit(b)
    ensures a == b
  {
  }

  /** Printing a value that fits in `width` digits loses nothing. */
  lemma {:induction false} HexInjective(a: nat, b: nat, width: nat)
    requires a < Pow16(width) && b < Pow16(width)
    requires Hex(a, width) == Hex(b, width)
    ensures a == b
  {
    if width > 0 {
      var ha, hb := Hex(a, width), Hex(b, width);
      assert ha[width - 1] == hb[width - 1];
      HexDigitInjective(a % 16, b % 16);
      assert ha[..width - 1] == Hex(a / 16, width - 1);
      assert hb[..width - 1] == Hex(b / 16, width - 1);
      HexInjective(a / 16, b / 16, width - 1);
    }
  }

  lemma {:induction false} Pow16Sum(a: nat, b: nat)
    ensures Pow16(a + b) == Pow16(a) * Pow16(b)
  {
    if a > 0 {
      Pow16Sum(a - 1, b);
    }
  }

  lemma GuidBoundIsPow16()
    ensures Pow16(32) == GuidBound
  {
    assert Pow16(2) == 0x100;
    Pow16Sum(2, 2);
    assert Pow16(4) == 0x1_0000;
    Pow16Sum(4, 4);
    assert Pow16(8) == 0x1_0000_0000;
    Pow16Sum(8, 8);
    assert Pow16(16) == 0x1_0000_0000_0000_0000;
    Pow16Sum(16, 16);
  }

  /** The text of a Guid without its four dashes is its 32 digits. */
  lemma DigitsOfText(g: Guid)
    ensures var s := ToString(g);
            Hex(g.value, 32) == s[..8] + s[9..13] + s[14..18] + s[19..23] + s[24..]
  {
    var h := Hex(g.value, 32);
    var s := ToString(g);
    assert s[..8] == h[..8];
    assert s[9..13] == h[8..12];
    assert s[14..18] == h[12..16];
    assert s[19..23] == h[16..20];
    assert s[24..] == h[20..];
    assert h == h[..8] + h[8..12] + h[12..16] + h[16..20] + h[20..];
  }

  /** Two Guids print alike only when they are the same Guid, so comparing
      room ids by their text compares the Guids. */
  lemma ToStringInjective(a: Guid, b: Guid)
    ensures ToString(a) == ToString(b) <==> a == b
  {
    if ToString(a) == ToString(b) {
      DigitsOfText(a);
      DigitsOfText(b);
      GuidBoundIsPow16();
      HexInjective(a.value, b.value, 32);
    }
  }
}
