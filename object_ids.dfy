/**
  * MongoDB ObjectIds as the application sees them: 24 hexadecimal characters.
  * The database hands out a fresh id for every inserted document; the model
  * mints them from a counter, `MintId(n)` being `n` written in lower-case
  * hexadecimal and zero-padded to 24 digits, and proves that distinct counters
  * give distinct ids.
  */
module ObjectIds {

  type ObjectId = string

  predicate IsHexChar(c: char) {
    ('0' <= c <= '9') || ('a' <= c <= 'f') || ('A' <= c <= 'F')
  }

  /** The id-format check of `getEventById`: exactly 24 characters from [0-9a-fA-F]. */
  predicate IsObjectIdText(s: string) {
    |s| == 24 && forall i :: 0 <= i < |s| ==> IsHexChar(s[i])
  }

  function HexDigit(d: nat): (c: char)
    requires d < 16
    ensures IsHexChar(c)
  {
    if d < 10 then ('0' as int + d) as char else ('a' as int + d - 10) as char
  }

  lemma HexDigitInjective(a: nat, b: nat)
    requires a < 16 && b < 16 && HexDigit(a) == HexDigit(b)
    ensures a == b
  {
  }

  /** `n` in hexadecimal, padded with leading zeros to at least `width` digits. */
  function Hex(n: nat, width: nat): (r: string)
    ensures forall i :: 0 <= i < |r| ==> IsHexChar(r[i])
    decreases n + width
  {
    if n == 0 && width == 0 then []
    else Hex(n / 16, if width == 0 then 0 else width - 1) + [HexDigit(n % 16)]
  }

  function MintId(n: nat): ObjectId {
    Hex(n, 24)
  }

  function Pow16(k: nat): (r: nat)
    ensures r >= 1
  {
    if k == 0 then 1 else 16 * Pow16(k - 1)
  }

  /** Equal padded renderings come from equal numbers. */
  lemma {:induction false} HexInjective(a: nat, b: nat, width: nat)
    requires Hex(a, width) == Hex(b, width)
    ensures a == b
    decreases a + width
  {
    if (a == 0 && width == 0) || (b == 0 && width == 0) {
      // One side is the empty rendering, which only 0 has at width 0.
      assert Hex(a, width) == [] || Hex(b, width) == [];
    } else {
      var w' := if width == 0 then 0 else width - 1;
      var ha, hb := Hex(a / 16, w'), Hex(b / 16, w');
      assert Hex(a, width) == ha + [HexDigit(a % 16)];
      assert Hex(b, width) == hb + [HexDigit(b % 16)];
      assert |ha| == |hb|;
      assert ha == Hex(a, width)[..|ha|] == Hex(b, width)[..|hb|] == hb;
      assert HexDigit(a % 16) == Hex(a, width)[|ha|] == HexDigit(b % 16);
      HexDigitInjective(a % 16, b % 16);
      HexInjective(a / 16, b / 16, w');
    }
  }

  /** Distinct counters mint distinct ids. */
  lemma MintIdInjective(a: nat, b: nat)
    ensures MintId(a) == MintId(b) ==> a == b
  {
    if MintId(a) == MintId(b) {
      HexInjective(a, b, 24);
    }
  }

  /** A number below 16^width renders in exactly `width` digits. */
  lemma {:induction false} HexLength(n: nat, width: nat)
    requires n < Pow16(width)
    ensures |Hex(n, width)| == width
    decreases width
  {
    if width > 0 {
      assert n / 16 < Pow16(width - 1);
      HexLength(n / 16, width - 1);
    }
  }

  /** Every id minted below 16^24 passes `getEventById`'s format check. */
  lemma MintedIdPassesFormatCheck(n: nat)
    requires n < Pow16(24)
    ensures IsObjectIdText(MintId(n))
  {
    HexLength(n, 24);
  }
}
