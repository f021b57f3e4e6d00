/**
 * 32-bit request words and the C integer conversions used to fill them.
 *
 * The regulator driver keeps each rail's configuration in 32-bit unsigned
 * words and updates them with mask/value pairs; integer quantities (micro-
 * volts, micro-amps) are divided with C's truncating division and then
 * converted to `unsigned`, which wraps modulo 2^32.
 */
module Words {

  type Word = bv32

  /** The values of a C `unsigned int`. */
  type U32 = x: int | 0 <= x < 0x1_0000_0000

  const Two32: int := 0x1_0000_0000

  /** A value or nothing, as a C pointer that may be NULL. */
  datatype Option<T> = None | Some(value: T)

  /** The two words agree on every bit outside the mask. */
  predicate SameOutside(a: Word, b: Word, mask: Word)
  {
    a & !mask == b & !mask
  }

  /**
   * `(w & ~mask) | (val & mask)`: the bits selected by `mask` are taken from
   * `val`, all others are kept from `w`.
   */
  function Merge(w: Word, mask: Word, val: Word): (r: Word)
    ensures r & mask == val & mask
    ensures r & !mask == w & !mask
  {
    (w & !mask) | (val & mask)
  }

  /** The two conditions of Merge's contract determine the merged word. */
  lemma MergeUnique(w: Word, mask: Word, val: Word, r: Word)
    requires r & mask == val & mask
    requires r & !mask == w & !mask
    ensures r == Merge(w, mask, val)
  {
  }

  /** Conversion of a C `int` to `unsigned int` (reduction modulo 2^32). */
  function Unsigned(x: int): (u: U32)
    ensures 0 <= x < Two32 ==> u == x
    ensures (u - x) % Two32 == 0
  {
    x % Two32
  }

  /** The bit pattern of `x` as an `unsigned int`. */
  function ToWord(x: int): Word
  {
    Unsigned(x) as bv32
  }

  /** Values that fit below 2^12 keep their bit pattern below 2^12. */
  lemma ToWordBelow4096(v: int)
    requires 0 <= v < 4096
    ensures ToWord(v) < 4096
  {
  }

  /** Below 2^12 the bit pattern is zero exactly for zero. */
  lemma ToWordZero(v: int)
    requires 0 <= v < 4096
    ensures ToWord(v) == 0 <==> v == 0
  {
  }

  /** `MICRO_TO_MILLI(uV)`: C's `/ 1000` on an `int`, truncated toward zero. */
  function MicroToMilli(uV: int): (mV: int)
    ensures uV >= 0 ==> 0 <= mV * 1000 <= uV < mV * 1000 + 1000
    ensures uV < 0 ==> mV * 1000 - 1000 < uV <= mV * 1000 <= 0
  {
    if uV >= 0 then uV / 1000 else -((-uV) / 1000)
  }

  /**
   * `PMIC_8901_V1_SCALE(uV)`: `((uV - 62100) * 23) / 25` with C's truncating
   * division (the 32-bit overflow of the product is not modelled).
   */
  function Pm8901V1Scale(uV: int): int
  {
    var n := (uV - 62100) * 23;
    if n >= 0 then n / 25 else -((-n) / 25)
  }

  /** The scaled voltage is the product divided by 25, rounded toward zero. */
  lemma Pm8901V1ScaleTruncates(uV: int)
    ensures uV >= 62100 ==> 0 <= Pm8901V1Scale(uV) * 25 <= (uV - 62100) * 23 < Pm8901V1Scale(uV) * 25 + 25
    ensures uV < 62100 ==> Pm8901V1Scale(uV) * 25 - 25 < (uV - 62100) * 23 <= Pm8901V1Scale(uV) * 25 <= 0
  {
  }
}
