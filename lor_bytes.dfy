/**
 * Bytes and 16-channel bank masks as the LOR optimised output handles them.
 *
 * A wire byte is a `bv8`. The per-bank channel mask that the encoder builds with
 * `bits |= 1 << chan_offset` is held as the set of channel offsets (0..15) whose
 * bit is set; `Lsb` and `Msb` give the two bytes `bits & 0xFF` and `bits >> 8`
 * that a command carries.
 */
module LorBytes {

  datatype Option<T> = None | Some(value: T)

  /** The C++ narrowing `uint8_t x = n` applied to a non-negative int. */
  function Byte(n: nat): (b: bv8)
    ensures n < 256 ==> b as int == n
  {
    (n % 256) as bv8
  }

  /** `1 << j` within one byte, spelled out bit by bit. */
  function BitOf(j: nat): bv8
    requires j < 8
  {
    match j
    case 0 => 0x01 case 1 => 0x02 case 2 => 0x04 case 3 => 0x08
    case 4 => 0x10 case 5 => 0x20 case 6 => 0x40 case _ => 0x80
  }

  /** Bit `j` of a wire byte is set. */
  predicate ByteHasBit(b: bv8, j: nat)
    requires j < 8
  {
    b & BitOf(j) != 0
  }

  /** The byte whose bit `j` (for `j < n`) is set exactly when channel `base + j` is in `bits`. */
  function MaskByte(bits: set<nat>, base: nat, n: nat): bv8
    requires n <= 8
  {
    if n == 0 then 0
    else MaskByte(bits, base, n - 1) | (if base + n - 1 in bits then BitOf(n - 1) else 0)
  }

  /** `bits & 0xFF`: the low byte of a bank mask (channels 0..7). */
  function Lsb(bits: set<nat>): bv8 { MaskByte(bits, 0, 8) }

  /** `bits >> 8`: the high byte of a bank mask (channels 8..15). */
  function Msb(bits: set<nat>): bv8 { MaskByte(bits, 8, 8) }

  /** Channel `k` of a bank is selected by the mask written as the two bytes `lsb`, `msb`. */
  predicate MaskHas(lsb: bv8, msb: bv8, k: nat)
    requires k < 16
  {
    if k < 8 then ByteHasBit(lsb, k) else ByteHasBit(msb, k - 8)
  }

  /** ORing in bit `n` (or nothing) sets bit `n` and keeps every other bit. */
  lemma OrBitOf(x: bv8, c: bool, n: nat, j: nat)
    requires n < 8 && j < 8
    ensures ByteHasBit(x | (if c then BitOf(n) else 0), j) <==> ByteHasBit(x, j) || (c && j == n)
  {
  }

  lemma {:induction false} MaskByteBits(bits: set<nat>, base: nat, n: nat, j: nat)
    requires n <= 8 && j < 8
    ensures ByteHasBit(MaskByte(bits, base, n), j) <==> j < n && base + j in bits
  {
    if n > 0 {
      MaskByteBits(bits, base, n - 1, j);
      OrBitOf(MaskByte(bits, base, n - 1), base + n - 1 in bits, n - 1, j);
    }
  }

  /** Splitting a mask into `lsb` and `msb` keeps every channel where it was. */
  lemma SplitMask(bits: set<nat>, k: nat)
    requires k < 16
    ensures MaskHas(Lsb(bits), Msb(bits), k) <==> k in bits
  {
    if k < 8 {
      MaskByteBits(bits, 0, 8, k);
    } else {
      MaskByteBits(bits, 8, 8, k - 8);
    }
  }

  /** A mask that selects some channel of the bank has a nonzero low or high byte. */
  lemma NonzeroMask(bits: set<nat>, k: nat)
    requires k < 16 && k in bits
    ensures Lsb(bits) != 0 || Msb(bits) != 0
  {
    SplitMask(bits, k);
  }

  /** Regrouping a concatenation of three sequences. */
  lemma Regroup<T>(a: seq<T>, b: seq<T>, c: seq<T>)
    ensures a + (b + c) == a + b + c
  {
  }

  /** Regrouping a concatenation of four sequences. */
  lemma AppendAssoc<T>(a: seq<T>, b: seq<T>, c: seq<T>, e: seq<T>)
    ensures a + (b + c + e) == a + b + c + e
  {
  }
}
