/**
 * The command byte generator of the LOR optimised output and the wire format it
 * writes.
 *
 * `CommandBytes` is what `GenerateCommand` appends to the frame buffer; the method
 * `GenerateCommand` writes those bytes into an array the way the source does.
 * `Cmd`, `Encode` and `Decode` describe the same protocol from the wire's side: a
 * decoder written from the framing rules recovers every well-formed command, and
 * the lemmas tie the generator's bytes to the encoded commands.
 */
module LorCommand {
  import opened LorBytes

  /** Which mask bytes follow a command; decided exactly as the source decides it. */
  datatype Presence = LsbOnly | MsbOnly | Both

  function PresenceOf(lsb: bv8, msb: bv8): Presence
  {
    if msb == 0 then LsbOnly else if lsb == 0 then MsbOnly else Both
  }

  /** The two flag bits of the bank byte: 0x40 when there is no msb, else 0x80 when there is no lsb. */
  function ShiftFlags(lsb: bv8, msb: bv8): (r: bv8)
    ensures r & 0x3F == 0 && r != 0xC0
  {
    match PresenceOf(lsb, msb)
    case LsbOnly => 0x40
    case MsbOnly => 0x80
    case Both => 0x00
  }

  /** The bank-0 opcode: 0x31 when there is no msb, else 0x21 when there is no lsb, else 0x11. */
  function CompactOpcode(lsb: bv8, msb: bv8): (r: bv8)
    ensures r & 0x0F == 0x01 && 0x10 <= r & 0xF0 <= 0x30
  {
    match PresenceOf(lsb, msb)
    case LsbOnly => 0x31
    case MsbOnly => 0x21
    case Both => 0x11
  }

  /** The bank byte of a banked command: the bank number narrowed to a byte, with its flag ORed in. */
  function BankByte(bank: nat, lsb: bv8, msb: bv8): (r: bv8)
    ensures bank < 64 ==> r & 0x3F == Byte(bank) && r & 0xC0 == ShiftFlags(lsb, msb)
  {
    Byte(bank) | ShiftFlags(lsb, msb)
  }

  /** The mask bytes that close a command: lsb if nonzero, then msb if nonzero. */
  function MaskBytes(lsb: bv8, msb: bv8): (r: seq<bv8>)
    ensures |r| == (if lsb != 0 then 1 else 0) + (if msb != 0 then 1 else 0)
  {
    (if lsb != 0 then [lsb] else []) + (if msb != 0 then [msb] else [])
  }

  /** An opcode and, when a value byte is carried, the opcode with 0x02 set followed by the value. */
  function OpcodeBytes(opcode: bv8, value: Option<bv8>): seq<bv8>
  {
    match value
    case None => [opcode]
    case Some(x) => [opcode | 0x02, x]
  }

  /**
   * The opcode part of a command: for banks above 0 the banked opcode 0x51 and the
   * bank byte, for bank 0 the compact opcode; either with its optional value byte.
   */
  function OpcodePart(bank: nat, value: Option<bv8>, lsb: bv8, msb: bv8): (r: seq<bv8>)
    ensures |r| == 1 + (if value.Some? then 1 else 0) + (if bank > 0 then 1 else 0)
  {
    if bank > 0 then OpcodeBytes(0x51, value) + [BankByte(bank, lsb, msb)]
    else OpcodeBytes(CompactOpcode(lsb, msb), value)
  }

  /**
   * The bytes `GenerateCommand(d, idx, unit_id, bank, value_byte, dbyte, lsb, msb)`
   * appends: a leading zero, the unit id (already cut to its low byte, as storing
   * it in `d` does), the opcode with its optional value byte, the bank byte for
   * banks above 0, then the nonzero mask bytes.
   */
  function CommandBytes(unitId: bv8, bank: nat, valueByte: bool, dbyte: bv8, lsb: bv8, msb: bv8): (r: seq<bv8>)
    ensures |r| == 3 + (if valueByte then 1 else 0) + (if bank > 0 then 1 else 0)
                     + (if lsb != 0 then 1 else 0) + (if msb != 0 then 1 else 0)
    ensures r[0] == 0 && r[1] == unitId
  {
    [0, unitId] + OpcodePart(bank, if valueByte then Some(dbyte) else None, lsb, msb) + MaskBytes(lsb, msb)
  }

  /** The whole-bank-off shortcut the encoder writes inline: `0 uid 0x41` or `0 uid 0x51 0xC0|bank`. */
  function BankOffBytes(unitId: bv8, bank: nat): (r: seq<bv8>)
    ensures |r| == if bank > 0 then 4 else 3
  {
    if bank > 0 then [0, unitId, 0x51, 0xC0 | Byte(bank)] else [0, unitId, 0x41]
  }

  /**
   * The zero-value command the encoder writes inline for a zero group of a bank in
   * colour mode: always opcode 0x53, the intensity for 0, and a bank byte, even in bank 0.
   */
  function ZeroColourBytes(unitId: bv8, bank: nat, zero: bv8, lsb: bv8, msb: bv8): (r: seq<bv8>)
    ensures |r| == 5 + (if lsb != 0 then 1 else 0) + (if msb != 0 then 1 else 0)
  {
    [0, unitId, 0x53, zero, BankByte(bank, lsb, msb)] + MaskBytes(lsb, msb)
  }

  /** `d[idx++] = b`: writes one byte at `idx` and returns the next index. */
  method Put(d: array<bv8>, idx: nat, b: bv8) returns (next: nat)
    requires idx < d.Length
    modifies d
    ensures next == idx + 1
    ensures d[..next] == old(d[..idx]) + [b]
  {
    d[idx] := b;
    next := idx + 1;
  }

  /** The opcode, with 0x02 ORed in and the value byte after it when one is carried. */
  method PutOpcode(d: array<bv8>, idx: nat, op: bv8, valueByte: bool, dbyte: bv8) returns (next: nat)
    requires idx + (if valueByte then 2 else 1) <= d.Length
    modifies d
    ensures next == idx + (if valueByte then 2 else 1)
    ensures d[..next] == old(d[..idx]) + OpcodeBytes(op, if valueByte then Some(dbyte) else None)
  {
    if valueByte {
      next := Put(d, idx, op | 0x02);
      next := Put(d, next, dbyte);
    } else {
      next := Put(d, idx, op);
    }
  }

  /** The mask bytes: lsb if nonzero, then msb if nonzero. */
  method PutMask(d: array<bv8>, idx: nat, lsb: bv8, msb: bv8) returns (next: nat)
    requires idx + |MaskBytes(lsb, msb)| <= d.Length
    modifies d
    ensures next == idx + |MaskBytes(lsb, msb)|
    ensures d[..next] == old(d[..idx]) + MaskBytes(lsb, msb)
  {
    next := idx;
    if lsb != 0 {
      next := Put(d, next, lsb);
    }
    if msb != 0 {
      next := Put(d, next, msb);
    }
  }

  /** The leading zero and the unit id. */
  method PutHead(d: array<bv8>, idx: nat, unitId: nat) returns (next: nat)
    requires idx + 2 <= d.Length
    modifies d
    ensures next == idx + 2
    ensures d[..next] == old(d[..idx]) + [0, Byte(unitId)]
  {
    next := Put(d, idx, 0);
    next := Put(d, next, Byte(unitId));
  }

  /** The opcode part: `d[idx] = 0x51` ..., or the compact opcode picked by the mask bytes. */
  method PutOpcodePart(d: array<bv8>, idx: nat, bank: nat, valueByte: bool, dbyte: bv8, lsb: bv8, msb: bv8)
    returns (next: nat)
    requires idx + |OpcodePart(bank, if valueByte then Some(dbyte) else None, lsb, msb)| <= d.Length
    modifies d
    ensures next == idx + |OpcodePart(bank, if valueByte then Some(dbyte) else None, lsb, msb)|
    ensures d[..next] == old(d[..idx]) + OpcodePart(bank, if valueByte then Some(dbyte) else None, lsb, msb)
  {
    if bank > 0 {
      next := PutOpcode(d, idx, 0x51, valueByte, dbyte);
      next := Put(d, next, BankByte(bank, lsb, msb));
    } else {
      next := PutOpcode(d, idx, CompactOpcode(lsb, msb), valueByte, dbyte);
    }
  }

  /**
   * GenerateCommand: writes one command into `d` from `idx` on and returns the new
   * index. The source's if-chains on `msb` and `lsb` that pick the bank-0 opcode and
   * OR a flag into the bank byte are `CompactOpcode` and `ShiftFlags`.
   */
  method GenerateCommand(d: array<bv8>, idx: nat, unitId: nat, bank: nat, valueByte: bool,
                         dbyte: bv8, lsb: bv8, msb: bv8) returns (next: nat)
    requires idx + |CommandBytes(Byte(unitId), bank, valueByte, dbyte, lsb, msb)| <= d.Length
    modifies d
    ensures next == idx + |CommandBytes(Byte(unitId), bank, valueByte, dbyte, lsb, msb)|
    ensures d[..next] == old(d[..idx]) + CommandBytes(Byte(unitId), bank, valueByte, dbyte, lsb, msb)
  {
    ghost var hd: seq<bv8> := [0, Byte(unitId)];
    ghost var part := OpcodePart(bank, if valueByte then Some(dbyte) else None, lsb, msb);
    ghost var mask := MaskBytes(lsb, msb);
    var i := PutHead(d, idx, unitId);
    i := PutOpcodePart(d, i, bank, valueByte, dbyte, lsb, msb);
    AppendAssoc(old(d[..idx]), hd, part, mask);
    next := PutMask(d, i, lsb, msb);
  }

  /** The bank-off shortcut, written inline by the frame encoder and by `AllOff`. */
  method PutBankOff(d: array<bv8>, idx: nat, unitId: nat, bank: nat) returns (next: nat)
    requires idx + |BankOffBytes(Byte(unitId), bank)| <= d.Length
    modifies d
    ensures next == idx + |BankOffBytes(Byte(unitId), bank)|
    ensures d[..next] == old(d[..idx]) + BankOffBytes(Byte(unitId), bank)
  {
    next := PutHead(d, idx, unitId);
    if bank > 0 {
      next := Put(d, next, 0x51);
      next := Put(d, next, 0xC0 | Byte(bank));
    } else {
      next := Put(d, next, 0x41);
    }
  }

  /** The colour-mode zero command, written inline by the frame encoder. */
  method PutZeroColour(d: array<bv8>, idx: nat, unitId: nat, bank: nat, zero: bv8, lsb: bv8, msb: bv8)
    returns (next: nat)
    requires idx + |ZeroColourBytes(Byte(unitId), bank, zero, lsb, msb)| <= d.Length
    modifies d
    ensures next == idx + |ZeroColourBytes(Byte(unitId), bank, zero, lsb, msb)|
    ensures d[..next] == old(d[..idx]) + ZeroColourBytes(Byte(unitId), bank, zero, lsb, msb)
  {
    next := PutHead(d, idx, unitId);
    next := Put(d, next, 0x53);
    next := Put(d, next, zero);
    next := Put(d, next, BankByte(bank, lsb, msb));
    next := PutMask(d, next, lsb, msb);
  }

  // ---------------------------------------------------------------------------
  // The wire format, seen from the decoder's side
  // ---------------------------------------------------------------------------

  /** A command as the controller reads it off the wire. */
  datatype Cmd =
    | BankOff(unit: bv8, bank: bv8)
      // every channel of the bank off
    | SetMask(unit: bv8, bank: bv8, value: Option<bv8>, lsb: bv8, msb: bv8)
      // the masked channels of the bank: full on (no value) or the given intensity;
      // bank 0 in the compact opcode form, other banks with a bank byte
    | SetMaskLong(unit: bv8, value: Option<bv8>, lsb: bv8, msb: bv8)
      // the same for bank 0, written in the banked form (opcode 0x51/0x53, bank byte 0)

  function BankOf(c: Cmd): bv8
  {
    match c
    case BankOff(_, b) => b
    case SetMask(_, b, _, _, _) => b
    case SetMaskLong(_, _, _, _) => 0
  }

  function UnitOf(c: Cmd): bv8
  {
    match c
    case BankOff(u, _) => u
    case SetMask(u, _, _, _, _) => u
    case SetMaskLong(u, _, _, _) => u
  }

  /** Banks fit the six low bits of the bank byte and a mask selects at least one channel. */
  predicate WellFormed(c: Cmd)
  {
    match c
    case BankOff(_, b) => b < 64
    case SetMask(_, b, _, l, m) => b < 64 && (l != 0 || m != 0)
    case SetMaskLong(_, _, l, m) => l != 0 || m != 0
  }

  function Encode(c: Cmd): seq<bv8>
  {
    match c
    case BankOff(u, b) =>
      if b == 0 then [0, u, 0x41] else [0, u, 0x51, 0xC0 | b]
    case SetMask(u, b, v, l, m) =>
      [0, u]
      + (if b == 0 then OpcodeBytes(CompactOpcode(l, m), v) else OpcodeBytes(0x51, v) + [b | ShiftFlags(l, m)])
      + MaskBytes(l, m)
    case SetMaskLong(u, v, l, m) =>
      [0, u] + OpcodeBytes(0x51, v) + [ShiftFlags(l, m)] + MaskBytes(l, m)
  }

  function EncodeAll(cs: seq<Cmd>): seq<bv8>
  {
    if cs == [] then [] else Encode(cs[0]) + EncodeAll(cs[1..])
  }

  /** Reads the mask bytes at position `p`; a present mask byte is never zero. */
  function DecodeMask(s: seq<bv8>, p: nat, pres: Presence): (r: Option<(bv8, bv8, nat)>)
    ensures r.Some? ==> p < r.value.2 <= |s|
  {
    match pres
    case LsbOnly => if p < |s| && s[p] != 0 then Some((s[p], 0, p + 1)) else None
    case MsbOnly => if p < |s| && s[p] != 0 then Some((0, s[p], p + 1)) else None
    case Both => if p + 1 < |s| && s[p] != 0 && s[p + 1] != 0 then Some((s[p], s[p + 1], p + 2)) else None
  }

  /**
   * The banked form after `0 uid`: opcode 0x51, or 0x53 with a value byte, then the
   * bank byte (flags in its two high bits, the bank in the six low ones) and the mask.
   */
  function DecodeBanked(s: seq<bv8>, hasValue: bool): (r: Option<(Cmd, nat)>)
    requires |s| >= 3
    ensures r.Some? ==> 3 <= r.value.1 <= |s|
  {
    var u, p := s[1], if hasValue then 4 else 3;
    if |s| <= p then None
    else
      var v := if hasValue then Some(s[3]) else None;
      var flags, b := s[p] & 0xC0, s[p] & 0x3F;
      if flags == 0xC0 then
        if !hasValue && b != 0 then Some((BankOff(u, b), 4)) else None
      else
        var pres := if flags == 0x40 then LsbOnly else if flags == 0x80 then MsbOnly else Both;
        match DecodeMask(s, p + 1, pres)
        case None => None
        case Some((l, m, e)) => Some((if b == 0 then SetMaskLong(u, v, l, m) else SetMask(u, b, v, l, m), e))
  }

  /**
   * The compact bank-0 form after `0 uid`: opcode 0x11, 0x21 or 0x31 (0x10, 0x20 or
   * 0x30 says which mask bytes follow), optionally with 0x02 and a value byte.
   */
  function DecodeCompact(s: seq<bv8>, hasValue: bool, pres: Presence): (r: Option<(Cmd, nat)>)
    requires |s| >= 3
    ensures r.Some? ==> 3 <= r.value.1 <= |s|
  {
    var u, p := s[1], if hasValue then 4 else 3;
    if |s| < p then None
    else
      var v := if hasValue then Some(s[3]) else None;
      match DecodeMask(s, p, pres)
      case None => None
      case Some((l, m, e)) => Some((SetMask(u, 0, v, l, m), e))
  }

  /**
   * Decodes the command at the start of `s`, giving the command and its length, or
   * None when `s` does not start with a command in the form the encoder writes.
   */
  function Decode(s: seq<bv8>): (r: Option<(Cmd, nat)>)
    ensures r.Some? ==> 3 <= r.value.1 <= |s|
  {
    if |s| < 3 || s[0] != 0 then None
    else
      var op := s[2];
      if op == 0x41 then Some((BankOff(s[1], 0), 3))
      else if op & 0xFD == 0x51 then DecodeBanked(s, op & 0x02 != 0)
      else if op & 0xCD == 0x01 && op & 0x30 != 0 then
        DecodeCompact(s, op & 0x02 != 0,
                      if op & 0x30 == 0x30 then LsbOnly else if op & 0x30 == 0x20 then MsbOnly else Both)
      else None
  }

  /** Decodes a whole transport write: commands up to the `00 00` terminator at its end. */
  function DecodeAll(s: seq<bv8>): Option<seq<Cmd>>
    decreases |s|
  {
    if s == [0, 0] then Some([])
    else
      match Decode(s)
      case None => None
      case Some((c, n)) =>
        match DecodeAll(s[n..])
        case None => None
        case Some(cs) => Some([c] + cs)
  }

  lemma MaskRoundTrip(l: bv8, m: bv8, s: seq<bv8>, p: nat, rest: seq<bv8>)
    requires l != 0 || m != 0
    requires p <= |s| && s[p..] == MaskBytes(l, m) + rest
    ensures DecodeMask(s, p, PresenceOf(l, m)) == Some((l, m, p + |MaskBytes(l, m)|))
  {
    assert s[p..][0] == s[p];
    if PresenceOf(l, m) == Both {
      assert s[p..][1] == s[p + 1];
    }
  }

  lemma DecodeEncodeBankOff(u: bv8, b: bv8, rest: seq<bv8>)
    requires b < 64
    ensures Decode(Encode(BankOff(u, b)) + rest) == Some((BankOff(u, b), |Encode(BankOff(u, b))|))
  {
  }

  lemma DecodeEncodeCompact(u: bv8, v: Option<bv8>, l: bv8, m: bv8, rest: seq<bv8>)
    requires l != 0 || m != 0
    ensures Decode(Encode(SetMask(u, 0, v, l, m)) + rest) == Some((SetMask(u, 0, v, l, m), |Encode(SetMask(u, 0, v, l, m))|))
  {
    var s := Encode(SetMask(u, 0, v, l, m)) + rest;
    var p := if v.Some? then 4 else 3;
    assert s[p..] == MaskBytes(l, m) + rest;
    MaskRoundTrip(l, m, s, p, rest);
  }

  /** The bank number and the flags occupy disjoint bits of the bank byte. */
  lemma BankByteFields(b: bv8, flags: bv8)
    requires b < 64 && flags & 0x3F == 0
    ensures (b | flags) & 0xC0 == flags && (b | flags) & 0x3F == b
  {
  }

  /** The flags of the bank byte say which mask bytes follow, and are never both set. */
  lemma FlagsGivePresence(l: bv8, m: bv8)
    ensures ShiftFlags(l, m) & 0x3F == 0 && ShiftFlags(l, m) != 0xC0
    ensures PresenceOf(l, m)
         == if ShiftFlags(l, m) == 0x40 then LsbOnly else if ShiftFlags(l, m) == 0x80 then MsbOnly else Both
  {
  }

  lemma BankedBody(u: bv8, b: bv8, v: Option<bv8>, l: bv8, m: bv8, rest: seq<bv8>)
    requires 0 < b < 64 && (l != 0 || m != 0)
    ensures DecodeBanked(Encode(SetMask(u, b, v, l, m)) + rest, v.Some?)
         == Some((SetMask(u, b, v, l, m), |Encode(SetMask(u, b, v, l, m))|))
  {
    var s := Encode(SetMask(u, b, v, l, m)) + rest;
    var p := if v.Some? then 4 else 3;
    var f := ShiftFlags(l, m);
    assert s[p] == b | f;
    BankByteFields(b, f);
    FlagsGivePresence(l, m);
    assert s[p + 1..] == MaskBytes(l, m) + rest;
    MaskRoundTrip(l, m, s, p + 1, rest);
  }

  lemma DecodeEncodeBanked(u: bv8, b: bv8, v: Option<bv8>, l: bv8, m: bv8, rest: seq<bv8>)
    requires 0 < b < 64 && (l != 0 || m != 0)
    ensures Decode(Encode(SetMask(u, b, v, l, m)) + rest) == Some((SetMask(u, b, v, l, m), |Encode(SetMask(u, b, v, l, m))|))
  {
    var s := Encode(SetMask(u, b, v, l, m)) + rest;
    assert s[0] == 0 && s[2] == if v.Some? then 0x53 else 0x51;
    BankedBody(u, b, v, l, m, rest);
  }

  lemma DecodeEncodeSetMaskLong(u: bv8, v: Option<bv8>, l: bv8, m: bv8, rest: seq<bv8>)
    requires l != 0 || m != 0
    ensures Decode(Encode(SetMaskLong(u, v, l, m)) + rest) == Some((SetMaskLong(u, v, l, m), |Encode(SetMaskLong(u, v, l, m))|))
  {
    var s := Encode(SetMaskLong(u, v, l, m)) + rest;
    var p := if v.Some? then 4 else 3;
    assert s[p] == ShiftFlags(l, m);
    assert s[p + 1..] == MaskBytes(l, m) + rest;
    MaskRoundTrip(l, m, s, p + 1, rest);
  }

  /** The decoder recovers every well-formed command, whatever follows it. */
  lemma DecodeEncode(c: Cmd, rest: seq<bv8>)
    requires WellFormed(c)
    ensures Decode(Encode(c) + rest) == Some((c, |Encode(c)|))
  {
    match c
    case BankOff(u, b) => DecodeEncodeBankOff(u, b, rest);
    case SetMask(u, b, v, l, m) =>
      if b == 0 { DecodeEncodeCompact(u, v, l, m, rest); } else { DecodeEncodeBanked(u, b, v, l, m, rest); }
    case SetMaskLong(u, v, l, m) => DecodeEncodeSetMaskLong(u, v, l, m, rest);
  }

  /** A transport write made of well-formed commands and the terminator decodes back to those commands. */
  lemma {:induction false} DecodeEncodeAll(cs: seq<Cmd>)
    requires forall i :: 0 <= i < |cs| ==> WellFormed(cs[i])
    ensures DecodeAll(EncodeAll(cs) + [0, 0]) == Some(cs)
  {
    if cs != [] {
      var s := EncodeAll(cs) + [0, 0];
      var tail := EncodeAll(cs[1..]) + [0, 0];
      assert s == Encode(cs[0]) + tail;
      DecodeEncode(cs[0], tail);
      assert |s| > 2;
      assert s[|Encode(cs[0])|..] == tail;
      DecodeEncodeAll(cs[1..]);
      assert [cs[0]] + cs[1..] == cs;
    }
  }

  lemma {:induction false} EncodeAllAppend(a: seq<Cmd>, b: seq<Cmd>)
    ensures EncodeAll(a + b) == EncodeAll(a) + EncodeAll(b)
  {
    if a == [] {
      assert a + b == b;
    } else {
      assert (a + b)[0] == a[0];
      assert (a + b)[1..] == a[1..] + b;
      EncodeAllAppend(a[1..], b);
    }
  }

  /** Up to 255 banks, the generator's bytes are the encoding of a SetMask command. */
  lemma CommandIsSetMask(unitId: bv8, bank: nat, valueByte: bool, dbyte: bv8, lsb: bv8, msb: bv8)
    requires bank < 256
    ensures CommandBytes(unitId, bank, valueByte, dbyte, lsb, msb)
         == Encode(SetMask(unitId, Byte(bank), if valueByte then Some(dbyte) else None, lsb, msb))
  {
    var v := if valueByte then Some(dbyte) else None;
    assert Byte(bank) == 0 <==> bank == 0;
  }

  lemma BankOffIsEncoded(unitId: bv8, bank: nat)
    requires bank < 256
    ensures BankOffBytes(unitId, bank) == Encode(BankOff(unitId, Byte(bank)))
  {
  }

  /**
   * The colour-mode zero command is an ordinary valued SetMask above bank 0; in
   * bank 0 it is the banked long form, not the compact form GenerateCommand uses.
   */
  lemma ZeroColourIsEncoded(unitId: bv8, bank: nat, zero: bv8, lsb: bv8, msb: bv8)
    requires bank < 256
    ensures ZeroColourBytes(unitId, bank, zero, lsb, msb)
         == Encode(if bank == 0 then SetMaskLong(unitId, Some(zero), lsb, msb)
                   else SetMask(unitId, Byte(bank), Some(zero), lsb, msb))
  {
    if bank == 0 {
      assert Byte(bank) | ShiftFlags(lsb, msb) == ShiftFlags(lsb, msb);
    } else {
      assert Byte(bank) != 0;
    }
  }

  /**
   * For banks below 64 and a mask selecting some channel, the generator's bytes
   * determine all of its inputs (the value byte only when one is carried).
   */
  lemma CommandUnique(unitId: bv8, bank: nat, valueByte: bool, dbyte: bv8, lsb: bv8, msb: bv8,
                      unitId': bv8, bank': nat, valueByte': bool, dbyte': bv8, lsb': bv8, msb': bv8)
    requires bank < 64 && bank' < 64
    requires (lsb != 0 || msb != 0) && (lsb' != 0 || msb' != 0)
    requires CommandBytes(unitId, bank, valueByte, dbyte, lsb, msb)
          == CommandBytes(unitId', bank', valueByte', dbyte', lsb', msb')
    ensures unitId == unitId' && bank == bank' && valueByte == valueByte' && lsb == lsb' && msb == msb'
    ensures valueByte ==> dbyte == dbyte'
  {
    var c := SetMask(unitId, Byte(bank), if valueByte then Some(dbyte) else None, lsb, msb);
    var c' := SetMask(unitId', Byte(bank'), if valueByte' then Some(dbyte') else None, lsb', msb');
    CommandIsSetMask(unitId, bank, valueByte, dbyte, lsb, msb);
    CommandIsSetMask(unitId', bank', valueByte', dbyte', lsb', msb');
    DecodeEncode(c, []);
    DecodeEncode(c', []);
    assert Encode(c) + [] == Encode(c');
  }
}
