/**
 * The commands a pass puts on the wire. `GroupCmds` .. `PassCmds` follow the
 * structure of `GroupBytes` .. `PassBody` command by command; the lemmas show that
 * the pass's bytes are exactly the encoding of those commands, that the decoder
 * recovers them from what the pass writes while the pass has at most 64 banks, and
 * that the banks are emitted from the highest down.
 */
module LorPassWire {
  import opened LorBytes
  import opened LorCommand
  import opened LorGrouping
  import opened LorPass

  /** The command (if any) the encoder writes for pair `g` of a bank while handling `kind`. */
  function GroupCmds(kind: Kind, uid: bv8, bank: nat, gs: seq<DataPair>, colour: bool, table: seq<bv8>, g: nat)
    : (r: seq<Cmd>)
    requires |table| == 256 && g < |gs|
    ensures |r| <= 1
  {
    var p := gs[g];
    var b, l, m := Byte(bank), Lsb(p.bits), Msb(p.bits);
    match kind
    case ZeroGroups =>
      if p.value != 0 then []
      else if |gs| == 1 then [BankOff(uid, b)]
      else if colour then
        [if bank == 0 then SetMaskLong(uid, Some(table[0]), l, m) else SetMask(uid, b, Some(table[0]), l, m)]
      else []
    case FullGroups =>
      if p.value != 0xFF then [] else [SetMask(uid, b, None, l, m)]
    case ValueGroups =>
      if p.value == 0 || p.value == 0xFF then [] else [SetMask(uid, b, Some(table[p.value as int]), l, m)]
  }

  function PartCmds(kind: Kind, uid: bv8, bank: nat, gs: seq<DataPair>, colour: bool, table: seq<bv8>, n: nat)
    : seq<Cmd>
    requires |table| == 256 && n <= |gs|
  {
    if n == 0 then [] else PartCmds(kind, uid, bank, gs, colour, table, n - 1) + GroupCmds(kind, uid, bank, gs, colour, table, n - 1)
  }

  function BlockCmds(uid: bv8, bank: nat, gs: seq<DataPair>, colour: bool, table: seq<bv8>): seq<Cmd>
    requires |table| == 256
  {
    PartCmds(ZeroGroups, uid, bank, gs, colour, table, |gs|)
    + PartCmds(FullGroups, uid, bank, gs, colour, table, |gs|)
    + PartCmds(ValueGroups, uid, bank, gs, colour, table, |gs|)
  }

  function EmitCmds(uid: bv8, lo: nat, hi: nat, changed: seq<bool>, banks: seq<seq<DataPair>>,
                    colours: seq<bool>, table: seq<bv8>): seq<Cmd>
    requires |table| == 256 && hi <= |changed| && hi <= |banks| && hi <= |colours|
    decreases hi - lo
  {
    if lo >= hi then []
    else
      EmitCmds(uid, lo + 1, hi, changed, banks, colours, table)
      + (if changed[lo] then BlockCmds(uid, lo, banks[lo], colours[lo], table) else [])
  }

  /** The commands of a whole pass. */
  function PassCmds(uid: bv8, vals: seq<bv8>, prev: seq<bv8>, changed: seq<bool>, table: seq<bv8>): seq<Cmd>
    requires |table| == 256 && |vals| == |prev| && BankCount(|vals|) <= |changed|
  {
    EmitCmds(uid, 0, BankCount(|vals|), PassChanged(changed, vals, prev), PassGroups(vals), PassColours(vals), table)
  }

  // ---------------------------------------------------------------------------
  // The bytes are the encoding of the commands
  // ---------------------------------------------------------------------------

  lemma EncodeOne(c: Cmd)
    ensures EncodeAll([c]) == Encode(c)
  {
    assert [c][1..] == [];
  }

  lemma GroupEncoded(kind: Kind, uid: bv8, bank: nat, gs: seq<DataPair>, colour: bool, table: seq<bv8>, g: nat)
    requires |table| == 256 && g < |gs| && bank < 256
    ensures GroupBytes(kind, uid, bank, gs, colour, table, g) == EncodeAll(GroupCmds(kind, uid, bank, gs, colour, table, g))
  {
    var p := gs[g];
    var l, m := Lsb(p.bits), Msb(p.bits);
    var cs := GroupCmds(kind, uid, bank, gs, colour, table, g);
    if cs != [] {
      EncodeOne(cs[0]);
      match kind
      case ZeroGroups =>
        if |gs| == 1 {
          BankOffIsEncoded(uid, bank);
        } else {
          ZeroColourIsEncoded(uid, bank, table[0], l, m);
        }
      case FullGroups =>
        CommandIsSetMask(uid, bank, false, table[0xFF], l, m);
      case ValueGroups =>
        CommandIsSetMask(uid, bank, true, table[p.value as int], l, m);
    }
  }

  lemma {:induction false} PartEncoded(kind: Kind, uid: bv8, bank: nat, gs: seq<DataPair>, colour: bool, table: seq<bv8>, n: nat)
    requires |table| == 256 && n <= |gs| && bank < 256
    ensures PartBytes(kind, uid, bank, gs, colour, table, n) == EncodeAll(PartCmds(kind, uid, bank, gs, colour, table, n))
  {
    if n > 0 {
      PartEncoded(kind, uid, bank, gs, colour, table, n - 1);
      PartEncodedStep(kind, uid, bank, gs, colour, table, n);
    }
  }

  lemma PartEncodedStep(kind: Kind, uid: bv8, bank: nat, gs: seq<DataPair>, colour: bool, table: seq<bv8>, n: nat)
    requires |table| == 256 && 0 < n <= |gs| && bank < 256
    requires PartBytes(kind, uid, bank, gs, colour, table, n - 1) == EncodeAll(PartCmds(kind, uid, bank, gs, colour, table, n - 1))
    ensures PartBytes(kind, uid, bank, gs, colour, table, n) == EncodeAll(PartCmds(kind, uid, bank, gs, colour, table, n))
  {
    var m := n - 1;
    var a, b := PartBytes(kind, uid, bank, gs, colour, table, m), GroupBytes(kind, uid, bank, gs, colour, table, m);
    var c, d := PartCmds(kind, uid, bank, gs, colour, table, m), GroupCmds(kind, uid, bank, gs, colour, table, m);
    GroupEncoded(kind, uid, bank, gs, colour, table, m);
    EncodeAllAppend(c, d);
    assert PartBytes(kind, uid, bank, gs, colour, table, n) == a + b;
    assert PartCmds(kind, uid, bank, gs, colour, table, n) == c + d;
  }

  lemma BlockEncoded(uid: bv8, bank: nat, gs: seq<DataPair>, colour: bool, table: seq<bv8>)
    requires |table| == 256 && bank < 256
    ensures BankBlock(uid, bank, gs, colour, table) == EncodeAll(BlockCmds(uid, bank, gs, colour, table))
  {
    var z := PartCmds(ZeroGroups, uid, bank, gs, colour, table, |gs|);
    var f := PartCmds(FullGroups, uid, bank, gs, colour, table, |gs|);
    var v := PartCmds(ValueGroups, uid, bank, gs, colour, table, |gs|);
    PartEncoded(ZeroGroups, uid, bank, gs, colour, table, |gs|);
    PartEncoded(FullGroups, uid, bank, gs, colour, table, |gs|);
    PartEncoded(ValueGroups, uid, bank, gs, colour, table, |gs|);
    EncodeAllAppend(z, f);
    EncodeAllAppend(z + f, v);
  }

  lemma {:induction false} EmitEncoded(uid: bv8, lo: nat, hi: nat, changed: seq<bool>, banks: seq<seq<DataPair>>,
                                       colours: seq<bool>, table: seq<bv8>)
    requires |table| == 256 && hi <= |changed| && hi <= |banks| && hi <= |colours| && hi <= 256
    ensures EmitRange(uid, lo, hi, changed, banks, colours, table) == EncodeAll(EmitCmds(uid, lo, hi, changed, banks, colours, table))
    decreases hi - lo
  {
    if lo < hi {
      EmitEncoded(uid, lo + 1, hi, changed, banks, colours, table);
      var rest := EmitCmds(uid, lo + 1, hi, changed, banks, colours, table);
      if changed[lo] {
        BlockEncoded(uid, lo, banks[lo], colours[lo], table);
        EncodeAllAppend(rest, BlockCmds(uid, lo, banks[lo], colours[lo], table));
      } else {
        assert rest + [] == rest;
      }
    }
  }

  /** Up to 256 banks, the bytes of a pass are the encoding of its commands. */
  lemma PassEncoded(uid: bv8, vals: seq<bv8>, prev: seq<bv8>, changed: seq<bool>, table: seq<bv8>)
    requires |table| == 256 && |vals| == |prev| && BankCount(|vals|) <= |changed| && BankCount(|vals|) <= 256
    ensures PassBody(uid, vals, prev, changed, table) == EncodeAll(PassCmds(uid, vals, prev, changed, table))
  {
    EmitEncoded(uid, 0, BankCount(|vals|), PassChanged(changed, vals, prev), PassGroups(vals), PassColours(vals), table);
  }

  // ---------------------------------------------------------------------------
  // Every command is well formed, so the decoder recovers them all
  // ---------------------------------------------------------------------------

  predicate AllWellFormed(cs: seq<Cmd>)
  {
    forall i :: 0 <= i < |cs| ==> WellFormed(cs[i])
  }

  lemma AllWellFormedAppend(a: seq<Cmd>, b: seq<Cmd>)
    requires AllWellFormed(a) && AllWellFormed(b)
    ensures AllWellFormed(a + b)
  {
    forall i | 0 <= i < |a + b|
      ensures WellFormed((a + b)[i])
    {
      if i < |a| {
        assert (a + b)[i] == a[i];
      } else {
        assert (a + b)[i] == b[i - |a|];
      }
    }
  }

  /** Every mask of the bank selects a channel and only channels 0..15. */
  ghost predicate MasksSelect(gs: seq<DataPair>)
  {
    forall g :: 0 <= g < |gs| ==> gs[g].bits != {} && forall i :: i in gs[g].bits ==> i < 16
  }

  lemma GroupsMasksSelect(s: seq<bv8>)
    requires |s| <= 16
    ensures MasksSelect(Groups(s))
  {
    GroupsPartition(s);
  }

  lemma GroupWellFormed(kind: Kind, uid: bv8, bank: nat, gs: seq<DataPair>, colour: bool, table: seq<bv8>, g: nat)
    requires |table| == 256 && g < |gs| && bank < 64 && MasksSelect(gs)
    ensures AllWellFormed(GroupCmds(kind, uid, bank, gs, colour, table, g))
  {
    var k :| k in gs[g].bits;
    NonzeroMask(gs[g].bits, k);
  }

  lemma {:induction false} PartWellFormed(kind: Kind, uid: bv8, bank: nat, gs: seq<DataPair>, colour: bool, table: seq<bv8>, n: nat)
    requires |table| == 256 && n <= |gs| && bank < 64 && MasksSelect(gs)
    ensures AllWellFormed(PartCmds(kind, uid, bank, gs, colour, table, n))
  {
    if n > 0 {
      PartWellFormed(kind, uid, bank, gs, colour, table, n - 1);
      GroupWellFormed(kind, uid, bank, gs, colour, table, n - 1);
      AllWellFormedAppend(PartCmds(kind, uid, bank, gs, colour, table, n - 1), GroupCmds(kind, uid, bank, gs, colour, table, n - 1));
    }
  }

  lemma BlockWellFormed(uid: bv8, bank: nat, gs: seq<DataPair>, colour: bool, table: seq<bv8>)
    requires |table| == 256 && bank < 64 && MasksSelect(gs)
    ensures AllWellFormed(BlockCmds(uid, bank, gs, colour, table))
  {
    var z := PartCmds(ZeroGroups, uid, bank, gs, colour, table, |gs|);
    var f := PartCmds(FullGroups, uid, bank, gs, colour, table, |gs|);
    var v := PartCmds(ValueGroups, uid, bank, gs, colour, table, |gs|);
    PartWellFormed(ZeroGroups, uid, bank, gs, colour, table, |gs|);
    PartWellFormed(FullGroups, uid, bank, gs, colour, table, |gs|);
    PartWellFormed(ValueGroups, uid, bank, gs, colour, table, |gs|);
    AllWellFormedAppend(z, f);
    AllWellFormedAppend(z + f, v);
  }

  lemma {:induction false} EmitWellFormed(uid: bv8, lo: nat, hi: nat, changed: seq<bool>, vals: seq<bv8>, table: seq<bv8>)
    requires |table| == 256 && hi <= |changed| && hi <= BankCount(|vals|) && hi <= 64
    ensures AllWellFormed(EmitCmds(uid, lo, hi, changed, PassGroups(vals), PassColours(vals), table))
    decreases hi - lo
  {
    if lo < hi {
      var banks, colours := PassGroups(vals), PassColours(vals);
      EmitWellFormed(uid, lo + 1, hi, changed, vals, table);
      assert banks[lo] == Groups(BankSlice(vals, lo));
      GroupsMasksSelect(BankSlice(vals, lo));
      BlockWellFormed(uid, lo, banks[lo], colours[lo], table);
      AllWellFormedAppend(EmitCmds(uid, lo + 1, hi, changed, banks, colours, table),
                          if changed[lo] then BlockCmds(uid, lo, banks[lo], colours[lo], table) else []);
    }
  }

  /**
   * With at most 64 banks per pass, the decoder reads back from a pass's write
   * exactly the commands the pass emitted.
   */
  lemma PassDecodes(uid: bv8, vals: seq<bv8>, prev: seq<bv8>, changed: seq<bool>, table: seq<bv8>)
    requires |table| == 256 && |vals| == |prev| && BankCount(|vals|) <= |changed| && BankCount(|vals|) <= 64
    requires vals != prev
    ensures |PassWrites(uid, vals, prev, changed, table)| == 1
    ensures DecodeAll(PassWrites(uid, vals, prev, changed, table)[0]) == Some(PassCmds(uid, vals, prev, changed, table))
  {
    var cs := PassCmds(uid, vals, prev, changed, table);
    PassEncoded(uid, vals, prev, changed, table);
    EmitWellFormed(uid, 0, BankCount(|vals|), PassChanged(changed, vals, prev), vals, table);
    DecodeEncodeAll(cs);
  }

  // ---------------------------------------------------------------------------
  // Where the commands are addressed
  // ---------------------------------------------------------------------------

  /** Every command is addressed to unit `u` and to a bank in `lo..hi-1`. */
  predicate AddressedIn(cs: seq<Cmd>, u: bv8, lo: int, hi: int)
  {
    forall i :: 0 <= i < |cs| ==> UnitOf(cs[i]) == u && lo <= BankOf(cs[i]) as int < hi
  }

  lemma AddressedAppend(a: seq<Cmd>, b: seq<Cmd>, u: bv8, lo: int, hi: int)
    requires AddressedIn(a, u, lo, hi) && AddressedIn(b, u, lo, hi)
    ensures AddressedIn(a + b, u, lo, hi)
  {
    forall i | 0 <= i < |a + b|
      ensures UnitOf((a + b)[i]) == u && lo <= BankOf((a + b)[i]) as int < hi
    {
      if i < |a| {
        assert (a + b)[i] == a[i];
      } else {
        assert (a + b)[i] == b[i - |a|];
      }
    }
  }

  lemma GroupAddressed(kind: Kind, uid: bv8, bank: nat, gs: seq<DataPair>, colour: bool, table: seq<bv8>, g: nat)
    requires |table| == 256 && g < |gs| && bank < 256
    ensures AddressedIn(GroupCmds(kind, uid, bank, gs, colour, table, g), uid, bank, bank + 1)
  {
  }

  lemma {:induction false} PartAddressed(kind: Kind, uid: bv8, bank: nat, gs: seq<DataPair>, colour: bool, table: seq<bv8>, n: nat)
    requires |table| == 256 && n <= |gs| && bank < 256
    ensures AddressedIn(PartCmds(kind, uid, bank, gs, colour, table, n), uid, bank, bank + 1)
  {
    if n > 0 {
      PartAddressed(kind, uid, bank, gs, colour, table, n - 1);
      GroupAddressed(kind, uid, bank, gs, colour, table, n - 1);
      AddressedAppend(PartCmds(kind, uid, bank, gs, colour, table, n - 1), GroupCmds(kind, uid, bank, gs, colour, table, n - 1),
                      uid, bank, bank + 1);
    }
  }

  /** Every command of a bank's block is addressed to that bank of the pass's unit. */
  lemma BlockAddressed(uid: bv8, bank: nat, gs: seq<DataPair>, colour: bool, table: seq<bv8>)
    requires |table| == 256 && bank < 256
    ensures AddressedIn(BlockCmds(uid, bank, gs, colour, table), uid, bank, bank + 1)
  {
    var z := PartCmds(ZeroGroups, uid, bank, gs, colour, table, |gs|);
    var f := PartCmds(FullGroups, uid, bank, gs, colour, table, |gs|);
    var v := PartCmds(ValueGroups, uid, bank, gs, colour, table, |gs|);
    PartAddressed(ZeroGroups, uid, bank, gs, colour, table, |gs|);
    PartAddressed(FullGroups, uid, bank, gs, colour, table, |gs|);
    PartAddressed(ValueGroups, uid, bank, gs, colour, table, |gs|);
    AddressedAppend(z, f, uid, bank, bank + 1);
    AddressedAppend(z + f, v, uid, bank, bank + 1);
  }

  /** Commands in which every bank is no lower than every bank that follows. */
  predicate Descending(cs: seq<Cmd>)
  {
    forall i, j :: 0 <= i < j < |cs| ==> BankOf(cs[i]) >= BankOf(cs[j])
  }

  /** Every command is addressed to unit `u` and a bank in `lo..hi-1`, the highest bank first. */
  predicate OrderedIn(cs: seq<Cmd>, u: bv8, lo: int, hi: int)
  {
    AddressedIn(cs, u, lo, hi) && Descending(cs)
  }

  lemma DescendingAppend(a: seq<Cmd>, b: seq<Cmd>, u: bv8, lo: int, mid: int, hi: int)
    requires AddressedIn(a, u, mid, hi) && AddressedIn(b, u, lo, mid) && Descending(a) && Descending(b)
    ensures Descending(a + b)
  {
    var cs := a + b;
    forall i, j | 0 <= i < j < |cs|
      ensures BankOf(cs[i]) >= BankOf(cs[j])
    {
      if j < |a| {
        assert cs[i] == a[i] && cs[j] == a[j];
      } else if i < |a| {
        assert cs[i] == a[i] && cs[j] == b[j - |a|];
      } else {
        assert cs[i] == b[i - |a|] && cs[j] == b[j - |a|];
      }
    }
  }

  lemma OrderedAppend(a: seq<Cmd>, b: seq<Cmd>, u: bv8, lo: int, mid: int, hi: int)
    requires lo <= mid <= hi && OrderedIn(a, u, mid, hi) && OrderedIn(b, u, lo, mid)
    ensures OrderedIn(a + b, u, lo, hi)
  {
    var cs := a + b;
    forall i | 0 <= i < |cs|
      ensures UnitOf(cs[i]) == u && lo <= BankOf(cs[i]) as int < hi
    {
      if i < |a| {
        assert cs[i] == a[i];
      } else {
        assert cs[i] == b[i - |a|];
      }
    }
    DescendingAppend(a, b, u, lo, mid, hi);
  }

  lemma OneBankOrdered(cs: seq<Cmd>, u: bv8, bank: int)
    requires AddressedIn(cs, u, bank, bank + 1)
    ensures OrderedIn(cs, u, bank, bank + 1)
  {
  }

  lemma BlockOrdered(uid: bv8, lo: nat, changed: seq<bool>, banks: seq<seq<DataPair>>, colours: seq<bool>, table: seq<bv8>)
    requires |table| == 256 && lo < |changed| && lo < |banks| && lo < |colours| && lo < 256
    ensures OrderedIn(if changed[lo] then BlockCmds(uid, lo, banks[lo], colours[lo], table) else [], uid, lo, lo + 1)
  {
    if changed[lo] {
      BlockAddressed(uid, lo, banks[lo], colours[lo], table);
      OneBankOrdered(BlockCmds(uid, lo, banks[lo], colours[lo], table), uid, lo);
    }
  }

  /**
   * The emission loop over banks `hi - 1` down to `lo` addresses only the pass's
   * unit and banks in that range, the highest bank first.
   */
  lemma {:induction false} EmitOrdered(uid: bv8, lo: nat, hi: nat, changed: seq<bool>, banks: seq<seq<DataPair>>,
                                       colours: seq<bool>, table: seq<bv8>)
    requires |table| == 256 && hi <= |changed| && hi <= |banks| && hi <= |colours| && hi <= 256
    ensures OrderedIn(EmitCmds(uid, lo, hi, changed, banks, colours, table), uid, lo, hi)
    decreases hi - lo
  {
    if lo < hi {
      EmitOrdered(uid, lo + 1, hi, changed, banks, colours, table);
      BlockOrdered(uid, lo, changed, banks, colours, table);
      OrderedAppend(EmitCmds(uid, lo + 1, hi, changed, banks, colours, table),
                    if changed[lo] then BlockCmds(uid, lo, banks[lo], colours[lo], table) else [],
                    uid, lo, lo + 1, hi);
    }
  }

  /** A pass addresses only its own unit, and emits its banks from the highest down. */
  lemma PassOrdered(uid: bv8, vals: seq<bv8>, prev: seq<bv8>, changed: seq<bool>, table: seq<bv8>)
    requires |table| == 256 && |vals| == |prev| && BankCount(|vals|) <= |changed| && BankCount(|vals|) <= 256
    ensures OrderedIn(PassCmds(uid, vals, prev, changed, table), uid, 0, BankCount(|vals|))
  {
    EmitOrdered(uid, 0, BankCount(|vals|), PassChanged(changed, vals, prev), PassGroups(vals), PassColours(vals), table);
  }
}
