/**
 * What a pass does to each of its channels.
 *
 * `Delivered` reads the commands of a pass from one channel's point of view: how
 * many of them address the channel, and the effect of the last one that does. The
 * main lemma, `ChannelEffect`, shows that every channel of a pass is addressed by at
 * most one command, and that it receives exactly the effect `Intended` describes:
 * nothing for a bank that did not change, the whole-bank off for a bank of zeros,
 * the intensity for 0 for a zero in a colour-mode bank, full on for 0xFF and the
 * intensity-table entry for any other value. A zero in a changed bank that holds
 * only zeros and 0xFFs, but not only zeros, receives no command at all.
 */
module LorEffects {
  import opened LorBytes
  import opened LorCommand
  import opened LorGrouping
  import opened LorPass
  import opened LorPassWire

  /** What a command does to a channel it addresses. */
  datatype Effect = Untouched | Off | On | Level(intensity: bv8)

  function CmdEffect(c: Cmd): (e: Effect)
    ensures e != Untouched
  {
    match c
    case BankOff(_, _) => Off
    case SetMask(_, _, v, _, _) => if v.Some? then Level(v.value) else On
    case SetMaskLong(_, v, _, _) => if v.Some? then Level(v.value) else On
  }

  /** Command `c` addresses channel `k` of bank `b` of unit `u`. */
  predicate Touches(c: Cmd, u: bv8, b: bv8, k: nat)
    requires k < 16
  {
    UnitOf(c) == u && BankOf(c) == b &&
    match c
    case BankOff(_, _) => true
    case SetMask(_, _, _, l, m) => MaskHas(l, m, k)
    case SetMaskLong(_, _, l, m) => MaskHas(l, m, k)
  }

  /** How many commands address a channel, and the effect of the last of them. */
  datatype Delivery = Delivery(count: nat, last: Effect)

  const Nothing := Delivery(0, Untouched)

  /** A single command with effect `e`, or nothing when `e` is `Untouched`. */
  function Once(e: Effect): Delivery
  {
    if e == Untouched then Nothing else Delivery(1, e)
  }

  function Delivered(cs: seq<Cmd>, u: bv8, b: bv8, k: nat): (r: Delivery)
    requires k < 16
    ensures r.count == 0 <==> r.last == Untouched
  {
    if cs == [] then Nothing
    else
      var r := Delivered(cs[..|cs| - 1], u, b, k);
      if Touches(cs[|cs| - 1], u, b, k) then Delivery(r.count + 1, CmdEffect(cs[|cs| - 1])) else r
  }

  /** The commands `x` describes followed by those `y` describes. */
  function Then(x: Delivery, y: Delivery): Delivery
  {
    if y.count == 0 then x else Delivery(x.count + y.count, y.last)
  }

  lemma {:induction false} DeliveredAppend(a: seq<Cmd>, c: seq<Cmd>, u: bv8, b: bv8, k: nat)
    requires k < 16
    ensures Delivered(a + c, u, b, k) == Then(Delivered(a, u, b, k), Delivered(c, u, b, k))
  {
    if c == [] {
      assert a + c == a;
    } else {
      var front := c[..|c| - 1];
      DeliveredAppend(a, front, u, b, k);
      assert (a + c)[..|a + c| - 1] == a + front;
      assert (a + c)[|a + c| - 1] == c[|c| - 1];
    }
  }

  /** Commands addressed only to banks other than `t` deliver nothing to the channels of bank `t`. */
  lemma {:induction false} OtherBanksSilent(cs: seq<Cmd>, u: bv8, lo: int, hi: int, t: nat, k: nat)
    requires k < 16 && t < 256 && AddressedIn(cs, u, lo, hi) && !(lo <= t < hi)
    ensures Delivered(cs, u, Byte(t), k) == Nothing
  {
    if cs != [] {
      var front := cs[..|cs| - 1];
      assert AddressedIn(front, u, lo, hi) by {
        forall i | 0 <= i < |front|
          ensures UnitOf(front[i]) == u && lo <= BankOf(front[i]) as int < hi
        {
          assert front[i] == cs[i];
        }
      }
      OtherBanksSilent(front, u, lo, hi, t, k);
      assert BankOf(cs[|cs| - 1]) as int != t;
    }
  }

  // ---------------------------------------------------------------------------
  // Facts about a bank's grouping
  // ---------------------------------------------------------------------------

  predicate AllZero(s: seq<bv8>)
  {
    forall j :: 0 <= j < |s| ==> s[j] == 0
  }

  /** A bank grouped into a single pair holds that pair's value in every channel. */
  lemma SingleGroup(s: seq<bv8>, j: nat)
    requires |s| <= 16 && |Groups(s)| == 1 && j < |s|
    ensures s[j] == Groups(s)[0].value
  {
    GroupsPartition(s);
    var g :| 0 <= g < |Groups(s)| && Groups(s)[g].value == s[j];
  }

  /** A bank of zeros is grouped into a single pair, of value 0. */
  lemma ZerosSingleGroup(s: seq<bv8>)
    requires |s| <= 16 && 0 < |s| && AllZero(s)
    ensures |Groups(s)| == 1 && Groups(s)[0].value == 0
  {
    var gs := Groups(s);
    GroupsPartition(s);
    var g0 :| 0 <= g0 < |gs| && gs[g0].value == s[0];
    forall g | 0 <= g < |gs|
      ensures gs[g].value == 0
    {
      var i :| i in gs[g].bits;
      assert s[i] == gs[g].value;
    }
  }

  /** A bank is all zeros exactly when it is grouped into a single pair of value 0. */
  lemma AllZeroMeans(s: seq<bv8>)
    requires |s| <= 16 && 0 < |s|
    ensures AllZero(s) <==> |Groups(s)| == 1 && Groups(s)[0].value == 0
  {
    if AllZero(s) {
      ZerosSingleGroup(s);
    } else if |Groups(s)| == 1 && Groups(s)[0].value == 0 {
      var j :| 0 <= j < |s| && s[j] != 0;
      SingleGroup(s, j);
    }
  }

  /** The pair holding channel `k`'s value is the first pair with that value, and the only one. */
  lemma PairOfChannel(s: seq<bv8>, k: nat, g: nat)
    requires |s| <= 16 && k < |s| && g < |Groups(s)|
    ensures IndexOf(Groups(s), s[k]) < |Groups(s)|
    ensures Groups(s)[g].value == s[k] <==> g == IndexOf(Groups(s), s[k])
  {
    var gs := Groups(s);
    GroupsPartition(s);
    var h :| 0 <= h < |gs| && gs[h].value == s[k];
    var i := IndexOf(gs, s[k]);
    if g != i && gs[g].value == s[k] {
      if g < i {
      } else {
      }
    }
  }

  // ---------------------------------------------------------------------------
  // From one pair to the whole pass
  // ---------------------------------------------------------------------------

  /** What the commands of `kind` do to channel `k` of a bank holding `s`. */
  function KindEffect(kind: Kind, s: seq<bv8>, colour: bool, table: seq<bv8>, k: nat): Effect
    requires |table| == 256 && k < |s|
  {
    var v := s[k];
    match kind
    case ZeroGroups =>
      if v != 0 then Untouched else if AllZero(s) then Off else if colour then Level(table[0]) else Untouched
    case FullGroups =>
      if v == 0xFF then On else Untouched
    case ValueGroups =>
      if v != 0 && v != 0xFF then Level(table[v as int]) else Untouched
  }

  lemma DeliveredOne(c: Cmd, u: bv8, b: bv8, k: nat)
    requires k < 16
    ensures Delivered([c], u, b, k) == if Touches(c, u, b, k) then Delivery(1, CmdEffect(c)) else Nothing
  {
    assert [c][..0] == [];
  }

  /** A command on the mask of pair `g` addresses channel `k` exactly when the pair holds `k`'s value. */
  lemma MaskedDelivered(c: Cmd, u: bv8, bank: nat, s: seq<bv8>, g: nat, k: nat)
    requires |s| <= 16 && k < |s| && g < |Groups(s)| && bank < 256
    requires c.SetMask? || c.SetMaskLong?
    requires UnitOf(c) == u && BankOf(c) == Byte(bank) && c.lsb == Lsb(Groups(s)[g].bits) && c.msb == Msb(Groups(s)[g].bits)
    ensures Delivered([c], u, Byte(bank), k) == if Groups(s)[g].value == s[k] then Delivery(1, CmdEffect(c)) else Nothing
  {
    GroupsPartition(s);
    SplitMask(Groups(s)[g].bits, k);
    DeliveredOne(c, u, Byte(bank), k);
  }

  /** The pair holding channel `k`'s value delivers that kind's effect to it; every other pair delivers nothing. */
  lemma GroupDelivered(kind: Kind, u: bv8, bank: nat, s: seq<bv8>, colour: bool, table: seq<bv8>, g: nat, k: nat)
    requires |table| == 256 && |s| <= 16 && k < |s| && g < |Groups(s)| && bank < 256
    ensures Delivered(GroupCmds(kind, u, bank, Groups(s), colour, table, g), u, Byte(bank), k)
         == if Groups(s)[g].value == s[k] then Once(KindEffect(kind, s, colour, table, k)) else Nothing
  {
    var gs := Groups(s);
    var p := gs[g];
    var cs := GroupCmds(kind, u, bank, gs, colour, table, g);
    if cs != [] {
      assert cs == [cs[0]];
      if cs[0].BankOff? {
        SingleGroup(s, k);
        AllZeroMeans(s);
        DeliveredOne(cs[0], u, Byte(bank), k);
      } else {
        MaskedDelivered(cs[0], u, bank, s, g, k);
        if kind == ZeroGroups {
          AllZeroMeans(s);
        }
      }
    } else if kind == ZeroGroups && p.value == s[k] {
      AllZeroMeans(s);
    }
  }

  lemma {:induction false} PartDelivered(kind: Kind, u: bv8, bank: nat, s: seq<bv8>, colour: bool, table: seq<bv8>,
                                         n: nat, k: nat)
    requires |table| == 256 && |s| <= 16 && k < |s| && n <= |Groups(s)| && bank < 256
    ensures Delivered(PartCmds(kind, u, bank, Groups(s), colour, table, n), u, Byte(bank), k)
         == if IndexOf(Groups(s), s[k]) < n then Once(KindEffect(kind, s, colour, table, k)) else Nothing
  {
    if n > 0 {
      var gs := Groups(s);
      PartDelivered(kind, u, bank, s, colour, table, n - 1, k);
      GroupDelivered(kind, u, bank, s, colour, table, n - 1, k);
      PairOfChannel(s, k, n - 1);
      DeliveredAppend(PartCmds(kind, u, bank, gs, colour, table, n - 1), GroupCmds(kind, u, bank, gs, colour, table, n - 1),
                      u, Byte(bank), k);
    }
  }

  /** What a changed bank holding `s` does to its channel `k`. */
  function BankEffect(s: seq<bv8>, colour: bool, table: seq<bv8>, k: nat): Effect
    requires |table| == 256 && k < |s|
  {
    var v := s[k];
    if v == 0 then (if AllZero(s) then Off else if colour then Level(table[0]) else Untouched)
    else if v == 0xFF then On
    else Level(table[v as int])
  }

  lemma BlockDelivered(u: bv8, bank: nat, s: seq<bv8>, colour: bool, table: seq<bv8>, k: nat)
    requires |table| == 256 && |s| <= 16 && k < |s| && bank < 256
    ensures Delivered(BlockCmds(u, bank, Groups(s), colour, table), u, Byte(bank), k) == Once(BankEffect(s, colour, table, k))
  {
    var gs := Groups(s);
    var z := PartCmds(ZeroGroups, u, bank, gs, colour, table, |gs|);
    var f := PartCmds(FullGroups, u, bank, gs, colour, table, |gs|);
    var v := PartCmds(ValueGroups, u, bank, gs, colour, table, |gs|);
    PairOfChannel(s, k, 0);
    PartDelivered(ZeroGroups, u, bank, s, colour, table, |gs|, k);
    PartDelivered(FullGroups, u, bank, s, colour, table, |gs|, k);
    PartDelivered(ValueGroups, u, bank, s, colour, table, |gs|, k);
    DeliveredAppend(z, f, u, Byte(bank), k);
    DeliveredAppend(z + f, v, u, Byte(bank), k);
  }

  lemma RestSilent(u: bv8, lo: nat, hi: nat, changed: seq<bool>, vals: seq<bv8>, table: seq<bv8>, t: nat, k: nat)
    requires |table| == 256 && hi <= |changed| && hi <= BankCount(|vals|) && hi <= 256 && t < lo && t < 256 && k < 16
    ensures Delivered(EmitCmds(u, lo, hi, changed, PassGroups(vals), PassColours(vals), table), u, Byte(t), k) == Nothing
  {
    var cs := EmitCmds(u, lo, hi, changed, PassGroups(vals), PassColours(vals), table);
    EmitOrdered(u, lo, hi, changed, PassGroups(vals), PassColours(vals), table);
    assert AddressedIn(cs, u, lo, hi);
    OtherBanksSilent(cs, u, lo, hi, t, k);
  }

  lemma BlockSilent(u: bv8, lo: nat, changed: seq<bool>, vals: seq<bv8>, table: seq<bv8>, t: nat, k: nat)
    requires |table| == 256 && lo < |changed| && lo < BankCount(|vals|) && lo < 256 && t < 256 && t != lo && k < 16
    ensures Delivered(if changed[lo] then BlockCmds(u, lo, PassGroups(vals)[lo], PassColours(vals)[lo], table) else [],
                      u, Byte(t), k) == Nothing
  {
    BlockOrdered(u, lo, changed, PassGroups(vals), PassColours(vals), table);
    OtherBanksSilent(if changed[lo] then BlockCmds(u, lo, PassGroups(vals)[lo], PassColours(vals)[lo], table) else [],
                     u, lo, lo + 1, t, k);
  }

  /** The emission loop over banks `hi - 1` down to `lo` reaches bank `t` only through bank `t`'s own block. */
  lemma {:induction false} EmitDelivered(u: bv8, lo: nat, hi: nat, changed: seq<bool>, vals: seq<bv8>, table: seq<bv8>,
                                         t: nat, k: nat)
    requires |table| == 256 && hi <= |changed| && hi <= BankCount(|vals|) && hi <= 256 && t < hi && k < 16
    ensures Delivered(EmitCmds(u, lo, hi, changed, PassGroups(vals), PassColours(vals), table), u, Byte(t), k)
         == if lo <= t && changed[t] then Delivered(BlockCmds(u, t, PassGroups(vals)[t], PassColours(vals)[t], table), u, Byte(t), k)
            else Nothing
    decreases hi - lo
  {
    if lo < hi {
      var banks, colours := PassGroups(vals), PassColours(vals);
      var rest := EmitCmds(u, lo + 1, hi, changed, banks, colours, table);
      var blk := if changed[lo] then BlockCmds(u, lo, banks[lo], colours[lo], table) else [];
      EmitCmdsStep(u, lo, hi, changed, banks, colours, table);
      DeliveredAppend(rest, blk, u, Byte(t), k);
      if t == lo {
        RestSilent(u, lo + 1, hi, changed, vals, table, t, k);
        ThenNothing(Delivered(blk, u, Byte(t), k));
      } else {
        EmitDelivered(u, lo + 1, hi, changed, vals, table, t, k);
        BlockSilent(u, lo, changed, vals, table, t, k);
      }
    }
  }

  lemma EmitCmdsStep(uid: bv8, lo: nat, hi: nat, changed: seq<bool>, banks: seq<seq<DataPair>>,
                     colours: seq<bool>, table: seq<bv8>)
    requires |table| == 256 && lo < hi <= |changed| && hi <= |banks| && hi <= |colours|
    ensures EmitCmds(uid, lo, hi, changed, banks, colours, table)
         == EmitCmds(uid, lo + 1, hi, changed, banks, colours, table)
            + (if changed[lo] then BlockCmds(uid, lo, banks[lo], colours[lo], table) else [])
  {
  }

  /** Nothing before a delivery leaves it as it is. */
  lemma ThenNothing(y: Delivery)
    requires y.count == 0 <==> y.last == Untouched
    ensures Then(Nothing, y) == y
  {
  }

  /**
   * What a pass promises channel `c`: nothing when the channel's bank
   * is unchanged; otherwise off (with the whole bank) when every channel of the
   * bank is 0, the intensity for 0 when a zero sits in a colour-mode bank, nothing
   * for any other zero, full on for 0xFF, and the intensity for any other value.
   */
  function Intended(vals: seq<bv8>, prev: seq<bv8>, changed: seq<bool>, table: seq<bv8>, c: nat): Effect
    requires |table| == 256 && |vals| == |prev| && c < |vals| && BankCount(|vals|) <= |changed|
  {
    var b := c / 16;
    var s := BankSlice(vals, b);
    var v := vals[c];
    if !PassChanged(changed, vals, prev)[b] then Untouched
    else if v == 0 then (if AllZero(s) then Off else if ColourMode(s) then Level(table[0]) else Untouched)
    else if v == 0xFF then On
    else Level(table[v as int])
  }

  /** Channel `c` of a pass is channel `c % 16` of bank `c / 16`, a bank holding channels of the pass. */
  lemma ChannelInBank(vals: seq<bv8>, c: nat)
    requires c < |vals|
    ensures c / 16 < FilledBanks(|vals|) && c % 16 < |BankSlice(vals, c / 16)|
    ensures BankSlice(vals, c / 16)[c % 16] == vals[c]
    ensures c / 16 < BankCount(|vals|)
    ensures PassGroups(vals)[c / 16] == Groups(BankSlice(vals, c / 16))
    ensures PassColours(vals)[c / 16] == ColourMode(BankSlice(vals, c / 16))
  {
  }

  /** `Intended` is what a changed bank does to the channel (`BankEffect`), and nothing for an unchanged bank. */
  lemma IntendedIsBankEffect(vals: seq<bv8>, prev: seq<bv8>, changed: seq<bool>, table: seq<bv8>, c: nat)
    requires |table| == 256 && |vals| == |prev| && c < |vals| && BankCount(|vals|) <= |changed|
    ensures c % 16 < |BankSlice(vals, c / 16)|
    ensures Intended(vals, prev, changed, table, c)
         == if PassChanged(changed, vals, prev)[c / 16]
            then BankEffect(BankSlice(vals, c / 16), ColourMode(BankSlice(vals, c / 16)), table, c % 16)
            else Untouched
  {
    ChannelInBank(vals, c);
  }

  /**
   * Every channel of a pass is addressed by at most one of the pass's commands, and
   * that command does to it exactly what `Intended` says.
   */
  lemma ChannelEffect(u: bv8, vals: seq<bv8>, prev: seq<bv8>, changed: seq<bool>, table: seq<bv8>, c: nat)
    requires |table| == 256 && |vals| == |prev| && BankCount(|vals|) <= |changed| && BankCount(|vals|) <= 256
    requires c < |vals|
    ensures Delivered(PassCmds(u, vals, prev, changed, table), u, Byte(c / 16), c % 16)
         == Once(Intended(vals, prev, changed, table, c))
  {
    var b, k := c / 16, c % 16;
    var s := BankSlice(vals, b);
    ChannelInBank(vals, c);
    IntendedIsBankEffect(vals, prev, changed, table, c);
    EmitDelivered(u, 0, BankCount(|vals|), PassChanged(changed, vals, prev), vals, table, b, k);
    if PassChanged(changed, vals, prev)[b] {
      BlockDelivered(u, b, s, ColourMode(s), table, k);
    }
  }
}
