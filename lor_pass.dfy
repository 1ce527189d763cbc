/**
 * What one pass of the frame encoder computes, as functions of the pass's channel
 * values `vals` (the `channels_per_pass` bytes from `cur_channel` on) and the values
 * `prev` last sent for those channels.
 *
 * A pass splits its channels into banks of 16 (`lorBankData` has `cpp / 16 + 1`
 * entries, the last one empty when `cpp` is a multiple of 16), groups each bank's
 * values, records which banks differ from what was last sent, and emits the
 * commands of every changed bank from the highest bank down to bank 0: first the
 * zero groups, then the 0xFF groups, then the groups valued 1..254.
 */
module LorPass {
  import opened LorBytes
  import opened LorCommand
  import opened LorGrouping

  function Min(a: nat, b: nat): nat { if a < b then a else b }

  /** `lorBankData.size()`: one bank per 16 channels of the pass, plus one. */
  function BankCount(cpp: nat): nat { cpp / 16 + 1 }

  /** The banks holding at least one channel of a pass, ceil(cpp / 16). */
  function FilledBanks(cpp: nat): nat { (cpp + 15) / 16 }

  /** Channels are left after `i` whole banks exactly when fewer than `FilledBanks(cpp)` banks are done. */
  lemma ChannelsLeft(cpp: nat, i: nat)
    ensures cpp - 16 * i > 0 <==> i < FilledBanks(cpp)
  {
  }

  /** The values of bank `b` of a pass: channels `16 * b` up to `16 * b + 15`, cut at the pass's end. */
  function BankSlice(vals: seq<bv8>, b: nat): (s: seq<bv8>)
    ensures |s| <= 16
    ensures b >= FilledBanks(|vals|) ==> s == []
  {
    vals[Min(16 * b, |vals|)..Min(16 * b + 16, |vals|)]
  }

  /** A bank is in colour mode when one of its values is neither 0 nor 0xFF. */
  predicate ColourMode(s: seq<bv8>)
  {
    |s| > 0 && (ColourMode(s[..|s| - 1]) || (0 < s[|s| - 1] < 0xFF))
  }

  lemma {:induction false} ColourModeMeans(s: seq<bv8>)
    ensures ColourMode(s) <==> exists k :: 0 <= k < |s| && 0 < s[k] < 0xFF
  {
    if |s| > 0 {
      var front := s[..|s| - 1];
      ColourModeMeans(front);
      if ColourMode(front) {
        var k :| 0 <= k < |front| && 0 < front[k] < 0xFF;
        assert s[k] == front[k];
      }
      if exists k :: 0 <= k < |s| && 0 < s[k] < 0xFF {
        var k :| 0 <= k < |s| && 0 < s[k] < 0xFF;
        if k < |front| {
          assert front[k] == s[k];
        }
      }
    }
  }

  /** `lorBankData` after the pass's channel loop: the grouping of every bank. */
  function PassGroups(vals: seq<bv8>): (r: seq<seq<DataPair>>)
    ensures |r| == BankCount(|vals|)
  {
    seq(BankCount(|vals|), b requires 0 <= b => Groups(BankSlice(vals, b)))
  }

  /** `color_mode[b]` for every bank the emission loop reads. */
  function PassColours(vals: seq<bv8>): (r: seq<bool>)
    ensures |r| == BankCount(|vals|)
  {
    seq(BankCount(|vals|), b requires 0 <= b => ColourMode(BankSlice(vals, b)))
  }

  /**
   * `banks_changed` after the pass: each bank holding channels of the pass records
   * whether it differs from what was last sent; every other entry keeps its value.
   */
  function PassChanged(changed: seq<bool>, vals: seq<bv8>, prev: seq<bv8>): (r: seq<bool>)
    requires |vals| == |prev|
    ensures |r| == |changed|
  {
    seq(|changed|, b requires 0 <= b < |changed| =>
      if b < FilledBanks(|vals|) then BankSlice(vals, b) != BankSlice(prev, b) else changed[b])
  }

  /** The three kinds of groups, in the order the encoder emits them within a bank. */
  datatype Kind = ZeroGroups | FullGroups | ValueGroups

  /**
   * The bytes the encoder emits for pair `g` of a bank while handling `kind`:
   * a zero group is the bank-off shortcut when it is the bank's only pair, the
   * colour-mode zero command when the bank is in colour mode, and nothing
   * otherwise; a 0xFF group is a command with no value byte; a group valued
   * 1..254 is a command carrying `table[value]`.
   */
  function GroupBytes(kind: Kind, uid: bv8, bank: nat, gs: seq<DataPair>, colour: bool, table: seq<bv8>, g: nat)
    : (r: seq<bv8>)
    requires |table| == 256 && g < |gs|
    ensures |r| <= 7
  {
    var p := gs[g];
    match kind
    case ZeroGroups =>
      if p.value != 0 then []
      else if |gs| == 1 then BankOffBytes(uid, bank)
      else if colour then ZeroColourBytes(uid, bank, table[0], Lsb(p.bits), Msb(p.bits))
      else []
    case FullGroups =>
      if p.value != 0xFF then []
      else CommandBytes(uid, bank, false, table[0xFF], Lsb(p.bits), Msb(p.bits))
    case ValueGroups =>
      if p.value == 0 || p.value == 0xFF then []
      else CommandBytes(uid, bank, true, table[p.value as int], Lsb(p.bits), Msb(p.bits))
  }

  /** The bytes of kind `kind` for the first `n` pairs of a bank. */
  function PartBytes(kind: Kind, uid: bv8, bank: nat, gs: seq<DataPair>, colour: bool, table: seq<bv8>, n: nat)
    : (r: seq<bv8>)
    requires |table| == 256 && n <= |gs|
    ensures |r| <= 7 * n
  {
    if n == 0 then [] else PartBytes(kind, uid, bank, gs, colour, table, n - 1) + GroupBytes(kind, uid, bank, gs, colour, table, n - 1)
  }

  /** Everything the encoder emits for one changed bank. */
  function BankBlock(uid: bv8, bank: nat, gs: seq<DataPair>, colour: bool, table: seq<bv8>): (r: seq<bv8>)
    requires |table| == 256
    ensures |r| <= 21 * |gs|
  {
    PartBytes(ZeroGroups, uid, bank, gs, colour, table, |gs|)
    + PartBytes(FullGroups, uid, bank, gs, colour, table, |gs|)
    + PartBytes(ValueGroups, uid, bank, gs, colour, table, |gs|)
  }

  /** The emission loop over banks `hi - 1` down to `lo`: the block of each changed bank. */
  function EmitRange(uid: bv8, lo: nat, hi: nat, changed: seq<bool>, banks: seq<seq<DataPair>>,
                     colours: seq<bool>, table: seq<bv8>): (r: seq<bv8>)
    requires |table| == 256 && hi <= |changed| && hi <= |banks| && hi <= |colours|
    ensures (forall b :: lo <= b < hi ==> !changed[b]) ==> r == []
    decreases hi - lo
  {
    if lo >= hi then []
    else
      EmitRange(uid, lo + 1, hi, changed, banks, colours, table)
      + (if changed[lo] then BankBlock(uid, lo, banks[lo], colours[lo], table) else [])
  }

  /** The commands of a whole pass, before the `00 00` terminator. */
  function PassBody(uid: bv8, vals: seq<bv8>, prev: seq<bv8>, changed: seq<bool>, table: seq<bv8>): seq<bv8>
    requires |table| == 256 && |vals| == |prev| && BankCount(|vals|) <= |changed|
  {
    EmitRange(uid, 0, BankCount(|vals|), PassChanged(changed, vals, prev), PassGroups(vals), PassColours(vals), table)
  }

  /** What a pass writes to the serial port: its commands and `00 00`, only when a channel changed. */
  function PassWrites(uid: bv8, vals: seq<bv8>, prev: seq<bv8>, changed: seq<bool>, table: seq<bv8>): (r: seq<seq<bv8>>)
    requires |table| == 256 && |vals| == |prev| && BankCount(|vals|) <= |changed|
    ensures |r| <= 1
  {
    if vals != prev then [PassBody(uid, vals, prev, changed, table) + [0, 0]] else []
  }

  /** A pass writes to the serial port exactly when one of its channels differs from what was last sent. */
  lemma PassWritesIffChanged(uid: bv8, vals: seq<bv8>, prev: seq<bv8>, changed: seq<bool>, table: seq<bv8>)
    requires |table| == 256 && |vals| == |prev| && BankCount(|vals|) <= |changed|
    ensures PassWrites(uid, vals, prev, changed, table) != [] <==> exists c :: 0 <= c < |vals| && vals[c] != prev[c]
  {
  }

  // ---------------------------------------------------------------------------
  // One channel of the gather loop
  // ---------------------------------------------------------------------------

  /**
   * Channel `j` joins bank `j / 16` at offset `j % 16`: that bank's slice of the
   * first `j + 1` values is its slice of the first `j` plus `vals[j]`, and no other
   * bank's slice changes.
   */
  lemma SliceStep(vals: seq<bv8>, j: nat, b: nat)
    requires j < |vals|
    ensures |BankSlice(vals[..j], j / 16)| == j % 16
    ensures BankSlice(vals[..j + 1], b)
         == if b == j / 16 then BankSlice(vals[..j], b) + [vals[j]] else BankSlice(vals[..j], b)
  {
    var q := j / 16;
    assert 16 * q <= j < 16 * q + 16;
    PrefixSlice(vals, j, 16 * q, j);
    if b < q {
      PrefixSlice(vals, j, 16 * b, 16 * b + 16);
      PrefixSlice(vals, j + 1, 16 * b, 16 * b + 16);
    } else if b == q {
      PrefixSlice(vals, j + 1, 16 * b, j + 1);
      SliceSnoc(vals, 16 * b, j);
    }
  }

  /** Slicing a prefix inside its length is slicing the whole. */
  lemma PrefixSlice(vals: seq<bv8>, n: nat, lo: nat, hi: nat)
    requires lo <= hi <= n <= |vals|
    ensures vals[..n][lo..hi] == vals[lo..hi]
  {
  }

  /** A slice one longer is the slice and the next value. */
  lemma SliceSnoc(vals: seq<bv8>, lo: nat, j: nat)
    requires lo <= j < |vals|
    ensures vals[lo..j + 1] == vals[lo..j] + [vals[j]]
  {
  }

  /** The bank a gather loop is about to open holds none of the first `j` values. */
  lemma SliceEmpty(vals: seq<bv8>, j: nat, b: nat)
    requires j <= |vals| && 16 * b >= j
    ensures BankSlice(vals[..j], b) == []
  {
  }

  /** Every bank's slice of the whole prefix is the bank's slice of the pass. */
  lemma SliceWhole(vals: seq<bv8>, b: nat)
    ensures BankSlice(vals[..|vals|], b) == BankSlice(vals, b)
  {
    assert vals[..|vals|] == vals;
  }

  /** A bank is in colour mode after a value exactly when it was before or the value is neither 0 nor 0xFF. */
  lemma ColourStep(s: seq<bv8>, v: bv8)
    ensures ColourMode(s + [v]) <==> ColourMode(s) || (0 < v < 0xFF)
  {
    assert (s + [v])[..|s|] == s;
  }

  /** The grouping of a bank after a value is the grouping before with the value inserted at the bank's next offset. */
  lemma GroupsStep(s: seq<bv8>, v: bv8)
    requires |s| < 16
    ensures Groups(s + [v]) == Insert(Groups(s), v, |s|)
  {
    assert (s + [v])[..|s|] == s;
  }

  /** Two equally long value lists extended by one value differ exactly when they did or the new values differ. */
  lemma DiffStep(a: seq<bv8>, b: seq<bv8>, x: bv8, y: bv8)
    requires |a| == |b|
    ensures (a + [x] != b + [y]) <==> (a != b || x != y)
  {
    if a + [x] == b + [y] {
      assert a == (a + [x])[..|a|] == (b + [y])[..|b|] == b;
      assert x == (a + [x])[|a|] == (b + [y])[|b|] == y;
    }
  }

  /**
   * The gather loop's bank and offset after channel `j` of a pass of `cpp`
   * channels: the offset grows by one, or wraps to 0 and the bank grows by one;
   * the bank of the last channel is the last filled bank.
   */
  lemma ChannelAdvance(j: nat, cpp: nat)
    requires j < cpp
    ensures j / 16 + 1 <= FilledBanks(cpp)
    ensures j % 16 + 1 == 16 ==> (j + 1) / 16 == j / 16 + 1 && (j + 1) % 16 == 0
    ensures j % 16 + 1 < 16 ==> (j + 1) / 16 == j / 16 && (j + 1) % 16 == j % 16 + 1
    ensures j + 1 == cpp ==> FilledBanks(cpp) == j / 16 + 1
    ensures (j + 1) / 16 <= j / 16 + 1 && j + 1 <= 16 * (j / 16 + 1)
  {
  }

  /** Channel `n` of a pass sits at bank `shift` and offset `off` when `n == 16 * shift + off`. */
  lemma Position(n: nat, shift: nat, off: nat, cpp: nat)
    requires n < cpp && n == 16 * shift + off && off < 16
    ensures n / 16 == shift && n % 16 == off && shift < FilledBanks(cpp)
    ensures n + 1 == cpp ==> FilledBanks(cpp) == shift + 1
  {
  }

  /** `sent` with the `j` values from position `cur` replaced by the first `j` of `vals`. */
  function Splice(sent: seq<bv8>, vals: seq<bv8>, cur: nat, j: nat): (r: seq<bv8>)
    requires j <= |vals| && cur + |vals| <= |sent|
    ensures |r| == |sent|
  {
    sent[..cur] + vals[..j] + sent[cur + j..]
  }

  /** Copying value `j` into a splice of the first `j` values gives the splice of the first `j + 1`. */
  lemma SpliceGrow(sent: seq<bv8>, vals: seq<bv8>, cur: nat, j: nat)
    requires j < |vals| && cur + |vals| <= |sent|
    ensures Splice(sent, vals, cur, j)[cur + j] == sent[cur + j]
    ensures Splice(sent, vals, cur, j)[cur + j := vals[j]] == Splice(sent, vals, cur, j + 1)
  {
    var a := (sent[..cur] + vals[..j] + sent[cur + j..])[cur + j := vals[j]];
    var b := sent[..cur] + vals[..j + 1] + sent[cur + j + 1..];
    assert |a| == |b|;
    forall i | 0 <= i < |a|
      ensures a[i] == b[i]
    {
      if i < cur {
      } else if i < cur + j {
      } else if i == cur + j {
      }
    }
  }

  /** `lorBankData` once the gather loop has seen the first `n` channels of the pass. */
  function GatherGroups(vals: seq<bv8>, n: nat): (r: seq<seq<DataPair>>)
    requires n <= |vals|
    ensures |r| == BankCount(|vals|)
  {
    seq(BankCount(|vals|), b requires 0 <= b => Groups(BankSlice(vals[..n], b)))
  }

  /** `color_mode[0..m)` once the gather loop has seen the first `n` channels. */
  function GatherColours(vals: seq<bv8>, n: nat, m: nat): (r: seq<bool>)
    requires n <= |vals|
    ensures |r| == m
  {
    seq(m, b requires 0 <= b => ColourMode(BankSlice(vals[..n], b)))
  }

  /** `banks_changed` once the gather loop has seen `n` channels and closed the first `m` banks. */
  function GatherChanged(changed: seq<bool>, vals: seq<bv8>, prev: seq<bv8>, n: nat, m: nat): (r: seq<bool>)
    requires n <= |vals| == |prev|
    ensures |r| == |changed|
  {
    seq(|changed|, b requires 0 <= b < |changed| =>
      if b < m then BankSlice(vals[..n], b) != BankSlice(prev[..n], b) else changed[b])
  }

  /** The prefix states before the first channel. */
  lemma GatherStart(changed: seq<bool>, vals: seq<bv8>, prev: seq<bv8>)
    requires |vals| == |prev|
    ensures GatherGroups(vals, 0) == seq(BankCount(|vals|), _ => [])
    ensures GatherColours(vals, 0, 1) == [false]
    ensures GatherChanged(changed, vals, prev, 0, 0) == changed
  {
  }

  /** Channel `j` is inserted into the grouping of bank `j / 16` at offset `j % 16`. */
  lemma GatherGroupsStep(vals: seq<bv8>, j: nat)
    requires j < |vals|
    ensures j / 16 < BankCount(|vals|)
    ensures GatherGroups(vals, j + 1)
         == GatherGroups(vals, j)[j / 16 := Insert(GatherGroups(vals, j)[j / 16], vals[j], j % 16)]
  {
    var before, after := GatherGroups(vals, j), GatherGroups(vals, j + 1);
    var expected := before[j / 16 := Insert(before[j / 16], vals[j], j % 16)];
    forall b | 0 <= b < BankCount(|vals|)
      ensures after[b] == expected[b]
    {
      SliceStep(vals, j, b);
      if b == j / 16 {
        GroupsStep(BankSlice(vals[..j], b), vals[j]);
      }
    }
  }

  /** Channel `j` puts bank `j / 16` in colour mode exactly when it is neither 0 nor 0xFF. */
  lemma GatherColoursStep(vals: seq<bv8>, j: nat)
    requires j < |vals|
    ensures GatherColours(vals, j + 1, j / 16 + 1)
         == GatherColours(vals, j, j / 16 + 1)[j / 16 := GatherColours(vals, j, j / 16 + 1)[j / 16] || (0 < vals[j] < 0xFF)]
  {
    var m := j / 16 + 1;
    var before, after := GatherColours(vals, j, m), GatherColours(vals, j + 1, m);
    var expected := before[j / 16 := before[j / 16] || (0 < vals[j] < 0xFF)];
    forall b | 0 <= b < m
      ensures after[b] == expected[b]
    {
      SliceStep(vals, j, b);
      if b == j / 16 {
        ColourStep(BankSlice(vals[..j], b), vals[j]);
      }
    }
  }

  /** A bank that holds none of the first `n` channels starts out of colour mode. */
  lemma GatherColoursOpen(vals: seq<bv8>, n: nat, m: nat)
    requires n <= |vals| && n <= 16 * m
    ensures GatherColours(vals, n, m + 1) == GatherColours(vals, n, m) + [false]
  {
    SliceEmpty(vals, n, m);
  }

  /** Whether bank `j / 16` differs after channel `j`: it did before, or channel `j` differs. */
  lemma BankDiffStep(vals: seq<bv8>, prev: seq<bv8>, j: nat)
    requires j < |vals| == |prev|
    ensures (BankSlice(vals[..j + 1], j / 16) != BankSlice(prev[..j + 1], j / 16))
        <==> (BankSlice(vals[..j], j / 16) != BankSlice(prev[..j], j / 16) || vals[j] != prev[j])
  {
    var b := j / 16;
    SliceStep(vals, j, b);
    SliceStep(prev, j, b);
    DiffStep(BankSlice(vals[..j], b), BankSlice(prev[..j], b), vals[j], prev[j]);
  }

  /** A bank that holds none of the first `n` channels does not differ yet. */
  lemma BankDiffOpen(vals: seq<bv8>, prev: seq<bv8>, n: nat, b: nat)
    requires n <= |vals| == |prev| && n <= 16 * b
    ensures BankSlice(vals[..n], b) == BankSlice(prev[..n], b) == []
  {
    SliceEmpty(vals, n, b);
    SliceEmpty(prev, n, b);
  }

  /** The pass differs after channel `j` when it did before or channel `j` differs. */
  lemma FrameDiffStep(vals: seq<bv8>, prev: seq<bv8>, j: nat)
    requires j < |vals| == |prev|
    ensures (vals[..j + 1] != prev[..j + 1]) <==> (vals[..j] != prev[..j] || vals[j] != prev[j])
  {
    assert vals[..j + 1] == vals[..j] + [vals[j]] && prev[..j + 1] == prev[..j] + [prev[j]];
    DiffStep(vals[..j], prev[..j], vals[j], prev[j]);
  }

  /**
   * Channel `j` leaves the record of closed banks alone, and closing bank `sh`
   * after it records whether that bank differs.
   */
  lemma GatherChangedStep(changed: seq<bool>, vals: seq<bv8>, prev: seq<bv8>, j: nat, sh: nat)
    requires j < |vals| == |prev| && sh == j / 16
    ensures GatherChanged(changed, vals, prev, j + 1, sh) == GatherChanged(changed, vals, prev, j, sh)
    ensures sh < |changed| ==>
              (GatherChanged(changed, vals, prev, j + 1, sh + 1)
            == GatherChanged(changed, vals, prev, j + 1, sh)[sh := BankSlice(vals[..j + 1], sh) != BankSlice(prev[..j + 1], sh)])
  {
    forall b | 0 <= b < sh
      ensures BankSlice(vals[..j + 1], b) == BankSlice(vals[..j], b)
      ensures BankSlice(prev[..j + 1], b) == BankSlice(prev[..j], b)
    {
      SliceStep(vals, j, b);
      SliceStep(prev, j, b);
    }
  }

  /** What the gather loop holds between channels. */
  datatype Gathered = Gathered(groups: seq<seq<DataPair>>, colours: seq<bool>, changed: seq<bool>,
                               bankChanged: bool, frameChanged: bool)

  /** The bank the gather loop fills next after `n` of the pass's `cpp` channels. */
  function OpenBank(n: nat, cpp: nat): nat { if n < cpp then n / 16 else FilledBanks(cpp) }

  /** The gather loop's state fits a pass after `n` channels. */
  predicate GatherShape(g: Gathered, n: nat, cpp: nat)
  {
    |g.groups| == BankCount(cpp) && |g.colours| == OpenBank(n, cpp) + 1 && FilledBanks(cpp) < |g.changed|
  }

  /**
   * One channel `j` of the gather loop: it sets its bank's colour mode, joins its
   * bank's grouping and the change flags, and closes the bank when it is the
   * bank's sixteenth channel or the pass's last.
   */
  function GatherStep(vals: seq<bv8>, prev: seq<bv8>, g: Gathered, j: nat): (r: Gathered)
    requires j < |vals| == |prev| && GatherShape(g, j, |vals|)
    ensures GatherShape(r, j + 1, |vals|) && |r.changed| == |g.changed|
  {
    ChannelAdvance(j, |vals|);
    var sh, v := j / 16, vals[j];
    var colours := if 0 < v < 0xFF then g.colours[sh := true] else g.colours;
    var groups := g.groups[sh := Insert(g.groups[sh], v, j % 16)];
    var bankChanged, frameChanged := g.bankChanged || v != prev[j], g.frameChanged || v != prev[j];
    if j % 16 + 1 == 16 || j + 1 == |vals| then
      Gathered(groups, colours + [false], g.changed[sh := bankChanged], false, frameChanged)
    else
      Gathered(groups, colours, g.changed, bankChanged, frameChanged)
  }

  /** The fields of one gather step, one by one. */
  lemma GatherStepFields(vals: seq<bv8>, prev: seq<bv8>, g: Gathered, j: nat)
    requires j < |vals| == |prev| && GatherShape(g, j, |vals|)
    ensures j / 16 < |g.groups| && j / 16 < |g.colours| && j / 16 < |g.changed|
    ensures var r, sh, close := GatherStep(vals, prev, g, j), j / 16, j % 16 + 1 == 16 || j + 1 == |vals|;
            && r.groups == g.groups[sh := Insert(g.groups[sh], vals[j], j % 16)]
            && r.colours == (if 0 < vals[j] < 0xFF then g.colours[sh := true] else g.colours) + (if close then [false] else [])
            && r.changed == (if close then g.changed[sh := g.bankChanged || vals[j] != prev[j]] else g.changed)
            && r.bankChanged == (!close && (g.bankChanged || vals[j] != prev[j]))
            && r.frameChanged == (g.frameChanged || vals[j] != prev[j])
  {
    ChannelAdvance(j, |vals|);
  }

  /**
   * The gather loop's state after `n` channels is the prefix state: the groupings
   * and colour modes of the banks so far, the differences of the closed banks,
   * and whether the open bank and the pass differ so far.
   */
  predicate GatherHolds(changed: seq<bool>, vals: seq<bv8>, prev: seq<bv8>, g: Gathered, n: nat)
    requires n <= |vals| == |prev|
  {
    && g.groups == GatherGroups(vals, n)
    && g.colours == GatherColours(vals, n, OpenBank(n, |vals|) + 1)
    && g.changed == GatherChanged(changed, vals, prev, n, OpenBank(n, |vals|))
    && (n < |vals| ==> g.bankChanged == (BankSlice(vals[..n], n / 16) != BankSlice(prev[..n], n / 16)))
    && g.frameChanged == (vals[..n] != prev[..n])
  }

  /** The gather loop's state before the first channel. */
  function GatherInit(changed: seq<bool>, vals: seq<bv8>): Gathered
  {
    Gathered(seq(BankCount(|vals|), _ => []), [false], changed, false, false)
  }

  /** One channel keeps the groupings those of the prefix. */
  lemma GatherGroupsRunStep(vals: seq<bv8>, prev: seq<bv8>, g: Gathered, j: nat)
    requires j < |vals| == |prev| && GatherShape(g, j, |vals|)
    requires g.groups == GatherGroups(vals, j)
    ensures GatherStep(vals, prev, g, j).groups == GatherGroups(vals, j + 1)
  {
    ChannelAdvance(j, |vals|);
    assert GatherStep(vals, prev, g, j).groups == g.groups[j / 16 := Insert(g.groups[j / 16], vals[j], j % 16)];
    GatherGroupsStep(vals, j);
  }

  /** One channel keeps the colour flags those of the prefix. */
  lemma GatherColoursRunStep(vals: seq<bv8>, prev: seq<bv8>, g: Gathered, j: nat)
    requires j < |vals| == |prev| && GatherShape(g, j, |vals|)
    requires g.colours == GatherColours(vals, j, j / 16 + 1)
    ensures GatherStep(vals, prev, g, j).colours == GatherColours(vals, j + 1, OpenBank(j + 1, |vals|) + 1)
  {
    ChannelAdvance(j, |vals|);
    GatherColoursStep(vals, j);
    var before, colours := g.colours, GatherColours(vals, j + 1, j / 16 + 1);
    if 0 < vals[j] < 0xFF {
      assert colours == before[j / 16 := true];
    } else {
      assert colours == before[j / 16 := before[j / 16]] == before;
    }
    if j % 16 + 1 == 16 || j + 1 == |vals| {
      assert GatherStep(vals, prev, g, j).colours == colours + [false];
      assert OpenBank(j + 1, |vals|) == j / 16 + 1;
      GatherColoursOpen(vals, j + 1, j / 16 + 1);
    } else {
      assert GatherStep(vals, prev, g, j).colours == colours;
    }
  }

  /** One channel keeps the change flags those of the prefix. */
  lemma GatherFlagsRunStep(vals: seq<bv8>, prev: seq<bv8>, g: Gathered, j: nat)
    requires j < |vals| == |prev| && GatherShape(g, j, |vals|)
    requires g.bankChanged == (BankSlice(vals[..j], j / 16) != BankSlice(prev[..j], j / 16))
    requires g.frameChanged == (vals[..j] != prev[..j])
    ensures var r := GatherStep(vals, prev, g, j);
            && (j + 1 < |vals| ==> r.bankChanged == (BankSlice(vals[..j + 1], (j + 1) / 16) != BankSlice(prev[..j + 1], (j + 1) / 16)))
            && r.frameChanged == (vals[..j + 1] != prev[..j + 1])
  {
    ChannelAdvance(j, |vals|);
    FrameDiffStep(vals, prev, j);
    assert GatherStep(vals, prev, g, j).frameChanged == (g.frameChanged || vals[j] != prev[j]);
    if j % 16 + 1 == 16 || j + 1 == |vals| {
      if j + 1 < |vals| {
        BankDiffOpen(vals, prev, j + 1, (j + 1) / 16);
      }
    } else {
      BankDiffStep(vals, prev, j);
      assert GatherStep(vals, prev, g, j).bankChanged == (g.bankChanged || vals[j] != prev[j]);
    }
  }

  /** One channel keeps `banks_changed` the record of the closed banks. */
  lemma GatherChangedRunStep(changed: seq<bool>, vals: seq<bv8>, prev: seq<bv8>, g: Gathered, j: nat)
    requires j < |vals| == |prev| && GatherShape(g, j, |vals|) && |changed| == |g.changed|
    requires g.changed == GatherChanged(changed, vals, prev, j, j / 16)
    requires g.bankChanged == (BankSlice(vals[..j], j / 16) != BankSlice(prev[..j], j / 16))
    ensures GatherStep(vals, prev, g, j).changed == GatherChanged(changed, vals, prev, j + 1, OpenBank(j + 1, |vals|))
  {
    ChannelAdvance(j, |vals|);
    BankDiffStep(vals, prev, j);
    GatherChangedStep(changed, vals, prev, j, j / 16);
    if j % 16 + 1 == 16 || j + 1 == |vals| {
      assert GatherStep(vals, prev, g, j).changed == g.changed[j / 16 := g.bankChanged || vals[j] != prev[j]];
      assert OpenBank(j + 1, |vals|) == j / 16 + 1;
    } else {
      assert GatherStep(vals, prev, g, j).changed == g.changed;
    }
  }

  /** The gather loop starts from the prefix state of no channels. */
  lemma GatherStarts(changed: seq<bool>, vals: seq<bv8>, prev: seq<bv8>)
    requires |vals| == |prev| && FilledBanks(|vals|) < |changed|
    ensures GatherShape(GatherInit(changed, vals), 0, |vals|)
    ensures GatherHolds(changed, vals, prev, GatherInit(changed, vals), 0)
  {
    GatherStart(changed, vals, prev);
    assert vals[..0] == prev[..0];
  }

  /** Each channel of the gather loop keeps its state the prefix state. */
  lemma GatherStepHolds(changed: seq<bool>, vals: seq<bv8>, prev: seq<bv8>, g: Gathered, j: nat)
    requires j < |vals| == |prev| && GatherShape(g, j, |vals|) && |changed| == |g.changed|
    requires GatherHolds(changed, vals, prev, g, j)
    ensures GatherHolds(changed, vals, prev, GatherStep(vals, prev, g, j), j + 1)
  {
    assert OpenBank(j, |vals|) == j / 16;
    GatherGroupsRunStep(vals, prev, g, j);
    GatherColoursRunStep(vals, prev, g, j);
    GatherFlagsRunStep(vals, prev, g, j);
    GatherChangedRunStep(changed, vals, prev, g, j);
  }

  /** At the end of the pass the gather loop holds the pass's groupings, colour modes and changes. */
  lemma GatherFinish(changed: seq<bool>, vals: seq<bv8>, prev: seq<bv8>, g: Gathered, n: nat)
    requires n == |vals| == |prev| && GatherShape(g, n, n)
    requires GatherHolds(changed, vals, prev, g, n)
    ensures g.groups == PassGroups(vals)
    ensures BankCount(n) <= |g.colours| && g.colours[..BankCount(n)] == PassColours(vals)
    ensures g.changed == PassChanged(changed, vals, prev)
    ensures g.frameChanged == (vals != prev)
  {
    GatherEnd(changed, vals, prev, |g.colours|);
  }

  /** A splice of all the values. */
  lemma SpliceAll(sent: seq<bv8>, vals: seq<bv8>, cur: nat, n: nat)
    requires n == |vals| && cur + n <= |sent|
    ensures Splice(sent, vals, cur, n) == sent[..cur] + vals + sent[cur + n..]
  {
    assert vals[..|vals|] == vals;
  }

  /** After the whole pass the prefix states are those of the pass. */
  lemma GatherEnd(changed: seq<bool>, vals: seq<bv8>, prev: seq<bv8>, m: nat)
    requires |vals| == |prev| && BankCount(|vals|) <= m
    ensures GatherGroups(vals, |vals|) == PassGroups(vals)
    ensures GatherColours(vals, |vals|, m)[..BankCount(|vals|)] == PassColours(vals)
    ensures GatherChanged(changed, vals, prev, |vals|, FilledBanks(|vals|)) == PassChanged(changed, vals, prev)
  {
    assert vals[..|vals|] == vals && prev[..|prev|] == prev;
  }

  // ---------------------------------------------------------------------------
  // Properties of a pass
  // ---------------------------------------------------------------------------

  /** A bank is recorded as changed exactly when one of its channels differs from what was last sent. */
  lemma ChangedMeans(changed: seq<bool>, vals: seq<bv8>, prev: seq<bv8>, b: nat)
    requires |vals| == |prev| && b < |changed| && b < FilledBanks(|vals|)
    ensures PassChanged(changed, vals, prev)[b]
        <==> exists c :: 16 * b <= c < Min(16 * b + 16, |vals|) && vals[c] != prev[c]
  {
    var lo, hi := Min(16 * b, |vals|), Min(16 * b + 16, |vals|);
    var s, t := BankSlice(vals, b), BankSlice(prev, b);
    if s != t {
      var k :| 0 <= k < |s| && s[k] != t[k];
      assert vals[lo + k] != prev[lo + k];
    }
    if exists c :: 16 * b <= c < hi && vals[c] != prev[c] {
      var c :| 16 * b <= c < hi && vals[c] != prev[c];
      assert s[c - lo] != t[c - lo];
    }
  }

  /** A pass whose values all equal what was last sent writes nothing. */
  lemma PassSilent(uid: bv8, vals: seq<bv8>, changed: seq<bool>, table: seq<bv8>)
    requires |table| == 256 && BankCount(|vals|) <= |changed|
    ensures PassWrites(uid, vals, vals, changed, table) == []
  {
  }

  /** A pass with a changed channel writes once, and the write ends with the terminator `00 00`. */
  lemma PassWriteShape(uid: bv8, vals: seq<bv8>, prev: seq<bv8>, changed: seq<bool>, table: seq<bv8>)
    requires |table| == 256 && |vals| == |prev| && BankCount(|vals|) <= |changed|
    requires exists c :: 0 <= c < |vals| && vals[c] != prev[c]
    ensures |PassWrites(uid, vals, prev, changed, table)| == 1
    ensures var w := PassWrites(uid, vals, prev, changed, table)[0];
            |w| >= 2 && w[|w| - 2..] == [0, 0]
  {
  }

  /** No kind's part is longer than it is for the whole bank. */
  lemma {:induction false} PartGrows(kind: Kind, uid: bv8, bank: nat, gs: seq<DataPair>, colour: bool, table: seq<bv8>, i: nat, n: nat)
    requires |table| == 256 && i <= n <= |gs|
    ensures |PartBytes(kind, uid, bank, gs, colour, table, i)| <= |PartBytes(kind, uid, bank, gs, colour, table, n)|
    decreases n - i
  {
    if i < n {
      var a, b := PartBytes(kind, uid, bank, gs, colour, table, i), PartBytes(kind, uid, bank, gs, colour, table, i + 1);
      PartUnfold(kind, uid, bank, gs, colour, table, i);
      assert |a| <= |b|;
      PartGrows(kind, uid, bank, gs, colour, table, i + 1, n);
    }
  }

  /** One more pair extends a part by that pair's bytes, and the longer part still fits in the whole. */
  lemma PartSnoc(kind: Kind, uid: bv8, bank: nat, gs: seq<DataPair>, colour: bool, table: seq<bv8>, i: nat)
    requires |table| == 256 && i < |gs|
    ensures PartBytes(kind, uid, bank, gs, colour, table, i + 1)
         == PartBytes(kind, uid, bank, gs, colour, table, i) + GroupBytes(kind, uid, bank, gs, colour, table, i)
    ensures |PartBytes(kind, uid, bank, gs, colour, table, i + 1)| <= |PartBytes(kind, uid, bank, gs, colour, table, |gs|)|
  {
    PartUnfold(kind, uid, bank, gs, colour, table, i);
    PartGrows(kind, uid, bank, gs, colour, table, i + 1, |gs|);
  }

  /** One more pair extends a part by that pair's bytes. */
  lemma PartUnfold(kind: Kind, uid: bv8, bank: nat, gs: seq<DataPair>, colour: bool, table: seq<bv8>, i: nat)
    requires |table| == 256 && i < |gs|
    ensures PartBytes(kind, uid, bank, gs, colour, table, i + 1)
         == PartBytes(kind, uid, bank, gs, colour, table, i) + GroupBytes(kind, uid, bank, gs, colour, table, i)
  {
  }

  /** Pair `p` is one the encoder handles under `kind`. */
  predicate OfKind(kind: Kind, p: DataPair)
  {
    match kind
    case ZeroGroups => p.value == 0
    case FullGroups => p.value == 0xFF
    case ValueGroups => p.value != 0 && p.value != 0xFF
  }

  /** How many of the first `n` pairs of a bank are handled under `kind`. */
  function KindCount(kind: Kind, gs: seq<DataPair>, n: nat): nat
    requires n <= |gs|
  {
    if n == 0 then 0 else KindCount(kind, gs, n - 1) + (if OfKind(kind, gs[n - 1]) then 1 else 0)
  }

  /** Only pairs of its own kind contribute to a part, one command of at most 7 bytes each. */
  lemma {:induction false} PartLength(kind: Kind, uid: bv8, bank: nat, gs: seq<DataPair>, colour: bool, table: seq<bv8>, n: nat)
    requires |table| == 256 && n <= |gs|
    ensures |PartBytes(kind, uid, bank, gs, colour, table, n)| <= 7 * KindCount(kind, gs, n)
  {
    if n > 0 {
      PartLength(kind, uid, bank, gs, colour, table, n - 1);
      assert !OfKind(kind, gs[n - 1]) ==> GroupBytes(kind, uid, bank, gs, colour, table, n - 1) == [];
    }
  }

  /** Every pair is of exactly one kind. */
  lemma {:induction false} KindsCover(gs: seq<DataPair>, n: nat)
    requires n <= |gs|
    ensures KindCount(ZeroGroups, gs, n) + KindCount(FullGroups, gs, n) + KindCount(ValueGroups, gs, n) == n
  {
    if n > 0 {
      KindsCover(gs, n - 1);
    }
  }

  /** A bank of the pass emits at most 112 bytes. */
  lemma BankBlockLength(uid: bv8, bank: nat, s: seq<bv8>, colour: bool, table: seq<bv8>)
    requires |table| == 256 && |s| <= 16
    ensures |BankBlock(uid, bank, Groups(s), colour, table)| <= 112
  {
    var gs := Groups(s);
    GroupsPartition(s);
    PartLength(ZeroGroups, uid, bank, gs, colour, table, |gs|);
    PartLength(FullGroups, uid, bank, gs, colour, table, |gs|);
    PartLength(ValueGroups, uid, bank, gs, colour, table, |gs|);
    KindsCover(gs, |gs|);
  }

  /** Leaving out the emission of the lowest banks only shortens it. */
  lemma {:induction false} EmitRangeGrows(uid: bv8, lo: nat, mid: nat, hi: nat, changed: seq<bool>,
                                          banks: seq<seq<DataPair>>, colours: seq<bool>, table: seq<bv8>)
    requires |table| == 256 && hi <= |changed| && hi <= |banks| && hi <= |colours| && lo <= mid
    ensures |EmitRange(uid, mid, hi, changed, banks, colours, table)| <= |EmitRange(uid, lo, hi, changed, banks, colours, table)|
    decreases mid - lo
  {
    if lo < mid {
      EmitRangeGrows(uid, lo + 1, mid, hi, changed, banks, colours, table);
    }
  }

  /** The emission loop over banks `lo..hi-1` of a pass emits at most 112 bytes per bank. */
  lemma {:induction false} EmitRangeLength(uid: bv8, lo: nat, hi: nat, changed: seq<bool>, vals: seq<bv8>, table: seq<bv8>)
    requires |table| == 256 && lo <= hi <= |changed| && hi <= BankCount(|vals|)
    ensures |EmitRange(uid, lo, hi, changed, PassGroups(vals), PassColours(vals), table)| <= 112 * (hi - lo)
    decreases hi - lo
  {
    if lo < hi {
      EmitRangeLength(uid, lo + 1, hi, changed, vals, table);
      assert PassGroups(vals)[lo] == Groups(BankSlice(vals, lo));
      BankBlockLength(uid, lo, BankSlice(vals, lo), PassColours(vals)[lo], table);
    }
  }
}
