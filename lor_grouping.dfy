/**
 * Per-bank grouping of channel values, as the frame encoder builds `lorBankData`:
 * each bank of up to 16 channels becomes a list of `LORDataPair(value, bits)`,
 * one pair per distinct value, whose mask has bit `i` set for every channel `i`
 * of the bank holding that value (the mask is held as the set of those `i`).
 */
module LorGrouping {
  import opened LorBytes

  /** One `LORDataPair`: a channel value and the mask of the bank's channels holding it. */
  datatype DataPair = DataPair(value: bv8, bits: set<nat>)

  /** Position of the first pair holding value `v`, or `|gs|` when no pair does. */
  function IndexOf(gs: seq<DataPair>, v: bv8): (i: nat)
    ensures i <= |gs|
    ensures i < |gs| ==> gs[i].value == v
    ensures forall k :: 0 <= k < i ==> gs[k].value != v
  {
    if gs == [] then 0
    else if gs[0].value == v then 0
    else 1 + IndexOf(gs[1..], v)
  }

  /**
   * Channel `off` joins the first pair holding `v` (`bits |= 1 << off`), or a new
   * pair `(v, 1 << off)` is appended when there is none.
   */
  function Insert(gs: seq<DataPair>, v: bv8, off: nat): (r: seq<DataPair>)
    requires off < 16
    ensures |r| == if IndexOf(gs, v) < |gs| then |gs| else |gs| + 1
  {
    var i := IndexOf(gs, v);
    if i < |gs| then gs[i := DataPair(v, gs[i].bits + {off})]
    else gs + [DataPair(v, {off})]
  }

  /** The pairs the encoder builds for the values `vals` of one bank, channel by channel. */
  function Groups(vals: seq<bv8>): (r: seq<DataPair>)
    requires |vals| <= 16
    ensures |r| <= |vals|
    ensures r == [] <==> vals == []
  {
    if vals == [] then [] else Insert(Groups(vals[..|vals| - 1]), vals[|vals| - 1], |vals| - 1)
  }

  /**
   * `gs` partitions the channels of `vals` by value: the values are distinct, a
   * pair's mask holds exactly the channels with its value (and no channel past the
   * bank's last), every channel has a pair, and every mask selects some channel.
   */
  ghost predicate IsPartition(gs: seq<DataPair>, vals: seq<bv8>)
    requires |vals| <= 16
  {
    && (forall g, h :: 0 <= g < h < |gs| ==> gs[g].value != gs[h].value)
    && (forall g, i :: 0 <= g < |gs| && 0 <= i < |vals| ==> (i in gs[g].bits <==> vals[i] == gs[g].value))
    && (forall g, i :: 0 <= g < |gs| && i in gs[g].bits ==> 0 <= i < |vals|)
    && (forall i :: 0 <= i < |vals| ==> exists g :: 0 <= g < |gs| && gs[g].value == vals[i])
    && (forall g :: 0 <= g < |gs| ==> gs[g].bits != {})
  }

  /** Adding channel `|vals|` to the pair `i` already holding its value keeps the partition. */
  lemma JoinKeepsPartition(gs: seq<DataPair>, vals: seq<bv8>, v: bv8, i: nat)
    requires |vals| < 16 && IsPartition(gs, vals) && i < |gs| && gs[i].value == v
    ensures IsPartition(gs[i := DataPair(v, gs[i].bits + {|vals|})], vals + [v])
  {
    var off := |vals|;
    var r, vals' := gs[i := DataPair(v, gs[i].bits + {off})], vals + [v];
    forall g: nat, k: nat | g < |r|
      ensures k in r[g].bits <==> k < |vals'| && vals'[k] == r[g].value
    {
      if k < off {
        assert vals'[k] == vals[k];
      }
      assert k in gs[g].bits <==> k < |vals| && vals[k] == gs[g].value;
      if g != i {
        assert gs[g].value != gs[i].value by {
          if g < i {} else {}
        }
      }
    }
    forall k | 0 <= k < |vals'|
      ensures exists g :: 0 <= g < |r| && r[g].value == vals'[k]
    {
      if k == off {
        assert r[i].value == vals'[k];
      } else {
        var g :| 0 <= g < |gs| && gs[g].value == vals[k];
        assert r[g].value == vals'[k];
      }
    }
    assert off in r[i].bits;
  }

  /** Adding channel `|vals|` with a value no pair holds, as a new pair, keeps the partition. */
  lemma AppendKeepsPartition(gs: seq<DataPair>, vals: seq<bv8>, v: bv8)
    requires |vals| < 16 && IsPartition(gs, vals)
    requires forall g :: 0 <= g < |gs| ==> gs[g].value != v
    ensures IsPartition(gs + [DataPair(v, {|vals|})], vals + [v])
  {
    var off := |vals|;
    var r, vals' := gs + [DataPair(v, {off})], vals + [v];
    forall g: nat, k: nat | g < |r|
      ensures k in r[g].bits <==> k < |vals'| && vals'[k] == r[g].value
    {
      if k < off {
        assert vals'[k] == vals[k];
      }
      if g == |gs| {
        assert r[g] == DataPair(v, {off});
      } else {
        assert r[g] == gs[g];
        assert k in gs[g].bits <==> k < |vals| && vals[k] == gs[g].value;
      }
    }
    forall k | 0 <= k < |vals'|
      ensures exists g :: 0 <= g < |r| && r[g].value == vals'[k]
    {
      if k == off {
        assert r[|gs|].value == vals'[k];
      } else {
        var g :| 0 <= g < |gs| && gs[g].value == vals[k];
        assert r[g].value == vals'[k];
      }
    }
    assert off in r[|gs|].bits;
  }

  /**
   * The grouping of a bank partitions its channels by value, and there are never
   * more pairs than channels.
   */
  lemma {:induction false} GroupsPartition(vals: seq<bv8>)
    requires |vals| <= 16
    ensures IsPartition(Groups(vals), vals)
    ensures |Groups(vals)| <= |vals|
  {
    if vals != [] {
      var n := |vals| - 1;
      var front := vals[..n];
      GroupsPartition(front);
      assert front + [vals[n]] == vals;
      var gs := Groups(front);
      var i := IndexOf(gs, vals[n]);
      if i < |gs| {
        JoinKeepsPartition(gs, front, vals[n], i);
      } else {
        AppendKeepsPartition(gs, front, vals[n]);
      }
    }
  }

  /** The masks of two different pairs of a bank never share a channel. */
  lemma GroupsDisjoint(vals: seq<bv8>, g: nat, h: nat, i: nat)
    requires |vals| <= 16 && g < h < |Groups(vals)|
    ensures !(i in Groups(vals)[g].bits && i in Groups(vals)[h].bits)
  {
    GroupsPartition(vals);
  }

  /** Every channel of the bank is in some pair's mask, and no channel past the bank's last is. */
  lemma GroupsCover(vals: seq<bv8>, i: nat)
    requires |vals| <= 16
    ensures (exists g :: 0 <= g < |Groups(vals)| && i in Groups(vals)[g].bits) <==> i < |vals|
  {
    GroupsPartition(vals);
    var gs := Groups(vals);
    if i < |vals| {
      var g :| 0 <= g < |gs| && gs[g].value == vals[i];
      assert i in gs[g].bits;
    }
  }

  /**
   * AddToBank: the search loop of the encoder over the current bank's pairs. The
   * first pair with the channel's value gets the channel's bit and the search stops;
   * when no pair matches, a new pair is appended.
   */
  method AddToBank(gs: seq<DataPair>, v: bv8, off: nat) returns (r: seq<DataPair>)
    requires off < 16
    ensures r == Insert(gs, v, off)
  {
    var processed := false;
    r := gs;
    var i := 0;
    while i < |gs|
      invariant 0 <= i <= |gs|
      invariant forall k :: 0 <= k < i ==> gs[k].value != v
      invariant !processed && r == gs
    {
      if gs[i].value == v {
        r := gs[i := DataPair(gs[i].value, gs[i].bits + {off})];
        processed := true;
        break;
      }
      i := i + 1;
    }
    if !processed {
      r := gs + [DataPair(v, {off})];
    }
  }
}
