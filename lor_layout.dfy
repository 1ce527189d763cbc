/**
 * How the LOR optimised output lays its controllers out over the frame: the
 * device types and address modes of a controller, and what `CalcChannels` works
 * out for each (the channels a controller takes, the channels sent per pass, the
 * channel budget the pass loop counts down, and the unit ids it marks in use).
 */
module LorLayout {

  datatype DeviceType = AcController | RgbController | Ccr | Ccb | Pixie4 | Pixie8 | Pixie16

  datatype AddressMode = Normal | Legacy | Split

  /** One configured LOR controller: its type, first unit id, channel count and address mode. */
  datatype Controller = Controller(deviceType: DeviceType, unitId: nat, numChannels: nat, mode: AddressMode)

  /** The number of outputs of a Pixie card, read from its type name; 0 for any other type. */
  function OutputsPerCard(t: DeviceType): nat
  {
    match t
    case Pixie4 => 4
    case Pixie8 => 8
    case Pixie16 => 16
    case _ => 0
  }

  predicate IsPixie(t: DeviceType)
  {
    t.Pixie4? || t.Pixie8? || t.Pixie16?
  }

  /**
   * The outcome of `CalcChannels` for one controller: `channelCount` (what the
   * controller adds to the output's channel total), `channelsPerPass`,
   * `toProcess` (the budget the pass loop counts down by `channelsPerPass`) and
   * `idCount`, the number of consecutive unit ids from the controller's own that
   * are marked in use.
   */
  datatype Plan = Plan(channelCount: nat, channelsPerPass: nat, toProcess: nat, idCount: nat)

  /** `num_ids` of the legacy mode: `n / 16`, plus one when that leaves channels over. */
  function LegacyIds(n: nat): (r: nat)
    ensures n <= 16 * r < n + 16
  {
    var ids := n / 16;
    if ids * 16 < n then ids + 1 else ids
  }

  function PlanOf(c: Controller): (r: Plan)
  {
    var n := c.numChannels;
    if IsPixie(c.deviceType) then
      var p := OutputsPerCard(c.deviceType);
      Plan(p * n, n, p * n, p)
    else match c.mode
      case Legacy => Plan(n, 16, n, LegacyIds(n))
      case Split => Plan(n, n / 2, n, 2)
      case Normal => Plan(n, n, n, 0)
  }

  /**
   * What `CalcChannels` sets up for a controller: the pass loop's budget is the
   * channel count it adds, which covers the controller's own channels, and a legacy
   * controller marks enough unit ids for 16 channels each.
   */
  lemma PlanCovers(c: Controller)
    ensures PlanOf(c).toProcess == PlanOf(c).channelCount
    ensures c.numChannels <= PlanOf(c).channelCount
    ensures !IsPixie(c.deviceType) && c.mode.Legacy? ==> c.numChannels <= 16 * PlanOf(c).idCount
  {
  }

  /** The pass loop stops: either it has nothing to do or every pass makes progress (a split controller of one channel never stops). */
  predicate Terminates(p: Plan)
  {
    p.toProcess == 0 || p.channelsPerPass > 0
  }

  /**
   * The number of passes of `while (controller_channels_to_process > 0) { ...;
   * controller_channels_to_process -= channels_per_pass; }` from budget `rem`.
   */
  function PassCount(cpp: nat, rem: nat): (r: nat)
    requires rem == 0 || cpp > 0
    ensures r == 0 <==> rem == 0
    decreases rem
  {
    if rem == 0 then 0 else if rem <= cpp then 1 else 1 + PassCount(cpp, rem - cpp)
  }

  /** How many unit ids the passes of a controller address: one per pass, consecutive from the controller's own. */
  function IdsUsed(c: Controller): nat
    requires Terminates(PlanOf(c))
  {
    PassCount(PlanOf(c).channelsPerPass, PlanOf(c).toProcess)
  }

  /** The data channels the pass loop from budget `rem` steps over: a full `cpp` per pass. */
  function Span(cpp: nat, rem: nat): nat
    requires rem == 0 || cpp > 0
    decreases rem
  {
    if rem == 0 then 0 else if rem <= cpp then cpp else cpp + Span(cpp, rem - cpp)
  }

  /** The data channels the passes of a controller take (none when the loop never stops). */
  function Consumed(c: Controller): nat
  {
    var p := PlanOf(c);
    if Terminates(p) then Span(p.channelsPerPass, p.toProcess) else 0
  }

  /** The data channels a frame takes: the controllers' passes one after another. */
  function Width(cs: seq<Controller>): nat
    decreases |cs|
  {
    if cs == [] then 0 else Consumed(cs[0]) + Width(cs[1..])
  }

  /** `_channels` as `CalcTotalChannels` sums it: the controllers' `channel_count`s. */
  function TotalChannels(cs: seq<Controller>): (r: nat)
    ensures forall k :: 0 <= k < |cs| ==> PlanOf(cs[k]).channelCount <= r
    decreases |cs|
  {
    if cs == [] then 0
    else
      var rest := TotalChannels(cs[1..]);
      assert forall k :: 1 <= k < |cs| ==> cs[k] == cs[1..][k - 1];
      PlanOf(cs[0]).channelCount + rest
  }

  /** The ids `CalcChannels` marks for `c` stay inside `unit_id_in_use` of `n` entries, and so does its own id. */
  predicate IdsFit(c: Controller, n: nat)
  {
    c.unitId < n && c.unitId + PlanOf(c).idCount <= n
  }

  /** `unit_id_in_use` after `CalcChannels(c)`: its `idCount` ids from `c.unitId` on are set, nothing is cleared. */
  function MarkIds(inUse: seq<bool>, c: Controller): (r: seq<bool>)
    requires IdsFit(c, |inUse|)
    ensures |r| == |inUse|
  {
    seq(|inUse|, i requires 0 <= i < |inUse| => inUse[i] || c.unitId <= i < c.unitId + PlanOf(c).idCount)
  }

  /** `CalcChannels` for each controller in turn, as the frame encoder and `AllOff` do. */
  function MarkAll(inUse: seq<bool>, cs: seq<Controller>): (r: seq<bool>)
    requires forall k :: 0 <= k < |cs| ==> IdsFit(cs[k], |inUse|)
    ensures |r| == |inUse|
    decreases |cs|
  {
    if cs == [] then inUse else MarkAll(MarkIds(inUse, cs[0]), cs[1..])
  }

  /** The loop of `CalcTotalChannels`: each controller's own id is set, then `CalcChannels` marks its ids. */
  function MarkTotal(inUse: seq<bool>, cs: seq<Controller>): (r: seq<bool>)
    requires forall k :: 0 <= k < |cs| ==> IdsFit(cs[k], |inUse|)
    ensures |r| == |inUse|
    decreases |cs|
  {
    if cs == [] then inUse
    else
      assert IdsFit(cs[0], |inUse|);
      MarkTotal(MarkIds(inUse[cs[0].unitId := true], cs[0]), cs[1..])
  }

  /** What `CalcTotalChannels` clears `unit_id_in_use` to: only id 0, which is never used, is in use. */
  function NoIdsInUse(n: nat): (r: seq<bool>)
    ensures |r| == n
  {
    seq(n, i => i == 0)
  }

  // ---------------------------------------------------------------------------
  // Properties of the layout
  // ---------------------------------------------------------------------------

  /** Budget `k * cpp` runs for exactly `k` passes. */
  lemma {:induction false} PassCountMultiple(cpp: nat, k: nat)
    requires cpp > 0
    ensures PassCount(cpp, k * cpp) == k
  {
    if k > 1 {
      PassCountMultiple(cpp, k - 1);
      assert k * cpp - cpp == (k - 1) * cpp;
    }
  }

  /** Every pass but the last consumes a full `cpp`; the passes always consume at least the budget. */
  lemma {:induction false} PassCountCovers(cpp: nat, rem: nat)
    requires cpp > 0
    ensures PassCount(cpp, rem) * cpp >= rem
    ensures rem > 0 ==> (PassCount(cpp, rem) - 1) * cpp < rem
    decreases rem
  {
    if rem > cpp {
      PassCountCovers(cpp, rem - cpp);
      var k := PassCount(cpp, rem - cpp);
      assert PassCount(cpp, rem) * cpp == k * cpp + cpp;
      assert (PassCount(cpp, rem) - 1) * cpp == k * cpp;
    }
  }

  /** The pass loop steps over a full `cpp` channels for each of its passes. */
  lemma {:induction false} SpanIsPasses(cpp: nat, rem: nat)
    requires rem == 0 || cpp > 0
    ensures Span(cpp, rem) == PassCount(cpp, rem) * cpp
    decreases rem
  {
    if rem > cpp {
      SpanIsPasses(cpp, rem - cpp);
      var k := PassCount(cpp, rem - cpp);
      assert (k + 1) * cpp == cpp + k * cpp;
    }
  }

  /** `num_ids` of the legacy mode is ceil(n / 16). */
  lemma LegacyIdsCeil(n: nat)
    ensures LegacyIds(n) == (n + 15) / 16
  {
  }

  /** A Pixie card of `p` outputs: one pass of `n` channels for each output and unit id it marks. */
  lemma PixiePasses(c: Controller)
    requires IsPixie(c.deviceType) && c.numChannels > 0
    ensures Terminates(PlanOf(c))
    ensures PlanOf(c).channelCount == OutputsPerCard(c.deviceType) * c.numChannels
    ensures PlanOf(c).channelsPerPass == c.numChannels
    ensures IdsUsed(c) == PlanOf(c).idCount == OutputsPerCard(c.deviceType)
  {
    PassCountMultiple(c.numChannels, OutputsPerCard(c.deviceType));
  }

  /**
   * A legacy controller sends 16 channels per unit id, one pass for each id it
   * marks; the passes take a multiple of 16 channels, which is more than the
   * controller's count when that count is not a multiple of 16.
   */
  lemma LegacyPasses(c: Controller)
    requires !IsPixie(c.deviceType) && c.mode == Legacy
    ensures Terminates(PlanOf(c))
    ensures PlanOf(c).channelsPerPass == 16 && PlanOf(c).channelCount == c.numChannels
    ensures IdsUsed(c) == PlanOf(c).idCount == (c.numChannels + 15) / 16
  {
    var n := c.numChannels;
    PassCountCovers(16, n);
    var k := PassCount(16, n);
    assert n > 0 ==> (k - 1) * 16 < n <= k * 16;
  }

  /** A split controller with an even channel count sends two passes of half its channels, one per marked id. */
  lemma SplitEvenPasses(c: Controller)
    requires !IsPixie(c.deviceType) && c.mode == Split && c.numChannels % 2 == 0 && c.numChannels > 0
    ensures Terminates(PlanOf(c))
    ensures PlanOf(c).channelsPerPass * 2 == c.numChannels
    ensures IdsUsed(c) == PlanOf(c).idCount == 2
  {
    PassCountMultiple(c.numChannels / 2, 2);
  }

  /**
   * A split controller with an odd channel count of at least 3 makes a third pass,
   * addressed to the unit id after the two it marks.
   */
  lemma SplitOddPasses(c: Controller)
    requires !IsPixie(c.deviceType) && c.mode == Split && c.numChannels % 2 == 1 && c.numChannels >= 3
    ensures Terminates(PlanOf(c))
    ensures IdsUsed(c) == 3 && PlanOf(c).idCount == 2
  {
    var h := c.numChannels / 2;
    assert c.numChannels == 2 * h + 1;
    assert PassCount(h, 1) == 1;
    assert PassCount(h, h + 1) == 2;
  }

  /** A split controller of one channel sends zero channels per pass and never leaves the pass loop. */
  lemma SplitSingleNeverStops(c: Controller)
    requires !IsPixie(c.deviceType) && c.mode == Split && c.numChannels == 1
    ensures !Terminates(PlanOf(c))
  {
  }

  /**
   * Split mode with at least one channel per pass: a controller of one channel sends it
   * in a single pass to its own id. Every other channel count keeps the plan of `PlanOf`.
   */
  function SplitPlanAtLeastOne(n: nat): Plan
  {
    Plan(n, if n == 1 then 1 else n / 2, n, 2)
  }

  /** With at least one channel per pass, every split controller's pass loop stops, and one of a single channel makes one pass. */
  lemma SplitAtLeastOneStops(c: Controller)
    requires !IsPixie(c.deviceType) && c.mode == Split
    ensures Terminates(SplitPlanAtLeastOne(c.numChannels))
    ensures c.numChannels != 1 ==> SplitPlanAtLeastOne(c.numChannels) == PlanOf(c)
    ensures c.numChannels == 1 ==> PassCount(1, 1) == 1 && Span(1, 1) == 1
  {
  }

  /** A controller in normal mode sends all its channels in one pass and marks no further id. */
  lemma NormalPasses(c: Controller)
    requires !IsPixie(c.deviceType) && c.mode == Normal && c.numChannels > 0
    ensures Terminates(PlanOf(c))
    ensures PlanOf(c).channelsPerPass == PlanOf(c).channelCount == c.numChannels
    ensures IdsUsed(c) == 1 && PlanOf(c).idCount == 0
  {
  }

  /** An id is in use after marking every controller exactly when it was before or some controller's `CalcChannels` marks it. */
  lemma {:induction false} MarkAllMeans(inUse: seq<bool>, cs: seq<Controller>, i: nat)
    requires forall k :: 0 <= k < |cs| ==> IdsFit(cs[k], |inUse|)
    requires i < |inUse|
    ensures MarkAll(inUse, cs)[i]
        <==> inUse[i] || exists k :: 0 <= k < |cs| && cs[k].unitId <= i < cs[k].unitId + PlanOf(cs[k]).idCount
    decreases |cs|
  {
    if cs != [] {
      MarkAllMeans(MarkIds(inUse, cs[0]), cs[1..], i);
      if exists k :: 0 <= k < |cs| && cs[k].unitId <= i < cs[k].unitId + PlanOf(cs[k]).idCount {
        var k :| 0 <= k < |cs| && cs[k].unitId <= i < cs[k].unitId + PlanOf(cs[k]).idCount;
        if k > 0 {
          assert cs[1..][k - 1] == cs[k];
        }
      }
    }
  }

  /**
   * After `CalcTotalChannels` an id is in use exactly when it is 0, some
   * controller's own id, or an id some controller's `CalcChannels` marks.
   */
  lemma {:induction false} MarkTotalMeans(inUse: seq<bool>, cs: seq<Controller>, i: nat)
    requires forall k :: 0 <= k < |cs| ==> IdsFit(cs[k], |inUse|)
    requires i < |inUse|
    ensures MarkTotal(inUse, cs)[i]
        <==> inUse[i] || exists k :: 0 <= k < |cs| && (i == cs[k].unitId || cs[k].unitId <= i < cs[k].unitId + PlanOf(cs[k]).idCount)
    decreases |cs|
  {
    if cs != [] {
      MarkTotalMeans(MarkIds(inUse[cs[0].unitId := true], cs[0]), cs[1..], i);
      if exists k :: 0 <= k < |cs| && (i == cs[k].unitId || cs[k].unitId <= i < cs[k].unitId + PlanOf(cs[k]).idCount) {
        var k :| 0 <= k < |cs| && (i == cs[k].unitId || cs[k].unitId <= i < cs[k].unitId + PlanOf(cs[k]).idCount);
        if k > 0 {
          assert cs[1..][k - 1] == cs[k];
        }
      }
    }
  }

  /**
   * The passes of a controller take exactly its `channel_count` channels for a
   * Pixie card, in normal mode, in legacy mode with a multiple of 16 channels, and
   * in split mode with an even count or with 3 channels; otherwise they take more.
   */
  lemma ConsumedExactly(c: Controller)
    requires Terminates(PlanOf(c))
    ensures Consumed(c) >= PlanOf(c).channelCount
    ensures Consumed(c) == PlanOf(c).channelCount
        <==> (|| IsPixie(c.deviceType)
              || c.mode == Normal
              || (c.mode == Legacy && c.numChannels % 16 == 0)
              || (c.mode == Split && (c.numChannels % 2 == 0 || c.numChannels == 3)))
  {
    var n := c.numChannels;
    SpanIsPasses(PlanOf(c).channelsPerPass, PlanOf(c).toProcess);
    if IsPixie(c.deviceType) {
      if n > 0 {
        PixiePasses(c);
      }
    } else if c.mode == Legacy {
      LegacyPasses(c);
    } else if c.mode == Split {
      if n > 0 && n % 2 == 0 {
        SplitEvenPasses(c);
      } else if n % 2 == 1 {
        SplitOddPasses(c);
        var h := n / 2;
        assert Consumed(c) == 3 * h;
      }
    }
  }

  /** When every controller's passes take exactly its channel count, a frame takes `_channels` channels. */
  lemma {:induction false} WidthIsTotal(cs: seq<Controller>)
    requires forall k :: 0 <= k < |cs| ==> Consumed(cs[k]) == PlanOf(cs[k]).channelCount
    ensures Width(cs) == TotalChannels(cs)
    decreases |cs|
  {
    if cs != [] {
      assert forall k :: 0 <= k < |cs[1..]| ==> cs[1..][k] == cs[k + 1];
      WidthIsTotal(cs[1..]);
    }
  }
}
