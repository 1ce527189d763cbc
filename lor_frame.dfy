/**
 * A whole frame of the LOR optimised output, as functions: `SetManyChannels`
 * runs the passes of every controller in turn over consecutive data channels,
 * each pass addressed to the next unit id, updating `_lastSent` and
 * `banks_changed` and writing what the pass encodes; `AllOff` writes, for every
 * pass, one bank-off command per 16 channels.
 */
module LorFrame {
  import opened LorBytes
  import opened LorCommand
  import opened LorPass
  import opened LorLayout

  /** The size of the buffer `d` a pass of `SetManyChannels` encodes into. */
  const FrameBufferSize: nat := 8192

  /** The size of the buffer `d` a pass of `AllOff` encodes into. */
  const OffBufferSize: nat := 1024

  /** What the encoder keeps from frame to frame: `_lastSent` and `banks_changed`. */
  datatype History = History(lastSent: seq<bv8>, banksChanged: seq<bool>)

  /** The outcome of running passes: the history after them, the writes to the serial port, and the next data channel. */
  datatype Run = Run(history: History, writes: seq<seq<bv8>>, cur: nat)

  /**
   * A pass of `cpp` channels from data channel `cur` stays inside its arrays: the
   * data and `_lastSent` hold its channels, `color_mode` and `banks_changed` (of
   * `maxBanks` entries) its banks and the one after them that the gather loop
   * clears, and its longest encoding (112 bytes per bank and the terminator) fits `d`.
   */
  predicate PassFits(dataLen: nat, sentLen: nat, maxBanks: nat, cur: nat, cpp: nat)
  {
    && cur + cpp <= dataLen && cur + cpp <= sentLen
    && FilledBanks(cpp) < maxBanks
    && 112 * BankCount(cpp) + 2 <= FrameBufferSize
  }

  /** Every pass of a controller's loop, from budget `rem`, fits. */
  predicate PassesFit(dataLen: nat, sentLen: nat, maxBanks: nat, cur: nat, cpp: nat, rem: nat)
    decreases rem
  {
    && cur <= dataLen && cur <= sentLen
    && (rem == 0
        || (&& cpp > 0
            && PassFits(dataLen, sentLen, maxBanks, cur, cpp)
            && (rem <= cpp || PassesFit(dataLen, sentLen, maxBanks, cur + cpp, cpp, rem - cpp))))
  }

  /** Every controller's loop stops and all the passes of the frame, from data channel `cur`, fit. */
  predicate FrameFits(cs: seq<Controller>, dataLen: nat, sentLen: nat, maxBanks: nat, cur: nat)
    decreases |cs|
  {
    && cur <= dataLen && cur <= sentLen
    && (cs == []
        || (var p := PlanOf(cs[0]);
            && Terminates(p)
            && PassesFit(dataLen, sentLen, maxBanks, cur, p.channelsPerPass, p.toProcess)
            && FrameFits(cs[1..], dataLen, sentLen, maxBanks, cur + Consumed(cs[0]))))
  }

  /**
   * One pass over the data channels `cur .. cur + cpp` to unit `u`: `_lastSent`
   * takes those channels' values, `banks_changed` records which banks changed, and
   * the pass's write (if a channel changed) goes to the serial port.
   */
  function RunPass(h: History, data: seq<bv8>, table: seq<bv8>, u: bv8, cur: nat, cpp: nat): (r: Run)
    requires |table| == 256 && PassFits(|data|, |h.lastSent|, |h.banksChanged|, cur, cpp)
    ensures |r.history.lastSent| == |h.lastSent| && |r.history.banksChanged| == |h.banksChanged|
    ensures r.cur == cur + cpp
  {
    var vals, prev := data[cur..cur + cpp], h.lastSent[cur..cur + cpp];
    Run(History(h.lastSent[..cur] + vals + h.lastSent[cur + cpp..], PassChanged(h.banksChanged, vals, prev)),
        PassWrites(u, vals, prev, h.banksChanged, table),
        cur + cpp)
  }

  /** The pass loop of one controller: while budget remains, a pass to unit `uid`, then the next id. */
  function RunPasses(h: History, data: seq<bv8>, table: seq<bv8>, uid: nat, cur: nat, cpp: nat, rem: nat): (r: Run)
    requires |table| == 256 && PassesFit(|data|, |h.lastSent|, |h.banksChanged|, cur, cpp, rem)
    ensures |r.history.lastSent| == |h.lastSent| && |r.history.banksChanged| == |h.banksChanged|
    ensures r.cur == cur + Span(cpp, rem)
    ensures r.cur <= |data| && r.cur <= |h.lastSent|
    decreases rem
  {
    if rem == 0 then Run(h, [], cur)
    else
      var p := RunPass(h, data, table, Byte(uid), cur, cpp);
      if rem <= cpp then p
      else
        var q := RunPasses(p.history, data, table, uid + 1, p.cur, cpp, rem - cpp);
        Run(q.history, p.writes + q.writes, q.cur)
  }

  /** `SetManyChannels` from data channel `cur`: each controller's pass loop, from its own unit id, in turn. */
  function RunFrame(h: History, data: seq<bv8>, table: seq<bv8>, cs: seq<Controller>, cur: nat): (r: Run)
    requires |table| == 256 && FrameFits(cs, |data|, |h.lastSent|, |h.banksChanged|, cur)
    ensures |r.history.lastSent| == |h.lastSent| && |r.history.banksChanged| == |h.banksChanged|
    ensures r.cur == cur + Width(cs)
    ensures r.cur <= |data| && r.cur <= |h.lastSent|
    decreases |cs|
  {
    if cs == [] then Run(h, [], cur)
    else
      var p := PlanOf(cs[0]);
      var a := RunPasses(h, data, table, cs[0].unitId, cur, p.channelsPerPass, p.toProcess);
      var b := RunFrame(a.history, data, table, cs[1..], a.cur);
      Run(b.history, a.writes + b.writes, b.cur)
  }

  /** A pass of `RunPass`, spelt out: what becomes of `_lastSent`, `banks_changed` and the port. */
  lemma RunPassIs(h: History, data: seq<bv8>, table: seq<bv8>, u: bv8, cur: nat, cpp: nat)
    requires |table| == 256 && PassFits(|data|, |h.lastSent|, |h.banksChanged|, cur, cpp)
    ensures var vals, prev, r := data[cur..cur + cpp], h.lastSent[cur..cur + cpp], RunPass(h, data, table, u, cur, cpp);
            && r.history.lastSent == h.lastSent[..cur] + vals + h.lastSent[cur + cpp..]
            && r.history.banksChanged == PassChanged(h.banksChanged, vals, prev)
            && r.writes == PassWrites(u, vals, prev, h.banksChanged, table)
  {
  }

  /** After a pass of a loop that fits, the rest of the loop fits. */
  lemma PassesFitStep(h: History, data: seq<bv8>, table: seq<bv8>, uid: nat, cur: nat, cpp: nat, rem: nat,
                      p: Run, cur': nat, left: nat)
    requires |table| == 256 && rem > 0 && PassesFit(|data|, |h.lastSent|, |h.banksChanged|, cur, cpp, rem)
    requires p == RunPass(h, data, table, Byte(uid), cur, cpp)
    requires cur' == cur + cpp && left == if rem <= cpp then 0 else rem - cpp
    ensures PassesFit(|data|, |p.history.lastSent|, |p.history.banksChanged|, cur', cpp, left)
  {
  }

  /**
   * One turn of a controller's pass loop, from a point where what is still to
   * come is `RunPasses(h, .., rem)` and `done` has been written: the pass from
   * `cur`, after which what is still to come is the loop from the next unit id
   * and channel with the budget that is left (none once it is used up).
   */
  lemma PassesStep(target: Run, done: seq<seq<bv8>>, h: History, data: seq<bv8>, table: seq<bv8>,
                   uid: nat, cur: nat, cpp: nat, rem: nat, p: Run, cur': nat, left: nat)
    requires |table| == 256 && rem > 0 && PassesFit(|data|, |h.lastSent|, |h.banksChanged|, cur, cpp, rem)
    requires var q := RunPasses(h, data, table, uid, cur, cpp, rem);
             target == Run(q.history, done + q.writes, q.cur)
    requires p == RunPass(h, data, table, Byte(uid), cur, cpp)
    requires cur' == cur + cpp && left == if rem <= cpp then 0 else rem - cpp
    requires PassesFit(|data|, |p.history.lastSent|, |p.history.banksChanged|, cur', cpp, left)
    ensures var q := RunPasses(p.history, data, table, uid + 1, cur', cpp, left);
            target == Run(q.history, done + p.writes + q.writes, q.cur)
  {
    var q := RunPasses(p.history, data, table, uid + 1, cur', cpp, left);
    if rem <= cpp {
      assert p.writes + [] == p.writes;
    }
    assert RunPasses(h, data, table, uid, cur, cpp, rem) == Run(q.history, p.writes + q.writes, q.cur);
    Regroup(done, p.writes, q.writes);
  }

  /**
   * A turn of a controller's pass loop, all at once: the pass fits, the rest of
   * the loop still fits, and what is still to come is the loop from the next
   * unit id.
   */
  lemma PassesAdvance(target: Run, done: seq<seq<bv8>>, h: History, data: seq<bv8>, table: seq<bv8>,
                      uid: nat, cur: nat, cpp: nat, rem: nat, p: Run, cur': nat, left: nat)
    requires |table| == 256 && rem > 0 && PassesFit(|data|, |h.lastSent|, |h.banksChanged|, cur, cpp, rem)
    requires var q := RunPasses(h, data, table, uid, cur, cpp, rem);
             target == Run(q.history, done + q.writes, q.cur)
    requires p == RunPass(h, data, table, Byte(uid), cur, cpp)
    requires cur' == cur + cpp && left == if rem <= cpp then 0 else rem - cpp
    ensures PassFits(|data|, |h.lastSent|, |h.banksChanged|, cur, cpp)
    ensures PassesFit(|data|, |p.history.lastSent|, |p.history.banksChanged|, cur', cpp, left)
    ensures var q := RunPasses(p.history, data, table, uid + 1, cur', cpp, left);
            target == Run(q.history, done + p.writes + q.writes, q.cur)
  {
    PassesFitStep(h, data, table, uid, cur, cpp, rem, p, cur', left);
    PassesStep(target, done, h, data, table, uid, cur, cpp, rem, p, cur', left);
  }

  /** The first controller of a frame that fits: its pass loop stops and its passes fit. */
  lemma FrameHead(h: History, data: seq<bv8>, cs: seq<Controller>, cur: nat)
    requires cs != [] && FrameFits(cs, |data|, |h.lastSent|, |h.banksChanged|, cur)
    ensures Terminates(PlanOf(cs[0]))
    ensures PassesFit(|data|, |h.lastSent|, |h.banksChanged|, cur, PlanOf(cs[0]).channelsPerPass, PlanOf(cs[0]).toProcess)
  {
  }

  /**
   * One turn of the controller loop, from a point where what is still to come
   * is `RunFrame(h, .., cs, cur)` and `done` has been written: the first
   * controller's passes `a`, after which what is still to come is the frame
   * over the other controllers.
   */
  lemma FrameStep(target: Run, done: seq<seq<bv8>>, h: History, data: seq<bv8>, table: seq<bv8>,
                  cs: seq<Controller>, cur: nat, a: Run)
    requires |table| == 256 && cs != [] && FrameFits(cs, |data|, |h.lastSent|, |h.banksChanged|, cur)
    requires var q := RunFrame(h, data, table, cs, cur);
             target == Run(q.history, done + q.writes, q.cur)
    requires a == RunPasses(h, data, table, cs[0].unitId, cur, PlanOf(cs[0]).channelsPerPass, PlanOf(cs[0]).toProcess)
    ensures FrameFits(cs[1..], |data|, |a.history.lastSent|, |a.history.banksChanged|, a.cur)
    ensures var q := RunFrame(a.history, data, table, cs[1..], a.cur);
            target == Run(q.history, done + a.writes + q.writes, q.cur)
  {
    assert a.cur == cur + Consumed(cs[0]) by {
      FrameHead(h, data, cs, cur);
    }
    var q := RunFrame(a.history, data, table, cs[1..], a.cur);
    assert RunFrame(h, data, table, cs, cur) == Run(q.history, a.writes + q.writes, q.cur);
    Regroup(done, a.writes, q.writes);
  }

  // ---------------------------------------------------------------------------
  // Properties of a frame
  // ---------------------------------------------------------------------------

  /** After overwriting `a .. b` of `h` with the data, those positions hold the data. */
  lemma SpliceHolds(h: seq<bv8>, d: seq<bv8>, a: nat, b: nat)
    requires a <= b <= |h| && b <= |d|
    ensures var s := h[..a] + d[a..b] + h[b..];
            forall i :: a <= i < b ==> s[i] == d[i]
  {
    var s := h[..a] + d[a..b] + h[b..];
    forall i | a <= i < b
      ensures s[i] == d[i]
    {
      var x := h[..a] + d[a..b];
      assert s == x + h[b..] && i < |x|;
      assert s[i] == x[i] == d[a..b][i - a];
    }
  }

  /** Overwriting `a .. b` and then `b .. c` of `h` with the data overwrites `a .. c`. */
  lemma SpliceTwice(h: seq<bv8>, d: seq<bv8>, a: nat, b: nat, c: nat)
    requires a <= b <= c <= |h| && c <= |d|
    ensures var s := h[..a] + d[a..b] + h[b..];
            s[..b] + d[b..c] + s[c..] == h[..a] + d[a..c] + h[c..]
  {
    var s := h[..a] + d[a..b] + h[b..];
    var x, y := s[..b] + d[b..c] + s[c..], h[..a] + d[a..c] + h[c..];
    assert |x| == |y|;
    forall i | 0 <= i < |x|
      ensures x[i] == y[i]
    {
      if i < a {
        assert x[i] == s[i] == h[i];
      } else if i < b {
        assert x[i] == s[i] == d[i];
      } else if i < c {
        assert x[i] == d[i];
      } else {
        assert x[i] == s[i] == h[i];
      }
    }
  }

  /** After a controller's passes, `_lastSent` holds the data of the channels they covered and nothing else changed. */
  lemma {:induction false} PassesRecord(h: History, data: seq<bv8>, table: seq<bv8>, uid: nat, cur: nat, cpp: nat, rem: nat)
    requires |table| == 256 && PassesFit(|data|, |h.lastSent|, |h.banksChanged|, cur, cpp, rem)
    ensures var r := RunPasses(h, data, table, uid, cur, cpp, rem);
            r.history.lastSent == h.lastSent[..cur] + data[cur..r.cur] + h.lastSent[r.cur..]
    decreases rem
  {
    if rem <= cpp {
      PassesRecordLast(h, data, table, uid, cur, cpp, rem);
    } else {
      var p := RunPass(h, data, table, Byte(uid), cur, cpp);
      PassesFitStep(h, data, table, uid, cur, cpp, rem, p, p.cur, rem - cpp);
      var q := RunPasses(p.history, data, table, uid + 1, p.cur, cpp, rem - cpp);
      PassesRecord(p.history, data, table, uid + 1, p.cur, cpp, rem - cpp);
      PassesRecordStep(h, data, table, uid, cur, cpp, rem, p, q);
    }
  }

  /** `PassesRecord` for a loop of no pass or of a single one. */
  lemma PassesRecordLast(h: History, data: seq<bv8>, table: seq<bv8>, uid: nat, cur: nat, cpp: nat, rem: nat)
    requires |table| == 256 && rem <= cpp && PassesFit(|data|, |h.lastSent|, |h.banksChanged|, cur, cpp, rem)
    ensures var r := RunPasses(h, data, table, uid, cur, cpp, rem);
            r.history.lastSent == h.lastSent[..cur] + data[cur..r.cur] + h.lastSent[r.cur..]
  {
    if rem == 0 {
      assert h.lastSent[..cur] + data[cur..cur] + h.lastSent[cur..] == h.lastSent;
    } else {
      var p := RunPass(h, data, table, Byte(uid), cur, cpp);
      assert RunPasses(h, data, table, uid, cur, cpp, rem) == p;
    }
  }

  /** A pass `p` records its channels in `_lastSent`, up to the channel `p.cur` it stops at. */
  lemma RunPassRecords(h: History, data: seq<bv8>, table: seq<bv8>, u: bv8, cur: nat, cpp: nat, p: Run)
    requires |table| == 256 && PassFits(|data|, |h.lastSent|, |h.banksChanged|, cur, cpp)
    requires p == RunPass(h, data, table, u, cur, cpp)
    ensures p.history.lastSent == h.lastSent[..cur] + data[cur..p.cur] + h.lastSent[p.cur..]
  {
  }

  /** A loop with budget beyond its first pass: that pass `p`, then the loop `q` from the next id and channel. */
  lemma RunPassesUnfold(h: History, data: seq<bv8>, table: seq<bv8>, uid: nat, cur: nat, cpp: nat, rem: nat, p: Run, q: Run)
    requires |table| == 256 && rem > cpp && PassesFit(|data|, |h.lastSent|, |h.banksChanged|, cur, cpp, rem)
    requires p == RunPass(h, data, table, Byte(uid), cur, cpp)
    requires PassesFit(|data|, |p.history.lastSent|, |p.history.banksChanged|, p.cur, cpp, rem - cpp)
    requires q == RunPasses(p.history, data, table, uid + 1, p.cur, cpp, rem - cpp)
    ensures var r := RunPasses(h, data, table, uid, cur, cpp, rem);
            r.history == q.history && r.writes == p.writes + q.writes && r.cur == q.cur
  {
  }

  /** The step of `PassesRecord`: the first pass records its channels and the rest of the loop the others. */
  lemma PassesRecordStep(h: History, data: seq<bv8>, table: seq<bv8>, uid: nat, cur: nat, cpp: nat, rem: nat, p: Run, q: Run)
    requires |table| == 256 && rem > cpp && PassesFit(|data|, |h.lastSent|, |h.banksChanged|, cur, cpp, rem)
    requires p == RunPass(h, data, table, Byte(uid), cur, cpp)
    requires PassesFit(|data|, |p.history.lastSent|, |p.history.banksChanged|, p.cur, cpp, rem - cpp)
    requires q == RunPasses(p.history, data, table, uid + 1, p.cur, cpp, rem - cpp)
    requires q.history.lastSent == p.history.lastSent[..p.cur] + data[p.cur..q.cur] + p.history.lastSent[q.cur..]
    ensures var r := RunPasses(h, data, table, uid, cur, cpp, rem);
            r.history.lastSent == h.lastSent[..cur] + data[cur..r.cur] + h.lastSent[r.cur..]
  {
    RunPassesUnfold(h, data, table, uid, cur, cpp, rem, p, q);
    RunPassRecords(h, data, table, Byte(uid), cur, cpp, p);
    SpliceTwice(h.lastSent, data, cur, p.cur, q.cur);
  }

  /**
   * After a frame, `_lastSent` holds the data of every channel the frame covered
   * and is unchanged before and after them.
   */
  lemma {:induction false} FrameRecords(h: History, data: seq<bv8>, table: seq<bv8>, cs: seq<Controller>, cur: nat)
    requires |table| == 256 && FrameFits(cs, |data|, |h.lastSent|, |h.banksChanged|, cur)
    ensures var r := RunFrame(h, data, table, cs, cur);
            r.history.lastSent == h.lastSent[..cur] + data[cur..r.cur] + h.lastSent[r.cur..]
    decreases |cs|
  {
    if cs == [] {
      assert h.lastSent[..cur] + h.lastSent[cur..] == h.lastSent;
    } else {
      var p := PlanOf(cs[0]);
      var a := RunPasses(h, data, table, cs[0].unitId, cur, p.channelsPerPass, p.toProcess);
      FrameRecords(a.history, data, table, cs[1..], a.cur);
      FrameRecordsStep(h, data, table, cs, cur, a);
    }
  }

  /** The step of `FrameRecords`: the first controller records its channels and the rest of the frame the others. */
  lemma FrameRecordsStep(h: History, data: seq<bv8>, table: seq<bv8>, cs: seq<Controller>, cur: nat, a: Run)
    requires |table| == 256 && cs != [] && FrameFits(cs, |data|, |h.lastSent|, |h.banksChanged|, cur)
    requires a == RunPasses(h, data, table, cs[0].unitId, cur, PlanOf(cs[0]).channelsPerPass, PlanOf(cs[0]).toProcess)
    requires FrameFits(cs[1..], |data|, |a.history.lastSent|, |a.history.banksChanged|, a.cur)
    requires var b := RunFrame(a.history, data, table, cs[1..], a.cur);
             b.history.lastSent == a.history.lastSent[..a.cur] + data[a.cur..b.cur] + a.history.lastSent[b.cur..]
    ensures var r := RunFrame(h, data, table, cs, cur);
            r.history.lastSent == h.lastSent[..cur] + data[cur..r.cur] + h.lastSent[r.cur..]
  {
    var p := PlanOf(cs[0]);
    var b := RunFrame(a.history, data, table, cs[1..], a.cur);
    assert RunFrame(h, data, table, cs, cur) == Run(b.history, a.writes + b.writes, b.cur);
    PassesRecord(h, data, table, cs[0].unitId, cur, p.channelsPerPass, p.toProcess);
    SpliceTwice(h.lastSent, data, cur, a.cur, b.cur);
  }

  /** A pass whose channels all equal what was last sent writes nothing and leaves `_lastSent` as it was. */
  lemma RunPassSilent(h: History, data: seq<bv8>, table: seq<bv8>, u: bv8, cur: nat, cpp: nat)
    requires |table| == 256 && PassFits(|data|, |h.lastSent|, |h.banksChanged|, cur, cpp)
    requires h.lastSent[cur..cur + cpp] == data[cur..cur + cpp]
    ensures RunPass(h, data, table, u, cur, cpp).writes == []
    ensures RunPass(h, data, table, u, cur, cpp).history.lastSent == h.lastSent
  {
    PassSilent(u, data[cur..cur + cpp], h.banksChanged, table);
    assert h.lastSent[..cur] + h.lastSent[cur..cur + cpp] + h.lastSent[cur + cpp..] == h.lastSent;
  }

  /** A controller whose channels all equal what was last sent writes nothing and leaves `_lastSent` as it was. */
  lemma {:induction false} PassesSilent(h: History, data: seq<bv8>, table: seq<bv8>, uid: nat, cur: nat, cpp: nat, rem: nat)
    requires |table| == 256 && PassesFit(|data|, |h.lastSent|, |h.banksChanged|, cur, cpp, rem)
    requires forall i :: cur <= i < RunPasses(h, data, table, uid, cur, cpp, rem).cur ==> h.lastSent[i] == data[i]
    ensures RunPasses(h, data, table, uid, cur, cpp, rem).writes == []
    ensures RunPasses(h, data, table, uid, cur, cpp, rem).history.lastSent == h.lastSent
    decreases rem
  {
    if rem > 0 {
      var end := RunPasses(h, data, table, uid, cur, cpp, rem).cur;
      assert cur + cpp <= end;
      assert h.lastSent[cur..cur + cpp] == data[cur..cur + cpp] by {
        forall i | cur <= i < cur + cpp
          ensures h.lastSent[i] == data[i]
        {
        }
      }
      RunPassSilent(h, data, table, Byte(uid), cur, cpp);
      if rem > cpp {
        var p := RunPass(h, data, table, Byte(uid), cur, cpp);
        var q := RunPasses(p.history, data, table, uid + 1, p.cur, cpp, rem - cpp);
        assert RunPasses(h, data, table, uid, cur, cpp, rem) == Run(q.history, p.writes + q.writes, q.cur);
        PassesSilent(p.history, data, table, uid + 1, p.cur, cpp, rem - cpp);
      }
    }
  }

  /** A frame whose data all equal what was last sent writes nothing and leaves `_lastSent` as it was. */
  lemma {:induction false} FrameSilent(h: History, data: seq<bv8>, table: seq<bv8>, cs: seq<Controller>, cur: nat)
    requires |table| == 256 && FrameFits(cs, |data|, |h.lastSent|, |h.banksChanged|, cur)
    requires forall i :: cur <= i < RunFrame(h, data, table, cs, cur).cur ==> h.lastSent[i] == data[i]
    ensures RunFrame(h, data, table, cs, cur).writes == []
    ensures RunFrame(h, data, table, cs, cur).history.lastSent == h.lastSent
    decreases |cs|
  {
    if cs != [] {
      var p := PlanOf(cs[0]);
      var a := RunPasses(h, data, table, cs[0].unitId, cur, p.channelsPerPass, p.toProcess);
      PassesSilent(h, data, table, cs[0].unitId, cur, p.channelsPerPass, p.toProcess);
      FrameSilent(a.history, data, table, cs[1..], a.cur);
    }
  }

  /** Sending the same frame twice: the second time nothing is written and `_lastSent` stays as the first left it. */
  lemma FrameRepeatSilent(h: History, data: seq<bv8>, table: seq<bv8>, cs: seq<Controller>, cur: nat)
    requires |table| == 256 && FrameFits(cs, |data|, |h.lastSent|, |h.banksChanged|, cur)
    ensures var first := RunFrame(h, data, table, cs, cur);
            && FrameFits(cs, |data|, |first.history.lastSent|, |first.history.banksChanged|, cur)
            && RunFrame(first.history, data, table, cs, cur).writes == []
            && RunFrame(first.history, data, table, cs, cur).history.lastSent == first.history.lastSent
  {
    var first := RunFrame(h, data, table, cs, cur);
    FrameRecords(h, data, table, cs, cur);
    var s, e := first.history.lastSent, first.cur;
    var again := RunFrame(first.history, data, table, cs, cur);
    assert again.cur == e;
    SpliceHolds(h.lastSent, data, cur, e);
    FrameSilent(first.history, data, table, cs, cur);
  }

  // ---------------------------------------------------------------------------
  // AllOff
  // ---------------------------------------------------------------------------

  /** `count` bank-off commands to unit `u`, for the banks `bank`, `bank + 1`, ... */
  function OffBanks(u: bv8, bank: nat, count: nat): (r: seq<bv8>)
    ensures |r| <= 4 * count
    decreases count
  {
    if count == 0 then [] else BankOffBytes(u, bank) + OffBanks(u, bank + 1, count - 1)
  }

  /** The bank-off commands `OffBanks` encodes. */
  function OffCmds(u: bv8, bank: nat, count: nat): (r: seq<Cmd>)
    ensures |r| == count
    ensures forall i :: 0 <= i < count ==> r[i] == BankOff(u, Byte(bank + i))
    decreases count
  {
    if count == 0 then []
    else
      var rest := OffCmds(u, bank + 1, count - 1);
      var r := [BankOff(u, Byte(bank))] + rest;
      assert forall i :: 1 <= i < count ==> r[i] == rest[i - 1];
      r
  }

  /** The outcome of `AllOff`'s passes: the writes and the value its `bank` counter has reached. */
  datatype OffRun = OffRun(writes: seq<seq<bv8>>, bank: nat)

  /** One `AllOff` write to unit `u`: `banks` bank-off commands counted from `bank`, then the terminator. */
  function OffWrite(u: bv8, bank: nat, banks: nat): (r: seq<bv8>)
    ensures |r| <= 4 * banks + 2
  {
    OffBanks(u, bank, banks) + [0, 0]
  }

  /**
   * One controller's passes of `AllOff`, from budget `rem` and bank counter
   * `bank`: each pass writes (when the port is open) `banks` bank-off commands,
   * one per 16 channels of the pass, and the counter keeps counting across passes.
   */
  function OffPasses(uid: nat, bank: nat, banks: nat, cpp: nat, rem: nat, serialOpen: bool): (r: OffRun)
    requires rem == 0 || cpp > 0
    ensures |r.writes| <= PassCount(cpp, rem)
    ensures bank <= r.bank
    decreases rem
  {
    if rem == 0 then OffRun([], bank)
    else
      var rest := if rem <= cpp then OffRun([], bank + banks)
                  else OffPasses(uid + 1, bank + banks, banks, cpp, rem - cpp, serialOpen);
      OffRun((if serialOpen then [OffWrite(Byte(uid), bank, banks)] else []) + rest.writes, rest.bank)
  }

  /** `AllOff` over the controllers, with its one bank counter never reset. */
  function AllOffRun(cs: seq<Controller>, bank: nat, serialOpen: bool): (r: OffRun)
    requires forall k :: 0 <= k < |cs| ==> Terminates(PlanOf(cs[k]))
    ensures bank <= r.bank
    decreases |cs|
  {
    if cs == [] then OffRun([], bank)
    else
      var p := PlanOf(cs[0]);
      assert Terminates(PlanOf(cs[0]));
      var a := OffPasses(cs[0].unitId, bank, FilledBanks(p.channelsPerPass), p.channelsPerPass, p.toProcess, serialOpen);
      var b := AllOffRun(cs[1..], a.bank, serialOpen);
      OffRun(a.writes + b.writes, b.bank)
  }

  /** Every controller's `AllOff` pass fits the 1024-byte buffer. */
  predicate OffFits(cs: seq<Controller>)
  {
    forall k :: 0 <= k < |cs| ==> 4 * FilledBanks(PlanOf(cs[k]).channelsPerPass) + 2 <= OffBufferSize
  }

  /** `OffBanks` grows at its end: one more bank is one more bank-off command after the others. */
  lemma {:induction false} OffBanksSnoc(u: bv8, bank: nat, i: nat)
    ensures OffBanks(u, bank, i + 1) == OffBanks(u, bank, i) + BankOffBytes(u, bank + i)
    decreases i
  {
    if i == 0 {
      assert OffBanks(u, bank, 1) == BankOffBytes(u, bank) + [];
    } else {
      var x, y, z := BankOffBytes(u, bank), OffBanks(u, bank + 1, i - 1), BankOffBytes(u, bank + i);
      assert OffBanks(u, bank, i) == x + y;
      OffBanksSnoc(u, bank + 1, i - 1);
      assert OffBanks(u, bank + 1, i) == y + z;
      assert OffBanks(u, bank, i + 1) == x + (y + z);
      Regroup(x, y, z);
    }
  }

  /**
   * One turn of `AllOff`'s pass loop, from a point where what is still to come
   * is `OffPasses(uid, bank, ..)` and `done` has been written: the pass's write
   * `out`, after which the loop goes on from the next unit id, with the counter
   * `banks` further on and the budget that is left.
   */
  lemma OffPassesStep(target: OffRun, done: seq<seq<bv8>>, uid: nat, bank: nat, banks: nat, cpp: nat, rem: nat,
                      serialOpen: bool, out: seq<seq<bv8>>, uid': nat, bank': nat, left: nat)
    requires rem > 0 && cpp > 0
    requires var r := OffPasses(uid, bank, banks, cpp, rem, serialOpen);
             target == OffRun(done + r.writes, r.bank)
    requires out == if serialOpen then [OffWrite(Byte(uid), bank, banks)] else []
    requires uid' == uid + 1 && bank' == bank + banks && left == if rem <= cpp then 0 else rem - cpp
    ensures var r := OffPasses(uid', bank', banks, cpp, left, serialOpen);
            target == OffRun(done + out + r.writes, r.bank)
  {
    var r := OffPasses(uid', bank', banks, cpp, left, serialOpen);
    if rem <= cpp {
      assert out + [] == out;
    }
    assert OffPasses(uid, bank, banks, cpp, rem, serialOpen) == OffRun(out + r.writes, r.bank);
    Regroup(done, out, r.writes);
  }

  /**
   * One turn of `AllOff`'s controller loop: the first controller's passes `a`,
   * after which the loop goes on over the other controllers from the counter
   * `a` leaves.
   */
  lemma AllOffStep(target: OffRun, done: seq<seq<bv8>>, cs: seq<Controller>, bank: nat, serialOpen: bool, a: OffRun)
    requires cs != [] && forall k :: 0 <= k < |cs| ==> Terminates(PlanOf(cs[k]))
    requires var r := AllOffRun(cs, bank, serialOpen);
             target == OffRun(done + r.writes, r.bank)
    requires var p := PlanOf(cs[0]);
             a == OffPasses(cs[0].unitId, bank, FilledBanks(p.channelsPerPass), p.channelsPerPass, p.toProcess, serialOpen)
    ensures forall k :: 0 <= k < |cs[1..]| ==> Terminates(PlanOf(cs[1..][k]))
    ensures var r := AllOffRun(cs[1..], a.bank, serialOpen);
            target == OffRun(done + a.writes + r.writes, r.bank)
  {
    assert forall k :: 0 <= k < |cs[1..]| ==> cs[1..][k] == cs[k + 1];
    var r := AllOffRun(cs[1..], a.bank, serialOpen);
    assert AllOffRun(cs, bank, serialOpen) == OffRun(a.writes + r.writes, r.bank);
    Regroup(done, a.writes, r.writes);
  }

  /** A run of bank-off bytes is the encoding of the bank-off commands for those banks. */
  lemma {:induction false} OffBanksEncoded(u: bv8, bank: nat, count: nat)
    requires bank + count <= 256
    ensures OffBanks(u, bank, count) == EncodeAll(OffCmds(u, bank, count))
    decreases count
  {
    if count > 0 {
      var x, rest := BankOff(u, Byte(bank)), OffCmds(u, bank + 1, count - 1);
      OffBanksEncoded(u, bank + 1, count - 1);
      BankOffIsEncoded(u, bank);
      assert ([x] + rest)[0] == x && ([x] + rest)[1..] == rest;
    }
  }

  /** Below bank 64, an `AllOff` write decodes to one bank-off command per bank, for consecutive banks from `bank`. */
  lemma OffWriteDecodes(u: bv8, bank: nat, banks: nat)
    requires bank + banks <= 64
    ensures DecodeAll(OffWrite(u, bank, banks)) == Some(OffCmds(u, bank, banks))
  {
    OffBanksEncoded(u, bank, banks);
    var cs := OffCmds(u, bank, banks);
    forall i | 0 <= i < |cs|
      ensures WellFormed(cs[i])
    {
      assert Byte(bank + i) as int == bank + i;
    }
    DecodeEncodeAll(cs);
  }

  /** The bank counter after `i` passes of `banks` banks each, from `bank`. */
  function CounterAfter(bank: nat, banks: nat, i: nat): nat
    decreases i
  {
    if i == 0 then bank else CounterAfter(bank + banks, banks, i - 1)
  }

  /** The counter advances by `banks` per pass and is never reset. */
  lemma {:induction false} CounterAfterIs(bank: nat, banks: nat, i: nat)
    ensures CounterAfter(bank, banks, i) == bank + i * banks
    decreases i
  {
    if i > 0 {
      CounterAfterIs(bank + banks, banks, i - 1);
      assert (i - 1) * banks + banks == i * banks;
    }
  }

  /** A controller's `AllOff` passes write once per pass, and the counter ends `banks` further on per pass. */
  lemma {:induction false} OffPassesCount(uid: nat, bank: nat, banks: nat, cpp: nat, rem: nat)
    requires cpp > 0
    ensures var r := OffPasses(uid, bank, banks, cpp, rem, true);
            |r.writes| == PassCount(cpp, rem) && r.bank == CounterAfter(bank, banks, PassCount(cpp, rem))
    decreases rem
  {
    if 0 < rem <= cpp {
      assert CounterAfter(bank, banks, 1) == CounterAfter(bank + banks, banks, 0);
    } else if rem > cpp {
      OffPassesCount(uid + 1, bank + banks, banks, cpp, rem - cpp);
      var k := PassCount(cpp, rem - cpp);
      assert CounterAfter(bank, banks, k + 1) == CounterAfter(bank + banks, banks, k);
    }
  }

  /**
   * The `i`-th write of a controller's `AllOff` passes goes to unit `uid + i` and
   * turns off `banks` banks counted from `bank + i * banks`: the counter is not
   * reset between passes.
   */
  lemma OffPassesWrites(uid: nat, bank: nat, banks: nat, cpp: nat, rem: nat)
    requires cpp > 0
    ensures var r := OffPasses(uid, bank, banks, cpp, rem, true);
            forall i :: 0 <= i < |r.writes| ==> r.writes[i] == OffWrite(Byte(uid + i), CounterAfter(bank, banks, i), banks)
  {
    var ws := OffPasses(uid, bank, banks, cpp, rem, true).writes;
    forall i | 0 <= i < |ws|
      ensures ws[i] == OffWrite(Byte(uid + i), CounterAfter(bank, banks, i), banks)
    {
      OffPassesWriteAt(uid, bank, banks, cpp, rem, i, uid + i, CounterAfter(bank, banks, i));
    }
  }

  /** Write `i` of `OffPasses` goes to unit `v`, which is `uid + i`, from counter value `c`, which is `CounterAfter(bank, banks, i)`. */
  lemma {:induction false} OffPassesWriteAt(uid: nat, bank: nat, banks: nat, cpp: nat, rem: nat, i: nat, v: nat, c: nat)
    requires cpp > 0 && i < |OffPasses(uid, bank, banks, cpp, rem, true).writes|
    requires v == uid + i && c == CounterAfter(bank, banks, i)
    ensures OffPasses(uid, bank, banks, cpp, rem, true).writes[i] == OffWrite(Byte(v), c, banks)
    decreases rem
  {
    var w := OffWrite(Byte(uid), bank, banks);
    if rem <= cpp {
      assert OffPasses(uid, bank, banks, cpp, rem, true).writes == [w] + [];
    } else {
      var rest := OffPasses(uid + 1, bank + banks, banks, cpp, rem - cpp, true).writes;
      assert OffPasses(uid, bank, banks, cpp, rem, true).writes == [w] + rest;
      if i > 0 {
        OffPassesWriteAt(uid + 1, bank + banks, banks, cpp, rem - cpp, i - 1, v, c);
      }
    }
  }

  /** With the port closed `AllOff` writes nothing, though its bank counter still advances. */
  lemma {:induction false} OffPassesClosed(uid: nat, bank: nat, banks: nat, cpp: nat, rem: nat)
    requires cpp > 0
    ensures OffPasses(uid, bank, banks, cpp, rem, false).writes == []
    ensures OffPasses(uid, bank, banks, cpp, rem, false).bank == OffPasses(uid, bank, banks, cpp, rem, true).bank
    decreases rem
  {
    if rem > cpp {
      OffPassesClosed(uid + 1, bank + banks, banks, cpp, rem - cpp);
    }
  }

  /**
   * The bank counter of `AllOff` runs on across controllers: a controller's first
   * write turns off the banks after the ones the controllers before it turned off,
   * not its own bank 0. With two controllers of 16 channels in normal mode, the
   * write to the second goes to its bank 1.
   */
  lemma AllOffSecondControllerBank(a: Controller, b: Controller)
    requires !IsPixie(a.deviceType) && a.mode == Normal && a.numChannels == 16
    requires !IsPixie(b.deviceType) && b.mode == Normal && b.numChannels == 16
    ensures var r := AllOffRun([a, b], 0, true);
            && |r.writes| == 2
            && r.writes[0] == [0, Byte(a.unitId), 0x41, 0, 0]
            && r.writes[1] == [0, Byte(b.unitId), 0x51, 0xC1, 0, 0]
  {
    assert PlanOf(a) == Plan(16, 16, 16, 0) && PlanOf(b) == Plan(16, 16, 16, 0);
    assert FilledBanks(16) == 1;
    var wa := OffPasses(a.unitId, 0, 1, 16, 16, true);
    assert wa == OffRun([OffWrite(Byte(a.unitId), 0, 1)], 1);
    var wb := OffPasses(b.unitId, 1, 1, 16, 16, true);
    assert wb == OffRun([OffWrite(Byte(b.unitId), 1, 1)], 2);
    assert [a, b][1..] == [b] && [b][1..] == [];
    assert AllOffRun([b], 1, true) == OffRun(wb.writes, 2);
    assert OffBanks(Byte(a.unitId), 0, 1) == [0, Byte(a.unitId), 0x41];
    assert OffBanks(Byte(b.unitId), 1, 1) == [0, Byte(b.unitId), 0x51, 0xC1];
  }

  /**
   * `AllOff` as evidently intended: every pass counts its banks from 0, so each
   * write turns off all the banks its unit's channels occupy.
   */
  function OffPassesFromZero(uid: nat, banks: nat, cpp: nat, rem: nat, serialOpen: bool): (r: seq<seq<bv8>>)
    requires rem == 0 || cpp > 0
    decreases rem
  {
    if rem == 0 then []
    else
      var rest := if rem <= cpp then [] else OffPassesFromZero(uid + 1, banks, cpp, rem - cpp, serialOpen);
      (if serialOpen then [OffWrite(Byte(uid), 0, banks)] else []) + rest
  }

  /** The intended `AllOff` over all the controllers. */
  function AllOffFromZero(cs: seq<Controller>, serialOpen: bool): seq<seq<bv8>>
    requires forall k :: 0 <= k < |cs| ==> Terminates(PlanOf(cs[k]))
    decreases |cs|
  {
    if cs == [] then []
    else
      var p := PlanOf(cs[0]);
      assert Terminates(PlanOf(cs[0]));
      OffPassesFromZero(cs[0].unitId, FilledBanks(p.channelsPerPass), p.channelsPerPass, p.toProcess, serialOpen)
      + AllOffFromZero(cs[1..], serialOpen)
  }

  /** The intended `AllOff` writes of a controller: its `i`-th pass turns off banks `0 .. banks` of unit `uid + i`. */
  lemma OffPassesFromZeroShape(uid: nat, banks: nat, cpp: nat, rem: nat)
    requires cpp > 0
    ensures var ws := OffPassesFromZero(uid, banks, cpp, rem, true);
            && |ws| == PassCount(cpp, rem)
            && forall i :: 0 <= i < |ws| ==> ws[i] == OffWrite(Byte(uid + i), 0, banks)
  {
    var ws := OffPassesFromZero(uid, banks, cpp, rem, true);
    OffPassesFromZeroCount(uid, banks, cpp, rem);
    forall i | 0 <= i < |ws|
      ensures ws[i] == OffWrite(Byte(uid + i), 0, banks)
    {
      OffPassesFromZeroAt(uid, banks, cpp, rem, i, uid + i);
    }
  }

  lemma {:induction false} OffPassesFromZeroCount(uid: nat, banks: nat, cpp: nat, rem: nat)
    requires cpp > 0
    ensures |OffPassesFromZero(uid, banks, cpp, rem, true)| == PassCount(cpp, rem)
    decreases rem
  {
    if rem > cpp {
      OffPassesFromZeroCount(uid + 1, banks, cpp, rem - cpp);
    }
  }

  /** Intended write `i` of a controller goes to unit `v`, which is `uid + i`. */
  lemma {:induction false} OffPassesFromZeroAt(uid: nat, banks: nat, cpp: nat, rem: nat, i: nat, v: nat)
    requires cpp > 0 && i < |OffPassesFromZero(uid, banks, cpp, rem, true)| && v == uid + i
    ensures OffPassesFromZero(uid, banks, cpp, rem, true)[i] == OffWrite(Byte(v), 0, banks)
    decreases rem
  {
    var w := OffWrite(Byte(uid), 0, banks);
    if rem <= cpp {
      assert OffPassesFromZero(uid, banks, cpp, rem, true) == [w] + [];
    } else {
      var rest := OffPassesFromZero(uid + 1, banks, cpp, rem - cpp, true);
      assert OffPassesFromZero(uid, banks, cpp, rem, true) == [w] + rest;
      if i > 0 {
        OffPassesFromZeroAt(uid + 1, banks, cpp, rem - cpp, i - 1, v);
      }
    }
  }

  /**
   * Each intended `AllOff` write of a controller goes to unit `uid + i` of its
   * `i`-th pass and decodes to bank-off commands for its banks `0 .. banks`.
   */
  lemma OffPassesFromZeroWrites(uid: nat, banks: nat, cpp: nat, rem: nat)
    requires cpp > 0 && banks <= 64
    ensures var ws := OffPassesFromZero(uid, banks, cpp, rem, true);
            && |ws| == PassCount(cpp, rem)
            && forall i :: 0 <= i < |ws| ==> DecodeAll(ws[i]) == Some(OffCmds(Byte(uid + i), 0, banks))
  {
    OffPassesFromZeroShape(uid, banks, cpp, rem);
    var ws := OffPassesFromZero(uid, banks, cpp, rem, true);
    forall i | 0 <= i < |ws|
      ensures DecodeAll(ws[i]) == Some(OffCmds(Byte(uid + i), 0, banks))
    {
      OffWriteDecodes(Byte(uid + i), 0, banks);
    }
  }

  /** The banks `0 .. FilledBanks(cpp)` an intended `AllOff` write turns off hold every channel of its pass. */
  lemma PassBanksCovered(cpp: nat, k: nat)
    requires k < cpp
    ensures k / 16 < FilledBanks(cpp)
  {
  }
}
