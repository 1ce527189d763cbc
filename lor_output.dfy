/**
 * The LOR optimised output object: its per-frame state (`_lastSent`, `_curData`,
 * `banks_changed`, `unit_id_in_use`, `_changed`, `_channels`) and the operations
 * that update it, each proved against the functions of the frame model.
 *
 * The serial port is the log `written` of the byte strings handed to
 * `_serial->Write`, `_serial != nullptr` is `serialOpen`, and `TxEmpty()` is a
 * parameter of the calls that ask it.
 */
module LorOutput {
  import opened LorBytes
  import opened LorCommand
  import opened LorGrouping
  import opened LorPass
  import opened LorLayout
  import opened LorFrame

  /** The entries of `unit_id_in_use` that `CalcTotalChannels` clears. */
  const UnitIds: nat := 255

  // -------------------------------------------------------------------------
  // The emission loop of a pass
  // -------------------------------------------------------------------------

  /** Pair `g` of bank `bank` while handling `kind`: the command the encoder writes for it, if any. */
  method EmitGroup(d: array<bv8>, idx: nat, kind: Kind, uid: nat, bank: nat, gs: seq<DataPair>, colour: bool, table: seq<bv8>, g: nat)
    returns (next: nat)
    requires |table| == 256 && g < |gs|
    requires idx + |GroupBytes(kind, Byte(uid), bank, gs, colour, table, g)| <= d.Length
    modifies d
    ensures next == idx + |GroupBytes(kind, Byte(uid), bank, gs, colour, table, g)|
    ensures d[..next] == old(d[..idx]) + GroupBytes(kind, Byte(uid), bank, gs, colour, table, g)
  {
    var p := gs[g];
    next := idx;
    match kind
    case ZeroGroups =>
      if p.value == 0 {
        if |gs| == 1 {
          next := PutBankOff(d, idx, uid, bank);
        } else if colour {
          next := PutZeroColour(d, idx, uid, bank, table[0], Lsb(p.bits), Msb(p.bits));
        }
      }
    case FullGroups =>
      if p.value == 0xFF {
        next := GenerateCommand(d, idx, uid, bank, false, table[0xFF], Lsb(p.bits), Msb(p.bits));
      }
    case ValueGroups =>
      if p.value != 0 && p.value != 0xFF {
        next := GenerateCommand(d, idx, uid, bank, true, table[p.value as int], Lsb(p.bits), Msb(p.bits));
      }
  }

  /** One of the three loops over a changed bank's pairs: the commands for the pairs of kind `kind`. */
  method EmitPart(d: array<bv8>, idx: nat, kind: Kind, uid: nat, bank: nat, gs: seq<DataPair>, colour: bool, table: seq<bv8>)
    returns (next: nat)
    requires |table| == 256
    requires idx + |PartBytes(kind, Byte(uid), bank, gs, colour, table, |gs|)| <= d.Length
    modifies d
    ensures next == idx + |PartBytes(kind, Byte(uid), bank, gs, colour, table, |gs|)|
    ensures d[..next] == old(d[..idx]) + PartBytes(kind, Byte(uid), bank, gs, colour, table, |gs|)
  {
    next := idx;
    for i := 0 to |gs|
      invariant next == idx + |PartBytes(kind, Byte(uid), bank, gs, colour, table, i)|
      invariant next <= d.Length
      invariant d[..next] == old(d[..idx]) + PartBytes(kind, Byte(uid), bank, gs, colour, table, i)
    {
      PartSnoc(kind, Byte(uid), bank, gs, colour, table, i);
      Regroup(old(d[..idx]), PartBytes(kind, Byte(uid), bank, gs, colour, table, i), GroupBytes(kind, Byte(uid), bank, gs, colour, table, i));
      next := EmitGroup(d, next, kind, uid, bank, gs, colour, table, i);
    }
  }

  /** A changed bank: its zero groups, then its 0xFF groups, then its other values. */
  method EmitBank(d: array<bv8>, idx: nat, uid: nat, bank: nat, gs: seq<DataPair>, colour: bool, table: seq<bv8>) returns (next: nat)
    requires |table| == 256
    requires idx + |BankBlock(Byte(uid), bank, gs, colour, table)| <= d.Length
    modifies d
    ensures next == idx + |BankBlock(Byte(uid), bank, gs, colour, table)|
    ensures d[..next] == old(d[..idx]) + BankBlock(Byte(uid), bank, gs, colour, table)
  {
    ghost var zero := PartBytes(ZeroGroups, Byte(uid), bank, gs, colour, table, |gs|);
    ghost var full := PartBytes(FullGroups, Byte(uid), bank, gs, colour, table, |gs|);
    ghost var value := PartBytes(ValueGroups, Byte(uid), bank, gs, colour, table, |gs|);
    next := EmitPart(d, idx, ZeroGroups, uid, bank, gs, colour, table);
    next := EmitPart(d, next, FullGroups, uid, bank, gs, colour, table);
    next := EmitPart(d, next, ValueGroups, uid, bank, gs, colour, table);
    AppendAssoc(old(d[..idx]), zero, full, value);
  }

  /** The loop over the banks of a pass, from the last down to bank 0: the block of every bank `changed` (`banks_changed`) marks. */
  method EmitBanks(d: array<bv8>, uid: nat, banks: seq<seq<DataPair>>, colours: seq<bool>, changed: array<bool>,
                   table: seq<bv8>) returns (idx: nat)
    requires |table| == 256 && d as object != changed
    requires |banks| <= changed.Length && |banks| <= |colours|
    requires |EmitRange(Byte(uid), 0, |banks|, changed[..], banks, colours, table)| <= d.Length
    modifies d
    ensures idx == |EmitRange(Byte(uid), 0, |banks|, changed[..], banks, colours, table)|
    ensures d[..idx] == EmitRange(Byte(uid), 0, |banks|, changed[..], banks, colours, table)
  {
    idx := 0;
    var bank := |banks| - 1;
    while bank >= 0
      invariant -1 <= bank < |banks|
      invariant idx == |EmitRange(Byte(uid), bank + 1, |banks|, changed[..], banks, colours, table)|
      invariant idx <= |EmitRange(Byte(uid), 0, |banks|, changed[..], banks, colours, table)|
      invariant d[..idx] == EmitRange(Byte(uid), bank + 1, |banks|, changed[..], banks, colours, table)
    {
      EmitRangeGrows(Byte(uid), 0, bank, |banks|, changed[..], banks, colours, table);
      if changed[bank] {
        idx := EmitBank(d, idx, uid, bank, banks[bank], colours[bank], table);
      }
      bank := bank - 1;
    }
  }

  /** The two zero bytes that end a pass's commands. */
  method PutTerminator(d: array<bv8>, idx: nat, ghost body: seq<bv8>) returns (next: nat)
    requires idx + 2 <= d.Length && d[..idx] == body
    modifies d
    ensures next == idx + 2 && d[..next] == body + [0, 0]
  {
    next := Put(d, idx, 0x0);
    next := Put(d, next, 0x0);
    assert d[..next] == body + [0] + [0];
  }

  /**
   * The encoding half of a pass, once the gather loop has filled `banks`,
   * `colours` and `changed`: the emission loop into a fresh buffer `d` of
   * 8192 bytes and the terminator when a channel changed. `out` is the part of
   * `d` handed to the serial port, which is exactly the pass's write.
   */
  method EncodePass(uid: nat, banks: seq<seq<DataPair>>, colours: seq<bool>, changed: array<bool>, frameChanged: bool,
                    table: seq<bv8>, ghost vals: seq<bv8>, ghost prev: seq<bv8>, ghost changed0: seq<bool>)
    returns (out: seq<bv8>)
    requires |table| == 256 && |vals| == |prev| && BankCount(|vals|) <= |changed0|
    requires 112 * BankCount(|vals|) + 2 <= FrameBufferSize
    requires banks == PassGroups(vals) && colours == PassColours(vals)
    requires changed[..] == PassChanged(changed0, vals, prev) && frameChanged == (vals != prev)
    ensures frameChanged ==> [out] == PassWrites(Byte(uid), vals, prev, changed0, table)
  {
    var d := new bv8[FrameBufferSize];
    EmitRangeLength(Byte(uid), 0, BankCount(|vals|), changed[..], vals, table);
    var idx := EmitBanks(d, uid, banks, colours, changed, table);
    ghost var body := PassBody(Byte(uid), vals, prev, changed0, table);
    assert d[..idx] == body;
    if frameChanged {
      idx := PutTerminator(d, idx, body);
    }
    out := d[..idx];
  }

  /**
   * The body of one pass of `AllOff`: into a fresh 1024-byte buffer, a bank-off
   * command to unit `uid` for every 16 channels of the pass, numbered on from the
   * counter `bank0`, then the two-byte terminator.
   */
  method OffPass(uid: nat, bank0: nat, cpp: nat) returns (out: seq<bv8>, bank: nat)
    requires 4 * FilledBanks(cpp) + 2 <= OffBufferSize
    ensures out == OffWrite(Byte(uid), bank0, FilledBanks(cpp))
    ensures bank == bank0 + FilledBanks(cpp)
  {
    var d := new bv8[OffBufferSize];
    var idx := 0;
    var toProcess: int := cpp;
    bank := bank0;
    ghost var i := 0;
    ChannelsLeft(cpp, 0);
    while toProcess > 0
      invariant i <= FilledBanks(cpp) && toProcess == cpp - 16 * i
      invariant toProcess > 0 <==> i < FilledBanks(cpp)
      invariant bank == bank0 + i
      invariant idx == |OffBanks(Byte(uid), bank0, i)| && idx <= 4 * i
      invariant d[..idx] == OffBanks(Byte(uid), bank0, i)
    {
      OffBanksSnoc(Byte(uid), bank0, i);
      ChannelsLeft(cpp, i + 1);
      idx := PutBankOff(d, idx, uid, bank);
      toProcess := toProcess - 16;
      bank := bank + 1;
      i := i + 1;
    }
    idx := PutTerminator(d, idx, OffBanks(Byte(uid), bank0, i));
    out := d[..idx];
  }

  class LorOptimisedOutput {
    const enabled: bool
    const suspended: bool
    const serialOpen: bool
    const ok: bool
    const controllers: seq<Controller>
    /** `_data`: the intensity byte sent for each channel level. */
    const intensity: seq<bv8>
    const lastSent: array<bv8>
    const curData: array<bv8>
    /** `banks_changed`, of `MAX_BANKS` entries. */
    const banksChanged: array<bool>
    const unitIdInUse: array<bool>
    var changed: bool
    var channels: nat
    /** Every write to the serial port so far, in order. */
    var written: seq<seq<bv8>>

    /**
     * The object's invariant: a 256-entry intensity table, `_curData` no longer than
     * `_lastSent`, the 255-entry id map, four distinct arrays, and every controller's
     * ids inside the id map.
     */
    ghost predicate Valid()
    {
      && |intensity| == 256
      && curData.Length <= lastSent.Length
      && unitIdInUse.Length == UnitIds
      && lastSent != curData && banksChanged != unitIdInUse
      && lastSent as object != banksChanged && lastSent as object != unitIdInUse
      && curData as object != banksChanged && curData as object != unitIdInUse
      && forall k :: 0 <= k < |controllers| ==> IdsFit(controllers[k], UnitIds)
    }

    // -------------------------------------------------------------------------
    // The gather loop of a pass
    // -------------------------------------------------------------------------

    /**
     * The channel loop of one pass over `cpp` channels from `cur`: groups each
     * bank's values into `lorBankData`, sets `color_mode` for banks holding a value
     * other than 0 and 0xFF, records in `banks_changed` which banks differ from
     * `_lastSent`, and copies the channels into `_lastSent`.
     */
    method Gather(data: seq<bv8>, cur: nat, cpp: nat)
      returns (banks: seq<seq<DataPair>>, colours: seq<bool>, frameChanged: bool)
      requires Valid()
      requires PassFits(|data|, lastSent.Length, banksChanged.Length, cur, cpp)
      modifies lastSent, banksChanged
      ensures var vals, prev := data[cur..cur + cpp], old(lastSent[cur..cur + cpp]);
              && banks == PassGroups(vals)
              && colours == PassColours(vals)
              && banksChanged[..] == PassChanged(old(banksChanged[..]), vals, prev)
              && lastSent[..] == old(lastSent[..cur]) + vals + old(lastSent[cur + cpp..])
              && frameChanged == (vals != prev)
    {
      ghost var vals, prev := data[cur..cur + cpp], lastSent[cur..cur + cpp];
      ghost var sent0, changed0 := lastSent[..], banksChanged[..];
      assert |vals| == |prev| == cpp;
      banks := seq(BankCount(cpp), _ => []);
      var bankChanged := false;
      frameChanged := false;
      var toProcess: int := cpp;
      var curChannel := cur;
      var off := 0;
      var shift := 0;
      var colour := [false];
      ghost var g := GatherInit(changed0, vals);
      ghost var n := 0;
      GatherStarts(changed0, vals, prev);
      assert sent0 == Splice(sent0, vals, cur, 0);
      while toProcess > 0
        invariant n == curChannel - cur && 0 <= n <= cpp && toProcess == cpp - n
        invariant n < cpp ==> n == 16 * shift + off && off < 16
        invariant n == cpp ==> shift == FilledBanks(cpp)
        invariant GatherShape(g, n, cpp) && |g.changed| == |changed0|
        invariant GatherHolds(changed0, vals, prev, g, n)
        invariant banks == g.groups && colour == g.colours && banksChanged[..] == g.changed
        invariant bankChanged == g.bankChanged && frameChanged == g.frameChanged
        invariant lastSent[..] == Splice(sent0, vals, cur, n)
      {
        colour, shift, off, banks, bankChanged, frameChanged :=
          GatherTurn(data, cur, cpp, curChannel, colour, shift, off, banks, bankChanged, frameChanged,
                     n, vals, prev, sent0, changed0, g);
        g := GatherStep(vals, prev, g, n);
        n := n + 1;
        toProcess := toProcess - 1;
        curChannel := curChannel + 1;
      }
      GatherFinish(changed0, vals, prev, g, n);
      SpliceAll(sent0, vals, cur, n);
      colours := colour[..BankCount(cpp)];
    }

    /** One turn of the gather loop: channel `n` gathered, and the loop's state still the prefix state. */
    method GatherTurn(data: seq<bv8>, cur: nat, cpp: nat, curChannel: nat, colour: seq<bool>, shift: nat, off: nat,
                      banks: seq<seq<DataPair>>, bankChanged: bool, frameChanged: bool,
                      ghost n: nat, ghost vals: seq<bv8>, ghost prev: seq<bv8>, ghost sent0: seq<bv8>,
                      ghost changed0: seq<bool>, ghost g: Gathered)
      returns (colour': seq<bool>, shift': nat, off': nat, banks': seq<seq<DataPair>>, bankChanged': bool, frameChanged': bool)
      requires lastSent as object != banksChanged
      requires PassFits(|data|, lastSent.Length, banksChanged.Length, cur, cpp)
      requires curChannel == cur + n && n < cpp && n == 16 * shift + off && off < 16
      requires vals == data[cur..cur + cpp] && |sent0| == lastSent.Length && prev == sent0[cur..cur + cpp]
      requires |vals| == |prev| == cpp
      requires lastSent[..] == Splice(sent0, vals, cur, n)
      requires GatherShape(g, n, cpp) && |g.changed| == |changed0| && GatherHolds(changed0, vals, prev, g, n)
      requires banks == g.groups && colour == g.colours && banksChanged[..] == g.changed
      requires bankChanged == g.bankChanged && frameChanged == g.frameChanged
      modifies lastSent, banksChanged
      ensures n + 1 < cpp ==> n + 1 == 16 * shift' + off' && off' < 16
      ensures n + 1 == cpp ==> shift' == FilledBanks(cpp)
      ensures var next := GatherStep(vals, prev, g, n);
              && GatherShape(next, n + 1, cpp) && GatherHolds(changed0, vals, prev, next, n + 1)
              && banks' == next.groups && colour' == next.colours && banksChanged[..] == next.changed
              && bankChanged' == next.bankChanged && frameChanged' == next.frameChanged
      ensures lastSent[..] == Splice(sent0, vals, cur, n + 1)
    {
      GatherStepHolds(changed0, vals, prev, g, n);
      colour', shift', off', banks', bankChanged', frameChanged' :=
        GatherChannel(data, cur, cpp, curChannel, colour, shift, off, banks, bankChanged, frameChanged,
                      n, vals, prev, sent0, g);
    }

    /**
     * Channel `n` of the gather loop: one step of `GatherStep` on the loop's
     * locals and `banks_changed`, and the channel copied into `_lastSent`.
     */
    method GatherChannel(data: seq<bv8>, cur: nat, cpp: nat, curChannel: nat, colour: seq<bool>, shift: nat, off: nat,
                         banks: seq<seq<DataPair>>, bankChanged: bool, frameChanged: bool,
                         ghost n: nat, ghost vals: seq<bv8>, ghost prev: seq<bv8>, ghost sent0: seq<bv8>, ghost g: Gathered)
      returns (colour': seq<bool>, shift': nat, off': nat, banks': seq<seq<DataPair>>, bankChanged': bool, frameChanged': bool)
      requires lastSent as object != banksChanged
      requires PassFits(|data|, lastSent.Length, banksChanged.Length, cur, cpp)
      requires curChannel == cur + n && n < cpp && n == 16 * shift + off && off < 16
      requires vals == data[cur..cur + cpp] && |sent0| == lastSent.Length && prev == sent0[cur..cur + cpp]
      requires lastSent[..] == Splice(sent0, vals, cur, n)
      requires GatherShape(g, n, cpp)
      requires banks == g.groups && colour == g.colours && banksChanged[..] == g.changed
      requires bankChanged == g.bankChanged && frameChanged == g.frameChanged
      modifies lastSent, banksChanged
      ensures n + 1 < cpp ==> n + 1 == 16 * shift' + off' && off' < 16
      ensures n + 1 == cpp ==> shift' == FilledBanks(cpp)
      ensures var next := GatherStep(vals, prev, g, n);
              && banks' == next.groups && colour' == next.colours && banksChanged[..] == next.changed
              && bankChanged' == next.bankChanged && frameChanged' == next.frameChanged
      ensures lastSent[..] == Splice(sent0, vals, cur, n + 1)
    {
      Position(n, shift, off, cpp);
      SpliceGrow(sent0, vals, cur, n);
      GatherStepFields(vals, prev, g, n);
      colour', shift', off', banks', bankChanged', frameChanged' := colour, shift, off, banks, bankChanged, frameChanged;
      var v := data[curChannel];
      assert v == vals[n];
      assert lastSent[curChannel] == prev[n] by {
        assert lastSent[..][cur + n] == sent0[cur + n];
      }
      if 0 < v < 0xFF {
        colour' := colour'[shift' := true];
      }
      var gs := AddToBank(banks'[shift'], v, off');
      banks' := banks'[shift' := gs];
      if v != lastSent[curChannel] {
        bankChanged' := true;
        frameChanged' := true;
      }
      lastSent[curChannel] := v;
      assert lastSent[..] == old(lastSent[..])[cur + n := vals[n]];
      off' := off' + 1;
      if off' == 16 || curChannel + 1 == cur + cpp {
        off' := 0;
        banksChanged[shift'] := bankChanged';
        assert banksChanged[..] == old(banksChanged[..])[n / 16 := bankChanged'];
        bankChanged' := false;
        shift' := shift' + 1;
        colour' := colour' + [false];
      }
    }

    // -------------------------------------------------------------------------
    // A pass
    // -------------------------------------------------------------------------

    /**
     * One pass of `SetManyChannels` over `cpp` channels of `data` from `cur`, to
     * unit `uid`: the gather loop, the emission loop into `d`, the terminator
     * when a channel changed, and the write when the port is open and a channel
     * changed.
     */
    method Pass(data: seq<bv8>, uid: nat, cur: nat, cpp: nat)
      requires Valid()
      requires PassFits(|data|, lastSent.Length, banksChanged.Length, cur, cpp)
      modifies lastSent, banksChanged, this`written
      ensures var vals, prev := data[cur..cur + cpp], old(lastSent[cur..cur + cpp]);
              && lastSent[..] == old(lastSent[..cur]) + vals + old(lastSent[cur + cpp..])
              && banksChanged[..] == PassChanged(old(banksChanged[..]), vals, prev)
              && written == old(written) + (if serialOpen then PassWrites(Byte(uid), vals, prev, old(banksChanged[..]), intensity) else [])
      ensures var r := RunPass(old(History(lastSent[..], banksChanged[..])), data, intensity, Byte(uid), cur, cpp);
              && History(lastSent[..], banksChanged[..]) == r.history
              && written == old(written) + (if serialOpen then r.writes else [])
    {
      ghost var h0 := History(lastSent[..], banksChanged[..]);
      ghost var vals, prev := data[cur..cur + cpp], lastSent[cur..cur + cpp];
      ghost var changed0 := banksChanged[..];
      var banks, colours, frameChanged := Gather(data, cur, cpp);
      var out := EncodePass(uid, banks, colours, banksChanged, frameChanged, intensity, vals, prev, changed0);
      if serialOpen && frameChanged {
        written := written + [out];
      }
      RunPassIs(h0, data, intensity, Byte(uid), cur, cpp);
    }

    // -------------------------------------------------------------------------
    // SetManyChannels
    // -------------------------------------------------------------------------

    /**
     * The pass loop of one controller: while the budget `rem` lasts, a pass of
     * `cpp` channels from `cur` to unit `uid`, then the next unit id.
     */
    method Passes(data: seq<bv8>, uid: nat, cur: nat, cpp: nat, rem: nat) returns (next: nat)
      requires Valid()
      requires PassesFit(|data|, lastSent.Length, banksChanged.Length, cur, cpp, rem)
      modifies lastSent, banksChanged, this`written
      ensures var r := RunPasses(old(History(lastSent[..], banksChanged[..])), data, intensity, uid, cur, cpp, rem);
              && History(lastSent[..], banksChanged[..]) == r.history
              && written == old(written) + (if serialOpen then r.writes else [])
              && next == r.cur
    {
      ghost var hs := History(lastSent[..], banksChanged[..]);
      ghost var target := RunPasses(hs, data, intensity, uid, cur, cpp, rem);
      ghost var done: seq<seq<bv8>> := [];
      ghost var left: nat := rem;
      var toProcess: int := rem;
      var unitId := uid;
      next := cur;
      assert [] + target.writes == target.writes;
      while toProcess > 0
        invariant left == (if toProcess > 0 then toProcess else 0)
        invariant History(lastSent[..], banksChanged[..]) == hs
        invariant PassesFit(|data|, |hs.lastSent|, |hs.banksChanged|, next, cpp, left)
        invariant var q := RunPasses(hs, data, intensity, unitId, next, cpp, left);
                  target == Run(q.history, done + q.writes, q.cur)
        invariant written == old(written) + (if serialOpen then done else [])
      {
        ghost var left' := if left <= cpp then 0 else left - cpp;
        var next', unitId' := next + cpp, unitId + 1;
        hs, done := PassTurn(data, unitId, unitId', next, next', cpp, left, left', hs, target, done, old(written));
        left := left';
        toProcess := toProcess - cpp;
        next := next';
        unitId := unitId';
      }
      assert done + [] == done;
    }

    /**
     * One turn of the pass loop: the pass to unit `uid` from channel `cur`, after
     * which what is still to come of `target` is the loop from unit `uid'` and
     * channel `cur'` with budget `left'`, and `done'` has been written.
     */
    method PassTurn(data: seq<bv8>, uid: nat, uid': nat, cur: nat, cur': nat, cpp: nat, ghost left: nat, ghost left': nat,
                    ghost hs: History, ghost target: Run, ghost done: seq<seq<bv8>>, ghost w0: seq<seq<bv8>>)
      returns (ghost hs': History, ghost done': seq<seq<bv8>>)
      requires Valid()
      requires left > 0 && PassesFit(|data|, |hs.lastSent|, |hs.banksChanged|, cur, cpp, left)
      requires uid' == uid + 1 && cur' == cur + cpp && left' == if left <= cpp then 0 else left - cpp
      requires History(lastSent[..], banksChanged[..]) == hs
      requires var q := RunPasses(hs, data, intensity, uid, cur, cpp, left);
               target == Run(q.history, done + q.writes, q.cur)
      requires written == w0 + (if serialOpen then done else [])
      modifies lastSent, banksChanged, this`written
      ensures History(lastSent[..], banksChanged[..]) == hs'
      ensures PassesFit(|data|, |hs'.lastSent|, |hs'.banksChanged|, cur', cpp, left')
      ensures var q := RunPasses(hs', data, intensity, uid', cur', cpp, left');
              target == Run(q.history, done' + q.writes, q.cur)
      ensures written == w0 + (if serialOpen then done' else [])
    {
      ghost var p := RunPass(hs, data, intensity, Byte(uid), cur, cpp);
      PassesAdvance(target, done, hs, data, intensity, uid, cur, cpp, left, p, cur', left');
      Regroup(w0, done, p.writes);
      Pass(data, uid, cur, cpp);
      hs', done' := p.history, done + p.writes;
    }

    /**
     * `SetManyChannels(channel, data, size)`: nothing unless the output is
     * enabled, the port is open and the output is usable, and nothing when the
     * port's transmit buffer is not empty; otherwise every controller's passes
     * in turn, from data channel `channel`, after `CalcChannels` has worked out
     * its layout.
     */
    method SetManyChannels(channel: nat, data: seq<bv8>, txEmpty: bool)
      requires Valid()
      requires enabled && serialOpen && ok && txEmpty
               ==> FrameFits(controllers, |data|, lastSent.Length, banksChanged.Length, channel)
      modifies lastSent, banksChanged, unitIdInUse, this`written
      ensures if enabled && serialOpen && ok && txEmpty then
                var r := RunFrame(old(History(lastSent[..], banksChanged[..])), data, intensity, controllers, channel);
                && History(lastSent[..], banksChanged[..]) == r.history
                && written == old(written) + r.writes
                && unitIdInUse[..] == MarkAll(old(unitIdInUse[..]), controllers)
              else
                && lastSent[..] == old(lastSent[..]) && banksChanged[..] == old(banksChanged[..])
                && unitIdInUse[..] == old(unitIdInUse[..]) && written == old(written)
    {
      if !enabled || !serialOpen || !ok {
        return;
      }
      if !txEmpty {
        return;
      }
      ghost var hs := History(lastSent[..], banksChanged[..]);
      ghost var target := RunFrame(hs, data, intensity, controllers, channel);
      ghost var marked := MarkAll(unitIdInUse[..], controllers);
      ghost var done: seq<seq<bv8>> := [];
      ghost var rest := controllers;
      var cur := channel;
      assert [] + target.writes == target.writes;
      for k := 0 to |controllers|
        invariant rest == controllers[k..]
        invariant History(lastSent[..], banksChanged[..]) == hs
        invariant FrameFits(rest, |data|, |hs.lastSent|, |hs.banksChanged|, cur)
        invariant var q := RunFrame(hs, data, intensity, rest, cur);
                  target == Run(q.history, done + q.writes, q.cur)
        invariant written == old(written) + done
        invariant MarkAll(unitIdInUse[..], rest) == marked
      {
        var c := controllers[k];
        assert rest[0] == c;
        FrameHead(hs, data, rest, cur);
        ghost var a := RunPasses(hs, data, intensity, c.unitId, cur, PlanOf(c).channelsPerPass, PlanOf(c).toProcess);
        FrameStep(target, done, hs, data, intensity, rest, cur, a);
        Regroup(old(written), done, a.writes);
        var channelCount, cpp, toProcess := CalcChannels(c);
        cur := Passes(data, c.unitId, cur, cpp, toProcess);
        hs := a.history;
        done := done + a.writes;
        rest := rest[1..];
      }
      assert done + [] == done;
    }

    /** `unit_id_in_use[first .. first + count - 1] = true`, the loop `CalcChannels` marks ids with. */
    method MarkIdsFrom(first: nat, count: nat)
      requires first + count <= unitIdInUse.Length
      modifies unitIdInUse
      ensures forall i :: 0 <= i < unitIdInUse.Length ==> unitIdInUse[i] == (old(unitIdInUse[i]) || first <= i < first + count)
    {
      for j := 0 to count
        invariant forall i :: 0 <= i < unitIdInUse.Length ==> unitIdInUse[i] == (old(unitIdInUse[i]) || first <= i < first + j)
      {
        unitIdInUse[first + j] := true;
      }
    }

    /**
     * `CalcChannels` for controller `c`: the controller's channel count, the
     * channels per pass and the budget of its pass loop, marking in
     * `unit_id_in_use` the unit ids a Pixie card, a legacy controller or a
     * split controller occupies.
     */
    method CalcChannels(c: Controller) returns (channelCount: nat, cpp: nat, toProcess: nat)
      requires IdsFit(c, unitIdInUse.Length)
      modifies unitIdInUse
      ensures Plan(channelCount, cpp, toProcess, PlanOf(c).idCount) == PlanOf(c)
      ensures unitIdInUse[..] == MarkIds(old(unitIdInUse[..]), c)
    {
      channelCount := c.numChannels;
      toProcess := channelCount;
      cpp := toProcess;
      if IsPixie(c.deviceType) {
        var outputsPerCard := OutputsPerCard(c.deviceType);
        cpp := channelCount;
        channelCount := outputsPerCard * cpp;
        toProcess := channelCount;
        MarkIdsFrom(c.unitId, outputsPerCard);
      } else if c.mode == Legacy {
        cpp := 16;
        var numIds := channelCount / cpp;
        if numIds * cpp < channelCount {
          numIds := numIds + 1;
        }
        MarkIdsFrom(c.unitId, numIds);
      } else if c.mode == Split {
        cpp := channelCount / 2;
        unitIdInUse[c.unitId] := true;
        unitIdInUse[c.unitId + 1] := true;
      }
      assert unitIdInUse[..] == MarkIds(old(unitIdInUse[..]), c);
    }

    // -------------------------------------------------------------------------
    // CalcTotalChannels, SetupHistory and the constructor
    // -------------------------------------------------------------------------

    /**
     * `CalcTotalChannels`: clears `unit_id_in_use` but for id 0, marks each
     * controller's own id and the ids `CalcChannels` gives it, and sets
     * `_channels` to the sum of the controllers' channel counts.
     */
    method CalcTotalChannels()
      requires Valid()
      modifies unitIdInUse, this`channels
      ensures unitIdInUse[..] == MarkTotal(NoIdsInUse(UnitIds), controllers)
      ensures channels == TotalChannels(controllers)
    {
      for i := 0 to UnitIds
        invariant forall j :: 0 <= j < i ==> !unitIdInUse[j]
      {
        unitIdInUse[i] := false;
      }
      unitIdInUse[0] := true;
      assert unitIdInUse[..] == NoIdsInUse(UnitIds);
      ghost var marked := MarkTotal(unitIdInUse[..], controllers);
      ghost var rest := controllers;
      var total := 0;
      for k := 0 to |controllers|
        invariant rest == controllers[k..]
        invariant total + TotalChannels(rest) == TotalChannels(controllers)
        invariant MarkTotal(unitIdInUse[..], rest) == marked
      {
        var c := controllers[k];
        assert rest[0] == c;
        unitIdInUse[c.unitId] := true;
        var channelCount, cpp, toProcess := CalcChannels(c);
        total := total + channelCount;
        rest := rest[1..];
      }
      channels := total;
    }

    /**
     * `SetupHistory`: every bank's flag is set. The gather loop overwrites the flags
     * of the banks a pass fills before the emission loop reads them.
     */
    method SetupHistory()
      modifies banksChanged
      ensures forall b :: 0 <= b < banksChanged.Length ==> banksChanged[b]
    {
      for b := 0 to banksChanged.Length
        invariant forall j :: 0 <= j < b ==> banksChanged[j]
      {
        banksChanged[b] := true;
      }
    }

    /**
     * The constructor that reads the controllers: `SetupHistory`, then
     * `CalcTotalChannels`. The arrays are `_lastSent` of `sentSize` bytes,
     * `_curData` of `dataSize` bytes and `banks_changed` of `maxBanks` flags;
     * their contents are left as they come.
     */
    constructor(enabled: bool, suspended: bool, serialOpen: bool, ok: bool, controllers: seq<Controller>,
                intensity: seq<bv8>, maxBanks: nat, dataSize: nat, sentSize: nat)
      requires |intensity| == 256 && dataSize <= sentSize
      requires forall k :: 0 <= k < |controllers| ==> IdsFit(controllers[k], UnitIds)
      ensures Valid()
      ensures this.enabled == enabled && this.suspended == suspended && this.serialOpen == serialOpen && this.ok == ok
      ensures this.controllers == controllers && this.intensity == intensity
      ensures lastSent.Length == sentSize && curData.Length == dataSize && banksChanged.Length == maxBanks
      ensures forall b :: 0 <= b < banksChanged.Length ==> banksChanged[b]
      ensures unitIdInUse[..] == MarkTotal(NoIdsInUse(UnitIds), controllers)
      ensures channels == TotalChannels(controllers)
      ensures !changed && written == []
      ensures fresh(lastSent) && fresh(curData) && fresh(banksChanged) && fresh(unitIdInUse)
    {
      this.enabled := enabled;
      this.suspended := suspended;
      this.serialOpen := serialOpen;
      this.ok := ok;
      this.controllers := controllers;
      this.intensity := intensity;
      lastSent := new bv8[sentSize];
      curData := new bv8[dataSize];
      banksChanged := new bool[maxBanks];
      unitIdInUse := new bool[UnitIds];
      changed := false;
      written := [];
      new;
      SetupHistory();
      CalcTotalChannels();
    }

    // -------------------------------------------------------------------------
    // SetOneChannel and EndFrame
    // -------------------------------------------------------------------------

    /**
     * `SetOneChannel(channel, data)`, used by test mode: nothing unless the
     * output is enabled, the port is open and the output is usable. The first
     * call of a frame forgets what was sent (every bank changed, the first
     * `sizeof(_curData)` bytes of `_lastSent` at 0xFF) and clears `_curData`;
     * then the channel takes its value.
     */
    method SetOneChannel(channel: nat, v: bv8)
      requires enabled && serialOpen && ok ==> channel < curData.Length
      requires Valid()
      modifies curData, lastSent, banksChanged, this`changed
      ensures if enabled && serialOpen && ok then
                && changed
                && (old(changed) ==>
                      && curData[..] == old(curData[..])[channel := v]
                      && lastSent[..] == old(lastSent[..]) && banksChanged[..] == old(banksChanged[..]))
                && (!old(changed) ==>
                      && curData[..] == seq(curData.Length, i => 0)[channel := v]
                      && lastSent[..] == seq(curData.Length, i => 0xFF) + old(lastSent[curData.Length..])
                      && forall b :: 0 <= b < banksChanged.Length ==> banksChanged[b])
              else
                && changed == old(changed) && curData[..] == old(curData[..])
                && lastSent[..] == old(lastSent[..]) && banksChanged[..] == old(banksChanged[..])
    {
      if !enabled || !serialOpen || !ok {
        return;
      }
      if !changed {
        SetupHistory();
        forall i | 0 <= i < curData.Length {
          curData[i] := 0;
        }
        forall i | 0 <= i < curData.Length {
          lastSent[i] := 0xFF;
        }
        assert lastSent[..] == seq(curData.Length, i => 0xFF) + old(lastSent[curData.Length..]);
        changed := true;
      }
      curData[channel] := v;
    }

    /**
     * `EndFrame`: unless the output is disabled or suspended, a frame in which a
     * channel was set sends `_curData` from channel 0 as `SetManyChannels` does,
     * and the next frame starts afresh.
     */
    method EndFrame(txEmpty: bool)
      requires Valid()
      requires enabled && !suspended && changed && serialOpen && ok && txEmpty
               ==> FrameFits(controllers, curData.Length, lastSent.Length, banksChanged.Length, 0)
      modifies lastSent, banksChanged, unitIdInUse, this`written, this`changed
      ensures curData[..] == old(curData[..])
      ensures if enabled && !suspended && old(changed) && serialOpen && ok && txEmpty then
                var r := RunFrame(old(History(lastSent[..], banksChanged[..])), old(curData[..]), intensity, controllers, 0);
                && History(lastSent[..], banksChanged[..]) == r.history
                && written == old(written) + r.writes
                && unitIdInUse[..] == MarkAll(old(unitIdInUse[..]), controllers)
              else
                && lastSent[..] == old(lastSent[..]) && banksChanged[..] == old(banksChanged[..])
                && unitIdInUse[..] == old(unitIdInUse[..]) && written == old(written)
      ensures changed == (old(changed) && !(enabled && !suspended))
    {
      if !enabled || suspended {
        return;
      }
      if changed {
        SetManyChannels(0, curData[..], txEmpty);
        changed := false;
      }
    }

    // -------------------------------------------------------------------------
    // AllOff
    // -------------------------------------------------------------------------

    /**
     * The pass loop of one controller in `AllOff`: while the budget `rem`
     * lasts, a pass of bank-off commands to unit `uid` (written when the port
     * is open), the bank counter counting on, then the next unit id.
     */
    method OffControllerPasses(uid: nat, bank0: nat, cpp: nat, rem: nat) returns (bank: nat)
      requires rem == 0 || cpp > 0
      requires 4 * FilledBanks(cpp) + 2 <= OffBufferSize
      modifies this`written
      ensures var r := OffPasses(uid, bank0, FilledBanks(cpp), cpp, rem, serialOpen);
              written == old(written) + r.writes && bank == r.bank
    {
      ghost var target := OffPasses(uid, bank0, FilledBanks(cpp), cpp, rem, serialOpen);
      ghost var done: seq<seq<bv8>> := [];
      ghost var left: nat := rem;
      var toProcess: int := rem;
      var unitId := uid;
      bank := bank0;
      assert [] + target.writes == target.writes;
      while toProcess > 0
        invariant left == (if toProcess > 0 then toProcess else 0)
        invariant var r := OffPasses(unitId, bank, FilledBanks(cpp), cpp, left, serialOpen);
                  target == OffRun(done + r.writes, r.bank)
        invariant written == old(written) + done
      {
        ghost var out := if serialOpen then [OffWrite(Byte(unitId), bank, FilledBanks(cpp))] else [];
        ghost var left' := if left <= cpp then 0 else left - cpp;
        var w, bank' := OffPass(unitId, bank, cpp);
        var unitId' := unitId + 1;
        OffPassesStep(target, done, unitId, bank, FilledBanks(cpp), cpp, left, serialOpen, out, unitId', bank', left');
        Regroup(old(written), done, out);
        if serialOpen {
          written := written + [w];
        }
        done := done + out;
        left := left';
        toProcess := toProcess - cpp;
        unitId := unitId';
        bank := bank';
      }
      assert done + [] == done;
    }

    /**
     * `AllOff`: for each controller, after `CalcChannels`, its passes of
     * bank-off commands, with one bank counter that runs on from 0 across all
     * passes and controllers.
     */
    method AllOff()
      requires Valid()
      requires forall k :: 0 <= k < |controllers| ==> Terminates(PlanOf(controllers[k]))
      requires OffFits(controllers)
      modifies unitIdInUse, this`written
      ensures written == old(written) + AllOffRun(controllers, 0, serialOpen).writes
      ensures unitIdInUse[..] == MarkAll(old(unitIdInUse[..]), controllers)
    {
      ghost var target := AllOffRun(controllers, 0, serialOpen);
      ghost var marked := MarkAll(unitIdInUse[..], controllers);
      ghost var done: seq<seq<bv8>> := [];
      ghost var rest := controllers;
      var bank := 0;
      assert [] + target.writes == target.writes;
      for k := 0 to |controllers|
        invariant rest == controllers[k..]
        invariant forall j :: 0 <= j < |rest| ==> Terminates(PlanOf(rest[j]))
        invariant var r := AllOffRun(rest, bank, serialOpen);
                  target == OffRun(done + r.writes, r.bank)
        invariant written == old(written) + done
        invariant MarkAll(unitIdInUse[..], rest) == marked
      {
        var c := controllers[k];
        assert rest[0] == c;
        var channelCount, cpp, toProcess := CalcChannels(c);
        ghost var a := OffPasses(c.unitId, bank, FilledBanks(cpp), cpp, toProcess, serialOpen);
        AllOffStep(target, done, rest, bank, serialOpen, a);
        Regroup(old(written), done, a.writes);
        bank := OffControllerPasses(c.unitId, bank, cpp, toProcess);
        done := done + a.writes;
        rest := rest[1..];
      }
      assert done + [] == done;
    }
  }
}
