# LOR optimised output, modelled in Dafny

This project models the differential serial-frame encoder of xLights' Light-O-Rama
"optimised" output (`LOROptimisedOutput`). For each controller the encoder plans how
the controller's channels are split into passes, each pass addressed to one unit id.
For every pass it groups the channel values of each 16-channel bank by value, compares
them with what was last sent, and writes compact LOR commands for the banks that
changed. `AllOff` turns every bank off.

The model is imperative where the source is. The class `LorOutput.LorOptimisedOutput`
holds `_lastSent`, `_curData`, `banks_changed` and `unit_id_in_use` as arrays, and
`_changed` and `_channels` as fields. Its methods have the source's loops. Each method
is proved against a specification function, and the properties the encoder promises
are lemmas about those functions.

Modules, in dependency order:

- `LorBytes`: wire bytes (`bv8`), the C narrowing to a byte, and the 16-channel bank
  mask. The mask is held as the set of channel offsets whose bit is set, together with
  its `lsb`/`msb` bytes.
- `LorCommand`: `GenerateCommand`, both as a method writing into an array and as the
  byte function `CommandBytes`. Also the inline bank-off and colour-mode zero
  commands, a command datatype `Cmd` with its encoder and a decoder, and the lemmas
  linking the generator to the decoder.
- `LorGrouping`: the per-bank `LORDataPair` lists (`Groups`) and the search-or-append
  step, with the proof that they partition a bank's channels by value.
- `LorLayout`: `CalcChannels` as a plan per controller, the `unit_id_in_use` marking
  and `_channels`, and how many passes, ids and data channels each address mode takes.
- `LorPass`: one pass as functions: the gather loop's prefix states, the groupings,
  `color_mode`, `banks_changed`, the bytes emitted per bank, and the pass's write.
- `LorPassWire`: the commands a pass emits. Its bytes are their encoding, they decode
  back, and the banks come highest first.
- `LorEffects`: what a pass does to each channel. Each channel is addressed by at most
  one command, with exactly the intended effect.
- `LorFrame`: whole frames (`RunFrame`), the `_lastSent` record, silence of an
  unchanged frame, `AllOff` as functions, and the `AllOff` bank-counter finding.
- `LorOutput`: the array-writing emission loops, the class and its methods.

Behaviour of the code worth spelling out:

- The bank-0 opcode is 0x31 when `msb` is 0, 0x21 when `lsb` is 0, and 0x11
  otherwise.
- A legacy-mode pass always steps over 16 data channels, including the last pass of
  a controller whose channel count is not a multiple of 16.
- `CalcChannels` marks no id for a normal-mode controller. `CalcTotalChannels` marks
  the controller's own id itself.
- A split controller with an odd channel count of at least 3 makes a third pass, to
  the id after the two it marks.
- Seeding `banks_changed` with `SetupHistory` does not make the next frame send every
  bank. The gather loop overwrites the flag of every bank a pass fills before the
  emission loop reads it. Only the empty extra bank of a pass whose channel count is a
  multiple of 16 keeps its seeded flag, and it has no pairs to send. A frame equal to
  `_lastSent` writes nothing whatever the flags hold (`FrameSilent`).

## Model

| member | source | states |
|---|---|---|
| LorBytes.SplitMask | xLights/outputs/LOROptimisedOutput.cpp:259-260 | splitting a bank mask into `bits & 0xFF` and `bits >> 8` keeps every channel: channel k is selected by the two bytes exactly when k is in the mask |
| LorBytes.MaskByteBits | xLights/outputs/LOROptimisedOutput.cpp:286-287 | bit j of a mask byte is set exactly when channel base + j is in the mask |
| LorBytes.NonzeroMask | xLights/outputs/LOROptimisedOutput.cpp:296-297 | a mask selecting some channel has a nonzero low or high byte, so a command always carries a mask byte |
| LorCommand.CommandBytes | xLights/outputs/LOROptimisedOutput.cpp:326-369 | a command starts with 0x00 and the unit id and is 3 + [value byte] + [bank > 0] + [lsb ≠ 0] + [msb ≠ 0] bytes long |
| LorCommand.MaskBytes | xLights/outputs/LOROptimisedOutput.cpp:363-368 | one byte for each nonzero mask half |
| LorCommand.OpcodePart | xLights/outputs/LOROptimisedOutput.cpp:331-362 | the opcode part has the opcode, then a value byte when one is carried, then a bank byte when bank > 0 |
| LorCommand.ShiftFlags | xLights/outputs/LOROptimisedOutput.cpp:339-344 | the bank byte's flags use only its top two bits and are never both set |
| LorCommand.CompactOpcode | xLights/outputs/LOROptimisedOutput.cpp:348-356 | the bank-0 opcode has low nibble 1, so the value flag 0x02 is free, and a high nibble of 1, 2 or 3 |
| LorCommand.BankByte | xLights/outputs/LOROptimisedOutput.cpp:338-344 | below bank 64 the low six bits of the bank byte are the bank and the top two its flags |
| LorCommand.BankOffBytes | xLights/outputs/LOROptimisedOutput.cpp:245-254 | the whole-bank-off shortcut is 3 bytes in bank 0 and 4 above it |
| LorCommand.ZeroColourBytes | xLights/outputs/LOROptimisedOutput.cpp:255-279 | the colour-mode zero command always has a value byte and a bank byte, even in bank 0 |
| LorCommand.Put | xLights/outputs/LOROptimisedOutput.cpp:328 | `d[idx++] = b` appends b to the written prefix |
| LorCommand.PutHead | xLights/outputs/LOROptimisedOutput.cpp:328-329 | writes the leading zero and the unit id cut to a byte after the prefix |
| LorCommand.PutOpcode | xLights/outputs/LOROptimisedOutput.cpp:332-337 | writes the opcode, with 0x02 and the value byte after it when one is carried |
| LorCommand.PutOpcodePart | xLights/outputs/LOROptimisedOutput.cpp:331-362 | writes exactly the opcode part after the prefix |
| LorCommand.PutMask | xLights/outputs/LOROptimisedOutput.cpp:363-368 | writes exactly the nonzero mask bytes, lsb first |
| LorCommand.GenerateCommand | xLights/outputs/LOROptimisedOutput.cpp:326-369 | leaves `d[..next]` as the old prefix followed by exactly the command's bytes, and advances the index by the command's length |
| LorCommand.PutBankOff | xLights/outputs/LOROptimisedOutput.cpp:246-254 | writes exactly the bank-off shortcut after the prefix |
| LorCommand.PutZeroColour | xLights/outputs/LOROptimisedOutput.cpp:259-278 | writes exactly the colour-mode zero command after the prefix |
| LorCommand.DecodeMask | xLights/outputs/LOROptimisedOutput.cpp:363-368 | reading the mask bytes consumes at least one byte and stays inside the input |
| LorCommand.DecodeBanked | xLights/outputs/LOROptimisedOutput.cpp:331-346 | a banked command, when read, is at least 3 bytes and within the input |
| LorCommand.DecodeCompact | xLights/outputs/LOROptimisedOutput.cpp:347-362 | a compact bank-0 command, when read, is at least 3 bytes and within the input |
| LorCommand.Decode | xLights/outputs/LOROptimisedOutput.cpp:326-369 | a decoded command is at least 3 bytes and within the input |
| LorCommand.MaskRoundTrip | xLights/outputs/LOROptimisedOutput.cpp:363-368 | the mask bytes read back as the lsb/msb that were written |
| LorCommand.DecodeEncodeBankOff | xLights/outputs/LOROptimisedOutput.cpp:245-254 | a bank-off command below bank 64 decodes back, whatever follows it |
| LorCommand.DecodeEncodeCompact | xLights/outputs/LOROptimisedOutput.cpp:347-362 | a bank-0 compact command decodes back, whatever follows it |
| LorCommand.BankByteFields | xLights/outputs/LOROptimisedOutput.cpp:338-344 | below bank 64 the bank number and the flag bits of the bank byte do not overlap |
| LorCommand.FlagsGivePresence | xLights/outputs/LOROptimisedOutput.cpp:339-344 | the bank byte's flags are never both set, and say whether only lsb, only msb or both follow |
| LorCommand.BankedBody | xLights/outputs/LOROptimisedOutput.cpp:331-346 | the part of a banked command after `0 uid` reads back as the command |
| LorCommand.DecodeEncodeBanked | xLights/outputs/LOROptimisedOutput.cpp:331-346 | a banked command in banks 1..63 decodes back, whatever follows it |
| LorCommand.DecodeEncodeSetMaskLong | xLights/outputs/LOROptimisedOutput.cpp:259-278 | the banked bank-0 form of the colour-mode zero command decodes back |
| LorCommand.DecodeEncode | xLights/outputs/LOROptimisedOutput.cpp:326-369 | every well-formed command decodes back to itself and its length, whatever follows it |
| LorCommand.DecodeEncodeAll | xLights/outputs/LOROptimisedOutput.cpp:304-311 | a write of well-formed commands and the `00 00` terminator decodes to exactly those commands |
| LorCommand.EncodeAllAppend | xLights/outputs/LOROptimisedOutput.cpp:237-303 | encoding commands one after another is concatenating their encodings |
| LorCommand.CommandIsSetMask | xLights/outputs/LOROptimisedOutput.cpp:326-369 | below bank 256 the generator's bytes are the encoding of a SetMask command with the same unit, bank, value and mask |
| LorCommand.BankOffIsEncoded | xLights/outputs/LOROptimisedOutput.cpp:245-254 | the inline bank-off bytes are the encoding of a BankOff command |
| LorCommand.ZeroColourIsEncoded | xLights/outputs/LOROptimisedOutput.cpp:255-279 | the colour-mode zero bytes encode a valued SetMask above bank 0, and in bank 0 the banked long form, not the compact one |
| LorCommand.CommandUnique | xLights/outputs/LOROptimisedOutput.cpp:331-362 | for banks below 64 and a nonzero mask, the generator's bytes determine unit, bank, value flag, lsb and msb, and the value byte when one is carried |
| LorGrouping.Insert | xLights/outputs/LOROptimisedOutput.cpp:206-216 | the pair list grows by one exactly when no pair holds the value |
| LorGrouping.IndexOf | xLights/outputs/LOROptimisedOutput.cpp:206-212 | the search stops at the first pair holding the value, or past the end when no pair does |
| LorGrouping.Groups | xLights/outputs/LOROptimisedOutput.cpp:196-216 | a bank has no more pairs than channels, and has a pair as soon as it has a channel |
| LorGrouping.AddToBank | xLights/outputs/LOROptimisedOutput.cpp:206-216 | the search loop over a bank's pairs computes `Insert`: the first pair with the value gets the channel's bit, else a new pair is appended |
| LorGrouping.JoinKeepsPartition | xLights/outputs/LOROptimisedOutput.cpp:207-210 | adding a channel to the pair already holding its value keeps the partition |
| LorGrouping.AppendKeepsPartition | xLights/outputs/LOROptimisedOutput.cpp:214-216 | adding a channel with a new value as a new pair keeps the partition |
| LorGrouping.GroupsPartition | xLights/outputs/LOROptimisedOutput.cpp:196-234 | a bank's pairs have distinct values, each mask holds exactly the channels with its value, every channel has a pair, and there are no more pairs than channels |
| LorGrouping.GroupsDisjoint | xLights/outputs/LOROptimisedOutput.cpp:206-216 | two different pairs of a bank never share a channel |
| LorGrouping.GroupsCover | xLights/outputs/LOROptimisedOutput.cpp:206-216 | the masks together cover exactly the bank's channels 0..k-1 |
| LorLayout.MarkIds | xLights/outputs/LOROptimisedOutput.cpp:592-611 | marking keeps the length of `unit_id_in_use` |
| LorLayout.MarkAll | xLights/outputs/LOROptimisedOutput.cpp:172-179 | marking for every controller keeps the length of `unit_id_in_use` |
| LorLayout.MarkTotal | xLights/outputs/LOROptimisedOutput.cpp:626-633 | `CalcTotalChannels`' marking keeps the length of `unit_id_in_use` |
| LorLayout.NoIdsInUse | xLights/outputs/LOROptimisedOutput.cpp:622-625 | the cleared map has the 255 entries |
| LorLayout.LegacyIds | xLights/outputs/LOROptimisedOutput.cpp:600-603 | 16 · `num_ids` covers the channel count, with fewer than 16 channels to spare |
| LorLayout.PlanCovers | xLights/outputs/LOROptimisedOutput.cpp:578-614 | the pass loop's budget is the channel count the controller adds, which covers its own channels, and a legacy controller marks an id for every 16 of them |
| LorLayout.PassCount | xLights/outputs/LOROptimisedOutput.cpp:181-181 | the pass loop makes no pass exactly when its budget is 0 |
| LorLayout.TotalChannels | xLights/outputs/LOROptimisedOutput.cpp:626-634 | `_channels` is at least the channel count of every controller |
| LorLayout.PassCountMultiple | xLights/outputs/LOROptimisedOutput.cpp:181-181 | a budget of k passes' worth of channels runs exactly k passes |
| LorLayout.PassCountCovers | xLights/outputs/LOROptimisedOutput.cpp:181-181 | the passes cover the budget, and without the last pass they do not |
| LorLayout.SpanIsPasses | xLights/outputs/LOROptimisedOutput.cpp:192-233 | every pass steps over a full channels-per-pass of data channels |
| LorLayout.LegacyIdsCeil | xLights/outputs/LOROptimisedOutput.cpp:600-603 | legacy `num_ids` is ceil(n / 16) |
| LorLayout.PixiePasses | xLights/outputs/LOROptimisedOutput.cpp:585-596 | a Pixie card of P outputs counts P·n channels, sends n per pass, makes P passes and marks P ids |
| LorLayout.LegacyPasses | xLights/outputs/LOROptimisedOutput.cpp:598-607 | legacy mode sends 16 channels per pass, one pass per marked id, ceil(n / 16) of them, and keeps the channel count |
| LorLayout.SplitEvenPasses | xLights/outputs/LOROptimisedOutput.cpp:608-612 | split mode with an even count sends two passes of n / 2 and marks two ids |
| LorLayout.SplitOddPasses | xLights/outputs/LOROptimisedOutput.cpp:608-612 | split mode with an odd count of at least 3 makes three passes but marks two ids |
| LorLayout.SplitSingleNeverStops | xLights/outputs/LOROptimisedOutput.cpp:609 | a split controller of one channel sends 0 channels per pass, so its pass loop never ends |
| LorLayout.SplitAtLeastOneStops | xLights/outputs/LOROptimisedOutput.cpp:608-609 | intended: with at least one channel per pass every split controller's loop stops, one of a single channel makes one pass, and every other count keeps the source's plan |
| LorLayout.NormalPasses | xLights/outputs/LOROptimisedOutput.cpp:581-582 | normal mode sends all n channels in one pass and marks no further id |
| LorLayout.MarkAllMeans | xLights/outputs/LOROptimisedOutput.cpp:592-611 | after marking every controller, an id is in use exactly when it was before or some controller's `CalcChannels` marks it |
| LorLayout.MarkTotalMeans | xLights/outputs/LOROptimisedOutput.cpp:622-633 | after `CalcTotalChannels` an id is in use exactly when it is 0, a controller's own id, or an id its `CalcChannels` marks |
| LorLayout.ConsumedExactly | xLights/outputs/LOROptimisedOutput.cpp:578-614 | a controller's passes take at least its channel count, and exactly that count only for Pixie, normal, legacy with a multiple of 16, and split with an even count or 3 |
| LorLayout.WidthIsTotal | xLights/outputs/LOROptimisedOutput.cpp:616-635 | when each controller's passes take exactly its count, a frame takes `_channels` data channels |
| LorPass.ChannelsLeft | xLights/outputs/LOROptimisedOutput.cpp:388-401 | channels remain after i banks exactly while fewer than ceil(cpp / 16) banks are done |
| LorPass.BankSlice | xLights/outputs/LOROptimisedOutput.cpp:224-231 | a bank holds at most 16 channels, and none past the last filled bank |
| LorPass.ColourModeMeans | xLights/outputs/LOROptimisedOutput.cpp:200-203 | a bank is in colour mode exactly when one of its values lies strictly between 0 and 0xFF |
| LorPass.PassGroups | xLights/outputs/LOROptimisedOutput.cpp:184-185 | `lorBankData` has `cpp / 16 + 1` banks |
| LorPass.PassColours | xLights/outputs/LOROptimisedOutput.cpp:189-230 | there is a colour flag for every bank the emission loop reads |
| LorPass.PassChanged | xLights/outputs/LOROptimisedOutput.cpp:227 | `banks_changed` keeps its size |
| LorPass.GatherStepFields | xLights/outputs/LOROptimisedOutput.cpp:197-233 | one channel sets its bank's colour flag when 0 < v < 0xFF and joins its bank's grouping. On the bank's 16th channel or the pass's last, it stores the bank's change flag in `banks_changed` and opens the next bank out of colour mode |
| LorPass.GatherStep | xLights/outputs/LOROptimisedOutput.cpp:196-234 | one channel keeps the gather state well formed for one more channel and keeps the size of `banks_changed` |
| LorPass.GatherStepHolds | xLights/outputs/LOROptimisedOutput.cpp:196-234 | each channel keeps the loop's groupings, colour flags, change flags and `banks_changed` equal to those of the channels seen so far |
| LorPass.GatherFinish | xLights/outputs/LOROptimisedOutput.cpp:234 | after the last channel the loop holds the pass's groupings, colour modes and `banks_changed` |
| LorPass.ChangedMeans | xLights/outputs/LOROptimisedOutput.cpp:218-231 | `banks_changed[b]` is set exactly when some channel of bank b differs from `_lastSent` |
| LorPass.PassSilent | xLights/outputs/LOROptimisedOutput.cpp:304-313 | a pass equal to what was last sent writes nothing |
| LorPass.PassWriteShape | xLights/outputs/LOROptimisedOutput.cpp:304-313 | a pass with a changed channel writes once, and the write ends with `00 00` |
| LorPass.PassWrites | xLights/outputs/LOROptimisedOutput.cpp:304-313 | a pass writes at most once |
| LorPass.PassWritesIffChanged | xLights/outputs/LOROptimisedOutput.cpp:304-313 | a pass writes exactly when one of its channels differs from `_lastSent` |
| LorPass.PartLength | xLights/outputs/LOROptimisedOutput.cpp:243-301 | each pair of its kind adds at most one command of at most 7 bytes |
| LorPass.GroupBytes | xLights/outputs/LOROptimisedOutput.cpp:243-301 | one pair takes at most 7 bytes in any of the three loops |
| LorPass.PartBytes | xLights/outputs/LOROptimisedOutput.cpp:243-301 | the first n pairs of a loop take at most 7 · n bytes |
| LorPass.BankBlock | xLights/outputs/LOROptimisedOutput.cpp:240-301 | a changed bank's three loops take at most 21 bytes per pair |
| LorPass.EmitRange | xLights/outputs/LOROptimisedOutput.cpp:237-303 | the emission loop emits nothing when no bank of its range is marked in `banks_changed` |
| LorPass.KindsCover | xLights/outputs/LOROptimisedOutput.cpp:243-301 | every pair is handled by exactly one of the three loops (zero, 0xFF, other values) |
| LorPass.BankBlockLength | xLights/outputs/LOROptimisedOutput.cpp:240-301 | a changed bank emits at most 112 bytes |
| LorPass.EmitRangeLength | xLights/outputs/LOROptimisedOutput.cpp:237-303 | the emission loop emits at most 112 bytes per bank |
| LorPassWire.GroupCmds | xLights/outputs/LOROptimisedOutput.cpp:243-301 | each pair yields at most one command in each loop |
| LorPassWire.GroupEncoded | xLights/outputs/LOROptimisedOutput.cpp:243-301 | the bytes for a pair are the encoding of its command |
| LorPassWire.PartEncoded | xLights/outputs/LOROptimisedOutput.cpp:243-301 | the bytes of each of a bank's three loops are the encoding of their commands |
| LorPassWire.BlockEncoded | xLights/outputs/LOROptimisedOutput.cpp:240-301 | a changed bank's bytes are the encoding of its commands |
| LorPassWire.EmitEncoded | xLights/outputs/LOROptimisedOutput.cpp:237-303 | the emission loop's bytes are the encoding of its commands |
| LorPassWire.PassEncoded | xLights/outputs/LOROptimisedOutput.cpp:237-303 | up to 256 banks, the pass's bytes are the encoding of its commands |
| LorPassWire.GroupsMasksSelect | xLights/outputs/LOROptimisedOutput.cpp:206-216 | every pair's mask selects a channel, and only channels 0..15 |
| LorPassWire.GroupWellFormed | xLights/outputs/LOROptimisedOutput.cpp:243-301 | below bank 64 every command of a pair is well formed |
| LorPassWire.PartWellFormed | xLights/outputs/LOROptimisedOutput.cpp:243-301 | below bank 64 every command of a loop is well formed |
| LorPassWire.BlockWellFormed | xLights/outputs/LOROptimisedOutput.cpp:240-301 | below bank 64 every command of a changed bank is well formed |
| LorPassWire.EmitWellFormed | xLights/outputs/LOROptimisedOutput.cpp:237-303 | up to 64 banks every command of the emission loop is well formed |
| LorPassWire.PassDecodes | xLights/outputs/LOROptimisedOutput.cpp:237-313 | up to 64 banks a changed pass writes once, and that write decodes to exactly the pass's commands |
| LorPassWire.GroupAddressed | xLights/outputs/LOROptimisedOutput.cpp:243-301 | a pair's command goes to the pass's unit and the pair's bank |
| LorPassWire.PartAddressed | xLights/outputs/LOROptimisedOutput.cpp:243-301 | every command of a loop goes to the pass's unit and that bank |
| LorPassWire.BlockAddressed | xLights/outputs/LOROptimisedOutput.cpp:240-301 | every command of a changed bank goes to the pass's unit and that bank |
| LorPassWire.BlockOrdered | xLights/outputs/LOROptimisedOutput.cpp:239 | a bank's commands, when `banks_changed` marks it, form a one-bank ordered run |
| LorPassWire.EmitOrdered | xLights/outputs/LOROptimisedOutput.cpp:237-303 | the emission loop addresses only the pass's unit and banks in its range, highest bank first |
| LorPassWire.PassOrdered | xLights/outputs/LOROptimisedOutput.cpp:237-303 | a pass addresses only its own unit and emits its banks in descending order |
| LorEffects.Delivered | xLights/outputs/LOROptimisedOutput.cpp:237-303 | a channel has a last effect exactly when some command addresses it |
| LorEffects.DeliveredAppend | xLights/outputs/LOROptimisedOutput.cpp:237-303 | what commands one after another deliver to a channel is the two deliveries in sequence |
| LorEffects.OtherBanksSilent | xLights/outputs/LOROptimisedOutput.cpp:237-303 | commands for other banks deliver nothing to a bank's channels |
| LorEffects.SingleGroup | xLights/outputs/LOROptimisedOutput.cpp:245 | a bank with a single pair holds that pair's value in every channel |
| LorEffects.ZerosSingleGroup | xLights/outputs/LOROptimisedOutput.cpp:245 | a bank of zeros has a single pair, of value 0 |
| LorEffects.AllZeroMeans | xLights/outputs/LOROptimisedOutput.cpp:244-245 | a bank is all zeros exactly when it has a single pair of value 0 |
| LorEffects.PairOfChannel | xLights/outputs/LOROptimisedOutput.cpp:206-216 | the pair holding a channel's value is the first and only pair with that value |
| LorEffects.DeliveredOne | xLights/outputs/LOROptimisedOutput.cpp:237-303 | a single command delivers its effect exactly to the channels it addresses |
| LorEffects.MaskedDelivered | xLights/outputs/LOROptimisedOutput.cpp:286-299 | a command with a pair's mask addresses a channel exactly when the pair holds that channel's value |
| LorEffects.GroupDelivered | xLights/outputs/LOROptimisedOutput.cpp:243-301 | the pair holding a channel's value delivers that loop's effect to it, and every other pair delivers nothing |
| LorEffects.PartDelivered | xLights/outputs/LOROptimisedOutput.cpp:243-301 | a loop over the first n pairs reaches a channel once when its pair is among them, else not at all |
| LorEffects.BlockDelivered | xLights/outputs/LOROptimisedOutput.cpp:240-301 | a changed bank's commands address each channel at most once, with the bank's intended effect |
| LorEffects.RestSilent | xLights/outputs/LOROptimisedOutput.cpp:237-303 | banks the emission loop has not reached receive nothing from it |
| LorEffects.BlockSilent | xLights/outputs/LOROptimisedOutput.cpp:239-302 | a bank's block delivers nothing to other banks |
| LorEffects.EmitDelivered | xLights/outputs/LOROptimisedOutput.cpp:237-303 | the emission loop reaches a bank's channels only through that bank's block, and only when `banks_changed` marks it |
| LorEffects.ChannelInBank | xLights/outputs/LOROptimisedOutput.cpp:224-231 | channel c of a pass is channel c % 16 of bank c / 16 |
| LorEffects.IntendedIsBankEffect | xLights/outputs/LOROptimisedOutput.cpp:239-301 | the intended effect on a channel is its bank's effect for a changed bank, and nothing for an unchanged one |
| LorEffects.ChannelEffect | xLights/outputs/LOROptimisedOutput.cpp:237-303 | every channel of a pass gets at most one command. That command turns the whole bank off for an all-zero bank, sends the intensity for 0 for a zero in a colour-mode bank, full on for 0xFF, and the intensity-table entry otherwise. A zero in any other changed bank, and every channel of an unchanged bank, gets no command |
| LorFrame.RunPass | xLights/outputs/LOROptimisedOutput.cpp:181-320 | a pass keeps the sizes of `_lastSent` and `banks_changed`, and moves the data channel on by the pass's channels |
| LorFrame.RunPasses | xLights/outputs/LOROptimisedOutput.cpp:181-321 | a controller's passes keep the array sizes and step over a full channels-per-pass per pass |
| LorFrame.RunFrame | xLights/outputs/LOROptimisedOutput.cpp:172-322 | a frame keeps the array sizes and steps over the controllers' combined width |
| LorFrame.PassesRecord | xLights/outputs/LOROptimisedOutput.cpp:181-321 | after a controller's passes `_lastSent` holds the data of the channels they covered and is unchanged elsewhere |
| LorFrame.FrameRecords | xLights/outputs/LOROptimisedOutput.cpp:172-322 | after a frame `_lastSent` holds the data of every channel it covered and is unchanged before and after them |
| LorFrame.RunPassSilent | xLights/outputs/LOROptimisedOutput.cpp:304-313 | a pass equal to what was last sent writes nothing and leaves `_lastSent` as it was |
| LorFrame.PassesSilent | xLights/outputs/LOROptimisedOutput.cpp:181-321 | a controller equal to what was last sent writes nothing and leaves `_lastSent` as it was |
| LorFrame.FrameSilent | xLights/outputs/LOROptimisedOutput.cpp:172-322 | a frame equal to what was last sent writes nothing and leaves `_lastSent` as it was |
| LorFrame.FrameRepeatSilent | xLights/outputs/LOROptimisedOutput.cpp:172-322 | sending the same frame twice writes nothing the second time |
| LorFrame.OffBanks | xLights/outputs/LOROptimisedOutput.cpp:390-402 | the bank-off commands of a pass take at most 4 bytes per bank |
| LorFrame.OffCmds | xLights/outputs/LOROptimisedOutput.cpp:390-402 | the i-th bank-off command of a pass is for bank `bank + i` |
| LorFrame.OffWrite | xLights/outputs/LOROptimisedOutput.cpp:390-404 | an `AllOff` write takes at most 4 bytes per bank plus the terminator |
| LorFrame.OffBanksSnoc | xLights/outputs/LOROptimisedOutput.cpp:390-402 | one more bank appends one more bank-off command |
| LorFrame.OffPasses | xLights/outputs/LOROptimisedOutput.cpp:386-411 | a controller's `AllOff` passes write at most once per pass, and the bank counter never goes back |
| LorFrame.AllOffRun | xLights/outputs/LOROptimisedOutput.cpp:377-412 | over all controllers the bank counter never goes back |
| LorFrame.OffBanksEncoded | xLights/outputs/LOROptimisedOutput.cpp:390-402 | the bank-off bytes are the encoding of the bank-off commands for consecutive banks |
| LorFrame.OffWriteDecodes | xLights/outputs/LOROptimisedOutput.cpp:390-404 | below bank 64 an `AllOff` write decodes to one bank-off command per bank, for consecutive banks |
| LorFrame.CounterAfterIs | xLights/outputs/LOROptimisedOutput.cpp:373-401 | after i passes the counter is `bank + i · banks`: it is never reset |
| LorFrame.OffPassesCount | xLights/outputs/LOROptimisedOutput.cpp:386-411 | with the port open `AllOff` writes once per pass, and the counter ends `banks` further on per pass |
| LorFrame.OffPassesWrites | xLights/outputs/LOROptimisedOutput.cpp:386-411 | the i-th write goes to unit `uid + i` and turns off `banks` banks counted from `bank + i · banks` |
| LorFrame.OffPassesClosed | xLights/outputs/LOROptimisedOutput.cpp:406-409 | with the port closed nothing is written, though the counter advances the same |
| LorFrame.AllOffSecondControllerBank | xLights/outputs/LOROptimisedOutput.cpp:373-401 | as written: with two 16-channel normal controllers the second write turns off bank 1 of the second unit, not its bank 0 |
| LorFrame.OffPassesFromZeroShape | xLights/outputs/LOROptimisedOutput.cpp:386-411 | intended: one write per pass, the i-th to unit `uid + i`, turning off banks from 0 |
| LorFrame.OffPassesFromZeroWrites | xLights/outputs/LOROptimisedOutput.cpp:386-411 | intended: each write decodes to bank-off commands for exactly banks 0..banks-1 of its unit |
| LorFrame.PassBanksCovered | xLights/outputs/LOROptimisedOutput.cpp:390-401 | banks 0..ceil(cpp / 16)-1 hold every channel of a pass |
| LorOutput.EmitPart | xLights/outputs/LOROptimisedOutput.cpp:243-301 | one of a bank's three loops appends exactly that kind's bytes to `d` |
| LorOutput.EmitGroup | xLights/outputs/LOROptimisedOutput.cpp:243-301 | the bytes for one pair in one loop are appended to `d` exactly, and the index moves on by their length |
| LorOutput.EmitBank | xLights/outputs/LOROptimisedOutput.cpp:240-301 | a changed bank appends its zero, then 0xFF, then other-value commands to `d` |
| LorOutput.EmitBanks | xLights/outputs/LOROptimisedOutput.cpp:237-303 | the bank loop, from the last bank down to 0, fills `d` with the block of every bank `banks_changed` marks |
| LorOutput.PutTerminator | xLights/outputs/LOROptimisedOutput.cpp:304-307 | appends `00 00` |
| LorOutput.EncodePass | xLights/outputs/LOROptimisedOutput.cpp:237-311 | when a channel changed, the bytes handed to the port are exactly the pass's write |
| LorOutput.OffPass | xLights/outputs/LOROptimisedOutput.cpp:387-404 | an `AllOff` pass produces ceil(cpp / 16) bank-off commands numbered on from the counter, then `00 00`, and moves the counter on by that many |
| LorOutput.LorOptimisedOutput.Gather | xLights/outputs/LOROptimisedOutput.cpp:187-234 | the gather loop leaves the pass's groupings, colour modes and changed banks, copies the pass's channels into `_lastSent` and nothing else, and reports whether any channel changed |
| LorOutput.LorOptimisedOutput.GatherTurn | xLights/outputs/LOROptimisedOutput.cpp:196-234 | one turn of the gather loop keeps its state the state of the channels seen so far |
| LorOutput.LorOptimisedOutput.GatherChannel | xLights/outputs/LOROptimisedOutput.cpp:197-233 | one channel: a step of the gather function on the loop's locals and `banks_changed`, and the channel copied into `_lastSent` |
| LorOutput.LorOptimisedOutput.Pass | xLights/outputs/LOROptimisedOutput.cpp:182-320 | a pass updates `_lastSent` and `banks_changed` and writes to the port exactly as `RunPass` says, writing only when the port is open |
| LorOutput.LorOptimisedOutput.Passes | xLights/outputs/LOROptimisedOutput.cpp:181-321 | a controller's pass loop does exactly what `RunPasses` says |
| LorOutput.LorOptimisedOutput.PassTurn | xLights/outputs/LOROptimisedOutput.cpp:181-321 | one turn of the pass loop leaves the rest of the loop still to come |
| LorOutput.LorOptimisedOutput.SetManyChannels | xLights/outputs/LOROptimisedOutput.cpp:158-324 | when enabled, open, usable and with an empty transmit buffer, the frame does exactly what `RunFrame` says and marks ids as `CalcChannels` does. Otherwise `_lastSent`, `banks_changed`, `unit_id_in_use` and the port are untouched |
| LorOutput.LorOptimisedOutput.MarkIdsFrom | xLights/outputs/LOROptimisedOutput.cpp:592-606 | sets exactly the ids `first .. first + count - 1` and keeps every other entry |
| LorOutput.LorOptimisedOutput.CalcChannels | xLights/outputs/LOROptimisedOutput.cpp:578-614 | returns the controller's plan (channel count, channels per pass, budget) and marks exactly its ids |
| LorOutput.LorOptimisedOutput.CalcTotalChannels | xLights/outputs/LOROptimisedOutput.cpp:616-635 | `unit_id_in_use` becomes id 0 plus every controller's own and marked ids, and `_channels` the sum of the channel counts |
| LorOutput.LorOptimisedOutput.SetupHistory | xLights/outputs/LOROptimisedOutput.cpp:107-112 | sets the flag of every bank in `banks_changed` and changes nothing else |
| LorOutput.LorOptimisedOutput.constructor | xLights/outputs/LOROptimisedOutput.cpp:89-95 | after `SetupHistory` and `CalcTotalChannels`, every bank's flag is set, the id map and `_channels` are as `CalcTotalChannels` leaves them, nothing is written and `_changed` is false |
| LorOutput.LorOptimisedOutput.SetOneChannel | xLights/outputs/LOROptimisedOutput.cpp:140-156 | when active, the first call of a frame marks every bank changed, zeroes `_curData` and fills its span of `_lastSent` with 0xFF, and every call stores the channel. Otherwise nothing changes |
| LorOutput.LorOptimisedOutput.EndFrame | xLights/outputs/LOROptimisedOutput.cpp:126-136 | unless disabled or suspended, a frame with a set channel sends `_curData` from channel 0 as `SetManyChannels` does and clears `_changed`. `_curData` is kept |
| LorOutput.LorOptimisedOutput.OffControllerPasses | xLights/outputs/LOROptimisedOutput.cpp:386-411 | a controller's `AllOff` pass loop writes exactly what `OffPasses` says and returns the counter it leaves |
| LorOutput.LorOptimisedOutput.AllOff | xLights/outputs/LOROptimisedOutput.cpp:371-412 | writes exactly `AllOffRun` from counter 0 and marks ids as `CalcChannels` does |

## Left out

- The property-grid UI, `InitialiseTypes`, `Save`, `GetSetupHelp` and XML loading: they edit or read configuration and encode nothing. Controllers are a `seq<Controller>` given to the constructor.
- The two constructors that do not read controllers (lines 82-87 and 97-101). They are the modelled constructor without `CalcTotalChannels`.
- The serial port: `_serial->Write` appends to the log `written`. `_serial != nullptr` is the constant `serialOpen`, and `TxEmpty()` is the parameter `txEmpty`.
- `SendHeartbeat`, `_lastheartbeat`, `wxMilliSleep(50)` and logging in `AllOff` and `SetManyChannels`: time and diagnostics, with no effect on the bytes written.
- The base class `LOROutput::EndFrame`, and `LorController`/`LorControllers` beyond type, unit id, channel count and address mode.
- The `_data` intensity table is an arbitrary 256-byte sequence. Its contents are defined outside this file.
- `MAX_BANKS` and the sizes of `_lastSent` and `_curData` come from the header, which is not part of this model. They are the lengths of the arrays given at construction.
- The arrays' contents at construction and the initial `_changed`: the header's initialisers are not part of this model. The constructor leaves the arrays as they come and `_changed` false.
- The `size` argument of `SetManyChannels` is unused by the source and has no model.
- `color_mode[]` is a local array. It is modelled as the sequence of flags the emission loop reads: `PassColours` plus the slot past the last bank that line 230 clears. Only its bounds are kept, as `FilledBanks(cpp) < maxBanks`.
- The `wxASSERT` checks (148, 154, 199, 201, 205, 238) are debug-only and are not modelled. Where one guards an index the model needs, it is a `requires` instead.
- LorFrame.PassFits: demands that a pass's worst case, 112 bytes per bank plus the terminator, fits `d[8192]`. The source only overflows when the actual bytes do not fit, so this is stronger than the source's bound. It is a bound the C array silently relies on.
- LorFrame.OffFits: demands that 4 bytes per bank plus the terminator fit `d[1024]`. A bank-off command takes at most 4 bytes, so this is the most an `AllOff` pass can need. It is the bound the C array relies on.
- LorOutput.LorOptimisedOutput.SetManyChannels: requires every controller's pass loop to end (`Terminates`, inside `FrameFits`). A split controller of one channel never leaves the loop in the source (`SplitSingleNeverStops`), and that behaviour is not modelled. `AllOff` has the same requirement.
- LorOutput.LorOptimisedOutput.CalcChannels: requires the ids it marks to lie inside the 255 entries of `unit_id_in_use` (`IdsFit`). The source writes past the array otherwise.
- `int` wrap-around: unit ids, banks and channel counters are unbounded. Unit ids and banks are narrowed to a byte where the source stores them in `d`. Decoding and ordering results are stated for at most 64 banks per pass, where the bank byte's flags cannot clash with the bank number.

## Findings

| source | as written | input that shows it | evidently intended | confidence | as-written member | corrected member |
|---|---|---|---|---|---|---|
| xLights/outputs/LOROptimisedOutput.cpp:373-401 | `AllOff` declares its `bank` counter once, before the controller loop, and only ever increments it. The first bank-off of every pass after the first is therefore numbered after the banks of all earlier passes, and the unit's own low banks are never turned off. | Two normal-mode controllers of 16 channels: the second write is `00 uid 51 C1 00 00`, bank 1 of the second unit, which has only bank 0 | every pass turns off banks 0 .. ceil(cpp / 16) - 1 of its own unit | not executed | LorFrame.AllOffSecondControllerBank | LorFrame.OffPassesFromZeroWrites |
| xLights/outputs/LOROptimisedOutput.cpp:608-609 | Split mode sets `channels_per_pass` to `channel_count / 2`. For one channel that is 0, so the pass loop of line 181 subtracts 0 from a budget of 1 on every turn and never ends. | A split-mode controller of 1 channel | a split controller of one channel sends it in one pass to its own id | not executed | LorLayout.SplitSingleNeverStops | LorLayout.SplitAtLeastOneStops |

The class's `AllOff` method follows the code as written (`AllOffRun`). The corrected
behaviour is `OffPassesFromZero`: every write of a controller turns off banks from 0
(`OffPassesFromZeroShape`) and decodes to bank-off commands for exactly the banks
holding the pass's channels (`OffPassesFromZeroWrites` with `PassBanksCovered`).

`SplitPlanAtLeastOne` is the corrected split plan: it sends one channel per pass when
`channel_count / 2` is 0 and is `PlanOf`'s plan for every other count
(`SplitAtLeastOneStops`). The frame and `AllOff` functions follow the code as written
and require every controller's loop to stop, which excludes exactly the controller of
this finding.
