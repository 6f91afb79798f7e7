# oim core in Dafny

A model of the sequential core of oim, a small Linux instrument runtime.
oim turns a graphics tablet and a MIDI keyboard into input for an audio
callback. The engine (`oim_run` in `oim.h`) runs one loop. Each turn it
opens absent devices and polls their descriptors. It decodes pen records
and MIDI note messages into an input snapshot. When the audio device wants
data, it hands the snapshot to the synthesis callback, oversampling through
a symmetric FIR when asked to. Two programs are modelled too:
`tablet-osc.c`, a bridge that sends the pen state as Open Sound Control
datagrams, and the arpeggiator `pwmarp.c`, which keeps a sorted list of
held notes.

The model is eight modules, one per file:

- `Base` (base.dfy): bytes, `Option`, reversal and repetition of sequences.
- `Midi` (midi.dfy): the note decoder. It scans one rawmidi read and keeps
  channel-0 Note On and Note Off messages laid out as in the MIDI 1.0
  Detailed Specification. Its inverse is an encoder.
- `Pen` (pen.dfy): the pen-record normaliser and the sample-and-hold pen
  snapshot. The same code appears at oim.h:281-295 and tablet-osc.c:163-177.
- `Handles` (handles.dfy): the lifecycle of an evdev device handle: lazy
  open, registration, and handling of one poll entry. The same code
  appears at tablet-osc.c:88-120.
- `Engine` (engine.dfy): one loop turn as a state machine, and runs of
  turns. Every answer of the kernel and of ALSA is a parameter (`World`):
  `open`, `poll`, the returned events, the reads, and the device status
  queries.
- `Oversample` (oversample.dfy): the oversampling buffer layout. This covers
  the history shift, the callback block, and the per-output read window
  with its symmetric tap weighting, over `seq<real>`.
- `Osc` (osc.dfy): the OSC encoder, with the "OSC-string" padding and the
  big-endian 32-bit arguments of the Open Sound Control 1.0 specification.
  It also covers the `/tablet ,fff` message and a parser that inverts it.
- `Arp` (arp.dfy): the arpeggiator's held-note list and its note selection.

Reals stand in exactly for the single-precision divisions (`v / 14720.0f`,
`d1 / 127.0f`) and for the filter arithmetic. `osc_f32` is modelled on the
four host bytes of the float, not on float values.

Where the code does something other than what it evidently means to do,
the model has both versions (see "## Findings"). The rest of the model uses
the corrected one:

- `Engine` uses `Handles.HandleInputEventFixed` and `Midi.AppendCapped`.
- `Arp.Process` uses `Arp.NoteOnCapped`.

Three behaviours of the source are modelled as written:

- At oim.h:325 the code tests `err == -EAGAIN`. `err` holds the status
  query's result, which is not negative on that path, so the test never
  holds. Any negative read count closes the MIDI device, and
  `Engine.MidiPhase` models exactly that.
- With no held notes, the arpeggiator still reads index 0 of its note
  array (pwmarp.c:55-59). That slot is outside the live list, and
  `Arp.SelectIndex` states it.
- A note-off removes every held copy of its note, including copies from
  earlier note-ons. `Arp.ReleaseUndoesPress` states it.

## Model

| member | source | states |
|---|---|---|
| Midi.Step | oim.h:338-378 | One turn of the scan yields an event exactly when a channel-0 Note On/Off status has two bytes after it in the read. It then moves 3 bytes on, otherwise 1. The note is the first data byte; the level is the second for Note On and 0 for Note Off, with no check of data-byte high bits. |
| Midi.DecodeFrom | oim.h:338-379 | From any position, the scan yields at most one event per three remaining bytes. |
| Midi.Decode | oim.h:338-379 | One read of n bytes appends at most n/3 events. |
| Midi.EncodeAll | oim.h:355-373 | The inverse of the decoder: 3 bytes per event, a channel-0 status byte first. |
| Midi.DecodeShift | oim.h:338-379 | The scan from a position depends only on the bytes from that position on. |
| Midi.DecodeEncoded | oim.h:338-379 | Encoded messages decode to their events, in input order, followed by whatever the rest of the read decodes to. |
| Midi.DecodeRoundTrip | oim.h:338-379 | Decoding inverts encoding. |
| Midi.TruncatedTailDropped | oim.h:353-378 | A message cut short by the end of the read yields no event. |
| Midi.SkippedByte | oim.h:340-361 | A first byte that starts no complete channel-0 note message yields nothing and is skipped alone. This covers a data byte, another command, another channel, and a note status too close to the end. |
| Midi.NoteExamples | oim.h:362-373 | `90 3C 64` gives note 60 at velocity 100/127; `80 3C 00` gives note 60 at velocity 0. |
| Midi.NoteEvent.Velocity | oim.h:362-373 | The stored velocity times 127 is the level byte `d1`, so it is positive exactly for a Note On with a non-zero level. A Note Off stores 0, and a level up to 127 gives at most 1. |
| Midi.AppendUnchecked | oim.h:375 | As written: the read's events are appended to the snapshot with no capacity check. |
| Midi.NoteEventsOverflow | oim.h:323-375 | Four reads of 85 messages each, with no callback between them, take the as-written list past the 256 array entries. |
| Midi.AppendCapped | oim.h:375 | Corrected: the list never exceeds 256 entries. Earlier events are kept, and events are dropped only from the end of the read and only once the list is full. Everything is kept when it fits. |
| Pen.Normalise | oim.h:282-290 | A raw axis value times the axis maximum gives back the raw value. 0 maps to 0, the maximum to 1, and in-range values to [0, 1]. |
| Pen.ApplyPenEvent | oim.h:281-295 | An `EV_ABS` record for X, Y or pressure sets that field to the value over 14720, 9200 or 1023. Any other record leaves the snapshot unchanged. |
| Pen.NormaliseMonotone | oim.h:282-290 | Each axis mapping is monotone. |
| Pen.HalfWidth | oim.h:282-284 | Raw X 7360 gives 0.5. |
| Pen.LastSampleWins | oim.h:281-295 | Sample and hold: a later record on the same axis overrides an earlier one. |
| Pen.AxesCommute | oim.h:281-295 | Records on different axes can be applied in either order. |
| Pen.StaysInUnitRange | oim.h:283-290 | In-range raw values keep the snapshot inside the unit cube. |
| Handles.Reopen | oim.h:139-142 | An open is attempted only when the descriptor number is -1. A valid handle stays valid. |
| Handles.Register | oim.h:143-147 | The descriptor joins the wait set exactly when it is not negative. |
| Handles.PrepareForPoll | oim.h:138-148 | At most one entry is added, and it is the handle's descriptor. For a valid handle, an entry is added exactly when the descriptor is open. |
| Handles.HandleInputEvent | oim.h:150-170 | As written. An entry of another descriptor changes nothing. POLLERR/POLLHUP closes the device and sets -1. Without POLLIN the entry is not readable and the handle is unchanged. With POLLIN a full-size read yields the record, and a read of any other size closes the descriptor but keeps its number. |
| Handles.StaleDescriptorNeverReopened | oim.h:162-166 | After a wrong-size read on any readable entry without error bits, the handle is invalid. It is never reopened, its closed number is registered again, and the POLLNVAL poll reports for it is ignored. |
| Handles.HandleInputEventFixed | oim.h:150-170 | Corrected. Its verdict is always the as-written handler's. The handle becomes absent exactly when the entry is the handle's own and reports POLLERR/POLLHUP, or is readable with a wrong-size read; otherwise it is unchanged. A valid handle stays valid. |
| Handles.FixedHandleStaysValid | oim.h:138-170 | With the corrected handler, prepare-then-handle keeps a handle valid, and only an open descriptor is registered. |
| Engine.Fill | oim.h:121-135 | ALSA's descriptors are a prefix of what it offers, limited to the free wait-set entries. |
| Engine.Prepare | oim.h:245-256 | Absent devices are opened. The evdev wait-set entries are the pen, touch and pad descriptors, in that order, each present exactly when it is not negative. An open audio device contributes what ALSA fills from the start of the array, and an open MIDI device what ALSA fills after the evdev entries. Validity is kept. |
| Engine.DispatchEntry | oim.h:272-308 | An entry with no events changes nothing. Otherwise each of the three handles becomes what its handler leaves, so each is kept or closed and stays valid, and an entry of another descriptor leaves a handle as it was. A full-size pen read on a readable entry without error bits applies the record to the snapshot; otherwise the snapshot is unchanged. |
| Engine.Dispatch | oim.h:272-309 | Over entries i..n of the wait set, handles stay valid and are only kept or closed. If no entry is the pen's descriptor, the pen handle and snapshot are unchanged. `DispatchClosesFaulted` and `DispatchKeepsUnfaulted` state the two directions of which handles the loop closes. |
| Engine.DispatchKeepsUnfaulted | oim.h:272-308 | For the pen, touch or pad device: if no entry in range faults its handle (no POLLERR/POLLHUP on its own entry, and no wrong-size read of a readable one), the device's handle is the same at the end of the dispatch loop as at the start. |
| Engine.EvdevDispatch | oim.h:272-309 | The dispatch loop over every evdev entry of the prepared wait set keeps handles valid, and each handle is kept or closed. |
| Engine.DispatchAppliesPenRecord | oim.h:272-295 | When exactly one entry of the pen's descriptor is in range and its full-size record is read, the dispatch loop leaves that record applied to the snapshot. |
| Engine.DispatchClosesFaulted | oim.h:272-308 | For the pen, touch or pad device: if the first entry of its descriptor in range reports POLLERR/POLLHUP, or is readable and its read has the wrong size, the device is absent at the end of the dispatch loop. |
| Engine.MidiPhase | oim.h:311-383 | The MIDI device stays open exactly when it was open and reports nothing readable or delivers a read. A status error, a hang-up or a failed read closes it. A read appends its events under the capacity, and nothing else changes the list. |
| Engine.PcmPhase | oim.h:385-473 | The callback runs exactly when the open audio device reports POLLOUT. It sees the snapshot, and the note events are cleared after it. The device stays open exactly when it was open and is idle, or was written to without a write failure followed by a prepare failure; an error or a hang-up drops it. |
| Engine.IdleTurn | oim.h:258-269 | A turn that does not dispatch sleeps exactly when the wait set is empty; otherwise a poll result of 0 times out and -1 fails. The state is the prepared one, and nothing is decoded or kept. |
| Engine.DispatchTurn | oim.h:271-473 | After a positive poll: the pen and handles are what the dispatch loop over the evdev entries leaves. The MIDI and audio flags are what their phases leave, and the callback runs exactly when the audio device is open and ready. Exactly the MIDI read is decoded, and the capped append decides what is kept. Events are dropped only when the list is full. The callback sees the updated pen and all kept events, which are then cleared; without a callback they stay pending. Handles are only kept or closed. |
| Engine.Iterate | oim.h:239-474 | The loop invariant is kept. The wait set is the prepared audio, evdev and MIDI descriptors. The turn sleeps exactly when it is empty; otherwise a poll result of 0 times out, -1 fails, and a positive one dispatches. A turn that does not dispatch changes only the prepared devices. A dispatched turn updates the pen and handles by the dispatch loop, the device flags by the two phases, decodes exactly the MIDI read, and keeps what the capped append keeps. Events beyond those kept are dropped only when the list is full. The callback sees the updated pen and all kept events, which are then cleared. |
| Engine.AllAbsentSleeps | oim.h:258-261 | With nothing open and every open failing, the turn sleeps and changes nothing. |
| Engine.OnlyOpenDevicesPolled | oim.h:249-252 | Every evdev wait-set entry is an open device's descriptor. |
| Engine.TurnConserves | oim.h:375-463 | In one turn no kept note event is lost or delivered twice. Every decoded event is kept or dropped, the dropped ones are the tail of the read, and events are dropped only when the 256-entry list is full. |
| Engine.FullListDropsNoteOn | oim.h:375 | With 256 events pending and no audio device, a decoded Note On is not kept and is reported as dropped. |
| Engine.Run | oim.h:239-474 | Over any run of turns the invariant holds. Pending plus kept events equal, in order, delivered plus still pending events, and every decoded event is either kept or dropped. |
| Oversample.AccumulateFrame | oim.h:431-433 | Every channel of a frame is added with the tap weight; nothing else changes. |
| Oversample.CausalPass | oim.h:429-434 | The causal loop sums its taps in the engine's order. |
| Oversample.AnticausalPass | oim.h:440-445 | The anticausal loop adds its taps to the accumulators. |
| Oversample.LoopOrderIsSymmetric | oim.h:427-445 | The engine's accumulation order computes the symmetric FIR: tap j on frames j+1 before and after the centre, weight 1 on the centre. |
| Oversample.FilterFrame | oim.h:421-445 | Every channel of an output frame is the symmetric FIR around its centre frame. |
| Oversample.Decimate | oim.h:421-447 | Output frame k is the FIR centred on oversampled frame k*R + fsz. |
| Oversample.ShiftHistory | oim.h:409-412 | History frames [0, hist) receive the previous buffer's frames [period*R, period*R+hist). The rest is untouched. |
| Oversample.WriteBlock | oim.h:414-419 | The callback's block lands right after the history; nothing else changes. |
| Oversample.OversamplePeriod | oim.h:404-447 | A period shifts the history, writes the block after it, and decimates. Frames after the block keep their previous values. Every output frame is the symmetric FIR of the new buffer. |
| Oversample.CallbackRequest | oim.h:414-416 | The oversampled request spans the same time as one period. |
| Oversample.FilterAdditive | oim.h:429-445 | The filter is additive. |
| Oversample.FilterHomogeneous | oim.h:429-445 | The filter is homogeneous. |
| Oversample.SilenceInSilenceOut | oim.h:429-445 | Zero input gives zero output. |
| Oversample.FilterImpulse | oim.h:440-445 | Changing frame c+1+j by d changes the output centred on c by fir[j]*d. |
| Oversample.FilterLocal | oim.h:427-445 | The output depends only on the frames of its window. |
| Oversample.RatioOneIsPassThrough | oim.h:460-461 | With ratio 1 and no taps, every frame passes through unchanged, as on the direct path. |
| Oversample.AsWrittenWindowOverreach | oim.h:409-447 | As written (history fsz), the highest frame read reaches past the filled frames exactly when fsz >= R, which always holds for fsz = R*zero_crossings. |
| Oversample.AsWrittenReadsUnfilled | oim.h:409-445 | As written, the last output frame changes when a frame outside the filled region changes, whenever a tap j >= R-1 is nonzero. |
| Oversample.CorrectedWindowInside | oim.h:409-447 | With a history of 2*fsz, every window lies inside the filled frames. |
| Oversample.CorrectedReadsOnlyFilled | oim.h:409-447 | With a history of 2*fsz, two buffers that agree on the filled frames give the same outputs. |
| Osc.Padding | tablet-osc.c:65 | 1 to 4 NULs, reaching a multiple of 4. |
| Osc.OscString | tablet-osc.c:57-67 | The characters, then 1 to 4 NULs; the length is a multiple of 4. |
| Osc.Begin | tablet-osc.c:52-55 | The buffer length becomes 0. |
| Osc.Str | tablet-osc.c:57-67 | The character loop and the padding loop append the OSC-string. Earlier bytes are unchanged, and the block starts with the characters and ends with a NUL. |
| Osc.F32 | tablet-osc.c:69-77 | Appends exactly the four host bytes, reversed. |
| Osc.ReversedIsBigEndian | tablet-osc.c:69-77 | Read big-endian, the appended word is the little-endian host value. |
| Osc.End | tablet-osc.c:79-86 | An empty buffer sends nothing. Otherwise the whole buffer is one datagram. Either way the length becomes 0. |
| Osc.ReadString | tablet-osc.c:57-67 | The parser's string reader: what it accepts is exactly an OSC-string of NUL-free characters. |
| Osc.ReadF32 | tablet-osc.c:69-77 | The parser's float reader: the wire word is the reversed host bytes. |
| Osc.StringRoundTrip | tablet-osc.c:57-67 | An appended OSC-string reads back whatever surrounds it. |
| Osc.F32RoundTrip | tablet-osc.c:69-77 | An appended float reads back to its host bytes. |
| Osc.TabletMessage | tablet-osc.c:187-193 | The message is `/tablet` and a NUL, `,fff` and four NULs, then x, y and pressure big-endian: 28 bytes. |
| Osc.TabletRoundTrip | tablet-osc.c:187-193 | Every message sent parses back to the pen words it carries. |
| Osc.ParsedIsTablet | tablet-osc.c:187-193 | Every message that parses is the message of the words it yields. |
| Osc.SendTablet | tablet-osc.c:187-193 | The loop's begin/str/str/f32x3/end sequence sends exactly the `/tablet` message and leaves the buffer empty. |
| Arp.ArpAsc | pwmarp.c:17-20 | Negative, zero or positive exactly when a < b, a = b or a > b. |
| Arp.SortedByArpAsc | pwmarp.c:17-20 | Ascending by note number is ascending under `arp_asc`. |
| Arp.SortedUnique | pwmarp.c:31 | Two sorted lists of the same notes are equal, so the result of `qsort` is determined. |
| Arp.Insert | pwmarp.c:30-31 | Sorted, with the notes plus the new one. |
| Arp.NoteOn | pwmarp.c:29-31 | The list grows by one, stays sorted, contains the note, and keeps duplicates. |
| Arp.NoteOnIsSort | pwmarp.c:30-31 | Any sorted arrangement of the appended list is what `NoteOn` computes. |
| Arp.NoteOnCapped | pwmarp.c:30 | Corrected: the list never exceeds 256. A note that does not fit is ignored; otherwise the note is added as written. |
| Arp.Without | pwmarp.c:32-38 | Removal never lengthens the list, and no copy of the note is left. |
| Arp.WithoutMultiset | pwmarp.c:32-38 | Exactly the copies of the note go. Every other note keeps its count, and the count drops by the number of copies. |
| Arp.WithoutSorted | pwmarp.c:32-38 | Removal keeps a sorted list sorted. |
| Arp.NoteOff | pwmarp.c:32-39 | Note Off on a sorted list: sorted, no copy of the note left, all other notes kept. |
| Arp.RemoveNote | pwmarp.c:33-38 | The compaction loop computes the removal: the other notes in their order, with the count as the new length. |
| Arp.ApplyEvent | pwmarp.c:27-39 | A positive velocity (level > 0) is a Note On; otherwise it is a Note Off. Sortedness and the capacity are kept. |
| Arp.Process | pwmarp.c:26-40 | The events of a period, in array order, keep the list sorted and within 256. |
| Arp.ProcessConcat | pwmarp.c:26-40 | Two batches in turn equal their concatenation. |
| Arp.ReleaseUndoesPress | pwmarp.c:29-38 | A release after a press leaves the list as a release alone would: every earlier copy goes too. |
| Arp.PressReleaseRemovesAll | pwmarp.c:26-40 | The same through the event fold. |
| Arp.ProcessUnchecked | pwmarp.c:26-40 | As written: the fold with no capacity check keeps the list sorted. |
| Arp.HeldNotesGrow | pwmarp.c:30 | Each as-written Note On lengthens the list by one. |
| Arp.HeldNotesOverflow | pwmarp.c:14-30 | 257 Note Ons take the as-written list past the 256-entry array, while the capped list stays within it. |
| Arp.SelectIndex | pwmarp.c:53-59 | The index is the whole part of the kept phase. A phase whose whole part is inside the list is kept as it is. A phase past the end loses its whole part and selects index 0. With no notes the index is 0, outside the live list. |
| Arp.UnitStepsCycle | pwmarp.c:52-59 | Starting from phase 0 and advancing one whole note per frame, frame k selects note k mod count: the notes are walked in order and wrap to the first after the last. |
| Arp.SelectStable | pwmarp.c:53-58 | Selecting again from the kept phase changes nothing. |

## Left out

- ALSA device opening and hardware parameters (oim.h:41-136) are not modelled. Whether the audio or MIDI device opens, and the descriptors it hands out, are parameters of a turn. These are foreign library calls.
- `poll`, `read`, `snd_rawmidi_read`, `snd_pcm_writei`, `snd_pcm_prepare` and the revents queries are not modelled. Their results are parameters, because they are I/O.
- Engine.PcmPhase: the audio device is treated as dropped after a failed prepare. The source sets `pcm = NULL` there without closing it, and that leaked handle is not modelled.
- Engine.Iterate: the samples the callback writes and the period size are not part of the turn. The audio contents are modelled separately in `Oversample`.
- Oversample.CallbackRequest: the sample rate and period size are taken as well-defined parameters. In the source, `sample_rate` and `period_size` are locals of the loop body (oim.h:241-242), and `oim__prep_audio` sets them only on the turn that opens the device (oim.h:80, 88). Every later turn reads indeterminate values at oim.h:411, 415-416, 422, 461 and 464. A model of indeterminate values has no counterpart in Dafny, so this defect is recorded here and not modelled.
- Engine.Prepare: the evdev entries are appended without checking the 32-entry wait-set array. The model's wait set is a sequence, so an audio device filling 30 or more entries cannot overrun it.
- FIR tap generation (oim.h:172-237) is not modelled: the sinc, the Kaiser-Bessel window and the Bessel series. The taps are an arbitrary `seq<real>`, because this is floating-point numerics.
- Pen.Normalise: the exact real quotient, not the single-precision rounded one.
- Oversample.ShiftHistory: the copy reads the previous buffer as it was. The source uses `memcpy`, which is undefined when source and destination overlap (period*R < fsz), and that case is not modelled.
- Oversample.OversamplePeriod: the history length is a parameter. The source passes fsz, the corrected layout passes 2*fsz, and the engine's turn does not call it.
- Socket setup (`osc_open`, tablet-osc.c:20-50), the result of the datagram `write`, and the unreachable ping loop after the bridge's main loop are not modelled. They are I/O.
- The bridge's own loop (tablet-osc.c:139-194) is not modelled as a state machine. Its device handling is the same code as the engine's, modelled in `Handles`, and its pen decoding is `Pen.ApplyPenEvent`.
- The arpeggiator's oscillator, Hz conversion and parameter smoothing (pwmarp.c:42-68) are not modelled, apart from the index selection. This is floating-point DSP.
- Arp.SelectIndex: the phase is a non-negative real, and the `(int)` truncation is `Floor`. Float rounding of the phase advance is not modelled.
- oscpen.c and pwmpen.c are not part of this model. They are float oscillator programs with no discrete logic.
- `DEBUG` printing and diagnostics on stderr are not modelled.

## Findings

| source | as written | input that shows it | evidently intended | confidence | as-written member | corrected member |
|---|---|---|---|---|---|---|
| oim.h:375 | A decoded note event is stored at index `n_note_events` of the 256-entry array, with no bound check. The count is reset only after the callback. | The audio device is absent or not ready while MIDI arrives: four reads of 85 Note On messages (255 bytes each) with no POLLOUT between them write the 257th event past the array. | Events that do not fit are dropped. | not executed | Midi.AppendUnchecked, Midi.NoteEventsOverflow | Midi.AppendCapped |
| oim.h:162-166 | A read of the wrong size closes the descriptor but leaves its number in `*fd`. | A pen read returns -1 or a short count, as when the tablet is unplugged mid-read. The closed number is registered again every turn, the device is never reopened, and POLLNVAL for it is ignored. | Set `*fd = -1` as the hang-up branch does, so the next turn reopens the device. | not executed | Handles.HandleInputEvent, Handles.StaleDescriptorNeverReopened | Handles.HandleInputEventFixed, Handles.FixedHandleStaysValid |
| oim.h:409-447 | The history keeps fsz frames, yet the last output frame reads up to frame (period-1)*R + 2*fsz. Only fsz + period*R frames are filled in a period. | ratio 10, zero crossings 2 (fsz 20): the last output frame reads 11 frames beyond the filled region, weighted by taps 9 to 19. | Keep 2*fsz history frames, at a latency of fsz frames, so every window lies on rendered samples. | not executed | Oversample.AsWrittenWindowOverreach, Oversample.AsWrittenReadsUnfilled | Oversample.CorrectedWindowInside, Oversample.CorrectedReadsOnlyFilled |
| pwmarp.c:30 | A Note On stores the note at index `n_notes` of the 256-entry array, with no bound check. | 257 Note On events with no Note Off, for example the same key repeated, since duplicates are kept. | A Note On is ignored when the list is full. | not executed | Arp.ProcessUnchecked, Arp.HeldNotesOverflow | Arp.NoteOnCapped, Arp.Process |
