/** One turn of the engine loop of `oim_run` (oim.h:239-474) as a state
    machine: device preparation, the wait-set and poll-result branching,
    dispatch of ready descriptors to the pen decoder, the MIDI phase and the
    audio phase, which hands the input snapshot to the synthesis callback
    and then clears its note events. Everything the operating system and
    ALSA answer is a parameter (`World`). The loop is built on the corrected
    device handler and the capacity-respecting note append. */
module Engine {
  import opened Base
  import opened Pen
  import opened Midi
  import opened Handles

  /** Size of the wait-set array (oim.h:39). */
  const MaxPollFds: nat := 32

  /** The input snapshot handed to the synthesis callback. */
  datatype Input = Input(pen: PenState, events: seq<NoteEvent>)

  /** The three evdev devices of the tablet. */
  datatype Devices = Devices(pen: Handle, touch: Handle, padbtns: Handle)

  /** The engine state that survives from one loop turn to the next. */
  datatype State = State(pcmOpen: bool, midiOpen: bool, devices: Devices, input: Input)

  /** The reads each of the three handlers would get for one wait-set entry. */
  datatype EntryReads = EntryReads(pen: ReadResult, touch: ReadResult, padbtns: ReadResult)

  /** What the MIDI device reports after poll. */
  datatype MidiAnswer =
    | MidiReventsError        // snd_rawmidi_poll_descriptors_revents failed
    | MidiHangup              // POLLERR or POLLHUP
    | MidiIdle                // no POLLIN
    | MidiReadError           // snd_rawmidi_read returned a negative count
    | MidiBytes(bytes: seq<Byte>)

  /** What the audio device reports after poll, and how a write goes. */
  datatype PcmAnswer =
    | PcmReventsError
    | PcmHangup
    | PcmIdle                 // no POLLOUT
    | PcmReady(writeFails: bool, prepareFails: bool)

  /** Everything the outside world answers during one loop turn. */
  datatype World = World(
    pcmOpens: bool, pcmFds: seq<int>,
    openPen: int, openTouch: int, openPadbtns: int,
    midiOpens: bool, midiFds: seq<int>,
    pollResult: int, revents: seq<bv16>, entryReads: seq<EntryReads>,
    midi: MidiAnswer, pcm: PcmAnswer)

  /** What POSIX promises about the answers: `open` gives -1 or a
      descriptor, `poll` gives -1 or a count. */
  predicate Answerable(w: World)
  {
    w.openPen >= -1 && w.openTouch >= -1 && w.openPadbtns >= -1 && w.pollResult >= -1
  }

  predicate DevicesValid(d: Devices)
  {
    Valid(d.pen) && Valid(d.touch) && Valid(d.padbtns)
  }

  /** The invariant the loop keeps between turns. */
  predicate Good(s: State)
  {
    DevicesValid(s.devices) && |s.input.events| <= MaxNoteEvents
  }

  /** How one loop turn ended. */
  datatype Turn =
    | Slept                              // empty wait set: sleep, no poll
    | TimedOut                           // poll returned 0
    | PollFailed                         // poll returned -1: sleep
    | Dispatched(delivered: Option<Input>)  // the snapshot the callback saw, if it ran

  /** The result of a loop turn: the next state, the wait set handed to
      poll (empty when poll was skipped), the note events the MIDI read
      decoded, those of them the snapshot kept, and how the turn ended. */
  datatype Iteration = Iteration(state: State, waitSet: seq<int>, decoded: seq<NoteEvent>,
                                 appended: seq<NoteEvent>, turn: Turn)

  /** The device-preparation phase: descriptors of the audio device, then
      the three evdev devices, then the MIDI device. */
  datatype Prep = Prep(pcmOpen: bool, midiOpen: bool, devices: Devices,
                       pcmFds: seq<int>, simpleFds: seq<int>, midiFds: seq<int>)

  /** ALSA fills at most the free space of the wait-set array. */
  function Fill(fds: seq<int>, used: nat): (r: seq<int>)
    ensures r <= fds
    ensures used + |r| <= MaxPollFds || r == []
  {
    if used >= MaxPollFds then [] else fds[..Min(|fds|, MaxPollFds - used)]
  }

  /** oim.h:245-256: open what is absent and build the wait set. */
  function Prepare(s: State, w: World): (p: Prep)
    requires Answerable(w)
    ensures p.pcmOpen == (s.pcmOpen || w.pcmOpens) && p.midiOpen == (s.midiOpen || w.midiOpens)
    ensures !p.pcmOpen ==> p.pcmFds == []
    ensures !p.midiOpen ==> p.midiFds == []
    ensures p.devices == Devices(Reopen(s.devices.pen, w.openPen), Reopen(s.devices.touch, w.openTouch),
                                 Reopen(s.devices.padbtns, w.openPadbtns))
    ensures DevicesValid(s.devices) ==> DevicesValid(p.devices)
    ensures p.pcmOpen ==> p.pcmFds == Fill(w.pcmFds, 0)
    ensures p.simpleFds == (if p.devices.pen.fd >= 0 then [p.devices.pen.fd] else [])
                         + (if p.devices.touch.fd >= 0 then [p.devices.touch.fd] else [])
                         + (if p.devices.padbtns.fd >= 0 then [p.devices.padbtns.fd] else [])
    ensures p.midiOpen ==> p.midiFds == Fill(w.midiFds, |p.pcmFds| + |p.simpleFds|)
  {
    var pcmOpen := s.pcmOpen || w.pcmOpens;
    var pcmFds := if pcmOpen then Fill(w.pcmFds, 0) else [];
    var a := PrepareForPoll(s.devices.pen, w.openPen, []);
    var b := PrepareForPoll(s.devices.touch, w.openTouch, a.waitSet);
    var c := PrepareForPoll(s.devices.padbtns, w.openPadbtns, b.waitSet);
    var midiOpen := s.midiOpen || w.midiOpens;
    var midiFds := if midiOpen then Fill(w.midiFds, |pcmFds| + |c.waitSet|) else [];
    Prep(pcmOpen, midiOpen, Devices(a.handle, b.handle, c.handle), pcmFds, c.waitSet, midiFds)
  }

  /** The poll entry at position `i` of the wait set. */
  function EntryAt(waitSet: seq<int>, w: World, i: nat): PollEntry
    requires i < |waitSet|
  {
    PollEntry(waitSet[i], if i < |w.revents| then w.revents[i] else 0)
  }

  /** The reads for position `i`; a missing one is a failed read. */
  function ReadsAt(w: World, i: nat): EntryReads
  {
    if i < |w.entryReads| then w.entryReads[i]
    else
      var none := ReadResult(-1, InputEvent(0, 0, 0));
      EntryReads(none, none, none)
  }

  /** Each handle of `d'` is the one in `d` or has been closed. */
  predicate Kept(d: Devices, d': Devices)
  {
    && (d'.pen == d.pen || d'.pen == Absent)
    && (d'.touch == d.touch || d'.touch == Absent)
    && (d'.padbtns == d.padbtns || d'.padbtns == Absent)
  }

  /** The pen handler reads a full record for entry `e`: the entry is the
      pen's, it is readable without error, and the read has full size. */
  predicate PenReads(d: Devices, e: PollEntry, rd: EntryReads)
  {
    e.fd == d.pen.fd && e.revents & (PollErr | PollHup) == 0 && e.revents & PollIn != 0
    && rd.pen.count == InputEventSize
  }

  /** oim.h:273-308: one wait-set entry offered to the pen, touch and pad
      handlers in turn; only the pen's records are decoded. */
  function DispatchEntry(d: Devices, pen: PenState, e: PollEntry, rd: EntryReads): (r: (Devices, PenState))
    ensures DevicesValid(d) ==> DevicesValid(r.0)
    ensures Kept(d, r.0)
    ensures e.revents == 0 ==> r == (d, pen)
    ensures e.revents != 0 ==>
              r.0 == Devices(HandleInputEventFixed(d.pen, e, rd.pen).handle,
                             HandleInputEventFixed(d.touch, e, rd.touch).handle,
                             HandleInputEventFixed(d.padbtns, e, rd.padbtns).handle)
    ensures PenReads(d, e, rd) ==> r.0.pen == d.pen && r.1 == ApplyPenEvent(pen, rd.pen.record)
    ensures !PenReads(d, e, rd) ==> r.1 == pen
    ensures e.fd != d.pen.fd ==> r.0.pen == d.pen
    ensures e.fd != d.touch.fd ==> r.0.touch == d.touch
    ensures e.fd != d.padbtns.fd ==> r.0.padbtns == d.padbtns
  {
    if e.revents == 0 then (d, pen)
    else
      var a := HandleInputEventFixed(d.pen, e, rd.pen);
      var pen' := if a.verdict.Got? then ApplyPenEvent(pen, a.verdict.ev) else pen;
      var b := HandleInputEventFixed(d.touch, e, rd.touch);
      var c := HandleInputEventFixed(d.padbtns, e, rd.padbtns);
      (Devices(a.handle, b.handle, c.handle), pen')
  }

  /** oim.h:272: entries `i` up to `n` (the audio and evdev entries). */
  function Dispatch(d: Devices, pen: PenState, waitSet: seq<int>, w: World, i: nat, n: nat): (r: (Devices, PenState))
    requires i <= n <= |waitSet|
    ensures DevicesValid(d) ==> DevicesValid(r.0)
    ensures Kept(d, r.0)
    ensures (forall k :: i <= k < n ==> waitSet[k] != d.pen.fd) ==> r.0.pen == d.pen && r.1 == pen
    decreases n - i
  {
    if i == n then (d, pen)
    else
      var x := DispatchEntry(d, pen, EntryAt(waitSet, w, i), ReadsAt(w, i));
      Dispatch(x.0, x.1, waitSet, w, i + 1, n)
  }

  /** A pen record read at entry `k`, and no other entry from `i` up to `n`
      of the pen's descriptor: the dispatch loop leaves exactly that
      record applied to the snapshot. */
  lemma {:induction false} DispatchAppliesPenRecord(d: Devices, pen: PenState, waitSet: seq<int>, w: World,
                                                   i: nat, n: nat, k: nat)
    requires i <= k < n <= |waitSet|
    requires forall m :: i <= m < n && m != k ==> waitSet[m] != d.pen.fd
    requires PenReads(d, EntryAt(waitSet, w, k), ReadsAt(w, k))
    ensures Dispatch(d, pen, waitSet, w, i, n).1 == ApplyPenEvent(pen, ReadsAt(w, k).pen.record)
    decreases k - i
  {
    var x := DispatchEntry(d, pen, EntryAt(waitSet, w, i), ReadsAt(w, i));
    if i < k {
      assert x.0.pen == d.pen && x.1 == pen;
      DispatchAppliesPenRecord(x.0, x.1, waitSet, w, i + 1, n, k);
    } else {
      assert x.0.pen == d.pen;
      assert forall m :: i + 1 <= m < n ==> waitSet[m] != x.0.pen.fd;
    }
  }

  /** One of the three evdev devices. */
  datatype Device = PenDevice | TouchDevice | PadDevice

  /** The handle of device `v`. */
  function Pick(d: Devices, v: Device): Handle
  {
    match v
    case PenDevice => d.pen
    case TouchDevice => d.touch
    case PadDevice => d.padbtns
  }

  /** The read device `v`'s handler gets. */
  function ReadFor(rd: EntryReads, v: Device): ReadResult
  {
    match v
    case PenDevice => rd.pen
    case TouchDevice => rd.touch
    case PadDevice => rd.padbtns
  }

  /** oim.h:153-157 and 162-166 through the dispatch loop: the first entry
      of a device's descriptor that reports an error or hang-up, or whose
      full read fails, leaves that device absent at the end of the loop. */
  lemma {:induction false} DispatchClosesFaulted(d: Devices, pen: PenState, waitSet: seq<int>, w: World,
                                                i: nat, n: nat, k: nat, v: Device)
    requires i <= k < n <= |waitSet|
    requires forall m :: i <= m < k ==> waitSet[m] != Pick(d, v).fd
    requires Faults(Pick(d, v), EntryAt(waitSet, w, k), ReadFor(ReadsAt(w, k), v))
    ensures Pick(Dispatch(d, pen, waitSet, w, i, n).0, v) == Absent
    decreases k - i
  {
    var x := DispatchEntry(d, pen, EntryAt(waitSet, w, i), ReadsAt(w, i));
    if i < k {
      assert Pick(x.0, v) == Pick(d, v);
      DispatchClosesFaulted(x.0, x.1, waitSet, w, i + 1, n, k, v);
    } else {
      assert Pick(x.0, v) == Absent;
      assert Kept(x.0, Dispatch(x.0, x.1, waitSet, w, i + 1, n).0);
    }
  }

  /** The converse: a device none of whose entries from `i` up to `n`
      faults it keeps its handle through the dispatch loop. */
  lemma {:induction false} DispatchKeepsUnfaulted(d: Devices, pen: PenState, waitSet: seq<int>, w: World,
                                                 i: nat, n: nat, v: Device)
    requires i <= n <= |waitSet|
    requires forall k :: i <= k < n ==> !Faults(Pick(d, v), EntryAt(waitSet, w, k), ReadFor(ReadsAt(w, k), v))
    ensures Pick(Dispatch(d, pen, waitSet, w, i, n).0, v) == Pick(d, v)
    decreases n - i
  {
    if i < n {
      var x := DispatchEntry(d, pen, EntryAt(waitSet, w, i), ReadsAt(w, i));
      assert Pick(x.0, v) == Pick(d, v);
      DispatchKeepsUnfaulted(x.0, x.1, waitSet, w, i + 1, n, v);
    }
  }

  /** oim.h:311-383: the MIDI phase. A failed status query, a hang-up or a
      failed read closes the device; a read appends its decoded events. */
  function MidiPhase(open: bool, events: seq<NoteEvent>, a: MidiAnswer): (r: (bool, seq<NoteEvent>))
    requires |events| <= MaxNoteEvents
    ensures |r.1| <= MaxNoteEvents && events <= r.1
    ensures r.0 <==> open && (a.MidiIdle? || a.MidiBytes?)
    ensures r.1 != events ==> open && a.MidiBytes?
    ensures open && a.MidiBytes? ==> r.0 && r.1 == AppendCapped(events, a.bytes)
  {
    if !open then (open, events)
    else
      match a
      case MidiReventsError => (false, events)
      case MidiHangup => (false, events)
      case MidiIdle => (true, events)
      case MidiReadError => (false, events)
      case MidiBytes(bytes) => (true, AppendCapped(events, bytes))
  }

  /** oim.h:385-473: the audio phase. When the device wants data the
      callback sees the snapshot, then the note events are cleared; a
      failed write followed by a failed prepare drops the device. */
  function PcmPhase(open: bool, input: Input, a: PcmAnswer): (r: (bool, Input, Option<Input>))
    ensures r.2.Some? <==> open && a.PcmReady?
    ensures r.2.Some? ==> r.2.value == input && r.1 == input.(events := [])
    ensures r.2.None? ==> r.1 == input
    ensures r.0 <==> open && (a.PcmIdle? || (a.PcmReady? && !(a.writeFails && a.prepareFails)))
  {
    if !open then (open, input, None)
    else
      match a
      case PcmReventsError => (false, input, None)
      case PcmHangup => (false, input, None)
      case PcmIdle => (true, input, None)
      case PcmReady(writeFails, prepareFails) =>
        (!(writeFails && prepareFails), input.(events := []), Some(input))
  }

  /** The wait set of a prepared turn: audio, then evdev, then MIDI. */
  function WaitSet(p: Prep): seq<int>
  {
    p.pcmFds + p.simpleFds + p.midiFds
  }

  /** One turn of the loop. */
  function Iterate(s: State, w: World): (r: Iteration)
    requires Answerable(w) && Good(s)
    ensures Good(r.state)
    ensures r.turn.Slept? <==> r.waitSet == []
    ensures r.waitSet != [] && w.pollResult == 0 ==> r.turn.TimedOut?
    ensures r.waitSet != [] && w.pollResult == -1 ==> r.turn.PollFailed?
    ensures r.waitSet != [] && w.pollResult > 0 ==> r.turn.Dispatched?
    ensures r.appended <= r.decoded
    ensures |r.appended| < |r.decoded| ==> |s.input.events| + |r.appended| == MaxNoteEvents
    ensures r.turn.Dispatched? && r.turn.delivered.Some? ==>
              r.turn.delivered.value == Input(r.state.input.pen, s.input.events + r.appended)
              && r.state.input.events == []
    ensures !(r.turn.Dispatched? && r.turn.delivered.Some?) ==> r.state.input.events == s.input.events + r.appended
    ensures var p := Prepare(s, w);
            && r.waitSet == WaitSet(p)
            && Kept(p.devices, r.state.devices)
            && (!r.turn.Dispatched? ==>
                  r.state == s.(pcmOpen := p.pcmOpen, midiOpen := p.midiOpen, devices := p.devices))
            && (r.turn.Dispatched? ==>
                  && (r.state.devices, r.state.input.pen) == EvdevDispatch(p, s.input.pen, w)
                  && r.state.midiOpen == MidiPhase(p.midiOpen, s.input.events, w.midi).0
                  && r.state.pcmOpen == PcmPhase(p.pcmOpen, s.input, w.pcm).0
                  && (r.turn.delivered.Some? <==> p.pcmOpen && w.pcm.PcmReady?))
            && if r.turn.Dispatched? && p.midiOpen && w.midi.MidiBytes? then
                 r.decoded == Decode(w.midi.bytes)
                 && s.input.events + r.appended == AppendCapped(s.input.events, w.midi.bytes)
               else
                 r.decoded == [] && r.appended == []
  {
    var p := Prepare(s, w);
    var waitSet := WaitSet(p);
    if waitSet != [] && w.pollResult > 0 then
      DispatchTurn(s, w, p)
    else
      IdleTurn(s, w, p)
  }

  /** oim.h:258-269: a turn that sleeps on an empty wait set, or whose poll
      times out or fails: only the device preparation takes effect. */
  function IdleTurn(s: State, w: World, p: Prep): (r: Iteration)
    requires Answerable(w) && Good(s) && p == Prepare(s, w)
    requires WaitSet(p) == [] || w.pollResult <= 0
    ensures Good(r.state) && r.waitSet == WaitSet(p) && !r.turn.Dispatched?
    ensures r.turn.Slept? <==> r.waitSet == []
    ensures r.waitSet != [] && w.pollResult == 0 ==> r.turn.TimedOut?
    ensures r.waitSet != [] && w.pollResult == -1 ==> r.turn.PollFailed?
    ensures r.state == s.(pcmOpen := p.pcmOpen, midiOpen := p.midiOpen, devices := p.devices)
    ensures r.decoded == [] && r.appended == []
  {
    var waitSet := WaitSet(p);
    var prepared := s.(pcmOpen := p.pcmOpen, midiOpen := p.midiOpen, devices := p.devices);
    if waitSet == [] then
      Iteration(prepared, [], [], [], Slept)
    else if w.pollResult == 0 then
      Iteration(prepared, waitSet, [], [], TimedOut)
    else
      Iteration(prepared, waitSet, [], [], PollFailed)
  }

  /** oim.h:272: the dispatch loop over the audio and evdev entries of a
      prepared wait set. */
  function EvdevDispatch(p: Prep, pen: PenState, w: World): (r: (Devices, PenState))
    ensures DevicesValid(p.devices) ==> DevicesValid(r.0)
    ensures Kept(p.devices, r.0)
  {
    Dispatch(p.devices, pen, WaitSet(p), w, 0, |p.pcmFds| + |p.simpleFds|)
  }

  /** oim.h:272-473: the part of a turn after a successful poll: dispatch,
      the MIDI phase, then the audio phase. */
  function DispatchTurn(s: State, w: World, p: Prep): (r: Iteration)
    requires Answerable(w) && Good(s) && p == Prepare(s, w)
    ensures Good(r.state) && r.waitSet == WaitSet(p) && r.turn.Dispatched?
    ensures (r.state.devices, r.state.input.pen) == EvdevDispatch(p, s.input.pen, w)
    ensures && r.state.midiOpen == MidiPhase(p.midiOpen, s.input.events, w.midi).0
            && r.state.pcmOpen == PcmPhase(p.pcmOpen, s.input, w.pcm).0
            && (r.turn.delivered.Some? <==> p.pcmOpen && w.pcm.PcmReady?)
    ensures if p.midiOpen && w.midi.MidiBytes? then
              r.decoded == Decode(w.midi.bytes)
              && s.input.events + r.appended == AppendCapped(s.input.events, w.midi.bytes)
            else
              r.decoded == [] && r.appended == []
    ensures r.appended <= r.decoded
    ensures |r.appended| < |r.decoded| ==> |s.input.events| + |r.appended| == MaxNoteEvents
    ensures r.turn.delivered.Some? ==>
              r.turn.delivered.value == Input(r.state.input.pen, s.input.events + r.appended)
              && r.state.input.events == []
    ensures r.turn.delivered.None? ==> r.state.input.events == s.input.events + r.appended
    ensures Kept(p.devices, r.state.devices)
  {
    var waitSet := WaitSet(p);
    var x := EvdevDispatch(p, s.input.pen, w);
    var decoded := if p.midiOpen && w.midi.MidiBytes? then Decode(w.midi.bytes) else [];
    var m := MidiPhase(p.midiOpen, s.input.events, w.midi);
    var appended := m.1[|s.input.events|..];
    assert m.1 == s.input.events + appended;
    assert s.input.events + appended <= s.input.events + decoded;
    var o := PcmPhase(p.pcmOpen, Input(x.1, m.1), w.pcm);
    Iteration(State(o.0, m.0, x.0, o.1), waitSet, decoded, appended, Dispatched(o.2))
  }

  /** With every device absent and every open failing, the turn sleeps
      instead of polling an empty wait set, and nothing changes. */
  lemma AllAbsentSleeps(s: State, w: World)
    requires Good(s) && Answerable(w)
    requires !s.pcmOpen && !s.midiOpen && s.devices == Devices(Absent, Absent, Absent)
    requires !w.pcmOpens && !w.midiOpens && w.openPen == -1 && w.openTouch == -1 && w.openPadbtns == -1
    ensures Iterate(s, w) == Iteration(s, [], [], [], Slept)
  {
  }

  /** Only open evdev descriptors reach the wait set. */
  lemma OnlyOpenDevicesPolled(s: State, w: World)
    requires Good(s) && Answerable(w)
    ensures var p := Prepare(s, w);
            forall i :: 0 <= i < |p.simpleFds| ==>
              (p.simpleFds[i] == p.devices.pen.fd && p.devices.pen.isOpen) ||
              (p.simpleFds[i] == p.devices.touch.fd && p.devices.touch.isOpen) ||
              (p.simpleFds[i] == p.devices.padbtns.fd && p.devices.padbtns.isOpen)
  {
  }

  /** The note events of a run of loop turns: those the MIDI reads
      decoded, those the snapshot kept and those it dropped, and those
      handed to the callback. */
  datatype Trace = Trace(state: State, decoded: seq<NoteEvent>, appended: seq<NoteEvent>,
                         dropped: seq<NoteEvent>, delivered: seq<NoteEvent>)

  /** The events a turn handed to the callback. */
  function DeliveredBy(it: Iteration): seq<NoteEvent>
  {
    if it.turn.Dispatched? && it.turn.delivered.Some? then it.turn.delivered.value.events else []
  }

  /** The events a turn decoded but did not keep. */
  function Dropped(it: Iteration): seq<NoteEvent>
  {
    if |it.appended| <= |it.decoded| then it.decoded[|it.appended|..] else []
  }

  /** One turn keeps the note events in order: pending plus kept equals
      delivered plus still pending. Every decoded event is kept or
      dropped, the dropped ones are the tail of the read, and events are
      dropped only when the 256-entry list is full. */
  lemma TurnConserves(s: State, w: World)
    requires Good(s) && Answerable(w)
    ensures var it := Iterate(s, w);
            && s.input.events + it.appended == DeliveredBy(it) + it.state.input.events
            && it.appended + Dropped(it) == it.decoded
            && (Dropped(it) != [] ==> |s.input.events| + |it.appended| == MaxNoteEvents)
  {
    var it := Iterate(s, w);
    if it.turn.Dispatched? && it.turn.delivered.Some? {
      assert DeliveredBy(it) == s.input.events + it.appended && it.state.input.events == [];
    } else {
      assert DeliveredBy(it) == [] && it.state.input.events == s.input.events + it.appended;
    }
    assert it.appended <= it.decoded;
  }

  /** A run of loop turns. No kept note event is lost or delivered twice:
      the events pending at the start and those kept during the run are,
      in order, exactly those delivered followed by those still pending.
      Every decoded event is either kept or dropped. */
  function Run(s: State, ws: seq<World>): (t: Trace)
    requires Good(s) && forall i :: 0 <= i < |ws| ==> Answerable(ws[i])
    ensures Good(t.state)
    ensures s.input.events + t.appended == t.delivered + t.state.input.events
    ensures multiset(t.decoded) == multiset(t.appended) + multiset(t.dropped)
    decreases |ws|
  {
    if ws == [] then Trace(s, [], [], [], [])
    else
      var it := Iterate(s, ws[0]);
      var d := DeliveredBy(it);
      var rest := Run(it.state, ws[1..]);
      TurnConserves(s, ws[0]);
      Concat3(s.input.events, it.appended, rest.appended, d, it.state.input.events, rest.delivered, rest.state.input.events);
      Interleave(it.appended, Dropped(it), rest.decoded, rest.appended, rest.dropped);
      Trace(rest.state, it.decoded + rest.decoded, it.appended + rest.appended,
            Dropped(it) + rest.dropped, d + rest.delivered)
  }

  /** With 256 events pending and no audio device to clear them, a Note On
      read from MIDI does not fit: it is decoded, not kept, and shows up as
      dropped. */
  lemma FullListDropsNoteOn(s: State, w: World)
    requires Good(s) && Answerable(w) && |s.input.events| == MaxNoteEvents
    requires s.midiOpen && !s.pcmOpen && !w.pcmOpens && w.pollResult == 1
    requires w.midiFds == [5] && w.midi == MidiBytes([0x90, 60, 100])
    ensures var it := Iterate(s, w);
            && it.turn == Dispatched(None)
            && it.decoded == [NoteEvent(60, 100)]
            && it.appended == []
            && Dropped(it) == [NoteEvent(60, 100)]
            && it.state.input.events == s.input.events
  {
    NoteExamples();
    var p := Prepare(s, w);
    assert p.midiFds == [5];
  }

  /** Bookkeeping of two consecutive kept-or-dropped splits. */
  lemma Interleave<T>(a1: seq<T>, x1: seq<T>, d2: seq<T>, a2: seq<T>, x2: seq<T>)
    requires multiset(d2) == multiset(a2) + multiset(x2)
    ensures multiset(a1 + x1 + d2) == multiset(a1 + a2) + multiset(x1 + x2)
  {
  }

  /** Bookkeeping of two consecutive conservation steps. */
  lemma Concat3<T>(p: seq<T>, a1: seq<T>, a2: seq<T>, d1: seq<T>, q: seq<T>, d2: seq<T>, f: seq<T>)
    requires p + a1 == d1 + q
    requires q + a2 == d2 + f
    ensures p + (a1 + a2) == (d1 + d2) + f
  {
    calc {
      p + (a1 + a2);
      (p + a1) + a2;
      (d1 + q) + a2;
      d1 + (q + a2);
      d1 + (d2 + f);
    }
  }
}
