/** The engine's MIDI note decoder (oim.h:338-379): the bytes of one rawmidi
    read in, the note events they carry out, appended to the per-period
    note-event list of the input snapshot.

    Only the channel voice messages Note Off (status 0x8n) and Note On
    (status 0x9n) on channel 0 are decoded, following the message layout of
    the MIDI 1.0 Detailed Specification: one status byte with the high bit
    set, then two data bytes. */
module Midi {
  import opened Base

  const NoteOffStatus: Byte := 0x80
  const NoteOnStatus: Byte := 0x90

  /** Capacity of the snapshot's note-event array (oim.h:34). */
  const MaxNoteEvents: nat := 256

  /** A decoded note message. `note` is the first data byte; `level` is the
      second data byte for Note On and 0 for Note Off. Both are raw bytes:
      the decoder never checks the high bit of a data byte. */
  datatype NoteEvent = NoteEvent(note: Byte, level: Byte) {

    /** The velocity the engine stores as a float, `d1 / 127`; a real is an
        exact stand-in for the float division. */
    function Velocity(): (v: real)
      ensures v > 0.0 <==> level > 0
      ensures level <= 127 ==> v <= 1.0
      ensures v * 127.0 == level as real
    {
      level as real / 127.0
    }
  }

  /** A status byte has its most significant bit set (`b & 0x80`). */
  predicate IsStatus(b: Byte)
  {
    b >= 0x80
  }

  /** The command nibble of a byte (`b & 0xf0`). */
  function Command(b: Byte): Byte
  {
    b - b % 16
  }

  /** The channel nibble of a byte (`b & 0x0f`). */
  function Channel(b: Byte): Byte
  {
    b % 16
  }

  /** Does a complete channel-0 note message start at position `i` of the read? */
  predicate StartsMessage(buf: seq<Byte>, i: nat)
    requires i < |buf|
  {
    && IsStatus(buf[i])
    && (Command(buf[i]) == NoteOnStatus || Command(buf[i]) == NoteOffStatus)
    && Channel(buf[i]) == 0
    && i + 2 < |buf|
  }

  /** What one turn of the scan loop produces: at most one event, and the
      position of the next byte the loop looks at. */
  datatype Scan = Scan(event: Option<NoteEvent>, next: nat)

  /** One turn of the scan loop at position `i`. */
  function Step(buf: seq<Byte>, i: nat): (r: Scan)
    requires i < |buf|
    ensures r.event.Some? <==> StartsMessage(buf, i)
    ensures r.next == if StartsMessage(buf, i) then i + 3 else i + 1
    ensures r.event.Some? ==> r.event.value.note == buf[i + 1]
    ensures r.event.Some? && Command(buf[i]) == NoteOnStatus ==> r.event.value.level == buf[i + 2]
    ensures r.event.Some? && Command(buf[i]) == NoteOffStatus ==> r.event.value.level == 0
  {
    var word := buf[i];
    if !IsStatus(word) then
      Scan(None, i + 1)
    else
      var cmd := Command(word);
      var remain := (|buf| - i) - 1;
      if (cmd == NoteOnStatus || cmd == NoteOffStatus) && remain >= 2 then
        if Channel(word) != 0 then
          Scan(None, i + 1)
        else
          var d0 := buf[i + 1];
          var d1 := buf[i + 2];
          Scan(Some(NoteEvent(d0, if cmd == NoteOnStatus then d1 else 0)), i + 3)
      else
        Scan(None, i + 1)
  }

  /** The events the scan produces from position `i` to the end of the read. */
  function DecodeFrom(buf: seq<Byte>, i: nat): (evs: seq<NoteEvent>)
    requires i <= |buf|
    ensures 3 * |evs| <= |buf| - i
    decreases |buf| - i
  {
    if i == |buf| then []
    else
      var s := Step(buf, i);
      (if s.event.Some? then [s.event.value] else []) + DecodeFrom(buf, s.next)
  }

  /** The events one read of `buf` appends to the snapshot, in input order. */
  function Decode(buf: seq<Byte>): (evs: seq<NoteEvent>)
    ensures 3 * |evs| <= |buf|
  {
    DecodeFrom(buf, 0)
  }

  /** The three bytes of the channel-0 message that decodes to `e`; the
      inverse of the decoder. */
  function Encode(e: NoteEvent): (b: seq<Byte>)
    ensures |b| == 3 && b[1] == e.note && b[2] == e.level
    ensures IsStatus(b[0]) && Channel(b[0]) == 0
  {
    [if e.level > 0 then NoteOnStatus else NoteOffStatus, e.note, e.level]
  }

  /** The messages for `evs`, back to back. */
  function EncodeAll(evs: seq<NoteEvent>): (b: seq<Byte>)
    ensures |b| == 3 * |evs|
  {
    if evs == [] then [] else Encode(evs[0]) + EncodeAll(evs[1..])
  }

  /** One turn of the scan sees the same bytes after a prefix is prepended. */
  lemma StepShift(p: seq<Byte>, q: seq<Byte>, i: nat)
    requires i < |q|
    ensures Step(p + q, |p| + i) == Scan(Step(q, i).event, |p| + Step(q, i).next)
  {
    var pq := p + q;
    assert pq[|p| + i] == q[i];
    if i + 2 < |q| {
      assert pq[|p| + i + 1] == q[i + 1];
      assert pq[|p| + i + 2] == q[i + 2];
    }
  }

  /** The scan of a read depends only on the bytes from its position on. */
  lemma {:induction false} DecodeShift(p: seq<Byte>, q: seq<Byte>, i: nat)
    requires i <= |q|
    ensures DecodeFrom(p + q, |p| + i) == DecodeFrom(q, i)
    decreases |q| - i
  {
    if i < |q| {
      var st := Step(q, i);
      StepShift(p, q, i);
      assert Step(p + q, |p| + i) == Scan(st.event, |p| + st.next);
      DecodeShift(p, q, st.next);
    }
  }

  /** Encoded messages decode to their events, in order, whatever follows them. */
  lemma {:induction false} DecodeEncoded(evs: seq<NoteEvent>, rest: seq<Byte>)
    ensures Decode(EncodeAll(evs) + rest) == evs + Decode(rest)
  {
    if evs != [] {
      var e := evs[0];
      var tail := EncodeAll(evs[1..]) + rest;
      var buf := Encode(e) + tail;
      assert EncodeAll(evs) + rest == buf;
      assert buf[0] == Encode(e)[0] && buf[1] == e.note && buf[2] == e.level;
      assert StartsMessage(buf, 0);
      assert Step(buf, 0) == Scan(Some(e), 3);
      assert DecodeFrom(buf, 0) == [e] + DecodeFrom(buf, 3);
      DecodeShift(Encode(e), tail, 0);
      DecodeEncoded(evs[1..], rest);
      assert evs == [e] + evs[1..];
    } else {
      assert EncodeAll(evs) + rest == rest;
    }
  }

  /** Decoding is a left inverse of encoding. */
  lemma DecodeRoundTrip(evs: seq<NoteEvent>)
    ensures Decode(EncodeAll(evs)) == evs
  {
    DecodeEncoded(evs, []);
    assert EncodeAll(evs) + [] == EncodeAll(evs);
  }

  /** A message cut short by the end of the read is dropped: the complete
      messages before it are all that the read yields. */
  lemma TruncatedTailDropped(evs: seq<NoteEvent>, tail: seq<Byte>)
    requires |tail| <= 2
    ensures Decode(EncodeAll(evs) + tail) == evs
  {
    DecodeEncoded(evs, tail);
    assert Decode(tail) == [];
  }

  /** A first byte that does not start a complete channel-0 note message
      (a data byte, another command, another channel, or a note status with
      fewer than two bytes after it) yields nothing and consumes only itself. */
  lemma SkippedByte(b: Byte, rest: seq<Byte>)
    requires !StartsMessage([b] + rest, 0)
    ensures Decode([b] + rest) == Decode(rest)
  {
    assert Step([b] + rest, 0).next == 1;
    DecodeShift([b], rest, 0);
  }

  /** The two example messages: Note On 60 at 100 and Note Off 60. */
  lemma NoteExamples()
    ensures Decode([0x90, 60, 100]) == [NoteEvent(60, 100)]
    ensures Decode([0x90, 60, 100])[0].Velocity() == 100.0 / 127.0
    ensures Decode([0x80, 60, 0]) == [NoteEvent(60, 0)]
    ensures Decode([0x80, 60, 0])[0].Velocity() == 0.0
  {
    DecodeRoundTrip([NoteEvent(60, 100)]);
    DecodeRoundTrip([NoteEvent(60, 0)]);
    assert EncodeAll([NoteEvent(60, 100)]) == [0x90, 60, 100];
    assert EncodeAll([NoteEvent(60, 0)]) == [0x80, 60, 0];
  }

  /** The append at oim.h:375 as written: no capacity check. */
  function AppendUnchecked(events: seq<NoteEvent>, read: seq<Byte>): (r: seq<NoteEvent>)
    ensures r == events + Decode(read)
    ensures |r| <= |events| + |read| / 3
  {
    events + Decode(read)
  }

  /** The append with the capacity of the note-event array respected:
      events that do not fit are dropped, the earlier ones are kept. */
  function AppendCapped(events: seq<NoteEvent>, read: seq<Byte>): (r: seq<NoteEvent>)
    requires |events| <= MaxNoteEvents
    ensures |r| <= MaxNoteEvents
    ensures events <= r && r <= events + Decode(read)
    ensures |events| + |Decode(read)| <= MaxNoteEvents ==> r == events + Decode(read)
    ensures r != events + Decode(read) ==> |r| == MaxNoteEvents
  {
    var all := events + Decode(read);
    all[..Min(|all|, MaxNoteEvents)]
  }

  /** Four reads of 85 complete messages each, with no callback between them
      to clear the list, take the unchecked append past the 256 entries of
      the note-event array. */
  lemma NoteEventsOverflow()
    ensures var read := EncodeAll(Repeat(NoteEvent(60, 100), 85));
            |read| <= 256 &&
            |AppendUnchecked(AppendUnchecked(AppendUnchecked(AppendUnchecked([], read), read), read), read)| > MaxNoteEvents
  {
    var evs := Repeat(NoteEvent(60, 100), 85);
    DecodeRoundTrip(evs);
  }
}
