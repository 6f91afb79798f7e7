/** The lifecycle of a character-device handle (oim.h:138-170, repeated in
    tablet-osc.c:88-120): lazy open, registration in the poll wait set, and
    the handling of one poll entry. `open` and `read` results are
    parameters. */
module Handles {
  import opened Pen

  /** Poll event bits as defined by Linux. */
  const PollIn: bv16 := 0x001
  const PollOut: bv16 := 0x004
  const PollErr: bv16 := 0x008
  const PollHup: bv16 := 0x010
  const PollNval: bv16 := 0x020

  /** `sizeof(struct input_event)` on a 64-bit Linux target. */
  const InputEventSize: int := 24

  /** A device handle: the descriptor number the engine keeps (-1 when it
      holds none) and whether the process actually has that descriptor
      open. */
  datatype Handle = Handle(fd: int, isOpen: bool)

  /** The handle of a device that is not open. */
  const Absent := Handle(-1, false)

  /** The intended invariant: the descriptor number is kept exactly while
      the descriptor is open. */
  predicate Valid(h: Handle)
  {
    h.fd >= -1 && (h.fd >= 0 <==> h.isOpen)
  }

  /** A wait-set entry after poll: descriptor and returned events. */
  datatype PollEntry = PollEntry(fd: int, revents: bv16)

  /** What `read` returned: the byte count and the record it filled. */
  datatype ReadResult = ReadResult(count: int, record: InputEvent)

  /** What handling one poll entry for one handle came to. */
  datatype Verdict =
    | NotMine            // the entry is another descriptor's
    | HungUp             // POLLERR or POLLHUP: closed
    | NotReadable        // some other event bit, nothing read
    | ReadFailed         // a read of the wrong size: closed
    | Got(ev: InputEvent)

  datatype Handled = Handled(handle: Handle, verdict: Verdict)

  /** The open attempt of `oim__prep_fd_at_path_for_poll`; `openResult` is what
      `open` returns, -1 or a fresh descriptor. */
  function Reopen(h: Handle, openResult: int): (r: Handle)
    requires openResult >= -1
    ensures h.fd != -1 ==> r == h
    ensures h.fd == -1 ==> r.fd == openResult && (r.isOpen <==> openResult >= 0)
    ensures Valid(h) ==> Valid(r)
  {
    if h.fd == -1 then Handle(openResult, openResult >= 0) else h
  }

  /** The registration step: the descriptor joins the wait set when the
      number is not negative. */
  function Register(h: Handle, waitSet: seq<int>): (r: seq<int>)
    ensures h.fd >= 0 ==> r == waitSet + [h.fd]
    ensures h.fd < 0 ==> r == waitSet
  {
    if h.fd >= 0 then waitSet + [h.fd] else waitSet
  }

  datatype Prepared = Prepared(handle: Handle, waitSet: seq<int>)

  /** `oim__prep_fd_at_path_for_poll`: open if absent, then register. An
      open is attempted only for an absent handle, and a handle whose
      descriptor is open after the attempt is always registered. */
  function PrepareForPoll(h: Handle, openResult: int, waitSet: seq<int>): (r: Prepared)
    requires openResult >= -1
    ensures r.handle == Reopen(h, openResult)
    ensures waitSet <= r.waitSet && |r.waitSet| <= |waitSet| + 1
    ensures |r.waitSet| == |waitSet| + 1 <==> r.handle.fd >= 0
    ensures |r.waitSet| == |waitSet| + 1 ==> r.waitSet[|waitSet|] == r.handle.fd
    ensures Valid(h) ==> (r.handle.isOpen <==> |r.waitSet| == |waitSet| + 1)
  {
    var h' := Reopen(h, openResult);
    Prepared(h', Register(h', waitSet))
  }

  /** `oim__handle_input_event` as written. A read of the wrong size closes
      the descriptor but keeps its number in the handle. */
  function HandleInputEvent(h: Handle, e: PollEntry, rd: ReadResult): (r: Handled)
    ensures e.fd != h.fd ==> r == Handled(h, NotMine)
    ensures r.verdict.Got? ==> r.handle == h && rd.count == InputEventSize && r.verdict.ev == rd.record
    ensures r.verdict.HungUp? <==> e.fd == h.fd && e.revents & (PollErr | PollHup) != 0
    ensures r.verdict.HungUp? ==> r.handle == Absent
    ensures r.verdict.ReadFailed? ==> r.handle == Handle(h.fd, false)
    ensures r.verdict.NotReadable? ==> r.handle == h
    ensures e.fd == h.fd && e.revents & (PollErr | PollHup) == 0 && e.revents & PollIn == 0 ==>
              r == Handled(h, NotReadable)
    ensures e.fd == h.fd && e.revents & (PollErr | PollHup) == 0 && e.revents & PollIn != 0 ==>
              (r.verdict.Got? <==> rd.count == InputEventSize)
    ensures e.fd == h.fd && e.revents & (PollErr | PollHup) == 0 && e.revents & PollIn != 0 && rd.count != InputEventSize ==>
              r == Handled(Handle(h.fd, false), ReadFailed)
  {
    if e.fd != h.fd then Handled(h, NotMine)
    else if e.revents & (PollErr | PollHup) != 0 then Handled(Absent, HungUp)
    else if e.revents & PollIn == 0 then Handled(h, NotReadable)
    else if rd.count != InputEventSize then Handled(Handle(h.fd, false), ReadFailed)
    else Handled(h, Got(rd.record))
  }

  /** After a wrong-size read, the handle as written is stuck: it keeps the
      closed descriptor's number, no open is ever attempted for it again,
      and the closed number is put back in the wait set, where poll can
      only report POLLNVAL for it, a bit the handler ignores. */
  lemma StaleDescriptorNeverReopened(fd: int, revents: bv16, ev: InputEvent, openResult: int, n: int)
    requires fd >= 0 && openResult >= -1 && n != InputEventSize
    requires revents & PollIn != 0 && revents & (PollErr | PollHup) == 0
    ensures var h := HandleInputEvent(Handle(fd, true), PollEntry(fd, revents), ReadResult(n, ev)).handle;
            && !Valid(h)
            && PrepareForPoll(h, openResult, []) == Prepared(Handle(fd, false), [fd])
            && HandleInputEvent(h, PollEntry(fd, PollNval), ReadResult(n, ev)) == Handled(h, NotReadable)
  {
  }

  /** The entry faults the handle: it is the handle's own and reports
      POLLERR or POLLHUP, or it is readable and the read has the wrong size. */
  predicate Faults(h: Handle, e: PollEntry, rd: ReadResult)
  {
    e.fd == h.fd &&
    (e.revents & (PollErr | PollHup) != 0 || (e.revents & PollIn != 0 && rd.count != InputEventSize))
  }

  /** The handler with the wrong-size read treated like a hang-up: closed
      and marked absent, so the next iteration retries the open. */
  function HandleInputEventFixed(h: Handle, e: PollEntry, rd: ReadResult): (r: Handled)
    ensures Valid(h) ==> Valid(r.handle)
    ensures r.verdict == HandleInputEvent(h, e, rd).verdict
    ensures Faults(h, e, rd) ==> r.handle == Absent
    ensures !Faults(h, e, rd) ==> r.handle == h
    ensures !r.verdict.ReadFailed? ==> r == HandleInputEvent(h, e, rd)
  {
    if e.fd != h.fd then Handled(h, NotMine)
    else if e.revents & (PollErr | PollHup) != 0 then Handled(Absent, HungUp)
    else if e.revents & PollIn == 0 then Handled(h, NotReadable)
    else if rd.count != InputEventSize then Handled(Absent, ReadFailed)
    else Handled(h, Got(rd.record))
  }

  /** With the corrected handler, an open attempt followed by a handled
      entry keeps a valid handle valid, and only an open descriptor is
      registered. */
  lemma FixedHandleStaysValid(h: Handle, openResult: int, e: PollEntry, rd: ReadResult)
    requires Valid(h) && openResult >= -1
    ensures Valid(HandleInputEventFixed(PrepareForPoll(h, openResult, []).handle, e, rd).handle)
    ensures var p := PrepareForPoll(h, openResult, []);
            forall i :: 0 <= i < |p.waitSet| ==> p.handle.isOpen && p.waitSet[i] == p.handle.fd
  {
  }
}
