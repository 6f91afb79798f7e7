/** The held-note list of the arpeggiator (pwmarp.c:10-40) and its note
    selection (pwmarp.c:52-59). Note On appends the note and sorts the list
    with `qsort` and `arp_asc`; Note Off removes every copy of the note,
    keeping the order of the rest. The list lives in a 256-entry array. */
module Arp {
  import opened Base
  import opened Midi

  /** Size of the `notes` array (pwmarp.c:14). */
  const NoteCapacity: nat := 256

  /** `arp_asc`: the byte difference, whose sign orders two notes. */
  function ArpAsc(a: Byte, b: Byte): (r: int)
    ensures r < 0 <==> a < b
    ensures r == 0 <==> a == b
    ensures r > 0 <==> a > b
  {
    a - b
  }

  /** Ascending by note number. */
  predicate Sorted(s: seq<Byte>)
  {
    forall i, j :: 0 <= i < j < |s| ==> s[i] <= s[j]
  }

  /** Ascending by note number is ascending in the order `arp_asc` gives
      `qsort`. */
  lemma SortedByArpAsc(s: seq<Byte>)
    ensures Sorted(s) <==> forall i, j :: 0 <= i < j < |s| ==> ArpAsc(s[i], s[j]) <= 0
  {
  }

  /** The head of a sorted list is its least note. */
  lemma SortedHeadIsLeast(a: seq<Byte>, x: Byte)
    requires Sorted(a) && x in multiset(a)
    ensures a[0] <= x
  {
    var i :| 0 <= i < |a| && a[i] == x;
  }

  /** The notes after the head are the notes less one copy of the head. */
  lemma TailMultiset(a: seq<Byte>)
    requires a != []
    ensures multiset(a[1..]) == multiset(a) - multiset{a[0]}
  {
    assert a == [a[0]] + a[1..];
  }

  /** Two sorted lists of the same notes are the same list: whatever order
      `qsort` visits equal notes in, its result is determined. */
  lemma {:induction false} SortedUnique(a: seq<Byte>, b: seq<Byte>)
    requires Sorted(a) && Sorted(b) && multiset(a) == multiset(b)
    ensures a == b
    decreases |a|
  {
    if a == [] {
      assert |b| == |multiset(b)| == 0;
    } else {
      assert |b| == |multiset(b)| == |multiset(a)| == |a|;
      SortedHeadIsLeast(a, b[0]);
      SortedHeadIsLeast(b, a[0]);
      TailMultiset(a);
      TailMultiset(b);
      assert a[0] == b[0];
      assert multiset(a[1..]) == multiset(b[1..]);
      assert Sorted(a[1..]) && Sorted(b[1..]);
      SortedUnique(a[1..], b[1..]);
      HeadTailEqual(a, b);
    }
  }

  /** A note no greater than the head of a sorted list extends it. */
  lemma ConsSorted(x: Byte, t: seq<Byte>)
    requires Sorted(t) && (t == [] || x <= t[0])
    ensures Sorted([x] + t)
  {
    var r := [x] + t;
    forall i, j | 0 <= i < j < |r|
      ensures r[i] <= r[j]
    {
      if i == 0 && j > 1 {
        assert t[0] <= t[j - 1];
      }
    }
  }

  /** The sorted list with `n` added: what `qsort` leaves after the append
      of a note to a sorted list. */
  function Insert(s: seq<Byte>, n: Byte): (r: seq<Byte>)
    requires Sorted(s)
    ensures Sorted(r)
    ensures |r| == |s| + 1
    ensures r[0] == if s == [] || n <= s[0] then n else s[0]
  {
    if s == [] then [n]
    else if n <= s[0] then
      ConsSorted(n, s);
      [n] + s
    else
      var t := Insert(s[1..], n);
      assert s[1..] != [] ==> s[0] <= s[1..][0];
      ConsSorted(s[0], t);
      [s[0]] + t
  }

  /** Insertion adds exactly one copy of the note. */
  lemma {:induction false} InsertMultiset(s: seq<Byte>, n: Byte)
    requires Sorted(s)
    ensures multiset(Insert(s, n)) == multiset(s) + multiset{n}
    decreases |s|
  {
    if s != [] && n > s[0] {
      InsertMultiset(s[1..], n);
      assert s == [s[0]] + s[1..];
    }
  }

  /** Note On as written (pwmarp.c:30-31): append, then sort. The array
      bound is not checked. */
  function NoteOn(notes: seq<Byte>, n: Byte): (r: seq<Byte>)
    requires Sorted(notes)
    ensures Sorted(r) && n in r
    ensures multiset(r) == multiset(notes + [n]) && |r| == |notes| + 1
  {
    InsertMultiset(notes, n);
    var r := Insert(notes, n);
    assert n in multiset(r);
    r
  }

  /** Whatever sorted arrangement of the appended list `qsort` produces is
      the one `NoteOn` computes. */
  lemma NoteOnIsSort(notes: seq<Byte>, n: Byte, q: seq<Byte>)
    requires Sorted(notes) && Sorted(q) && multiset(q) == multiset(notes + [n])
    ensures q == NoteOn(notes, n)
  {
    SortedUnique(q, NoteOn(notes, n));
  }

  /** Note On with the array bound respected: a note that does not fit is
      ignored. */
  function NoteOnCapped(notes: seq<Byte>, n: Byte): (r: seq<Byte>)
    requires Sorted(notes) && |notes| <= NoteCapacity
    ensures Sorted(r) && |r| <= NoteCapacity
    ensures |notes| < NoteCapacity ==> r == NoteOn(notes, n)
    ensures |notes| == NoteCapacity ==> r == notes
  {
    if |notes| < NoteCapacity then NoteOn(notes, n) else notes
  }

  /** The list with every copy of `n` removed, the rest in order. */
  function Without(s: seq<Byte>, n: Byte): (r: seq<Byte>)
    ensures |r| <= |s|
    ensures forall i :: 0 <= i < |r| ==> r[i] != n
  {
    if s == [] then []
    else (if s[0] != n then [s[0]] else []) + Without(s[1..], n)
  }

  /** Exactly the copies of `n` are removed: every other note keeps its
      count, and the length drops by the number of copies. */
  lemma {:induction false} WithoutMultiset(s: seq<Byte>, n: Byte)
    ensures multiset(Without(s, n)) == multiset(s)[n := 0]
    ensures |Without(s, n)| == |s| - multiset(s)[n]
    decreases |s|
  {
    if s != [] {
      WithoutMultiset(s[1..], n);
      assert s == [s[0]] + s[1..];
      assert multiset(s) == multiset{s[0]} + multiset(s[1..]);
    }
  }

  /** Removing notes keeps a sorted list sorted. */
  lemma {:induction false} WithoutSorted(s: seq<Byte>, n: Byte)
    requires Sorted(s)
    ensures Sorted(Without(s, n))
    decreases |s|
  {
    if s != [] {
      var t := Without(s[1..], n);
      WithoutSorted(s[1..], n);
      forall k | 0 <= k < |t|
        ensures s[0] <= t[k]
      {
        WithoutMultiset(s[1..], n);
        assert t[k] in multiset(t);
        assert t[k] in multiset(s[1..]);
        var i :| 0 <= i < |s[1..]| && s[1..][i] == t[k];
        assert s[0] <= s[1 + i];
      }
    }
  }

  /** Note Off on a sorted list: every copy of `n` gone, the rest kept. */
  function NoteOff(notes: seq<Byte>, n: Byte): (r: seq<Byte>)
    requires Sorted(notes)
    ensures Sorted(r) && n !in r
    ensures multiset(r) == multiset(notes)[n := 0]
    ensures r == Without(notes, n)
  {
    WithoutSorted(notes, n);
    WithoutMultiset(notes, n);
    Without(notes, n)
  }

  /** Removing from a list grown at the back. */
  lemma WithoutSnoc(s: seq<Byte>, x: Byte, n: Byte)
    ensures Without(s + [x], n) == Without(s, n) + (if x != n then [x] else [])
    decreases |s|
  {
    if s != [] {
      assert (s + [x])[1..] == s[1..] + [x];
      WithoutSnoc(s[1..], x, n);
    }
  }

  /** Note Off (pwmarp.c:33-38): the compaction loop over the array. Each
      note that is not `n` is moved down to the write position `c`; the
      count becomes `c`. */
  method RemoveNote(notes: seq<Byte>, n: Byte) returns (r: seq<Byte>)
    ensures r == Without(notes, n)
  {
    var a := notes;
    var c := 0;
    for j := 0 to |notes|
      invariant |a| == |notes| && c <= j
      invariant a[..c] == Without(notes[..j], n)
      invariant forall k :: j <= k < |a| ==> a[k] == notes[k]
    {
      var note := a[j];
      ghost var kept := a[..c];
      assert notes[..j + 1] == notes[..j] + [note];
      WithoutSnoc(notes[..j], note, n);
      if note != n {
        a := a[c := note];
        assert a[..c + 1] == kept + [note];
        c := c + 1;
      }
    }
    assert notes[..|notes|] == notes;
    r := a[..c];
  }

  /** One note event applied to the list: Note On when the velocity is
      positive, Note Off otherwise (pwmarp.c:29-39). */
  function ApplyEvent(notes: seq<Byte>, e: NoteEvent): (r: seq<Byte>)
    requires Sorted(notes) && |notes| <= NoteCapacity
    ensures Sorted(r) && |r| <= NoteCapacity
    ensures e.level > 0 ==> r == NoteOnCapped(notes, e.note)
    ensures e.level == 0 ==> r == NoteOff(notes, e.note)
  {
    if e.Velocity() > 0.0 then NoteOnCapped(notes, e.note) else NoteOff(notes, e.note)
  }

  /** The events of one period applied in array order (pwmarp.c:26-40). */
  function Process(notes: seq<Byte>, evs: seq<NoteEvent>): (r: seq<Byte>)
    requires Sorted(notes) && |notes| <= NoteCapacity
    ensures Sorted(r) && |r| <= NoteCapacity
    decreases |evs|
  {
    if evs == [] then notes else Process(ApplyEvent(notes, evs[0]), evs[1..])
  }

  /** Applying two batches of events is applying their concatenation: the
      list carries over from period to period. */
  lemma {:induction false} ProcessConcat(notes: seq<Byte>, a: seq<NoteEvent>, b: seq<NoteEvent>)
    requires Sorted(notes) && |notes| <= NoteCapacity
    ensures Process(notes, a + b) == Process(Process(notes, a), b)
    decreases |a|
  {
    if a != [] {
      assert (a + b)[0] == a[0] && (a + b)[1..] == a[1..] + b;
      ProcessConcat(ApplyEvent(notes, a[0]), a[1..], b);
    } else {
      assert a + b == b;
    }
  }

  /** Note Off of a note removes every copy of it, also copies held before
      the matching Note On: a press and a release leave the list as a
      release alone would. */
  lemma ReleaseUndoesPress(notes: seq<Byte>, n: Byte)
    requires Sorted(notes)
    ensures NoteOff(NoteOn(notes, n), n) == NoteOff(notes, n)
  {
    var on := NoteOn(notes, n);
    assert multiset(on) == multiset(notes) + multiset{n};
    assert multiset(NoteOff(on, n)) == multiset(NoteOff(notes, n));
    SortedUnique(NoteOff(on, n), NoteOff(notes, n));
  }

  /** A single event. */
  lemma ProcessOne(notes: seq<Byte>, e: NoteEvent)
    requires Sorted(notes) && |notes| <= NoteCapacity
    ensures Process(notes, [e]) == ApplyEvent(notes, e)
  {
    assert [e][1..] == [];
  }

  /** Two events in a row. */
  lemma ProcessTwo(notes: seq<Byte>, a: NoteEvent, b: NoteEvent)
    requires Sorted(notes) && |notes| <= NoteCapacity
    ensures Process(notes, [a, b]) == ApplyEvent(ApplyEvent(notes, a), b)
  {
    ProcessConcat(notes, [a], [b]);
    assert [a] + [b] == [a, b];
    ProcessOne(notes, a);
    ProcessOne(ApplyEvent(notes, a), b);
  }

  /** The same through the event fold: Note On then Note Off of `n`, with
      room for the note. */
  lemma PressReleaseRemovesAll(notes: seq<Byte>, n: Byte, level: Byte)
    requires Sorted(notes) && |notes| < NoteCapacity && level > 0
    ensures Process(notes, [NoteEvent(n, level), NoteEvent(n, 0)]) == NoteOff(notes, n)
  {
    ProcessTwo(notes, NoteEvent(n, level), NoteEvent(n, 0));
    ReleaseUndoesPress(notes, n);
  }

  /** The as-written fold, with the unchecked Note On. */
  function ProcessUnchecked(notes: seq<Byte>, evs: seq<NoteEvent>): (r: seq<Byte>)
    requires Sorted(notes)
    ensures Sorted(r)
    decreases |evs|
  {
    if evs == [] then notes
    else if evs[0].Velocity() > 0.0 then ProcessUnchecked(NoteOn(notes, evs[0].note), evs[1..])
    else ProcessUnchecked(NoteOff(notes, evs[0].note), evs[1..])
  }

  /** Each Note On as written lengthens the list by one. */
  lemma {:induction false} HeldNotesGrow(notes: seq<Byte>, e: NoteEvent, k: nat)
    requires Sorted(notes) && e.level > 0
    ensures |ProcessUnchecked(notes, Repeat(e, k))| == |notes| + k
    decreases k
  {
    if k > 0 {
      assert Repeat(e, k)[0] == e && Repeat(e, k)[1..] == Repeat(e, k - 1);
      HeldNotesGrow(NoteOn(notes, e.note), e, k - 1);
    }
  }

  /** 257 Note Ons with no Note Off take the as-written list past the 256
      entries of its array, while the capped list stays within them. */
  lemma HeldNotesOverflow()
    ensures |ProcessUnchecked([], Repeat(NoteEvent(60, 100), 257))| > NoteCapacity
    ensures |Process([], Repeat(NoteEvent(60, 100), 257))| <= NoteCapacity
  {
    HeldNotesGrow([], NoteEvent(60, 100), 257);
  }

  /** The arpeggiator's choice after its phase has advanced. */
  datatype Selection = Selection(index: nat, phase: real)

  /** pwmarp.c:53-59: the index is the whole part of the phase, and a phase
      past the end of the list loses its whole part and restarts at index
      0. */
  function SelectIndex(phase: real, count: nat): (r: Selection)
    requires phase >= 0.0
    ensures r.index == r.phase.Floor
    ensures 0.0 <= r.phase <= phase
    ensures count > 0 ==> r.index < count
    ensures count == 0 ==> r.index == 0
    ensures (phase - r.phase).Floor as real == phase - r.phase
    ensures phase.Floor < count ==> r.phase == phase
    ensures phase.Floor >= count ==> r == Selection(0, phase - phase.Floor as real)
  {
    var index := phase.Floor;
    if index >= count then Selection(0, phase - index as real)
    else Selection(index, phase)
  }

  /** The phase kept after `steps` audio frames, each advancing it by `adv`
      from a start at 0. */
  function ArpPhase(adv: real, count: nat, steps: nat): (p: real)
    requires adv >= 0.0
    ensures p >= 0.0
  {
    if steps == 0 then 0.0 else SelectIndex(ArpPhase(adv, count, steps - 1) + adv, count).phase
  }

  /** A non-zero whole multiple of a positive `c` is at least `c` in size. */
  lemma MulAtLeast(x: int, c: int)
    requires c > 0
    ensures x >= 1 ==> x * c >= c
    ensures x <= -1 ==> x * c <= -c
  {
    if x >= 1 {
      assert x * c == (x - 1) * c + c;
    } else if x <= -1 {
      assert x * c == (x + 1) * c - c;
    }
  }

  /** The remainder is the `r` of any division `a == q * count + r`. */
  lemma ModUnique(a: int, count: int, q: int, r: int)
    requires count > 0 && 0 <= r < count && a == q * count + r
    ensures a % count == r
  {
    var q0 := a / count;
    assert (q - q0) * count == a % count - r;
    MulAtLeast(q - q0, count);
  }

  /** Counting modulo `count` steps by one and wraps at `count`. */
  lemma ModNext(m: nat, count: nat)
    requires count > 0
    ensures (m + 1) % count == if m % count + 1 < count then m % count + 1 else 0
  {
    var q, r := m / count, m % count;
    if r + 1 < count {
      ModUnique(m + 1, count, q, r + 1);
    } else {
      ModUnique(m + 1, count, q + 1, 0);
    }
  }

  /** Advancing by one whole note per frame walks the held notes in order
      and wraps to the first after the last: frame `k` selects note
      `k mod count`. */
  lemma {:induction false} UnitStepsCycle(count: nat, k: nat)
    requires count > 0
    ensures ArpPhase(1.0, count, k) == (k % count) as real
    ensures k > 0 ==> SelectIndex(ArpPhase(1.0, count, k - 1) + 1.0, count).index == k % count
  {
    if k > 0 {
      UnitStepsCycle(count, k - 1);
      ModNext(k - 1, count);
      var q := (k - 1) % count;
      assert ((q + 1) as real).Floor == q + 1;
    }
  }

  /** The selection is stable: selecting again from the kept phase changes
      nothing. */
  lemma SelectStable(phase: real, count: nat)
    requires phase >= 0.0
    ensures SelectIndex(SelectIndex(phase, count).phase, count) == SelectIndex(phase, count)
  {
  }
}
