/** The OSC encoder of the tablet bridge (tablet-osc.c:52-86) and the
    `/tablet ,fff` message it sends once per loop (tablet-osc.c:187-193).

    The encoder appends to one 2048-byte buffer; the model keeps the filled
    prefix of that buffer, so its length is the buffer length. Strings are
    laid out as "OSC-string"s and floats as big-endian 32-bit words, as in
    the Open Sound Control 1.0 specification ("OSC-string", "OSC Atomic Data
    Types"). A float is modelled by the four bytes the host stores for it. */
module Osc {
  import opened Base

  /** Size of the encoder's buffer (tablet-osc.c:16). */
  const Capacity: nat := 2048

  /** The characters of a C string: no NUL before its terminator. */
  predicate NoNul(s: seq<Byte>)
  {
    forall i :: 0 <= i < |s| ==> s[i] != 0
  }

  /** The number of NULs after a string of `n` characters: `4 - (n & 3)`. */
  function Padding(n: nat): (p: nat)
    ensures 1 <= p <= 4 && (n + p) % 4 == 0
  {
    4 - n % 4
  }

  /** The OSC-string of `s`: its characters, then at least one and at most
      four NULs, up to the next multiple of four bytes. */
  function OscString(s: seq<Byte>): (b: seq<Byte>)
    ensures |b| == |s| + Padding(|s|) && |b| % 4 == 0 && |s| < |b| <= |s| + 4
    ensures b[..|s|] == s
    ensures forall i :: |s| <= i < |b| ==> b[i] == 0
  {
    s + Repeat(0, Padding(|s|))
  }

  /** `osc_begin`: an empty buffer. */
  function Begin(): (r: seq<Byte>)
    ensures |r| == 0
  {
    []
  }

  /** `osc_str`: the characters are copied one by one, then the padding NULs.
      Earlier bytes of the buffer are left as they are. No write is checked
      against the buffer size, so the caller must leave room. */
  method Str(buf: seq<Byte>, s: seq<Byte>) returns (r: seq<Byte>)
    requires NoNul(s)
    requires |buf| + |s| + Padding(|s|) <= Capacity
    ensures r == buf + OscString(s)
    ensures r[..|buf|] == buf && r[|buf|..|buf| + |s|] == s
    ensures (|r| - |buf|) % 4 == 0 && r[|r| - 1] == 0
  {
    r := buf;
    var n := 0;
    while n < |s|
      invariant 0 <= n <= |s|
      invariant r == buf + s[..n]
    {
      r := r + [s[n]];
      n := n + 1;
    }
    assert s[..n] == s;
    var zeroPadding := 4 - n % 4;
    var i := 0;
    while i < zeroPadding
      invariant 0 <= i <= zeroPadding
      invariant r == buf + s + Repeat(0, i)
    {
      assert Repeat(0, i) + [0] == Repeat(0, i + 1);
      r := r + [0];
      i := i + 1;
    }
    assert r == buf + (s + Repeat(0, Padding(|s|)));
  }

  /** `osc_f32`: the four host bytes of the float, last one first. */
  method F32(buf: seq<Byte>, host: seq<Byte>) returns (r: seq<Byte>)
    requires |host| == 4 && |buf| + 4 <= Capacity
    ensures r == buf + Reverse(host)
  {
    r := buf;
    for i := 0 to 4
      invariant r == buf + Reverse(host)[..i]
    {
      assert Reverse(host)[..i + 1] == Reverse(host)[..i] + [host[3 - i]];
      r := r + [host[3 - i]];
    }
    assert Reverse(host)[..4] == Reverse(host);
  }

  /** The outcome of `osc_end`: the datagram handed to `write`, if any, and
      the buffer afterwards. */
  datatype Flush = Flush(datagram: Option<seq<Byte>>, buffer: seq<Byte>)

  /** `osc_end`: an empty buffer sends nothing; otherwise the whole buffer
      is sent as one datagram. Either way the buffer is empty afterwards. */
  function End(buf: seq<Byte>): (r: Flush)
    ensures r.buffer == []
    ensures r.datagram.None? <==> buf == []
    ensures r.datagram.Some? ==> r.datagram.value == buf
  {
    if |buf| == 0 then Flush(None, buf) else Flush(Some(buf), [])
  }

  /** Value of a byte string read most significant byte first. */
  function BigEndian(b: seq<Byte>): nat
  {
    if b == [] then 0 else BigEndian(b[..|b| - 1]) * 256 + b[|b| - 1]
  }

  /** Value of a byte string read least significant byte first. */
  function LittleEndian(b: seq<Byte>): nat
  {
    if b == [] then 0 else b[0] + 256 * LittleEndian(b[1..])
  }

  /** On a little-endian host, the word `osc_f32` appends carries, read
      big-endian as OSC requires, the value the host stored. */
  lemma {:induction false} ReversedIsBigEndian(host: seq<Byte>)
    ensures BigEndian(Reverse(host)) == LittleEndian(host)
    decreases |host|
  {
    if host != [] {
      var r := Reverse(host);
      assert r[|r| - 1] == host[0];
      assert r[..|r| - 1] == Reverse(host[1..]);
      ReversedIsBigEndian(host[1..]);
    }
  }

  /** A value read from a message and the position after it. */
  datatype Token<T> = Token(value: T, next: nat)

  /** The position of the first NUL at or after `i`, if any. */
  function FirstNul(m: seq<Byte>, i: nat): (z: Option<nat>)
    requires i <= |m|
    ensures z.Some? ==> i <= z.value < |m| && m[z.value] == 0 && NoNul(m[i..z.value])
    ensures z.None? ==> NoNul(m[i..])
    decreases |m| - i
  {
    if i == |m| then None
    else if m[i] == 0 then Some(i)
    else
      var z := FirstNul(m, i + 1);
      assert z.Some? ==> m[i..z.value] == [m[i]] + m[i + 1..z.value];
      assert z.None? ==> m[i..] == [m[i]] + m[i + 1..];
      z
  }

  /** Read the OSC-string at `i`: the characters up to the first NUL, whose
      padding must be NULs and must fit in the message. */
  function ReadString(m: seq<Byte>, i: nat): (r: Option<Token<seq<Byte>>>)
    requires i <= |m|
    ensures r.Some? ==> NoNul(r.value.value) && r.value.next <= |m|
    ensures r.Some? ==> r.value.next == i + |OscString(r.value.value)| && m[i..r.value.next] == OscString(r.value.value)
  {
    match FirstNul(m, i)
    case None => None
    case Some(z) =>
      var s := m[i..z];
      var end := z + Padding(|s|);
      if end <= |m| && (forall k :: z <= k < end ==> m[k] == 0) then
        assert m[i..end] == OscString(s);
        Some(Token(s, end))
      else
        None
  }

  /** Read the four host bytes of the float argument at `i`. */
  function ReadF32(m: seq<Byte>, i: nat): (r: Option<Token<seq<Byte>>>)
    ensures r.Some? <==> i + 4 <= |m|
    ensures r.Some? ==> |r.value.value| == 4 && r.value.next == i + 4 && m[i..i + 4] == Reverse(r.value.value)
  {
    if i + 4 <= |m| then
      ReverseReverse(m[i..i + 4]);
      Some(Token(Reverse(m[i..i + 4]), i + 4))
    else None
  }

  /** An encoded string reads back, whatever precedes or follows it. */
  lemma StringRoundTrip(pre: seq<Byte>, s: seq<Byte>, rest: seq<Byte>)
    requires NoNul(s)
    ensures ReadString(pre + OscString(s) + rest, |pre|) == Some(Token(s, |pre| + |OscString(s)|))
  {
    var m := pre + OscString(s) + rest;
    var z := |pre| + |s|;
    assert m[z] == 0;
    assert m[|pre|..z] == s;
    var f := FirstNul(m, |pre|);
    assert f.Some? && f.value == z;
    forall k | z <= k < z + Padding(|s|)
      ensures m[k] == 0
    {
      assert m[k] == OscString(s)[k - |pre|];
    }
  }

  /** An encoded float reads back to the host bytes it was made from. */
  lemma F32RoundTrip(pre: seq<Byte>, host: seq<Byte>, rest: seq<Byte>)
    requires |host| == 4
    ensures ReadF32(pre + Reverse(host) + rest, |pre|) == Some(Token(host, |pre| + 4))
  {
    var m := pre + Reverse(host) + rest;
    assert m[|pre|..|pre| + 4] == Reverse(host);
    ReverseReverse(host);
  }

  /** The OSC address "/tablet" and the type tag string ",fff", in ASCII. */
  const Address: seq<Byte> := [0x2f, 0x74, 0x61, 0x62, 0x6c, 0x65, 0x74]
  const TypeTags: seq<Byte> := [0x2c, 0x66, 0x66, 0x66]

  /** The host bytes of the three pen floats. */
  datatype PenWords = PenWords(x: seq<Byte>, y: seq<Byte>, pressure: seq<Byte>) {
    predicate Valid()
    {
      |x| == 4 && |y| == 4 && |pressure| == 4
    }
  }

  /** The message the bridge sends: 8 bytes of address, 8 of type tags,
      then the three floats big-endian, 28 bytes in all. */
  function TabletMessage(w: PenWords): (m: seq<Byte>)
    requires w.Valid()
    ensures |m| == 28
    ensures m[..8] == Address + [0] && m[8..16] == TypeTags + [0, 0, 0, 0]
    ensures m[16..20] == Reverse(w.x) && m[20..24] == Reverse(w.y) && m[24..] == Reverse(w.pressure)
  {
    assert OscString(Address) == Address + [0];
    assert OscString(TypeTags) == TypeTags + [0, 0, 0, 0];
    OscString(Address) + OscString(TypeTags) + Reverse(w.x) + Reverse(w.y) + Reverse(w.pressure)
  }

  /** The receiving side: a `/tablet` message with exactly three float
      arguments and nothing after them. */
  function ParseTablet(m: seq<Byte>): (r: Option<PenWords>)
    ensures r.Some? ==> r.value.Valid()
  {
    match ReadString(m, 0)
    case None => None
    case Some(a) =>
      if a.value != Address then None
      else match ReadString(m, a.next)
      case None => None
      case Some(t) =>
        if t.value != TypeTags then None
        else match ReadF32(m, t.next)
        case None => None
        case Some(x) => match ReadF32(m, x.next)
        case None => None
        case Some(y) => match ReadF32(m, y.next)
        case None => None
        case Some(p) => if p.next == |m| then Some(PenWords(x.value, y.value, p.value)) else None
  }

  /** The address of a bridge message reads back. */
  lemma TabletAddress(w: PenWords)
    requires w.Valid()
    ensures ReadString(TabletMessage(w), 0) == Some(Token(Address, |OscString(Address)|))
  {
    var tags := OscString(TypeTags) + Reverse(w.x) + Reverse(w.y) + Reverse(w.pressure);
    assert TabletMessage(w) == [] + OscString(Address) + tags;
    StringRoundTrip([], Address, tags);
  }

  /** The type tags of a bridge message read back, after the address. */
  lemma TabletTags(w: PenWords)
    requires w.Valid()
    ensures var a := |OscString(Address)|;
      ReadString(TabletMessage(w), a) == Some(Token(TypeTags, a + |OscString(TypeTags)|))
  {
    var rest := Reverse(w.x) + Reverse(w.y) + Reverse(w.pressure);
    assert TabletMessage(w) == OscString(Address) + OscString(TypeTags) + rest;
    StringRoundTrip(OscString(Address), TypeTags, rest);
  }

  /** The three float arguments of a bridge message read back, the last one
      ending the message. */
  lemma TabletArguments(w: PenWords)
    requires w.Valid()
    ensures var n := |OscString(Address) + OscString(TypeTags)|;
      && ReadF32(TabletMessage(w), n) == Some(Token(w.x, n + 4))
      && ReadF32(TabletMessage(w), n + 4) == Some(Token(w.y, n + 8))
      && ReadF32(TabletMessage(w), n + 8) == Some(Token(w.pressure, n + 12))
      && n + 12 == |TabletMessage(w)|
  {
    var p1 := OscString(Address) + OscString(TypeTags);
    assert TabletMessage(w) == p1 + Reverse(w.x) + (Reverse(w.y) + Reverse(w.pressure));
    F32RoundTrip(p1, w.x, Reverse(w.y) + Reverse(w.pressure));
    assert TabletMessage(w) == (p1 + Reverse(w.x)) + Reverse(w.y) + Reverse(w.pressure);
    F32RoundTrip(p1 + Reverse(w.x), w.y, Reverse(w.pressure));
    assert TabletMessage(w) == (p1 + Reverse(w.x) + Reverse(w.y)) + Reverse(w.pressure) + [];
    F32RoundTrip(p1 + Reverse(w.x) + Reverse(w.y), w.pressure, []);
  }

  /** Every message the bridge sends parses back to the pen words it carries. */
  lemma TabletRoundTrip(w: PenWords)
    requires w.Valid()
    ensures ParseTablet(TabletMessage(w)) == Some(w)
  {
    TabletAddress(w);
    TabletTags(w);
    TabletArguments(w);
  }

  /** Conversely, a message that parses is exactly the message of the words
      it yields: the parser accepts nothing the bridge would not send. */
  lemma ParsedIsTablet(m: seq<Byte>)
    requires ParseTablet(m).Some?
    ensures TabletMessage(ParseTablet(m).value) == m
  {
    var w := ParseTablet(m).value;
    var a := ReadString(m, 0).value;
    var t := ReadString(m, a.next).value;
    var x := ReadF32(m, t.next).value;
    var y := ReadF32(m, x.next).value;
    var p := ReadF32(m, y.next).value;
    assert m[..a.next] == OscString(Address);
    assert m[a.next..t.next] == OscString(TypeTags);
    assert m[t.next..x.next] == Reverse(w.x);
    assert m[x.next..y.next] == Reverse(w.y);
    assert m[y.next..] == Reverse(w.pressure);
    Pieces5(m, a.next, t.next, x.next, y.next);
  }

  lemma Pieces5(m: seq<Byte>, i: nat, j: nat, k: nat, l: nat)
    requires i <= j <= k <= l <= |m|
    ensures m == m[..i] + m[i..j] + m[j..k] + m[k..l] + m[l..]
  {
  }

  /** The message assembly of the bridge's loop: begin, the address and the
      type tags, the three floats, end. It sends exactly the `/tablet`
      message and leaves the buffer empty. */
  method SendTablet(w: PenWords) returns (f: Flush)
    requires w.Valid()
    ensures f.datagram == Some(TabletMessage(w)) && f.buffer == []
    ensures ParseTablet(f.datagram.value) == Some(w)
  {
    var buf := Begin();
    buf := Str(buf, Address);
    assert buf == OscString(Address) && |buf| == 8;
    buf := Str(buf, TypeTags);
    assert buf == OscString(Address) + OscString(TypeTags) && |buf| == 16;
    buf := F32(buf, w.x);
    buf := F32(buf, w.y);
    buf := F32(buf, w.pressure);
    assert buf == TabletMessage(w);
    f := End(buf);
    TabletRoundTrip(w);
  }
}
