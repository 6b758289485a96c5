/** DYNAMIXEL Protocol 2.0 packets and the framing loop of the device model
    (native/dhi/model.py:27-36, 91-96, 154-178). */
module Framing {
  import opened Options
  import opened ByteStrings
  import opened Crc

  const MARK: Bytes := [0xff, 0xff, 0xfd]
  const STUFFED: Bytes := [0xff, 0xff, 0xfd, 0xfd]
  const HEADER: Bytes := [0xff, 0xff, 0xfd, 0x00]
  const LIMIT := 8192

  // --- byte stuffing ---

  /** `bytes.replace`: leftmost matches, not overlapping. */
  function Replace(s: Bytes, pattern: Bytes, value: Bytes): Bytes
    requires pattern != []
    decreases |s|
  {
    if |s| < |pattern| then s
    else if s[..|pattern|] == pattern then value + Replace(s[|pattern|..], pattern, value)
    else [s[0]] + Replace(s[1..], pattern, value)
  }

  function Stuff(body: Bytes): Bytes {
    Replace(body, MARK, STUFFED)
  }

  /** What stuffing does to the one pattern it is for. */
  lemma StuffsTheMark()
    ensures Stuff([0xff, 0xff, 0xfd]) == [0xff, 0xff, 0xfd, 0xfd]
  {}

  function Unstuff(body: Bytes): Bytes {
    Replace(body, STUFFED, MARK)
  }

  lemma StuffHead(s: Bytes)
    ensures (Stuff(s) == [] <==> s == []) && (s != [] ==> Stuff(s)[0] == s[0])
  {
    if |s| >= 3 && s[..3] == MARK {
      assert s[0] == MARK[0];
    }
  }

  /** A stuffed body that begins ff fd was one that did. */
  lemma StuffHeadPair(s: Bytes)
    requires |Stuff(s)| >= 2 && Stuff(s)[0] == 0xff && Stuff(s)[1] == 0xfd
    ensures |s| >= 2 && s[0] == 0xff && s[1] == 0xfd
  {
    StuffHead(s);
    if |s| >= 3 && s[..3] != MARK {
      StuffHead(s[1..]);
    }
  }

  /** Where no mark starts, none is seen after stuffing either. */
  lemma NoMarkAtHead(s: Bytes)
    requires |s| >= 3 && s[..3] != MARK
    ensures |Stuff(s)| >= 3 ==> Stuff(s)[..3] != MARK
  {
    var t := Stuff(s);
    assert s[..3] == [s[0], s[1], s[2]];
    if |t| >= 3 && t[..3] == MARK {
      assert t[0] == t[..3][0] && t[1] == t[..3][1] && t[2] == t[..3][2];
      assert t == [s[0]] + Stuff(s[1..]);
      StuffHeadPair(s[1..]);
    }
  }

  /** Unstuffing undoes stuffing, for every body. */
  lemma {:induction false} StuffingRoundTrip(s: Bytes)
    ensures Unstuff(Stuff(s)) == s
    decreases |s|
  {
    if |s| >= 3 {
      if s[..3] == MARK {
        StuffingRoundTrip(s[3..]);
        var t := Stuff(s);
        assert t == STUFFED + Stuff(s[3..]) && t[..4] == STUFFED && t[4..] == Stuff(s[3..]);
        assert s == MARK + s[3..];
      } else {
        StuffingRoundTrip(s[1..]);
        var t := Stuff(s);
        assert t == [s[0]] + Stuff(s[1..]) && t[1..] == Stuff(s[1..]);
        NoMarkAtHead(s);
        if |t| >= 4 {
          assert t[..4][..3] == t[..3];
          assert STUFFED[..3] == MARK;
        } else {
          ShortIsPlain(s[1..]);
        }
        assert s == [s[0]] + s[1..];
      }
    }
  }

  /** A stuffed body of fewer than four bytes was not changed. */
  lemma ShortIsPlain(s: Bytes)
    requires |Stuff(s)| < 4
    ensures |s| < 4
  {
    StuffGrows(s);
  }

  lemma {:induction false} StuffGrows(s: Bytes)
    ensures |s| <= |Stuff(s)|
    decreases |s|
  {
    if |s| >= 3 {
      StuffGrows(if s[..3] == MARK then s[3..] else s[1..]);
    }
  }

  /** No header can be mistaken inside a stuffed body. */
  lemma {:induction false} StuffedHidesHeader(s: Bytes, i: nat)
    requires i + 4 <= |Stuff(s)|
    ensures Stuff(s)[i..i + 4] != HEADER
    decreases |s|
  {
    if |s| >= 3 && s[..3] == MARK {
      assert Stuff(s) == STUFFED + Stuff(s[3..]);
      if i >= 4 {
        StuffedHidesHeader(s[3..], i - 4);
      }
      BehindStuffing(Stuff(s[3..]), i);
    } else if |s| >= 3 {
      assert Stuff(s) == [s[0]] + Stuff(s[1..]);
      if i > 0 {
        StuffedHidesHeader(s[1..], i - 1);
        Window([s[0]], Stuff(s[1..]), i);
      } else {
        NoMarkAtHead(s);
        if Stuff(s)[0..4] == HEADER {
          HeaderStartsWithMark(Stuff(s));
        }
      }
    }
  }

  lemma Window(a: Bytes, b: Bytes, i: nat)
    requires |a| <= i && i + 4 <= |a| + |b|
    ensures (a + b)[i..i + 4] == b[i - |a|..i - |a| + 4]
  {}

  lemma HeaderStartsWithMark(t: Bytes)
    requires |t| >= 4 && t[0..4] == HEADER
    ensures t[..3] == MARK
  {
    assert t[..3] == t[0..4][..3] && HEADER[..3] == MARK;
  }

  lemma BehindStuffing(rest: Bytes, i: nat)
    requires i + 4 <= 4 + |rest|
    requires i >= 4 ==> rest[i - 4..i] != HEADER
    ensures (STUFFED + rest)[i..i + 4] != HEADER
  {
    var t := STUFFED + rest;
    if i >= 4 {
      Window(STUFFED, rest, i);
    } else {
      assert t[i] == t[i..i + 4][0] && t[i + 1] == t[i..i + 4][1] && t[i + 3] == t[i..i + 4][3];
    }
  }

  // --- packets ---

  function Little(n: nat): (b: Bytes)
    requires n < 0x10000
    ensures |b| == 2
  {
    var high := n / 256;
    assert 0 <= high < 256;
    [n % 256, high]
  }

  function FromLittle(b: Bytes): nat
    requires |b| == 2
  {
    var low: int, high: int := b[0], b[1];
    low + 256 * high
  }

  lemma {:induction false} ValueBound(b: Bits)
    ensures Value(b) < Power(|b|)
    decreases |b|
  {
    if b != [] {
      ValueBound(b[1..]);
    }
  }

  function AsByte(b: Bits): Byte
    requires |b| == 8
  {
    ValueBound(b);
    assert Power(8) == 256 by { assert Power(4) == 16; }
    Value(b)
  }

  function CrcBytes(data: Bytes): (b: Bytes)
    ensures |b| == 2
  {
    var v := Checksum(data);
    [AsByte(v[..8]), AsByte(v[8..])]
  }

  lemma {:induction false} ValueSplits(a: Bits, b: Bits)
    ensures Value(a + b) == Value(a) + Power(|a|) * Value(b)
    decreases |a|
  {
    if a == [] {
      assert a + b == b;
    } else {
      assert (a + b)[1..] == a[1..] + b;
      ValueSplits(a[1..], b);
    }
  }

  /** The checksum goes out low byte first. */
  lemma CrcLowFirst(data: Bytes)
    ensures CrcBytes(data)[0] as int + 256 * CrcBytes(data)[1] as int == Value(Checksum(data))
  {
    var v := Checksum(data);
    ValueSplits(v[..8], v[8..]);
    assert v == v[..8] + v[8..];
    assert Power(8) == 256 by { assert Power(4) == 16; }
  }

  function Prefix(ident: Byte, body: Bytes): Bytes
    requires |body| + 2 < 0x10000
  {
    HEADER + [ident] + Little(|body| + 2) + body
  }

  /** None where the length does not fit its two bytes. */
  function Packet(ident: Byte, body: Bytes, stuff: bool): Option<Bytes> {
    var b := if stuff then Stuff(body) else body;
    if |b| + 2 >= 0x10000 then None else Some(Prefix(ident, b) + CrcBytes(Prefix(ident, b)))
  }

  /** What `respond` takes from a frame before it looks at the instruction. */
  datatype Content = Content(ident: Byte, body: Bytes) | BadCrc

  function Decode(raw: Bytes): Content
    requires |raw| >= 7
  {
    if CrcBytes(raw[..|raw| - 2]) != raw[|raw| - 2..] then BadCrc
    else Content(raw[4], if |raw| >= 9 then Unstuff(raw[7..|raw| - 2]) else [])
  }

  // --- the framing loop ---

  datatype Fault = FrameInvalid | FrameTooLarge | RespondRaised

  /** Bytes not yet framed, frames handed to `respond`, and why the loop ended, if it did. */
  datatype Stream = Stream(pending: Bytes, frames: seq<Bytes>, fault: Option<Fault>)

  const FRESH := Stream([], [], None)

  /** Whether `respond` raises on the last of these frames; it may depend on the ones before. */
  type Raises = seq<Bytes> -> bool

  function Size(pending: Bytes): nat
    requires |pending| >= 7
  {
    7 + FromLittle(pending[5..7])
  }

  function Pump(s: Stream, raises: Raises): Stream
    decreases |s.pending|
  {
    if s.fault.Some? || |s.pending| < 7 then s
    else if s.pending[..4] != HEADER then s.(fault := Some(FrameInvalid))
    else if Size(s.pending) > LIMIT then s.(fault := Some(FrameTooLarge))
    else if |s.pending| < Size(s.pending) then s
    else
      var n := Size(s.pending);
      var t := Stream(s.pending[n..], s.frames + [s.pending[..n]], None);
      if raises(t.frames) then t.(fault := Some(RespondRaised)) else Pump(t, raises)
  }

  /** One read from the port. */
  function Feed(s: Stream, data: Bytes, raises: Raises): Stream {
    if s.fault.Some? then s else Pump(s.(pending := s.pending + data), raises)
  }

  function FeedAll(s: Stream, chunks: seq<Bytes>, raises: Raises): Stream {
    if chunks == [] then s else Feed(FeedAll(s, chunks[..|chunks| - 1], raises), chunks[|chunks| - 1], raises)
  }

  function Joined(chunks: seq<Bytes>): Bytes {
    if chunks == [] then [] else Joined(chunks[..|chunks| - 1]) + chunks[|chunks| - 1]
  }

  /** Same frames, same end, and the same leftover unless the loop has ended. */
  predicate SameYield(a: Stream, b: Stream) {
    a.frames == b.frames && a.fault == b.fault && (a.fault.None? ==> a.pending == b.pending)
  }

  lemma Sliced(a: Bytes, b: Bytes, n: nat)
    requires n <= |a|
    ensures (a + b)[..n] == a[..n] && (a + b)[n..] == a[n..] + b
  {}

  lemma {:induction false} PumpThenMore(s: Stream, more: Bytes, raises: Raises)
    requires s.fault.None?
    ensures SameYield(Feed(Pump(s, raises), more, raises), Pump(s.(pending := s.pending + more), raises))
    decreases |s.pending|
  {
    var all := s.pending + more;
    if |s.pending| >= 7 {
      Sliced(s.pending, more, 4);
      assert all[5..7] == s.pending[5..7];
      if s.pending[..4] == HEADER && Size(s.pending) <= LIMIT && |s.pending| >= Size(s.pending) {
        var n := Size(s.pending);
        var t := Stream(s.pending[n..], s.frames + [s.pending[..n]], None);
        Sliced(s.pending, more, n);
        if !raises(t.frames) {
          PumpThenMore(t, more, raises);
        }
      }
    }
  }

  /** A buffer that does not begin with the header, or whose length field asks for more than 8192 bytes, ends the loop
      before anything of it is handed over. */
  lemma BadFrameEnds(s: Stream, raises: Raises)
    requires s.fault.None? && |s.pending| >= 7
    ensures s.pending[..4] != [0xff, 0xff, 0xfd, 0x00] ==> Pump(s, raises) == s.(fault := Some(FrameInvalid))
    ensures s.pending[..4] == [0xff, 0xff, 0xfd, 0x00] && 7 + s.pending[5] as int + 256 * s.pending[6] as int > 8192 ==>
              Pump(s, raises) == s.(fault := Some(FrameTooLarge))
  {}

  /** However the stream is cut into reads, the loop yields the same frames and leftover. */
  lemma {:induction false} SplitIndependent(chunks: seq<Bytes>, raises: Raises)
    ensures SameYield(FeedAll(FRESH, chunks, raises), Feed(FRESH, Joined(chunks), raises))
    decreases |chunks|
  {
    if chunks != [] {
      var init, last := chunks[..|chunks| - 1], chunks[|chunks| - 1];
      SplitIndependent(init, raises);
      var s := FRESH.(pending := Joined(init));
      assert FRESH.pending + Joined(init) == Joined(init);
      assert FRESH.pending + Joined(chunks) == Joined(init) + last;
      PumpThenMore(s, last, raises);
    }
  }

  /** The loop over reads, with its inner loop over the buffer. */
  method Loop(chunks: seq<Bytes>, raises: Raises) returns (pending: Bytes, frames: seq<Bytes>, fault: Option<Fault>)
    ensures Stream(pending, frames, fault) == FeedAll(FRESH, chunks, raises)
  {
    pending, frames, fault := [], [], None;
    for i := 0 to |chunks|
      invariant Stream(pending, frames, fault) == FeedAll(FRESH, chunks[..i], raises)
    {
      assert chunks[..i + 1][..i] == chunks[..i];
      if fault.None? {
        pending, frames, fault := TakeFrames(pending + chunks[i], frames, raises);
      }
    }
    assert chunks[..|chunks|] == chunks;
  }

  /** The inner loop: frames off the front of the buffer while there are whole ones. */
  method TakeFrames(buffer: Bytes, before: seq<Bytes>, raises: Raises)
    returns (pending: Bytes, frames: seq<Bytes>, fault: Option<Fault>)
    ensures Stream(pending, frames, fault) == Pump(Stream(buffer, before, None), raises)
  {
    pending, frames, fault := buffer, before, None;
    ghost var goal := Pump(Stream(buffer, before, None), raises);
    while |pending| >= 7
      invariant Pump(Stream(pending, frames, None), raises) == goal
      invariant fault.None?
    {
      if pending[..4] != HEADER {
        fault := Some(FrameInvalid);
        return;
      }
      var size := 7 + FromLittle(pending[5..7]);
      if size > LIMIT {
        fault := Some(FrameTooLarge);
        return;
      }
      if |pending| < size {
        return;
      }
      frames, pending := frames + [pending[..size]], pending[size..];
      if raises(frames) {
        fault := Some(RespondRaised);
        return;
      }
    }
  }

  // --- packets through the loop ---

  /** A packet the loop can take, with the stuffed body within the frame limit. */
  datatype Message = Message(ident: Byte, body: Bytes)

  predicate Sendable(m: Message) {
    9 + |Stuff(m.body)| <= 8192
  }

  function Raw(m: Message): Bytes
    requires Sendable(m)
  {
    Packet(m.ident, m.body, true).value
  }

  lemma LittleRoundTrip(n: nat)
    requires n < 0x10000
    ensures FromLittle(Little(n)) == n
  {}

  /** The layout of a packet as the loop and `respond` read it. */
  lemma RawLayout(m: Message)
    requires Sendable(m)
    ensures var raw := Raw(m);
            && |raw| == 9 + |Stuff(m.body)| && raw[..4] == HEADER && raw[4] == m.ident
            && raw[..4] == [0xff, 0xff, 0xfd, 0x00]
            && raw[5] as int + 256 * raw[6] as int == |Stuff(m.body)| + 2
            && raw[|raw| - 2] as int + 256 * raw[|raw| - 1] as int == Value(Checksum(raw[..|raw| - 2]))
            && Size(raw) == |raw|
            && raw[7..|raw| - 2] == Stuff(m.body)
            && raw[|raw| - 2..] == CrcBytes(raw[..|raw| - 2])
  {
    var b := Stuff(m.body);
    var p, raw := Prefix(m.ident, b), Raw(m);
    assert raw == p + CrcBytes(p) && |p| == 7 + |b|;
    assert raw[..|raw| - 2] == p && raw[|raw| - 2..] == CrcBytes(p);
    assert raw[5..7] == Little(|b| + 2) && raw[5] == raw[5..7][0] && raw[6] == raw[5..7][1];
    LittleRoundTrip(|b| + 2);
    CrcLowFirst(p);
    assert raw[|raw| - 2] == CrcBytes(p)[0] && raw[|raw| - 1] == CrcBytes(p)[1];
    assert raw[..4] == HEADER;
    assert raw[7..|raw| - 2] == b;
  }

  /** What was packed is what `respond` decodes. */
  lemma PacketRoundTrip(m: Message)
    requires Sendable(m)
    ensures |Raw(m)| >= 9 && Decode(Raw(m)) == Content(m.ident, m.body)
  {
    RawLayout(m);
    StuffingRoundTrip(m.body);
  }

  ghost function Raws(ms: seq<Message>): seq<Bytes>
    requires forall m | m in ms :: Sendable(m)
  {
    seq(|ms|, i requires 0 <= i < |ms| => assert ms[i] in ms; Raw(ms[i]))
  }

  /** With a packet at the front of the buffer the loop takes exactly that packet. */
  lemma PumpTakesOne(m: Message, rest: Bytes, frames: seq<Bytes>, raises: Raises)
    requires Sendable(m)
    ensures var t := Stream(rest, frames + [Raw(m)], None);
            Pump(Stream(Raw(m) + rest, frames, None), raises) ==
            if raises(t.frames) then t.(fault := Some(RespondRaised)) else Pump(t, raises)
  {
    RawLayout(m);
    var raw, all := Raw(m), Raw(m) + rest;
    assert all[..4] == raw[..4] && all[5..7] == raw[5..7];
    assert all[..|raw|] == raw && all[|raw|..] == rest;
  }

  /** The first `k` of these frames have been handed over, and none but the last, if any, was refused. */
  ghost predicate HandedOver(s: Stream, before: seq<Bytes>, frames: seq<Bytes>, k: nat, raises: Raises) {
    && k <= |frames| && s.frames == before + frames[..k]
    && (forall i | 0 < i < k :: !raises(before + frames[..i]))
    && (match s.fault
        case None => k == |frames| && s.pending == [] && (k > 0 ==> !raises(before + frames[..k]))
        case Some(f) => f.RespondRaised? && k > 0 && raises(before + frames[..k]))
  }

  lemma HandedFurther(s: Stream, before: seq<Bytes>, frames: seq<Bytes>, k: nat, raises: Raises)
    requires frames != [] && !raises(before + [frames[0]])
    requires HandedOver(s, before + [frames[0]], frames[1..], k, raises)
    ensures HandedOver(s, before, frames, k + 1, raises)
  {
    forall i | 0 <= i <= |frames[1..]| ensures before + frames[..i + 1] == before + [frames[0]] + frames[1..][..i] {}
    forall i | 0 < i < k + 1 ensures !raises(before + frames[..i]) {
      assert before + frames[..i] == before + [frames[0]] + frames[1..][..i - 1];
      if i == 1 {
        assert before + frames[..1] == before + [frames[0]];
      }
    }
    if k == 0 {
      assert before + frames[..1] == before + [frames[0]];
    }
  }

  lemma {:induction false} PumpTakesAll(ms: seq<Message>, frames: seq<Bytes>, raises: Raises) returns (k: nat)
    requires forall m | m in ms :: Sendable(m)
    ensures HandedOver(Pump(Stream(Flat(Raws(ms)), frames, None), raises), frames, Raws(ms), k, raises)
    decreases |ms|
  {
    if ms == [] {
      assert frames + Raws(ms)[..0] == frames;
      k := 0;
    } else {
      var raw, rest := Raw(ms[0]), ms[1..];
      assert ms[0] in ms;
      assert Raws(ms)[1..] == Raws(rest) && Raws(ms)[0] == raw;
      PumpTakesOne(ms[0], Flat(Raws(rest)), frames, raises);
      if raises(frames + [raw]) {
        assert Raws(ms)[..1] == [raw];
        k := 1;
      } else {
        k := PumpTakesAll(rest, frames + [raw], raises);
        HandedFurther(Pump(Stream(Flat(Raws(ms)), frames, None), raises), frames, Raws(ms), k, raises);
        k := k + 1;
      }
    }
  }

  lemma HandedMeans(s: Stream, frames: seq<Bytes>, k: nat, raises: Raises)
    requires HandedOver(s, [], frames, k, raises)
    ensures s.frames == frames[..k] && (forall i | 0 < i < |s.frames| :: !raises(frames[..i]))
    ensures s.fault.Some? <==> exists i | 0 < i <= |frames| :: raises(frames[..i])
    ensures s.fault.None? ==> s.frames == frames && s.pending == []
    ensures s.fault.Some? ==> s.fault == Some(RespondRaised) && s.frames != [] && raises(s.frames)
  {
    forall i | 0 <= i <= |frames| ensures [] + frames[..i] == frames[..i] {}
    assert s.fault.Some? ==> raises(frames[..k]);
    assert s.fault.None? ==> forall i | 0 < i <= |frames| :: !raises([] + frames[..i]);
  }

  /** Any packets, concatenated and cut into reads anywhere, come back as exactly those packets, up to and
      including the first that `respond` refuses, each with its original body.  The loop ends by
      a refusal exactly when there is one, and otherwise leaves nothing over. */
  lemma {:induction false} PacketsSurviveAnySplit(ms: seq<Message>, chunks: seq<Bytes>, raises: Raises)
    requires forall m | m in ms :: Sendable(m)
    requires Joined(chunks) == Flat(Raws(ms))
    ensures var s := FeedAll(FRESH, chunks, raises);
            && s.frames <= Raws(ms)
            && (forall i | 0 < i < |s.frames| :: !raises(Raws(ms)[..i]))
            && (s.fault.Some? <==> exists i | 0 < i <= |ms| :: raises(Raws(ms)[..i]))
            && (s.fault.Some? ==> s.fault == Some(RespondRaised) && s.frames != [] && raises(s.frames))
            && (s.fault.None? ==> s.frames == Raws(ms) && s.pending == [])
    ensures forall i | 0 <= i < |ms| ::
              |Raws(ms)[i]| >= 9 && Decode(Raws(ms)[i]) == Content(ms[i].ident, ms[i].body)
  {
    hide Pump, FeedAll, HandedOver, Flat, Joined, Decode;
    SplitIndependent(chunks, raises);
    assert FRESH.pending + Joined(chunks) == Flat(Raws(ms));
    var k := PumpTakesAll(ms, [], raises);
    HandedMeans(Feed(FRESH, Joined(chunks), raises), Raws(ms), k, raises);
    forall i | 0 <= i < |ms| ensures |Raws(ms)[i]| >= 9 && Decode(Raws(ms)[i]) == Content(ms[i].ident, ms[i].body) {
      RawsDecode(ms, i);
    }
  }

  /** Each of them carries a valid checksum and decodes to its ident and original body. */
  lemma RawsDecode(ms: seq<Message>, i: nat)
    requires i < |ms| && forall m | m in ms :: Sendable(m)
    ensures |Raws(ms)[i]| >= 9 && Decode(Raws(ms)[i]) == Content(ms[i].ident, ms[i].body)
  {
    assert ms[i] in ms;
    PacketRoundTrip(ms[i]);
  }
}
