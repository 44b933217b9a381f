/** The resynchronising parser of the foot-pressure byte stream (FootPressureSensor.cpp). */
module FootPressure {
  import opened Bytes

  const FRAME_HEAD: byte := 0xF2
  const FRAME_TAIL: byte := 0xF1
  const FRAME_SRC: byte := 0x01
  const FRAME_DST: byte := 0xC0
  const FRAME_FUNC: byte := 0xFF
  const FRAME_CMD: byte := 0xEE
  const FRAME_DATA_LEN: byte := 12
  const FRAME_LEN: nat := 20
  const CS_OFFSET: nat := 18
  const RING_BUF_SIZE: nat := 4096
  const READ_SIZE: nat := 256

  datatype Pad = Pad(forefoot: u16, arch: u16, heel: u16)
  datatype Reading = Reading(left: Pad, right: Pad)

  // ---------- one frame ----------

  /** The running 8-bit sum the parser and the sensor both compute. */
  function Checksum(s: seq<byte>): byte {
    if s == [] then 0 else (Checksum(s[..|s| - 1]) + s[|s| - 1]) % 0x100
  }

  function Extract(b: seq<byte>): Reading
    requires |b| >= FRAME_LEN
  {
    Reading(Pad(Be16(b[6], b[7]), Be16(b[8], b[9]), Be16(b[10], b[11])),
            Pad(Be16(b[12], b[13]), Be16(b[14], b[15]), Be16(b[16], b[17])))
  }

  /** What one call of _ParseFrame decides about the bytes in the buffer. */
  datatype Outcome = NeedMore | Skip(n: nat) | Emit(r: Reading)

  function Inspect(b: seq<byte>): (o: Outcome)
    ensures o.NeedMore? <==> |b| < FRAME_LEN
    ensures o.Skip? ==> 1 <= o.n <= |b|
  {
    if |b| < FRAME_LEN then NeedMore
    else if b[0] != FRAME_HEAD then Skip(HeadPosition(b))
    else if b[FRAME_LEN - 1] != FRAME_TAIL then Skip(1)
    else if b[1] != FRAME_SRC then Skip(FRAME_LEN)
    else if b[CS_OFFSET] != Checksum(b[1..CS_OFFSET]) then Skip(1)
    else Emit(Extract(b))
  }

  /** The number of leading bytes that are not the frame head. */
  function HeadPosition(b: seq<byte>): (n: nat)
    ensures n <= |b| && (forall i :: 0 <= i < n ==> b[i] != FRAME_HEAD)
    ensures n < |b| ==> b[n] == FRAME_HEAD
  {
    if b == [] || b[0] == FRAME_HEAD then 0
    else
      var k := HeadPosition(b[1..]);
      assert forall i :: 1 <= i < k + 1 ==> b[i] == b[1..][i - 1];
      k + 1
  }

  lemma FirstHead(b: seq<byte>, i: nat)
    requires i <= |b| && (forall j :: 0 <= j < i ==> b[j] != FRAME_HEAD)
    requires i < |b| ==> b[i] == FRAME_HEAD
    ensures HeadPosition(b) == i
  {
    var n := HeadPosition(b);
    assert n < |b| ==> b[n] == FRAME_HEAD;
  }

  lemma NothingSummed(b: seq<byte>)
    requires |b| >= FRAME_LEN
    ensures Checksum(b[1..1]) == 0
  {
  }

  lemma ChecksumStep(b: seq<byte>, i: nat)
    requires 1 <= i < |b|
    ensures Checksum(b[1..i + 1]) == (Checksum(b[1..i]) + b[i]) % 0x100
  {
    assert b[1..i + 1][..i - 1] == b[1..i];
  }

  /** _ParseFrame */
  method ParseFrame(buf: array<byte>, len: nat) returns (ok: bool, out: Reading, consumed: nat)
    requires len <= buf.Length
    ensures ok <==> Inspect(buf[..len]).Emit?
    ensures match Inspect(buf[..len])
            case NeedMore => consumed == 0
            case Skip(k) => consumed == k
            case Emit(r) => consumed == FRAME_LEN && out == r
  {
    hide HeadPosition, Checksum, Be16;
    ok, out, consumed := false, Reading(Pad(0, 0, 0), Pad(0, 0, 0)), 0;
    ghost var b := buf[..len];
    if len < FRAME_LEN {
      return;
    }
    var i := 0;
    while i < len && buf[i] != FRAME_HEAD
      invariant 0 <= i <= len
      invariant forall j :: 0 <= j < i ==> b[j] != FRAME_HEAD
    {
      i := i + 1;
    }
    FirstHead(b, i);
    if i > 0 {
      consumed := i;
      return;
    }
    if buf[FRAME_LEN - 1] != FRAME_TAIL {
      consumed := 1;
      return;
    }
    if buf[1] != FRAME_SRC {
      consumed := FRAME_LEN;
      return;
    }
    var sum: byte := 0;
    i := 1;
    NothingSummed(b);
    while i < CS_OFFSET
      invariant 1 <= i <= CS_OFFSET && sum == Checksum(b[1..i])
    {
      ChecksumStep(b, i);
      sum := (sum + buf[i]) % 0x100;
      i := i + 1;
    }
    if buf[CS_OFFSET] != sum {
      consumed := 1;
      return;
    }
    out := Reading(Pad(Be16(buf[6], buf[7]), Be16(buf[8], buf[9]), Be16(buf[10], buf[11])),
                   Pad(Be16(buf[12], buf[13]), Be16(buf[14], buf[15]), Be16(buf[16], buf[17])));
    ok, consumed := true, FRAME_LEN;
  }

  // ---------- the whole stream at once ----------

  /** The readings of a byte stream seen in one piece, decided byte by byte. */
  function Parse(s: seq<byte>): seq<Reading> {
    if |s| < FRAME_LEN then []
    else if s[0] != FRAME_HEAD || s[FRAME_LEN - 1] != FRAME_TAIL then Parse(s[1..])
    else if s[1] != FRAME_SRC then Parse(s[FRAME_LEN..])
    else if s[CS_OFFSET] != Checksum(s[1..CS_OFFSET]) then Parse(s[1..])
    else [Extract(s)] + Parse(s[FRAME_LEN..])
  }

  lemma {:induction false} NoiseIsSkipped(noise: seq<byte>, s: seq<byte>)
    requires FRAME_HEAD !in noise
    ensures Parse(noise + s) == Parse(s)
  {
    if noise == [] {
      assert noise + s == s;
    } else {
      assert (noise + s)[1..] == noise[1..] + s;
      NoiseIsSkipped(noise[1..], s);
    }
  }

  /** One decision of _ParseFrame is right whatever arrives later. */
  lemma {:induction false} InspectIsStable(b: seq<byte>, x: seq<byte>)
    ensures match Inspect(b)
            case NeedMore => Parse(b) == []
            case Skip(n) => Parse(b + x) == Parse(b[n..] + x)
            case Emit(r) => Parse(b + x) == [r] + Parse(b[FRAME_LEN..] + x)
  {
    if |b| >= FRAME_LEN {
      if b[0] != FRAME_HEAD {
        var p := HeadPosition(b);
        assert b + x == b[..p] + (b[p..] + x);
        NoiseIsSkipped(b[..p], b[p..] + x);
      } else {
        assert (b + x)[1..] == b[1..] + x && (b + x)[FRAME_LEN..] == b[FRAME_LEN..] + x;
        assert (b + x)[1..CS_OFFSET] == b[1..CS_OFFSET];
      }
    }
  }

  // ---------- the stream in chunks ----------

  datatype Drained = Drained(readings: seq<Reading>, rest: seq<byte>, errors: nat)

  /** The inner loop of _ReaderThread: parse until fewer than 20 bytes are left. */
  function Drain(b: seq<byte>): (d: Drained)
    ensures |d.rest| < FRAME_LEN
    ensures FRAME_LEN * |d.readings| + d.errors + |d.rest| <= |b|
  {
    match Inspect(b)
    case NeedMore => Drained([], b, 0)
    case Skip(n) => Drain(b[n..]).(errors := Drain(b[n..]).errors + 1)
    case Emit(r) => Drain(b[FRAME_LEN..]).(readings := [r] + Drain(b[FRAME_LEN..]).readings)
  }

  lemma {:induction false} DrainIsStable(b: seq<byte>, x: seq<byte>)
    ensures Parse(b + x) == Drain(b).readings + Parse(Drain(b).rest + x)
    decreases |b|
  {
    InspectIsStable(b, x);
    match Inspect(b)
    case NeedMore =>
    case Skip(n) => DrainIsStable(b[n..], x);
    case Emit(r) => DrainIsStable(b[FRAME_LEN..], x);
  }

  /** The reader thread after a sequence of reads: everything emitted, what is left, and the error count. */
  function ReadAll(chunks: seq<seq<byte>>): (d: Drained)
    ensures |d.rest| < FRAME_LEN
  {
    if chunks == [] then Drained([], [], 0)
    else
      var before := ReadAll(chunks[..|chunks| - 1]);
      var now := Drain(before.rest + chunks[|chunks| - 1]);
      Drained(before.readings + now.readings, now.rest, before.errors + now.errors)
  }

  /** The invariant of the reader: what it has emitted and what it still holds account for the whole stream. */
  lemma {:induction false} ReaderInvariant(chunks: seq<seq<byte>>, x: seq<byte>)
    ensures Parse(Flatten(chunks) + x) == ReadAll(chunks).readings + Parse(ReadAll(chunks).rest + x)
  {
    hide Parse, Drain;
    if chunks == [] {
      assert Flatten(chunks) + x == ReadAll(chunks).rest + x;
      assert [] + Parse(x) == Parse(x) && [] + x == x;
    } else {
      var init, last := chunks[..|chunks| - 1], chunks[|chunks| - 1];
      assert chunks == init + [last];
      OneMoreChunk(init, last);
      hide Flatten, ReadAll;
      var before := ReadAll(init);
      var now := Drain(before.rest + last);
      ReaderInvariant(init, last + x);
      DrainIsStable(before.rest + last, x);
      assert Flatten(init) + last + x == Flatten(init) + (last + x);
      assert before.rest + (last + x) == (before.rest + last) + x;
      var tail := Parse(now.rest + x);
      assert before.readings + (now.readings + tail) == (before.readings + now.readings) + tail;
    }
  }

  /** Main result: the emitted readings are those of the stream seen in one piece ... */
  lemma EmittedIsOneShotParse(chunks: seq<seq<byte>>)
    ensures ReadAll(chunks).readings == Parse(Flatten(chunks))
  {
    ReaderInvariant(chunks, []);
    assert Flatten(chunks) + [] == Flatten(chunks);
  }

  /** ... so they do not depend on how read() cut the stream. */
  lemma ChunkIndependence(one: seq<seq<byte>>, other: seq<seq<byte>>)
    requires Flatten(one) == Flatten(other)
    ensures ReadAll(one).readings == ReadAll(other).readings
  {
    EmittedIsOneShotParse(one);
    EmittedIsOneShotParse(other);
  }

  /** Termination and bookkeeping: a frame costs 20 bytes and an error at least one. */
  lemma {:induction false} BytesPayForFramesAndErrors(chunks: seq<seq<byte>>)
    ensures FRAME_LEN * |ReadAll(chunks).readings| + ReadAll(chunks).errors + |ReadAll(chunks).rest|
            <= |Flatten(chunks)|
  {
    if chunks != [] {
      BytesPayForFramesAndErrors(chunks[..|chunks| - 1]);
    }
  }

  lemma {:induction false} DrainStep(b: seq<byte>)
    ensures match Inspect(b)
            case NeedMore => |b| < FRAME_LEN && Drain(b) == Drained([], b, 0)
            case Skip(n) => 1 <= n <= |b| && var d := Drain(b[n..]); Drain(b) == d.(errors := d.errors + 1)
            case Emit(r) =>
              FRAME_LEN <= |b| && var d := Drain(b[FRAME_LEN..]); Drain(b) == d.(readings := [r] + d.readings)
  {
  }

  /** What is left of a buffer, on top of what has been taken from its front. */
  function Joined(done: seq<Reading>, errors: nat, left: Drained): Drained {
    Drained(done + left.readings, left.rest, errors + left.errors)
  }

  lemma JoinedStart(total: Drained)
    ensures Joined([], 0, total) == total
  {
    assert [] + total.readings == total.readings;
  }

  lemma {:induction false} JoinedStep(done: seq<Reading>, errors: nat, b: seq<byte>)
    ensures var j := Joined(done, errors, Drain(b));
            match Inspect(b)
            case NeedMore => j == Drained(done, b, errors)
            case Skip(n) => 1 <= n <= |b| && j == Joined(done, errors + 1, Drain(b[n..]))
            case Emit(r) => FRAME_LEN <= |b| && j == Joined(done + [r], errors, Drain(b[FRAME_LEN..]))
    ensures |b| < FRAME_LEN <==> Inspect(b).NeedMore?
  {
    DrainStep(b);
    hide Drain;
    match Inspect(b)
    case NeedMore => assert done + [] == done;
    case Skip(n) =>
    case Emit(r) =>
      var d := Drain(b[FRAME_LEN..]);
      assert done + ([r] + d.readings) == (done + [r]) + d.readings;
  }

  lemma NothingRead()
    ensures Flatten([]) == [] && ReadAll([]) == Drained([], [], 0)
  {
  }

  lemma OneMoreChunk(chunks: seq<seq<byte>>, c: seq<byte>)
    ensures Flatten(chunks + [c]) == Flatten(chunks) + c
    ensures var before := ReadAll(chunks);
            var now := Drain(before.rest + c);
            ReadAll(chunks + [c]) == Drained(before.readings + now.readings, now.rest, before.errors + now.errors)
  {
    assert (chunks + [c])[..|chunks|] == chunks;
  }

  lemma AllNoise(b: seq<byte>)
    requires |b| >= FRAME_LEN && FRAME_HEAD !in b
    ensures Drain(b) == Drained([], [], 1)
  {
    assert HeadPosition(b) == |b|;
    assert b[|b|..] == [];
  }

  // ---------- the sensor side ----------

  /** A reading on the wire, as laid out in FootPressureProtocol.h. */
  function Encode(r: Reading): (f: seq<byte>)
    ensures |f| == FRAME_LEN
  {
    var body: seq<byte> := [FRAME_SRC, FRAME_DST, FRAME_FUNC, FRAME_CMD, FRAME_DATA_LEN,
                 Hi(r.left.forefoot), Lo(r.left.forefoot), Hi(r.left.arch), Lo(r.left.arch),
                 Hi(r.left.heel), Lo(r.left.heel), Hi(r.right.forefoot), Lo(r.right.forefoot),
                 Hi(r.right.arch), Lo(r.right.arch), Hi(r.right.heel), Lo(r.right.heel)];
    [FRAME_HEAD] + body + [Checksum(body), FRAME_TAIL]
  }

  /** What the parser looks at in an encoded frame. */
  lemma EncodedFrame(r: Reading)
    ensures var f := Encode(r);
            && f[0] == FRAME_HEAD && f[1] == FRAME_SRC && f[FRAME_LEN - 1] == FRAME_TAIL
            && f[CS_OFFSET] == Checksum(f[1..CS_OFFSET])
  {
    hide Checksum, Hi, Lo;
    var f := Encode(r);
    assert f[1..CS_OFFSET] == f[1..][..CS_OFFSET - 1];
  }

  lemma EncodedReading(r: Reading)
    ensures Extract(Encode(r)) == r
  {
    hide Checksum, Hi, Lo, Be16;
    HiLo(r.left.forefoot);
    HiLo(r.left.arch);
    HiLo(r.left.heel);
    HiLo(r.right.forefoot);
    HiLo(r.right.arch);
    HiLo(r.right.heel);
  }

  lemma HiLo(x: u16)
    ensures Be16(Hi(x), Lo(x)) == x
  {
  }

  /** Only the first 20 bytes matter to one decision. */
  lemma FirstFrame(f: seq<byte>, x: seq<byte>)
    requires |f| == FRAME_LEN
    ensures var s := f + x;
            && s[0] == f[0] && s[1] == f[1] && s[FRAME_LEN - 1] == f[FRAME_LEN - 1] && s[CS_OFFSET] == f[CS_OFFSET]
            && s[1..CS_OFFSET] == f[1..CS_OFFSET] && s[FRAME_LEN..] == x && Extract(s) == Extract(f)
  {
    hide Be16;
  }

  lemma ParseFrameThenRest(r: Reading, x: seq<byte>)
    ensures Parse(Encode(r) + x) == [r] + Parse(x)
  {
    hide Checksum, Encode, Extract;
    EncodedFrame(r);
    EncodedReading(r);
    FirstFrame(Encode(r), x);
  }

  /** Readings on the wire with noise before, between and after them. */
  function Wire(rs: seq<Reading>, noise: seq<seq<byte>>): seq<byte>
    requires |noise| == |rs| + 1
  {
    if rs == [] then noise[0]
    else noise[0] + (Encode(rs[0]) + Wire(rs[1..], noise[1..]))
  }

  /** Main result: in head-free noise every reading is recovered, in order, and nothing else is. */
  lemma {:induction false} ParserUndoesEncoder(rs: seq<Reading>, noise: seq<seq<byte>>)
    requires |noise| == |rs| + 1
    requires forall i :: 0 <= i < |noise| ==> FRAME_HEAD !in noise[i]
    ensures Parse(Wire(rs, noise)) == rs
  {
    if rs == [] {
      NoiseIsSkipped(noise[0], []);
      assert noise[0] + [] == noise[0];
    } else {
      var tail := Wire(rs[1..], noise[1..]);
      NoiseIsSkipped(noise[0], Encode(rs[0]) + tail);
      ParseFrameThenRest(rs[0], tail);
      ParserUndoesEncoder(rs[1..], noise[1..]);
      assert rs == [rs[0]] + rs[1..];
    }
  }

  /** A head byte in the noise can cost a reading: one stray 0xF2 just before a frame loses it exactly
      when the frame's checksum happens to equal the tail byte. */
  lemma StrayHead(r: Reading, x: seq<byte>)
    ensures Parse([FRAME_HEAD] + (Encode(r) + x)) == [r] + Parse(x) <==> Encode(r)[CS_OFFSET] != FRAME_TAIL
  {
    var f := Encode(r);
    var s := [FRAME_HEAD] + (f + x);
    assert s[FRAME_LEN - 1] == f[CS_OFFSET] && s[1] == FRAME_HEAD;
    if f[CS_OFFSET] != FRAME_TAIL {
      assert s[1..] == f + x;
      ParseFrameThenRest(r, x);
    } else {
      assert s[FRAME_LEN..] == [FRAME_TAIL] + x;
      NoiseIsSkipped([FRAME_TAIL], x);
    }
  }

  lemma SumOfPrefix(s: seq<byte>, n: nat)
    requires n < |s|
    ensures Checksum(s[..0]) == 0 && Checksum(s[..n + 1]) == (Checksum(s[..n]) + s[n]) % 0x100
  {
    assert s[..n + 1][..n] == s[..n];
  }

  lemma {:induction false} ZerosAddNothing(s: seq<byte>, n: nat)
    requires n <= |s| && forall i :: n <= i < |s| ==> s[i] == 0
    ensures Checksum(s) == Checksum(s[..n])
    decreases |s|
  {
    hide Checksum;
    if n == |s| {
      assert s[..n] == s;
    } else {
      var m := |s| - 1;
      ZerosAddNothing(s[..m], n);
      SumOfPrefix(s, m);
      assert s[..m][..n] == s[..n] && s[..m + 1] == s;
    }
  }

  /** Such readings exist: 55 on the left forefoot and nothing else. */
  lemma AFrameLostToAStrayHead(x: seq<byte>)
    ensures var r := Reading(Pad(0x37, 0, 0), Pad(0, 0, 0));
            && Encode(r)[CS_OFFSET] == FRAME_TAIL
            && Parse([FRAME_HEAD] + (Encode(r) + x)) != [r] + Parse(x)
  {
    var r := Reading(Pad(0x37, 0, 0), Pad(0, 0, 0));
    var head: seq<byte> := [FRAME_SRC, FRAME_DST, FRAME_FUNC, FRAME_CMD, FRAME_DATA_LEN, 0x00, 0x37];
    assert Hi(0) == 0 && Lo(0) == 0 && Hi(0x37) == 0 && Lo(0x37) == 0x37;
    var sent := Encode(r)[1..CS_OFFSET];
    assert sent[..7] == head;
    ZerosAddNothing(sent, 7);
    HeadSum(head);
    EncodedFrame(r);
    StrayHead(r, x);
    hide Checksum, Encode, Parse;
  }

  lemma NextSum(s: seq<byte>, n: nat, before: byte, after: byte)
    requires n < |s| && (if n == 0 then before == 0 else Checksum(s[..n]) == before)
    requires after == before + s[n] || after == before + s[n] - 0x100
    ensures Checksum(s[..n + 1]) == after
  {
    SumOfPrefix(s, n);
    hide Checksum;
  }

  lemma HeadSum(head: seq<byte>)
    requires head == [FRAME_SRC, FRAME_DST, FRAME_FUNC, FRAME_CMD, FRAME_DATA_LEN, 0x00, 0x37]
    ensures Checksum(head) == FRAME_TAIL
  {
    hide Checksum;
    NextSum(head, 0, 0x00, 0x01);
    NextSum(head, 1, 0x01, 0xC1);
    NextSum(head, 2, 0xC1, 0xC0);
    NextSum(head, 3, 0xC0, 0xAE);
    NextSum(head, 4, 0xAE, 0xBA);
    NextSum(head, 5, 0xBA, 0xBA);
    NextSum(head, 6, 0xBA, 0xF1);
    assert head[..7] == head;
  }

  // ---------- the reader thread ----------

  class Sensor {
    const ring: array<byte>
    var wpos: nat
    var frameCount: u32
    var errorCount: u32
    var cached: Reading
    /** The reads since Init, as they were cut. */
    ghost var history: seq<seq<byte>>

    ghost predicate Valid()
      reads this, ring
    {
      && ring.Length == RING_BUF_SIZE
      && wpos < FRAME_LEN
      && ring[..wpos] == ReadAll(history).rest
      && frameCount == |ReadAll(history).readings| % TWO_32
      && errorCount == ReadAll(history).errors % TWO_32
      && cached == Latest(ReadAll(history).readings)
    }

    constructor ()
      ensures Valid() && history == [] && fresh(ring)
    {
      ring := new byte[RING_BUF_SIZE](i => 0);
      wpos, frameCount, errorCount := 0, 0, 0;
      cached := Reading(Pad(0, 0, 0), Pad(0, 0, 0));
      history := [];
    }

    /** One turn of the loop in _ReaderThread. `tmp` is what read() returned; it is empty after a
        timeout or an error. The write position never reaches the end of the ring. */
    method OnRead(tmp: seq<byte>)
      requires Valid() && |tmp| <= READ_SIZE
      modifies this, ring
      ensures Valid() && history == old(history) + [tmp]
      ensures var rs := ReadAll(history).readings; rs != [] ==> cached == rs[|rs| - 1]
    {
      hide ReadAll, Drain;
      ghost var before := ReadAll(history);
      OneMoreChunk(history, tmp);
      assert ring[..wpos] + [] == ring[..wpos];
      history := history + [tmp];
      if |tmp| == 0 {
        DrainStep(before.rest);
        assert before.readings + [] == before.readings;
        return;
      }
      Append(tmp);
      var avail := wpos;
      if avail == 0 { avail := RING_BUF_SIZE; }
      avail := ParseAvailable(avail, before);
      wpos := avail;
    }

    /** The copy into the ring. */
    method Append(tmp: seq<byte>)
      requires ring.Length == RING_BUF_SIZE && wpos + |tmp| < RING_BUF_SIZE
      modifies `wpos, ring
      ensures wpos == old(wpos) + |tmp| && ring[..wpos] == old(ring[..wpos]) + tmp
    {
      var i := 0;
      while i < |tmp|
        invariant 0 <= i <= |tmp| && wpos == old(wpos) + i
        invariant ring[..wpos] == old(ring[..wpos]) + tmp[..i]
      {
        ring[wpos] := tmp[i];
        wpos := (wpos + 1) % RING_BUF_SIZE;
        i := i + 1;
      }
    }

    /** The inner loop: frame by frame, on top of what had been counted before this read. */
    method ParseAvailable(available: nat, ghost before: Drained) returns (avail: nat)
      requires available <= ring.Length
      requires frameCount == |before.readings| % TWO_32 && errorCount == before.errors % TWO_32
      requires cached == Latest(before.readings)
      modifies `frameCount, `errorCount, `cached, ring
      ensures avail < FRAME_LEN && avail <= ring.Length
      ensures var now := Drain(old(ring[..available]));
              && ring[..avail] == now.rest
              && frameCount == |before.readings + now.readings| % TWO_32
              && errorCount == (before.errors + now.errors) % TWO_32
              && cached == Latest(before.readings + now.readings)
    {
      hide Latest, ReadAll, Inspect, Drain, Joined;
      avail := available;
      ghost var total := Drain(ring[..avail]);
      ghost var done: seq<Reading>, errors: nat := [], 0;
      ghost var all := before.readings;
      JoinedStart(total);
      while avail >= FRAME_LEN
        invariant avail <= ring.Length
        invariant total == Joined(done, errors, Drain(ring[..avail])) && all == before.readings + done
        invariant frameCount == |all| % TWO_32 && cached == Latest(all)
        invariant errorCount == (before.errors + errors) % TWO_32
        decreases avail
      {
        var ok, fp;
        ok, fp, avail := TakeFrame(avail, done, errors);
        if !ok {
          CountError(before.errors + errors);
          errors := errors + 1;
        } else {
          Publish(fp, all);
          assert all + [fp] == before.readings + (done + [fp]);
          done, all := done + [fp], all + [fp];
        }
      }
      JoinedStep(done, errors, ring[..avail]);
    }

    /** One call of _ParseFrame, and the memmove of what it left unconsumed. */
    method TakeFrame(avail: nat, ghost done: seq<Reading>, ghost errors: nat)
      returns (ok: bool, fp: Reading, left: nat)
      requires FRAME_LEN <= avail <= ring.Length
      modifies ring
      ensures left < avail
      ensures Joined(done, errors, Drain(old(ring[..avail])))
              == if ok then Joined(done + [fp], errors, Drain(ring[..left]))
                 else Joined(done, errors + 1, Drain(ring[..left]))
    {
      hide Inspect, Drain, Joined;
      ghost var b := ring[..avail];
      JoinedStep(done, errors, b);
      var consumed;
      ok, fp, consumed := ParseFrame(ring, avail);
      left := avail - consumed;
      MoveToFront(consumed, left);
      assert ring[..left] == b[consumed..];
    }

    method CountError(ghost sofar: nat)
      requires errorCount == sofar % TWO_32
      modifies `errorCount
      ensures errorCount == (sofar + 1) % TWO_32
    {
      errorCount := (errorCount + 1) % TWO_32;
    }

    method Publish(fp: Reading, ghost sofar: seq<Reading>)
      requires frameCount == |sofar| % TWO_32
      modifies `frameCount, `cached
      ensures frameCount == |sofar + [fp]| % TWO_32 && cached == Latest(sofar + [fp])
    {
      cached := fp;
      frameCount := (frameCount + 1) % TWO_32;
    }

    /** memmove of the unconsumed bytes to the start of the buffer. */
    method MoveToFront(from: nat, n: nat)
      requires from + n <= ring.Length
      modifies ring
      ensures ring[..n] == old(ring[from..from + n])
    {
      var i := 0;
      while i < n
        invariant 0 <= i <= n
        invariant forall j :: 0 <= j < i ==> ring[j] == old(ring[from + j])
        invariant forall j :: i <= j < ring.Length ==> ring[j] == old(ring[j])
      {
        ring[i] := ring[from + i];
        i := i + 1;
      }
    }
  }

  /** m_cached: the last reading, zeros before the first. */
  function Latest(rs: seq<Reading>): Reading {
    if rs == [] then Reading(Pad(0, 0, 0), Pad(0, 0, 0)) else rs[|rs| - 1]
  }

  // ---------- one frame in full ----------

  lemma ExampleHalf(body: seq<byte>)
    requires body == [0x01, 0xC0, 0xFF, 0xEE, 0x0C, 0x01, 0x02, 0x03, 0x04, 0x05, 0x06, 0x07, 0x08, 0x09, 0x0A,
                      0x0B, 0x0C]
    ensures Checksum(body[..9]) == 0xC4
  {
    hide Checksum;
    NextSum(body, 0, 0x00, 0x01);
    NextSum(body, 1, 0x01, 0xC1);
    NextSum(body, 2, 0xC1, 0xC0);
    NextSum(body, 3, 0xC0, 0xAE);
    NextSum(body, 4, 0xAE, 0xBA);
    NextSum(body, 5, 0xBA, 0xBB);
    NextSum(body, 6, 0xBB, 0xBD);
    NextSum(body, 7, 0xBD, 0xC0);
    NextSum(body, 8, 0xC0, 0xC4);
  }

  lemma ExampleSum(body: seq<byte>)
    requires body == [0x01, 0xC0, 0xFF, 0xEE, 0x0C, 0x01, 0x02, 0x03, 0x04, 0x05, 0x06, 0x07, 0x08, 0x09, 0x0A,
                      0x0B, 0x0C]
    ensures Checksum(body) == 0x08
  {
    hide Checksum;
    ExampleHalf(body);
    NextSum(body, 9, 0xC4, 0xC9);
    NextSum(body, 10, 0xC9, 0xCF);
    NextSum(body, 11, 0xCF, 0xD6);
    NextSum(body, 12, 0xD6, 0xDE);
    NextSum(body, 13, 0xDE, 0xE7);
    NextSum(body, 14, 0xE7, 0xF1);
    NextSum(body, 15, 0xF1, 0xFC);
    NextSum(body, 16, 0xFC, 0x08);
    assert body[..17] == body;
  }

  lemma ExampleBytes()
    ensures Hi(0x0102) == 1 && Lo(0x0102) == 2 && Hi(0x0304) == 3 && Lo(0x0304) == 4
    ensures Hi(0x0506) == 5 && Lo(0x0506) == 6 && Hi(0x0708) == 7 && Lo(0x0708) == 8
    ensures Hi(0x090A) == 9 && Lo(0x090A) == 10 && Hi(0x0B0C) == 11 && Lo(0x0B0C) == 12
  {
  }

  lemma AloneIsRead(r: Reading)
    ensures Parse(Encode(r)) == [r]
  {
    hide Encode;
    ParseFrameThenRest(r, []);
    assert Encode(r) + [] == Encode(r) && [r] + Parse([]) == [r];
  }

  /** A frame byte by byte, and the reading it is. */
  lemma ExampleFrame()
    ensures var r := Reading(Pad(0x0102, 0x0304, 0x0506), Pad(0x0708, 0x090A, 0x0B0C));
            var f: seq<byte> := [0xF2, 0x01, 0xC0, 0xFF, 0xEE, 0x0C, 0x01, 0x02, 0x03, 0x04, 0x05, 0x06, 0x07, 0x08,
                                 0x09, 0x0A, 0x0B, 0x0C, 0x08, 0xF1];
            Encode(r) == f && Parse(f) == [r]
  {
    var r := Reading(Pad(0x0102, 0x0304, 0x0506), Pad(0x0708, 0x090A, 0x0B0C));
    var body: seq<byte> := [0x01, 0xC0, 0xFF, 0xEE, 0x0C, 0x01, 0x02, 0x03, 0x04, 0x05, 0x06, 0x07, 0x08, 0x09, 0x0A,
                            0x0B, 0x0C];
    ExampleSum(body);
    ExampleBytes();
    assert Encode(r) == [0xF2] + body + [0x08, 0xF1];
    hide Encode, Checksum, Parse;
    AloneIsRead(r);
  }
}
