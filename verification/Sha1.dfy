/** The incremental SHA-1 of WebServer.cpp against RFC 3174. */
module Sha1 {
  import opened Bytes

  // ---------- RFC 3174 ----------

  datatype Regs = Regs(a: bv32, b: bv32, c: bv32, d: bv32, e: bv32)

  const BLOCK: nat := 64
  const INITIAL: Regs := Regs(0x67452301, 0xEFCDAB89, 0x98BADCFE, 0x10325476, 0xC3D2E1F0)

  /** Section 3, S^n(X). */
  function Rol(x: bv32, n: bv6): bv32
    requires 0 < n < 32
  {
    (x << n) | (x >> (32 - n))
  }

  type Block = b: seq<byte> | |b| == BLOCK witness ZeroBytes(BLOCK)

  function WordOf(b0: byte, b1: byte, b2: byte, b3: byte): bv32 {
    ((b0 as bv32) << 24) | ((b1 as bv32) << 16) | ((b2 as bv32) << 8) | (b3 as bv32)
  }

  function Mix(x: bv32, y: bv32, z: bv32, v: bv32): bv32 {
    Rol(x ^ y ^ z ^ v, 1)
  }

  /** Section 6.1, the message schedule. */
  function W(block: Block, t: nat): bv32 {
    if t < 16 then WordOf(block[4 * t], block[4 * t + 1], block[4 * t + 2], block[4 * t + 3])
    else Mix(W(block, t - 3), W(block, t - 8), W(block, t - 14), W(block, t - 16))
  }

  /** Section 5. */
  function Choose(b: bv32, c: bv32, d: bv32): bv32 {
    (b & c) | (!b & d)
  }

  function Parity(b: bv32, c: bv32, d: bv32): bv32 {
    b ^ c ^ d
  }

  function Majority(b: bv32, c: bv32, d: bv32): bv32 {
    (b & c) | (b & d) | (c & d)
  }

  function F(t: nat, b: bv32, c: bv32, d: bv32): bv32 {
    if t < 20 then Choose(b, c, d) else if t < 40 then Parity(b, c, d)
    else if t < 60 then Majority(b, c, d) else Parity(b, c, d)
  }

  function Sum(x: bv32, f: bv32, e: bv32, w: bv32, k: bv32): bv32 {
    x + f + e + w + k
  }

  function K(t: nat): bv32 {
    if t < 20 then 0x5A827999 else if t < 40 then 0x6ED9EBA1 else if t < 60 then 0x8F1BBCDC else 0xCA62C1D6
  }

  /** Section 6.1, step d. */
  function Round(r: Regs, t: nat, w: bv32): Regs {
    Regs(Sum(Rol(r.a, 5), F(t, r.b, r.c, r.d), r.e, w, K(t)), r.a, Rol(r.b, 30), r.c, r.d)
  }

  /** The registers after the first t steps on one block. */
  function Rounds(h: Regs, block: Block, t: nat): Regs {
    if t == 0 then h else Round(Rounds(h, block, t - 1), t - 1, W(block, t - 1))
  }

  /** Section 6.1, step e. */
  function Plus(h: Regs, r: Regs): Regs {
    Regs(h.a + r.a, h.b + r.b, h.c + r.c, h.d + r.d, h.e + r.e)
  }

  function Compress(h: Regs, block: Block): Regs {
    Plus(h, Rounds(h, block, 80))
  }

  function Process(h: Regs, m: seq<byte>): Regs
    requires |m| % BLOCK == 0
    decreases |m|
  {
    if |m| < BLOCK then h else Process(Compress(h, m[..BLOCK]), m[BLOCK..])
  }

  /** Section 4: a one bit, the fewest zeros that leave room, and the length in bits as 64 bits. */
  function ZeroCount(len: nat): (k: nat)
    ensures k < BLOCK && (len + 1 + k + 8) % BLOCK == 0
  {
    var held := len % BLOCK;
    if held < 56 then 55 - held else 119 - held
  }

  /** The 64-bit length field: it is exact below 2^61 bytes, the limit of the standard. */
  function BitLength(len: nat): (bits: u64)
    ensures len < TWO_64 / 8 ==> bits == 8 * len
  {
    8 * len % TWO_64
  }

  function Trailer(len: nat): (s: seq<byte>) {
    [0x80] + ZeroBytes(ZeroCount(len)) + BigEndian(BitLength(len), 8)
  }

  function WordBytes(x: bv32): (s: seq<byte>)
    ensures |s| == 4
  {
    [((x >> 24) & 0xFF) as int, ((x >> 16) & 0xFF) as int, ((x >> 8) & 0xFF) as int, (x & 0xFF) as int]
  }

  function Digest(h: Regs): (s: seq<byte>)
    ensures |s| == 20
  {
    WordBytes(h.a) + WordBytes(h.b) + WordBytes(h.c) + WordBytes(h.d) + WordBytes(h.e)
  }

  function Sha1(m: seq<byte>): (s: seq<byte>)
    ensures |s| == 20
  {
    Digest(Process(INITIAL, m + Trailer(|m|)))
  }

  // ---------- folding block by block ----------

  lemma {:induction false} ProcessConcat(h: Regs, m: seq<byte>, x: seq<byte>)
    requires |m| % BLOCK == 0 && |x| % BLOCK == 0
    ensures (|m| + |x|) % BLOCK == 0
    ensures Process(h, m + x) == Process(Process(h, m), x)
    decreases |m|
  {
    if m == [] {
      assert m + x == x;
    } else {
      assert (m + x)[..BLOCK] == m[..BLOCK];
      assert (m + x)[BLOCK..] == m[BLOCK..] + x;
      ProcessConcat(Compress(h, m[..BLOCK]), m[BLOCK..], x);
    }
  }

  lemma ProcessOne(h: Regs, m: seq<byte>, block: Block)
    requires |m| % BLOCK == 0
    ensures Process(h, m + block) == Compress(Process(h, m), block)
  {
    hide Compress;
    ProcessConcat(h, m, block);
    assert block[..BLOCK] == block && block[BLOCK..] == [];
  }

  // ---------- the code ----------

  /** The message schedule of sha1_transform. */
  method Schedule(block: array<byte>) returns (w: array<bv32>)
    requires block.Length == BLOCK
    ensures fresh(w) && w.Length == 80
    ensures forall j :: 0 <= j < 80 ==> w[j] == W(block[..], j)
  {
    hide WordOf, Mix;
    ghost var bs: Block := block[..];
    w := new bv32[80];
    var i := 0;
    while i < 16
      invariant 0 <= i <= 16
      invariant forall j :: 0 <= j < i ==> w[j] == W(bs, j)
    {
      w[i] := WordOf(block[i * 4], block[i * 4 + 1], block[i * 4 + 2], block[i * 4 + 3]);
      i := i + 1;
    }
    while i < 80
      invariant 16 <= i <= 80
      invariant forall j :: 0 <= j < i ==> w[j] == W(bs, j)
    {
      w[i] := Mix(w[i - 3], w[i - 8], w[i - 14], w[i - 16]);
      i := i + 1;
    }
  }

  /** One turn of the 80-step loop, with the constants and functions as the code selects them. */
  method Turn(r: Regs, i: nat, wi: bv32) returns (next: Regs)
    requires i < 80
    ensures next == Round(r, i, wi)
  {
    hide Rol, Choose, Parity, Majority, Sum;
    var a, b, c, d, e := r.a, r.b, r.c, r.d, r.e;
    var f, k: bv32;
    if i < 20 { f, k := Choose(b, c, d), 0x5A827999; }
    else if i < 40 { f, k := Parity(b, c, d), 0x6ED9EBA1; }
    else if i < 60 { f, k := Majority(b, c, d), 0x8F1BBCDC; }
    else { f, k := Parity(b, c, d), 0xCA62C1D6; }
    var t := Sum(Rol(a, 5), f, e, wi, k);
    e := d; d := c; c := Rol(b, 30); b := a; a := t;
    next := Regs(a, b, c, d, e);
  }

  /** sha1_transform */
  method Transform(state: Regs, block: array<byte>) returns (next: Regs)
    requires block.Length == BLOCK
    ensures next == Compress(state, block[..])
  {
    hide Round, W, Plus;
    var w := Schedule(block);
    var r := state;
    var i := 0;
    while i < 80
      invariant 0 <= i <= 80
      invariant r == Rounds(state, block[..], i)
      invariant forall j :: 0 <= j < 80 ==> w[j] == W(block[..], j)
    {
      r := Turn(r, i, w[i]);
      i := i + 1;
    }
    next := Plus(state, r);
  }

  function Held(m: seq<byte>): nat {
    |m| % BLOCK
  }

  function Whole(m: seq<byte>): (w: seq<byte>)
    ensures |w| % BLOCK == 0 && |w| == |m| - Held(m)
  {
    m[..|m| - Held(m)]
  }

  function Rest(m: seq<byte>): (r: seq<byte>)
    ensures |r| == Held(m) && Whole(m) + r == m
  {
    m[|m| - Held(m)..]
  }

  /** The context after the bytes of m: complete blocks are folded into the registers, the rest waits in
      the buffer, and the 64-bit counter has wrapped as it must. */
  ghost predicate Tracks(m: seq<byte>, count: u64, state: Regs, buf: seq<byte>) {
    && |buf| == BLOCK
    && count == |m| % TWO_64
    && state == Process(INITIAL, Whole(m))
    && buf[..Held(m)] == Rest(m)
  }

  lemma SplitIsUnique(m: seq<byte>, w: seq<byte>, r: seq<byte>)
    requires m == w + r && |w| % BLOCK == 0 && |r| < BLOCK
    ensures Whole(m) == w && Rest(m) == r && Held(m) == |r|
  {
  }

  /** One copy into the buffer, with the transform exactly when the buffer is full. */
  lemma Absorbed(m: seq<byte>, count: u64, state: Regs, buf: seq<byte>, part: seq<byte>, buf': seq<byte>)
    requires Tracks(m, count, state, buf) && 0 < |part| <= BLOCK - Held(m)
    requires |buf'| == BLOCK && buf'[..Held(m) + |part|] == buf[..Held(m)] + part
    ensures var count' := (count + |part|) % TWO_64;
            if Held(m) + |part| == BLOCK
            then count' % BLOCK == 0 && Tracks(m + part, count', Compress(state, buf'), buf')
            else count' % BLOCK != 0 && Tracks(m + part, count', state, buf')
  {
    hide Process, Compress, BitLength;
    Counting(|m|, |part|);
    assert (count + |part|) % TWO_64 % BLOCK == (Held(m) + |part|) % BLOCK;
    if Held(m) + |part| == BLOCK {
      assert m + part == (Whole(m) + buf') + [] by {
        assert buf' == Rest(m) + part;
      }
      SplitIsUnique(m + part, Whole(m) + buf', []);
      ProcessOne(INITIAL, Whole(m), buf');
    } else {
      assert m + part == Whole(m) + (Rest(m) + part);
      SplitIsUnique(m + part, Whole(m), Rest(m) + part);
    }
  }

  class Sha1Ctx {
    var state: Regs
    var count: u64
    const buf: array<byte>
    /** Everything fed so far. */
    ghost var message: seq<byte>

    ghost predicate Valid()
      reads this, buf
    {
      Tracks(message, count, state, buf[..])
    }

    /** sha1_init */
    constructor ()
      ensures Valid() && message == [] && fresh(buf)
    {
      state := INITIAL;
      count := 0;
      buf := new byte[BLOCK](i => 0);
      message := [];
    }

    /** sha1_update_simple */
    method Update(data: seq<byte>)
      requires Valid()
      modifies this, buf
      ensures Valid() && message == old(message) + data
    {
      hide Tracks;
      assert message + data[..0] == message;
      var done := 0;
      while done < |data|
        invariant 0 <= done <= |data|
        invariant Valid() && message == old(message) + data[..done]
      {
        var i := BufferedBytes();
        var n := BLOCK - i;
        if n > |data| - done { n := |data| - done; }
        Absorb(data[done..done + n]);
        assert old(message) + data[..done] + data[done..done + n] == old(message) + data[..done + n];
        done := done + n;
      }
      assert data[..done] == data;
    }

    /** `count & 63` */
    method BufferedBytes() returns (i: nat)
      requires Valid()
      ensures i == Held(message)
    {
      Counting(|message|, 0);
      i := count % BLOCK;
    }

    /** One turn of its loop: a copy that at most fills the buffer, and the transform when it does. */
    method Absorb(part: seq<byte>)
      requires Valid() && 0 < |part| <= BLOCK - Held(message)
      modifies this, buf
      ensures Valid() && message == old(message) + part
    {
      hide Process, Compress, Whole, Rest;
      Counting(|message|, 0);
      ghost var before := buf[..];
      Copy(count % BLOCK, part);
      Absorbed(message, count, state, before, part, buf[..]);
      count := (count + |part|) % TWO_64;
      message := message + part;
      if count % BLOCK == 0 {
        state := Transform(state, buf);
      }
    }

    method Copy(at: nat, part: seq<byte>)
      requires at + |part| <= buf.Length
      modifies buf
      ensures buf[..at + |part|] == old(buf[..at]) + part
      ensures buf[at + |part|..] == old(buf[at + |part|..])
    {
      var i := 0;
      while i < |part|
        invariant 0 <= i <= |part|
        invariant buf[..at + i] == old(buf[..at]) + part[..i]
        invariant buf[at + i..] == old(buf[at + i..])
      {
        buf[at + i] := part[i];
        i := i + 1;
      }
    }

    /** sha1_final */
    method Final() returns (digest: seq<byte>)
      requires Valid()
      modifies this, buf
      ensures digest == Sha1(old(message))
    {
      hide Process, Digest, Trailer, BitLength, Whole, Rest;
      Counting(|message|, 0);
      var bits := count * 8 % TWO_64;
      var i := count % BLOCK;
      Copy(i, [0x80]);
      i := i + 1;
      if i > 56 {
        FinishInTwo(i, bits, message);
      } else {
        FinishInOne(i, bits, message);
      }
      digest := Digest(state);
    }

    /** The padding does not fit behind the message: zeros to the end of the block, and one more block. */
    method FinishInTwo(i: nat, bits: u64, ghost m: seq<byte>)
      requires buf.Length == BLOCK && 56 < i <= BLOCK && i == Held(m) + 1 && bits == BitLength(|m|)
      requires state == Process(INITIAL, Whole(m)) && buf[..i] == Rest(m) + [0x80]
      modifies this`state, buf
      ensures state == Process(INITIAL, m + Trailer(|m|))
    {
      hide Process, Compress, Trailer, BigEndian, BitLength, Whole, Rest;
      Copy(i, ZeroBytes(BLOCK - i));
      ghost var first := buf[..];
      ProcessOne(INITIAL, Whole(m), first);
      state := Transform(state, buf);
      FinishBlock(0, bits);
      PaddedInTwo(m, first, buf[..]);
      ProcessOne(INITIAL, Whole(m) + first, buf[..]);
      state := Transform(state, buf);
    }

    method FinishInOne(i: nat, bits: u64, ghost m: seq<byte>)
      requires buf.Length == BLOCK && i <= 56 && i == Held(m) + 1 && bits == BitLength(|m|)
      requires state == Process(INITIAL, Whole(m)) && buf[..i] == Rest(m) + [0x80]
      modifies this`state, buf
      ensures state == Process(INITIAL, m + Trailer(|m|))
    {
      hide Process, Compress, Trailer, BigEndian, BitLength, Whole, Rest;
      FinishBlock(i, bits);
      PaddedInOne(m, buf[..]);
      ProcessOne(INITIAL, Whole(m), buf[..]);
      state := Transform(state, buf);
    }

    /** The zero fill up to byte 56 and the length behind it. */
    method FinishBlock(i: nat, bits: u64)
      requires buf.Length == BLOCK && i <= 56
      modifies buf
      ensures buf[..] == old(buf[..i]) + ZeroBytes(56 - i) + BigEndian(bits, 8)
    {
      Copy(i, ZeroBytes(56 - i));
      Copy(56, BigEndian(bits, 8));
    }
  }

  lemma PaddedInOne(m: seq<byte>, block: seq<byte>)
    requires Held(m) < 56
    requires block == Rest(m) + [0x80] + ZeroBytes(55 - Held(m)) + BigEndian(BitLength(|m|), 8)
    ensures Whole(m) + block == m + Trailer(|m|)
  {
    hide BigEndian, ZeroBytes, BitLength;
    assert ZeroCount(|m|) == 55 - Held(m);
    hide Whole, Rest, ZeroCount, Held;
    Regroup(Whole(m), Rest(m), [0x80], ZeroBytes(55 - Held(m)), BigEndian(BitLength(|m|), 8));
  }

  lemma Regroup(a: seq<byte>, b: seq<byte>, c: seq<byte>, d: seq<byte>, e: seq<byte>)
    ensures a + (b + c + d + e) == (a + b) + (c + d + e)
  {
  }

  lemma PaddedInTwo(m: seq<byte>, first: seq<byte>, second: seq<byte>)
    requires Held(m) >= 56
    requires first == Rest(m) + [0x80] + ZeroBytes(63 - Held(m))
    requires second == ZeroBytes(56) + BigEndian(BitLength(|m|), 8)
    ensures Whole(m) + first + second == m + Trailer(|m|)
  {
    hide BigEndian, BitLength;
    var z1, z2, l := ZeroBytes(63 - Held(m)), ZeroBytes(56), BigEndian(BitLength(|m|), 8);
    assert z1 + z2 == ZeroBytes(ZeroCount(|m|));
    hide Whole, Rest, ZeroCount, ZeroBytes, Held;
    Regroup(Whole(m), Rest(m), [0x80], z1 + z2, l);
    assert Whole(m) + first + second == Whole(m) + (Rest(m) + [0x80] + (z1 + z2) + l);
  }

  /** The 64-bit byte counter: its value modulo a block, and the bit count derived from it, are exact. */
  lemma Counting(n: nat, k: nat)
    ensures n % TWO_64 % BLOCK == n % BLOCK
    ensures (n % TWO_64 + k) % TWO_64 == (n + k) % TWO_64
    ensures (n + k) % TWO_64 % BLOCK == (n % BLOCK + k) % BLOCK == (n + k) % BLOCK
    ensures n % TWO_64 * 8 % TWO_64 == BitLength(n)
  {
    ModOfMod(n);
    ModOfMod(n + k);
    ModOfSum(n, k, TWO_64);
    ModOfSum(n, k, BLOCK);
    var q, s := n / TWO_64, n % TWO_64;
    var a, r := s * 8 / TWO_64, s * 8 % TWO_64;
    ModUnique(n * 8, TWO_64, 8 * q + a, r);
  }

  lemma ModOfMod(n: nat)
    ensures n % TWO_64 % BLOCK == n % BLOCK
  {
    var q, s := n / TWO_64, n % TWO_64;
    ModUnique(n, BLOCK, 0x400_0000_0000_0000 * q + s / BLOCK, s % BLOCK);
  }

  lemma ModOfSum(n: nat, k: nat, m: nat)
    requires m > 0
    ensures (n % m + k) % m == (n + k) % m
  {
    var x := n % m + k;
    assert n + k == m * (n / m) + m * (x / m) + x % m;
    assert m * (n / m) + m * (x / m) == m * (n / m + x / m);
    ModUnique(n + k, m, n / m + x / m, x % m);
  }

  /** Main result: init, any number of updates and final give the RFC 3174 digest of the concatenation. */
  method Hash(chunks: seq<seq<byte>>) returns (digest: seq<byte>)
    ensures digest == Sha1(Flatten(chunks))
  {
    var ctx := new Sha1Ctx();
    var i := 0;
    while i < |chunks|
      invariant 0 <= i <= |chunks|
      invariant ctx.Valid() && ctx.message == Flatten(chunks[..i])
      invariant fresh(ctx) && fresh(ctx.buf)
    {
      assert chunks[..i + 1][..i] == chunks[..i];
      ctx.Update(chunks[i]);
      i := i + 1;
    }
    assert chunks[..i] == chunks;
    digest := ctx.Final();
  }
}
