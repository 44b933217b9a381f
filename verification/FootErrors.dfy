/** When the error counter of the foot-pressure reader depends on how read() cut the stream. */
module FootErrors {
  import opened Bytes
  import opened FootPressure

  /** How far the byte-by-byte parse moves from the front of s. */
  function Advance(s: seq<byte>): (n: nat)
    requires |s| >= FRAME_LEN
    ensures 1 <= n <= FRAME_LEN
  {
    if s[0] != FRAME_HEAD || s[FRAME_LEN - 1] != FRAME_TAIL then 1
    else if s[1] != FRAME_SRC then FRAME_LEN
    else if s[CS_OFFSET] != Checksum(s[1..CS_OFFSET]) then 1
    else FRAME_LEN
  }

  /** The positions of `CutSafe` are those of `Parse`. */
  lemma ParseAdvances(s: seq<byte>)
    requires |s| >= FRAME_LEN
    ensures Parse(s) == Parse(s[Advance(s)..]) || Parse(s) == [Extract(s)] + Parse(s[Advance(s)..])
  {
  }

  /** No position that the parse visits with at least 40 bytes to go starts 21 bytes without a head. */
  predicate CutSafe(s: seq<byte>) {
    |s| >= 2 * FRAME_LEN ==> FRAME_HEAD in s[..FRAME_LEN + 1] && CutSafe(s[Advance(s)..])
  }

  /** Chunks that read() can return: 1 to 256 bytes. */
  predicate Reads(chunks: seq<seq<byte>>) {
    forall i :: 0 <= i < |chunks| ==> 1 <= |chunks[i]| <= READ_SIZE
  }

  // ---------- the reader from any state, front to back ----------

  datatype Left = Left(rest: seq<byte>, errors: nat)

  function After(r: seq<byte>, chunks: seq<seq<byte>>): Left
    decreases |chunks|
  {
    if chunks == [] then Left(r, 0)
    else
      var d := Drain(r + chunks[0]);
      var t := After(d.rest, chunks[1..]);
      Left(t.rest, d.errors + t.errors)
  }

  lemma {:induction false} AfterSnoc(r: seq<byte>, chunks: seq<seq<byte>>, c: seq<byte>)
    ensures var t, d := After(r, chunks), Drain(After(r, chunks).rest + c);
            After(r, chunks + [c]) == Left(d.rest, t.errors + d.errors)
    decreases |chunks|
  {
    hide Drain;
    if chunks != [] {
      AfterSnoc(Drain(r + chunks[0]).rest, chunks[1..], c);
      assert (chunks + [c])[1..] == chunks[1..] + [c];
    }
  }

  lemma {:induction false} ReadAllIsAfter(chunks: seq<seq<byte>>)
    requires |chunks| > 0
    ensures After([], chunks) == Left(ReadAll(chunks).rest, ReadAll(chunks).errors)
  {
    var init, last := chunks[..|chunks| - 1], chunks[|chunks| - 1];
    assert chunks == init + [last];
    OneMoreChunk(init, last);
    AfterSnoc([], init, last);
    NothingRead();
    if init != [] {
      ReadAllIsAfter(init);
    }
    hide Drain;
  }

  lemma {:induction false} FlattenFront(c: seq<byte>, chunks: seq<seq<byte>>)
    ensures Flatten([c] + chunks) == c + Flatten(chunks)
  {
    if chunks == [] {
      assert [c] + chunks == [c] && [c][..0] == [];
      assert [] + c == c && c + [] == c;
    } else {
      var init, last := chunks[..|chunks| - 1], chunks[|chunks| - 1];
      FlattenFront(c, init);
      assert ([c] + chunks)[..|chunks|] == [c] + init;
      assert (c + Flatten(init)) + last == c + (Flatten(init) + last);
    }
  }

  // ---------- one decision ----------

  function Width(b: seq<byte>): (n: nat)
    requires |b| >= FRAME_LEN
    ensures 1 <= n <= |b|
  {
    if b[0] != FRAME_HEAD then HeadPosition(b) else Advance(b)
  }

  function Cost(b: seq<byte>): nat {
    if Inspect(b).Emit? then 0 else 1
  }

  lemma DrainOnce(b: seq<byte>)
    requires |b| >= FRAME_LEN
    ensures var d := Drain(b[Width(b)..]);
            Drain(b).rest == d.rest && Drain(b).errors == Cost(b) + d.errors
  {
    DrainStep(b);
    Decided(b);
    hide Drain, Inspect, Width, Cost;
  }

  lemma Decided(b: seq<byte>)
    requires |b| >= FRAME_LEN
    ensures match Inspect(b)
            case NeedMore => false
            case Skip(n) => Width(b) == n && Cost(b) == 1
            case Emit(_) => Width(b) == FRAME_LEN && Cost(b) == 0
  {
    hide Checksum, Extract, HeadPosition;
  }

  /** What arrives later changes a decision only if the buffer was nothing but noise. */
  lemma SameDecision(b: seq<byte>, x: seq<byte>)
    requires |b| >= FRAME_LEN && (b[0] == FRAME_HEAD || HeadPosition(b) < |b|)
    ensures Width(b + x) == Width(b) && Cost(b + x) == Cost(b)
  {
    assert (b + x)[1..CS_OFFSET] == b[1..CS_OFFSET];
    if b[0] != FRAME_HEAD {
      var n := HeadPosition(b);
      assert forall i :: 0 <= i <= n ==> (b + x)[i] == b[i];
      HeadIs(b + x, n);
    }
  }

  lemma HeadIs(s: seq<byte>, n: nat)
    requires n <= |s| && (n < |s| ==> s[n] == FRAME_HEAD) && forall i :: 0 <= i < n ==> s[i] != FRAME_HEAD
    ensures HeadPosition(s) == n
  {
    var m := HeadPosition(s);
    assert m < |s| ==> s[m] == FRAME_HEAD;
  }

  /** Noise in front of a head that is at most 20 bytes away decides nothing. */
  lemma {:induction false} NoiseSafe(s: seq<byte>, k: nat)
    requires k <= |s| && forall i :: 0 <= i < k ==> s[i] != FRAME_HEAD
    ensures CutSafe(s) ==> CutSafe(s[k..])
    ensures k <= FRAME_LEN && k < |s| && s[k] == FRAME_HEAD && CutSafe(s[k..]) ==> CutSafe(s)
  {
    if k > 0 {
      assert s[1..][k - 1..] == s[k..];
      NoiseSafe(s[1..], k - 1);
      assert |s| >= FRAME_LEN ==> Advance(s) == 1;
      assert k <= FRAME_LEN && |s| >= 2 * FRAME_LEN ==> s[k] == s[..FRAME_LEN + 1][k];
    } else {
      assert s[0..] == s;
    }
  }

  lemma SafeNext(s: seq<byte>)
    requires |s| >= FRAME_LEN && CutSafe(s)
    ensures CutSafe(s[Width(s)..])
  {
    if s[0] != FRAME_HEAD {
      NoiseSafe(s, Width(s));
    }
  }

  // ---------- safe streams ----------

  lemma SplitOnce(b: seq<byte>, x: seq<byte>)
    requires |b| >= FRAME_LEN && CutSafe(b + x) && (b[0] == FRAME_HEAD || HeadPosition(b) < |b|)
    ensures var rest := b[Width(b)..];
            && CutSafe(rest + x) && Drain(b).rest == Drain(rest).rest
            && Drain(b).errors == Cost(b) + Drain(rest).errors
            && Drain(b + x).errors == Cost(b) + Drain(rest + x).errors
  {
    hide CutSafe, Drain, Width, Cost, HeadPosition;
    SameDecision(b, x);
    Suffix(b, x, Width(b));
    SafeNext(b + x);
    DrainOnce(b);
    DrainOnce(b + x);
  }

  lemma Suffix(b: seq<byte>, x: seq<byte>, n: nat)
    requires n <= |b|
    ensures (b + x)[n..] == b[n..] + x
  {
  }

  /** In a safe stream the errors of a buffer and of what follows it add up. */
  lemma {:induction false} DrainSplits(b: seq<byte>, x: seq<byte>)
    requires CutSafe(b + x)
    ensures CutSafe(Drain(b).rest + x)
    ensures Drain(b + x).errors == Drain(b).errors + Drain(Drain(b).rest + x).errors
    decreases |b|
  {
    hide CutSafe, Drain, Width, Cost;
    if |b| < FRAME_LEN {
      DrainStep(b);
    } else if b[0] == FRAME_HEAD || HeadPosition(b) < |b| {
      SplitOnce(b, x);
      DrainSplits(b[Width(b)..], x);
    } else {
      NoiseToTheEnd(b, x);
    }
  }

  lemma NoiseToTheEnd(b: seq<byte>, x: seq<byte>)
    requires |b| >= FRAME_LEN && HeadPosition(b) == |b| && CutSafe(b + x)
    ensures CutSafe(Drain(b).rest + x)
    ensures Drain(b + x).errors == Drain(b).errors + Drain(Drain(b).rest + x).errors
  {
    var s := b + x;
    assert forall i :: 0 <= i < |b| ==> s[i] == b[i];
    AllNoise(b);
    assert Drain(b).rest + x == x && s[|b|..] == x;
    NoiseSafe(s, |b|);
    DrainOnce(s);
    HeadAfterNoise(s, |b|);
    if |x| < FRAME_LEN {
      hide CutSafe;
      DrainStep(x);
      DrainStep(s[Width(s)..]);
    } else {
      HeadWithin(s, |b|);
      hide CutSafe, Drain;
    }
  }

  lemma HeadAfterNoise(s: seq<byte>, k: nat)
    requires 0 < k <= |s| && forall i :: 0 <= i < k ==> s[i] != FRAME_HEAD
    ensures HeadPosition(s) >= k
  {
    var m := HeadPosition(s);
    assert m < |s| ==> s[m] == FRAME_HEAD;
  }

  /** In a safe stream noise in front of 20 more bytes is itself at most 20 bytes long. */
  lemma HeadWithin(s: seq<byte>, k: nat)
    requires CutSafe(s) && FRAME_LEN <= k <= |s| - FRAME_LEN && forall i :: 0 <= i < k ==> s[i] != FRAME_HEAD
    ensures k == FRAME_LEN && HeadPosition(s) == k
  {
    var i :| 0 <= i <= FRAME_LEN && s[..FRAME_LEN + 1][i] == FRAME_HEAD;
    assert s[i] == FRAME_HEAD;
    HeadIs(s, i);
  }

  lemma {:induction false} SafeCount(r: seq<byte>, chunks: seq<seq<byte>>)
    requires |r| < FRAME_LEN && CutSafe(r + Flatten(chunks))
    ensures After(r, chunks).errors == Drain(r + Flatten(chunks)).errors
    decreases |chunks|
  {
    if chunks == [] {
      assert r + Flatten(chunks) == r;
      DrainStep(r);
    } else {
      var c, rest := chunks[0], chunks[1..];
      assert chunks == [c] + rest;
      FlattenFront(c, rest);
      hide Flatten, Drain, CutSafe;
      assert r + (c + Flatten(rest)) == (r + c) + Flatten(rest);
      DrainSplits(r + c, Flatten(rest));
      SafeCount(Drain(r + c).rest, rest);
    }
  }

  // ---------- unsafe streams ----------

  function Singles(t: seq<byte>): (chunks: seq<seq<byte>>)
    ensures Reads(chunks)
  {
    if t == [] then [] else [[t[0]]] + Singles(t[1..])
  }

  lemma {:induction false} FlattenSingles(t: seq<byte>)
    ensures Flatten(Singles(t)) == t
  {
    if t != [] {
      FlattenSingles(t[1..]);
      FlattenFront([t[0]], Singles(t[1..]));
    }
  }

  lemma AfterCons(r: seq<byte>, c: seq<byte>, chunks: seq<seq<byte>>)
    ensures var d := Drain(r + c);
            After(r, [c] + chunks) == Left(After(d.rest, chunks).rest, d.errors + After(d.rest, chunks).errors)
  {
    assert ([c] + chunks)[1..] == chunks;
  }

  /** 40 bytes that start with 21 bytes of noise: two errors when cut in the middle, one otherwise, and the
      same rest. */
  lemma TwoOrOne(s: seq<byte>)
    requires |s| == 2 * FRAME_LEN && FRAME_HEAD !in s[..FRAME_LEN + 1]
    ensures Drain(s[..FRAME_LEN]) == Drained([], [], 1)
    ensures Drain(s).errors == 1 && Drain(s[FRAME_LEN..]).errors == 1
    ensures Drain(s).rest == Drain(s[FRAME_LEN..]).rest
  {
    assert forall i :: 0 <= i <= FRAME_LEN ==> s[i] == s[..FRAME_LEN + 1][i];
    AllNoise(s[..FRAME_LEN]);
    var t := s[FRAME_LEN..];
    var h, m := HeadPosition(t), HeadPosition(s);
    assert t[0] == s[FRAME_LEN];
    assert forall i :: FRAME_LEN <= i < |s| ==> s[i] == t[i - FRAME_LEN];
    HeadIs(s, FRAME_LEN + h);
    assert t[h..] == s[m..];
    DrainOnce(s);
    DrainOnce(t);
    DrainStep(t[h..]);
  }

  /** The bytes that complete the first 20, the next 20, and the others. */
  lemma Pieces(r: seq<byte>, t: seq<byte>) returns (c1: seq<byte>, c2: seq<byte>, more: seq<byte>)
    requires |r| < FRAME_LEN && |r + t| >= 2 * FRAME_LEN && FRAME_HEAD !in (r + t)[..FRAME_LEN + 1]
    ensures 1 <= |c1| <= FRAME_LEN == |c2|
    ensures t == c1 + (c2 + more) == (c1 + c2) + more
    ensures var s := r + (c1 + c2);
            && |s| == 2 * FRAME_LEN && FRAME_HEAD !in s[..FRAME_LEN + 1]
            && s[..FRAME_LEN] == r + c1 && s[FRAME_LEN..] == c2 == [] + c2
  {
    var n, m := FRAME_LEN - |r|, 2 * FRAME_LEN - |r|;
    c1, c2, more := t[..n], t[n..m], t[m..];
    assert c1 + c2 == t[..m];
    assert (r + t)[..FRAME_LEN + 1] == (r + (c1 + c2))[..FRAME_LEN + 1];
  }

  lemma CutIt(r: seq<byte>, t: seq<byte>) returns (a: seq<seq<byte>>, b: seq<seq<byte>>)
    requires |r| < FRAME_LEN && |r + t| >= 2 * FRAME_LEN && FRAME_HEAD !in (r + t)[..FRAME_LEN + 1]
    ensures Reads(a) && Reads(b) && Flatten(a) == t == Flatten(b)
    ensures After(r, a).errors == After(r, b).errors + 1
  {
    hide *;
    var c1, c2, more := Pieces(r, t);
    var tail := Singles(more);
    FlattenSingles(more);
    a, b := [c1] + ([c2] + tail), [c1 + c2] + tail;
    ReadsCons(c2, tail);
    ReadsCons(c1, [c2] + tail);
    ReadsCons(c1 + c2, tail);
    TwoOrOne(r + (c1 + c2));
    AfterCons(r, c1, [c2] + tail);
    AfterCons([], c2, tail);
    AfterCons(r, c1 + c2, tail);
  }

  lemma ReadsCons(c: seq<byte>, chunks: seq<seq<byte>>)
    requires 1 <= |c| <= 2 * FRAME_LEN && Reads(chunks)
    ensures Reads([c] + chunks) && Flatten([c] + chunks) == c + Flatten(chunks)
  {
    FlattenFront(c, chunks);
  }

  /** The bytes that complete the first 20, and the others. */
  lemma FirstTwenty(r: seq<byte>, t: seq<byte>, rest: seq<byte>) returns (c: seq<byte>, more: seq<byte>)
    requires |r| < FRAME_LEN && |r + t| >= 2 * FRAME_LEN
    requires |rest| < FRAME_LEN && rest == (r + t)[FRAME_LEN - |rest|..FRAME_LEN]
    ensures 1 <= |c| <= FRAME_LEN && c + more == t && r + c == (r + t)[..FRAME_LEN]
    ensures rest + more == (r + t)[FRAME_LEN - |rest|..]
  {
    var n := FRAME_LEN - |r|;
    c, more := t[..n], t[n..];
    assert (r + t)[FRAME_LEN..] == more;
  }

  /** From any state of the reader, an unsafe stream has two cuts whose error counts differ by one. */
  lemma {:induction false} Diverge(r: seq<byte>, t: seq<byte>) returns (a: seq<seq<byte>>, b: seq<seq<byte>>)
    requires |r| < FRAME_LEN && !CutSafe(r + t)
    ensures Reads(a) && Reads(b) && Flatten(a) == t == Flatten(b)
    ensures After(r, a).errors == After(r, b).errors + 1
    decreases |t|
  {
    var s := r + t;
    if FRAME_HEAD !in s[..FRAME_LEN + 1] {
      a, b := CutIt(r, t);
    } else {
      var rest := OneDecision(s);
      var c, more := FirstTwenty(r, t, rest);
      hide *;
      a, b := Diverge(rest, more);
      AfterCons(r, c, a);
      AfterCons(r, c, b);
      ReadsCons(c, a);
      ReadsCons(c, b);
      a, b := [c] + a, [c] + b;
    }
  }

  /** If the first 20 bytes are noise and the 21st byte decides, it is a head. */
  lemma NextHead(s: seq<byte>)
    requires |s| >= 2 * FRAME_LEN && FRAME_HEAD in s[..FRAME_LEN + 1]
    ensures var n := HeadPosition(s[..FRAME_LEN]);
            s[n] == FRAME_HEAD && forall i :: 0 <= i < n ==> s[i] != FRAME_HEAD
  {
    var b, c := s[..FRAME_LEN], s[..FRAME_LEN + 1];
    var n := HeadPosition(b);
    assert forall i :: 0 <= i < FRAME_LEN ==> s[i] == b[i];
    var k :| 0 <= k < |c| && c[k] == FRAME_HEAD;
    assert s[k] == FRAME_HEAD;
    hide HeadPosition;
  }

  lemma SameAdvance(s: seq<byte>)
    requires |s| >= FRAME_LEN
    ensures Advance(s[..FRAME_LEN]) == Advance(s)
  {
    hide Checksum;
    assert s[..FRAME_LEN][1..CS_OFFSET] == s[1..CS_OFFSET];
  }

  lemma WhatIsLeft(s: seq<byte>, n: nat)
    requires n <= FRAME_LEN <= |s|
    ensures s[..FRAME_LEN][n..] == s[n..FRAME_LEN]
  {
  }

  /** Reading exactly the first 20 bytes takes one decision and leaves an unsafe stream unsafe. */
  lemma OneDecision(s: seq<byte>) returns (rest: seq<byte>)
    requires !CutSafe(s) && FRAME_HEAD in s[..FRAME_LEN + 1]
    ensures |s| >= 2 * FRAME_LEN && rest == Drain(s[..FRAME_LEN]).rest && |rest| < FRAME_LEN
    ensures rest == s[FRAME_LEN - |rest|..FRAME_LEN] && !CutSafe(s[FRAME_LEN - |rest|..])
  {
    var b := s[..FRAME_LEN];
    rest := Drain(b).rest;
    DrainOnce(b);
    var n := Width(b);
    DrainStep(b[n..]);
    WhatIsLeft(s, n);
    hide Drain, Advance, HeadPosition, Inspect;
    if b[0] == FRAME_HEAD {
      SameAdvance(s);
    } else {
      NextHead(s);
      NoiseSafe(s, n);
    }
  }

  // ---------- the two halves ----------

  ghost predicate ErrorsAgree(s: seq<byte>, a: seq<seq<byte>>, b: seq<seq<byte>>) {
    Flatten(a) == s && Flatten(b) == s ==> ReadAll(a).errors == ReadAll(b).errors
  }

  /** A safe stream has one error count, that of reading it in one piece, under every cut whatever. */
  lemma SafeStreamsHaveOneCount(chunks: seq<seq<byte>>)
    requires CutSafe(Flatten(chunks))
    ensures ReadAll(chunks).errors == Drain(Flatten(chunks)).errors
  {
    assert [] + Flatten(chunks) == Flatten(chunks);
    SafeCount([], chunks);
    if chunks != [] {
      ReadAllIsAfter(chunks);
    } else {
      NothingRead();
    }
    hide After, Flatten, ReadAll, Drain, CutSafe;
  }

  /** An unsafe stream has two cuts that read() can make and that count differently. */
  lemma UnsafeStreamsHaveTwoCounts(s: seq<byte>) returns (a: seq<seq<byte>>, b: seq<seq<byte>>)
    requires !CutSafe(s)
    ensures Reads(a) && Reads(b) && Flatten(a) == s == Flatten(b)
    ensures ReadAll(a).errors == ReadAll(b).errors + 1
  {
    assert [] + s == s;
    a, b := Diverge([], s);
    NothingRead();
    assert |s| > 0;
    ReadAllIsAfter(a);
    ReadAllIsAfter(b);
    hide After, Flatten, ReadAll, CutSafe;
  }

  /** Main result: the error count is independent of the cut exactly for safe streams, and it makes no
      difference whether all cuts are considered or only those that read() can make. */
  lemma ErrorsIndependentIff(s: seq<byte>)
    ensures CutSafe(s) <==> forall a, b :: ErrorsAgree(s, a, b)
    ensures CutSafe(s) <==> forall a, b :: Reads(a) && Reads(b) ==> ErrorsAgree(s, a, b)
  {
    if CutSafe(s) {
      forall a, b ensures ErrorsAgree(s, a, b) {
        if Flatten(a) == s && Flatten(b) == s {
          SafeStreamsHaveOneCount(a);
          SafeStreamsHaveOneCount(b);
        }
      }
    } else {
      var a, b := UnsafeStreamsHaveTwoCounts(s);
      assert !ErrorsAgree(s, a, b);
    }
  }

  /** For instance, 40 or more bytes without a head are unsafe ... */
  lemma HeadlessIsUnsafe(s: seq<byte>)
    requires |s| >= 2 * FRAME_LEN && FRAME_HEAD !in s
    ensures !CutSafe(s)
  {
    assert s == s[..FRAME_LEN + 1] + s[FRAME_LEN + 1..];
  }

  /** ... and 40 of them count one error or two. */
  lemma ErrorsDependOnChunking()
    ensures var z := ZeroBytes(20);
            && !CutSafe(z + z) && Flatten([z + z]) == z + z == Flatten([z, z])
            && ReadAll([z + z]).errors == 1 && ReadAll([z, z]).errors == 2
  {
    hide Flatten, ReadAll, Drain, CutSafe;
    var z := ZeroBytes(20);
    HeadlessIsUnsafe(z + z);
    NothingRead();
    OneMoreChunk([], z + z);
    OneMoreChunk([], z);
    OneMoreChunk([z], z);
    AllNoise(z + z);
    AllNoise(z);
    var none: seq<seq<byte>> := [];
    assert none + [z + z] == [z + z] && none + [z] == [z] && [z] + [z] == [z, z];
    assert [] + (z + z) == z + z && [] + z == z;
  }
}
