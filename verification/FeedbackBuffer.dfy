/** The double-buffered feedback frame: the RT thread publishes (PublishFeedback) while a client reads
    (stark_fb and its siblings), interleaved one word at a time. */
module FeedbackBuffer {

  /** A feedback frame is a fixed number of words; what they hold does not matter here. */
  type Words = seq<int>

  datatype Writer = Resting | Filling(idx: nat)

  /** The reader loaded active_idx after `k` publications and has read these (position, value) pairs. */
  datatype Reader = Away | Reading(idx: nat, k: nat, got: seq<(nat, int)>)

  datatype State = State(
    active: nat,
    bufs: seq<Words>,
    writer: Writer,
    reader: Reader,
    begun: nat,
    frames: seq<Words>)

  /** WriteWord covers the memset and every field store; ReadWord any field of the frame, in any order. */
  datatype Event = Begin | WriteWord(j: nat, v: int) | Publish | LoadActive | ReadWord(j: nat) | Leave

  /** frames[0] is the zeroed memory; frames[k] is publication k. */
  function Init(size: nat): State {
    var zero := seq(size, i => 0);
    State(0, [zero, zero], Resting, Away, 0, [zero])
  }

  predicate WellFormed(s: State, size: nat) {
    && |s.frames| > 0
    && |s.bufs| == 2 && |s.bufs[0]| == |s.bufs[1]| == size
    && s.active < 2
    && (s.writer.Filling? ==> s.writer.idx < 2)
    && (s.reader.Reading? ==> s.reader.idx < 2)
  }

  /** A step that is not enabled leaves the state as it is. */
  function Step(s: State, e: Event, size: nat): (t: State)
    requires WellFormed(s, size)
    ensures WellFormed(t, size)
  {
    match e
    case Begin =>
      if s.writer.Resting? then s.(writer := Filling(1 - s.active), begun := s.begun + 1) else s
    case WriteWord(j, v) =>
      if s.writer.Resting? || j >= size then s
      else s.(bufs := s.bufs[s.writer.idx := s.bufs[s.writer.idx][j := v]])
    case Publish =>
      if s.writer.Resting? then s
      else s.(active := s.writer.idx, writer := Resting, frames := s.frames + [s.bufs[s.writer.idx]])
    case LoadActive =>
      if s.reader.Away? then s.(reader := Reading(s.active, |s.frames| - 1, [])) else s
    case ReadWord(j) =>
      if s.reader.Away? || j >= size then s
      else s.(reader := s.reader.(got := s.reader.got + [(j, s.bufs[s.reader.idx][j])]))
    case Leave => s.(reader := Away)
  }

  /** Everything read so far in this read is frame k, word for word. */
  predicate Consistent(s: State)
    requires s.reader.Reading? && s.reader.k < |s.frames|
  {
    var frame := s.frames[s.reader.k];
    forall i :: 0 <= i < |s.reader.got| ==>
      s.reader.got[i].0 < |frame| && s.reader.got[i].1 == frame[s.reader.got[i].0]
  }

  ghost predicate Inv(s: State, size: nat) {
    && WellFormed(s, size)
    && (forall i :: 0 <= i < |s.frames| ==> |s.frames[i]| == size)
    && var last := |s.frames| - 1;
    && s.begun == last + (if s.writer.Filling? then 1 else 0)
    && s.active == last % 2
    && s.bufs[s.active] == s.frames[last]
    && (s.writer.Filling? ==> s.writer.idx == 1 - s.active)
    && (s.writer.Resting? && last > 0 ==> s.bufs[1 - s.active] == s.frames[last - 1])
    && (s.reader.Reading? ==>
          s.reader.k <= last && s.reader.idx == s.reader.k % 2 && (s.begun <= s.reader.k + 1 ==> Consistent(s)))
  }

  lemma WriterKeepsInv(s: State, e: Event, size: nat)
    requires Inv(s, size) && (e.Begin? || e.WriteWord? || e.Publish?)
    ensures Inv(Step(s, e, size), size)
  {
  }

  lemma ReaderKeepsInv(s: State, e: Event, size: nat)
    requires Inv(s, size) && (e.LoadActive? || e.ReadWord? || e.Leave?)
    ensures Inv(Step(s, e, size), size)
  {
  }

  lemma StepKeepsInv(s: State, e: Event, size: nat)
    requires Inv(s, size)
    ensures Inv(Step(s, e, size), size)
  {
    hide *;
    if e.Begin? || e.WriteWord? || e.Publish? {
      WriterKeepsInv(s, e, size);
    } else {
      ReaderKeepsInv(s, e, size);
    }
  }

  /** Any interleaving of the writer and the reader. */
  function Run(es: seq<Event>, size: nat): (s: State)
    ensures WellFormed(s, size)
  {
    if es == [] then Init(size) else Step(Run(es[..|es| - 1], size), es[|es| - 1], size)
  }

  lemma {:induction false} AlwaysInv(es: seq<Event>, size: nat)
    ensures Inv(Run(es, size), size)
  {
    if es != [] {
      AlwaysInv(es[..|es| - 1], size);
      StepKeepsInv(Run(es[..|es| - 1], size), es[|es| - 1], size);
    }
  }

  /** Main result: a read that loaded active_idx after k publications and has not yet seen publication
      k+2 begin holds words of frame k only. */
  lemma ReadIsASnapshot(es: seq<Event>, size: nat)
    requires var s := Run(es, size); s.reader.Reading? && s.begun < s.reader.k + 2
    ensures var s := Run(es, size); s.reader.k < |s.frames| && Consistent(s)
  {
    AlwaysInv(es, size);
  }

  /** The writer never touches the buffer a new reader would be sent to. */
  lemma WriterSparesTheActiveBuffer(es: seq<Event>, j: nat, v: int, size: nat)
    ensures var s := Run(es, size); Step(s, WriteWord(j, v), size).bufs[s.active] == s.bufs[s.active]
  {
    AlwaysInv(es, size);
  }

  // ---------- the bound is sharp ----------

  /** Further steps from a given state. */
  function Continue(s: State, es: seq<Event>, size: nat): (t: State)
    requires WellFormed(s, size)
    ensures WellFormed(t, size)
  {
    if es == [] then s else Step(Continue(s, es[..|es| - 1], size), es[|es| - 1], size)
  }

  lemma {:induction false} ContinueKeepsInv(s: State, es: seq<Event>, size: nat)
    requires Inv(s, size)
    ensures Inv(Continue(s, es, size), size)
  {
    if es != [] {
      ContinueKeepsInv(s, es[..|es| - 1], size);
      StepKeepsInv(Continue(s, es[..|es| - 1], size), es[|es| - 1], size);
    }
  }

  lemma OneMore(s: State, es: seq<Event>, e: Event, size: nat)
    requires WellFormed(s, size)
    ensures Continue(s, es + [e], size) == Step(Continue(s, es, size), e, size)
  {
    assert (es + [e])[..|es|] == es;
  }

  /** A reader of frame k is holding a word that frame k does not have. */
  predicate Torn(s: State, k: nat) {
    s.reader.Reading? && s.reader.k == k && k < |s.frames| && !Consistent(s)
  }

  /** The writer can always begin one more publication, and the reader need not notice. */
  lemma BeginNext(s: State, es: seq<Event>, size: nat) returns (fs: seq<Event>)
    requires Inv(s, size) && Continue(s, es, size).reader.Reading?
    ensures var t, t' := Continue(s, es, size), Continue(s, fs, size);
            t'.writer.Filling? && t'.begun == t.begun + 1 && t'.reader == t.reader
  {
    ContinueKeepsInv(s, es, size);
    fs := es;
    if Continue(s, es, size).writer.Filling? {
      fs := es + [Publish];
      OneMore(s, es, Publish, size);
    }
    OneMore(s, fs, Begin, size);
    fs := fs + [Begin];
    hide Continue;
  }

  /** While the writer fills the buffer that is being read, one store and one read tear the frame. */
  lemma StoreAndRead(t: State, size: nat)
    requires Inv(t, size) && size > 0 && t.reader.Reading? && t.writer.Filling?
    requires t.begun >= t.reader.k + 2 && t.begun % 2 == t.reader.k % 2
    ensures var k := t.reader.k;
            var x := Step(Step(t, WriteWord(0, t.frames[k][0] + 1), size), ReadWord(0), size);
            Torn(x, k) && x.begun == t.begun
  {
    var k := t.reader.k;
    var v := t.frames[k][0] + 1;
    assert t.reader.idx == k % 2 && t.writer.idx == k % 2;
    var w := Step(t, WriteWord(0, v), size);
    assert w.bufs[k % 2][0] == v && w.reader == t.reader && w.frames == t.frames;
    hide Inv;
    var x := Step(w, ReadWord(0), size);
    var got := x.reader.got;
    assert got == t.reader.got + [(0, v)];
    assert got[|got| - 1] == (0, v);
  }

  lemma Tear(s: State, es: seq<Event>, size: nat) returns (fs: seq<Event>)
    requires Inv(s, size) && size > 0
    requires var t := Continue(s, es, size);
             t.reader.Reading? && t.writer.Filling? && t.begun >= t.reader.k + 2 && t.begun % 2 == t.reader.k % 2
    ensures var t, t' := Continue(s, es, size), Continue(s, fs, size);
            Torn(t', t.reader.k) && t'.begun == t.begun
  {
    ContinueKeepsInv(s, es, size);
    var t := Continue(s, es, size);
    StoreAndRead(t, size);
    var write := WriteWord(0, t.frames[t.reader.k][0] + 1);
    OneMore(s, es, write, size);
    OneMore(s, es + [write], ReadWord(0), size);
    fs := es + [write] + [ReadWord(0)];
    hide Continue, Inv, Step, Torn;
  }

  /** Main result: a reader that is in the middle of frame k can be made to tear it, from every state and
      after whatever it has read: as soon as publication k+2 begins if that is still ahead, and otherwise
      within two more publications. */
  lemma EveryReadCanTear(s: State, size: nat) returns (es: seq<Event>)
    requires Inv(s, size) && size > 0 && s.reader.Reading?
    ensures var t := Continue(s, es, size);
            && Torn(t, s.reader.k)
            && (if s.begun <= s.reader.k + 1 then t.begun == s.reader.k + 2 else t.begun <= s.begun + 2)
  {
    hide *;
    var k := s.reader.k;
    ReaderIsBehind(s, size);
    StayPut(s, size);
    var one := BeginNext(s, [], size);
    var two := BeginNext(s, one, size);
    if s.writer.Filling? && s.begun >= k + 2 && s.begun % 2 == k % 2 {
      es := Tear(s, [], size);
    } else if s.begun >= k + 1 && (s.begun + 1) % 2 == k % 2 {
      es := Tear(s, one, size);
    } else {
      es := Tear(s, two, size);
    }
  }

  lemma ReaderIsBehind(s: State, size: nat)
    requires Inv(s, size) && s.reader.Reading?
    ensures WellFormed(s, size) && s.reader.k <= s.begun
  {
  }

  lemma StayPut(s: State, size: nat)
    requires WellFormed(s, size)
    ensures Continue(s, [], size) == s
  {
  }

  /** Every continuation in which at most n publications have begun leaves the read of frame k whole. */
  ghost predicate SafeUpTo(s: State, k: nat, n: int, size: nat)
    requires WellFormed(s, size)
  {
    forall es :: Continue(s, es, size).begun <= n ==> !Torn(Continue(s, es, size), k)
  }

  /** Main result: so the bound is exact. For a reader that has just loaded active_idx, or has read anything
      before publication k+2, a bound n on the publications begun keeps frame k whole if and only if
      n < k + 2. */
  lemma SnapshotBoundIsExact(s: State, n: int, size: nat)
    requires Inv(s, size) && size > 0 && s.reader.Reading? && s.begun <= s.reader.k + 1
    ensures SafeUpTo(s, s.reader.k, n, size) <==> n < s.reader.k + 2
  {
    var k := s.reader.k;
    if n < k + 2 {
      forall es | Continue(s, es, size).begun <= n ensures !Torn(Continue(s, es, size), k) {
        ContinueKeepsInv(s, es, size);
      }
    } else {
      var es := EveryReadCanTear(s, size);
      assert Torn(Continue(s, es, size), k) && Continue(s, es, size).begun <= n;
    }
  }

  // ---------- one publication and one read ----------

  lemma ContinueSnoc(s: State, es: seq<Event>, e: Event, size: nat)
    requires WellFormed(s, size)
    ensures Continue(s, es + [e], size) == Step(Continue(s, es, size), e, size)
  {
    assert (es + [e])[..|es|] == es;
  }

  /** Begin, and the stores of the first n words of f. */
  function Opening(f: Words, n: nat): seq<Event>
    requires n <= |f|
  {
    if n == 0 then [Begin] else Opening(f, n - 1) + [WriteWord(n - 1, f[n - 1])]
  }

  /** The buffer with the first n words of f over its own. */
  function Overlaid(f: Words, b: Words, n: nat): Words
    requires n <= |f| == |b|
  {
    f[..n] + b[n..]
  }

  lemma OverlaidStep(f: Words, b: Words, n: nat)
    requires 0 < n <= |f| == |b|
    ensures Overlaid(f, b, n - 1)[n - 1 := f[n - 1]] == Overlaid(f, b, n)
  {
  }

  lemma OverlaidEnds(f: Words, b: Words)
    requires |f| == |b|
    ensures Overlaid(f, b, 0) == b && Overlaid(f, b, |f|) == f
  {
  }

  /** The state after `Opening(f, n)`. */
  function Opened(s: State, f: Words, n: nat): State
    requires s.active < 2 && |s.bufs| == 2 && n <= |f| == |s.bufs[1 - s.active]|
  {
    var idx := 1 - s.active;
    s.(writer := Filling(idx), begun := s.begun + 1, bufs := s.bufs[idx := Overlaid(f, s.bufs[idx], n)])
  }

  lemma Begins(s: State, f: Words, size: nat)
    requires Inv(s, size) && s.writer.Resting? && |f| == size
    ensures Step(s, Begin, size) == Opened(s, f, 0)
  {
    OverlaidEnds(f, s.bufs[1 - s.active]);
    hide Overlaid;
    assert s.bufs[1 - s.active := s.bufs[1 - s.active]] == s.bufs;
  }

  lemma Writes(s: State, f: Words, n: nat, size: nat)
    requires Inv(s, size) && s.writer.Resting? && 0 < n <= |f| == size
    ensures WellFormed(Opened(s, f, n - 1), size)
    ensures Step(Opened(s, f, n - 1), WriteWord(n - 1, f[n - 1]), size) == Opened(s, f, n)
  {
    var idx := 1 - s.active;
    OverlaidStep(f, s.bufs[idx], n);
    assert |Overlaid(f, s.bufs[idx], n - 1)| == size;
    hide Overlaid;
    Twice(s.bufs, idx, Overlaid(f, s.bufs[idx], n - 1), Overlaid(f, s.bufs[idx], n));
  }

  lemma Twice(bufs: seq<Words>, idx: nat, a: Words, b: Words)
    requires idx < |bufs|
    ensures bufs[idx := a][idx := b] == bufs[idx := b]
  {
  }

  lemma {:induction false} OpeningStores(s: State, f: Words, n: nat, size: nat)
    requires Inv(s, size) && s.writer.Resting? && n <= |f| == size
    ensures Continue(s, Opening(f, n), size) == Opened(s, f, n)
  {
    hide Opened, Step;
    if n == 0 {
      Begins(s, f, size);
      assert [Begin] == [] + [Begin];
      ContinueSnoc(s, [], Begin, size);
    } else {
      OpeningStores(s, f, n - 1, size);
      ContinueSnoc(s, Opening(f, n - 1), WriteWord(n - 1, f[n - 1]), size);
      Writes(s, f, n, size);
      hide Continue;
    }
  }

  /** Main result: an undisturbed publication makes its words, whatever the buffers held, the newest frame, and
      a read that begins then returns them. */
  lemma PublishedIsRead(s: State, f: Words, j: nat, size: nat)
    requires Inv(s, size) && s.writer.Resting? && s.reader.Away? && j < |f| == size
    ensures var t := Continue(s, Opening(f, size) + [Publish] + [LoadActive] + [ReadWord(j)], size);
            t.frames == s.frames + [f] && t.writer.Resting? && t.reader.Reading? && t.reader.got == [(j, f[j])]
  {
    OpeningStores(s, f, size, size);
    ContinueSnoc(s, Opening(f, size), Publish, size);
    ContinueSnoc(s, Opening(f, size) + [Publish], LoadActive, size);
    ContinueSnoc(s, Opening(f, size) + [Publish] + [LoadActive], ReadWord(j), size);
    OverlaidEnds(f, s.bufs[1 - s.active]);
    hide Continue, Opening, Overlaid;
  }
}
