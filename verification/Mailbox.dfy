/** The command mailbox in shared memory: one producer (stark_client.h) and the RT thread
    (motor_rt_worker.cpp), interleaved one shared-memory access at a time. */
module Mailbox {
  import opened Bytes

  const MBOX_DEPTH: nat := 8
  /** Two 40-byte commands, read and written in 8-byte words. */
  const SLOT_WORDS: nat := 10

  type Words = seq<u64>
  type SlotFrame = f: Words | |f| == SLOT_WORDS witness seq(SLOT_WORDS, i => 0)

  /** _stark_mbox_begin has loaded nothing, or seq_write, or both and owns the slot. */
  datatype Producer = Ready | LoadedWrite(w: nat) | Filling(slot: nat)

  /** ProcessMailbox has loaded nothing, or seq_read, or both and has copied n frames and part of the next. */
  datatype Consumer = Waiting | LoadedRead(r: nat) | Copying(r: nat, count: nat, n: nat, part: Words)

  datatype State = State(
    seqWrite: nat,
    seqRead: nat,
    slots: seq<SlotFrame>,
    producer: Producer,
    consumer: Consumer,
    committed: seq<SlotFrame>,
    consumed: seq<SlotFrame>,
    clamped: bool)

  /** A fill is any write into the slot: the memset, a field, in any order and number. */
  datatype Event =
    | LoadWriteCursor
    | LoadReadCursor
    | Fill(word: nat, value: u64)
    | Commit
    | RtLoadReadCursor
    | RtLoadWriteCursor
    | RtCopyWord
    | RtStoreReadCursor

  function Init(): State {
    var blank: SlotFrame := seq(SLOT_WORDS, i => 0);
    State(0, 0, seq(MBOX_DEPTH, i => blank), Ready, Waiting, [], [], false)
  }

  function SlotOf(k: nat): (s: nat)
    ensures s < MBOX_DEPTH
  {
    k % MBOX_DEPTH
  }

  predicate WellFormed(s: State) {
    && |s.slots| == MBOX_DEPTH
    && (s.producer.Filling? ==> s.producer.slot < MBOX_DEPTH)
    && (s.consumer.Copying? ==> s.consumer.n <= s.consumer.count && |s.consumer.part| < SLOT_WORDS)
  }

  /** A step that is not enabled leaves the state as it is. */
  function Step(s: State, e: Event): (s': State)
    requires WellFormed(s)
    ensures WellFormed(s')
  {
    match e
    case LoadWriteCursor =>
      if s.producer.Ready? then s.(producer := LoadedWrite(s.seqWrite)) else s
    case LoadReadCursor =>
      if !s.producer.LoadedWrite? then s
      else if s.producer.w - s.seqRead >= MBOX_DEPTH then s.(producer := Ready)
      else s.(producer := Filling(SlotOf(s.producer.w)))
    case Fill(j, v) =>
      if !s.producer.Filling? || j >= SLOT_WORDS then s
      else s.(slots := s.slots[s.producer.slot := s.slots[s.producer.slot][j := v]])
    case Commit =>
      if !s.producer.Filling? then s
      else s.(seqWrite := s.seqWrite + 1, producer := Ready, committed := s.committed + [s.slots[s.producer.slot]])
    case RtLoadReadCursor =>
      if s.consumer.Waiting? then s.(consumer := LoadedRead(s.seqRead)) else s
    case RtLoadWriteCursor =>
      if !s.consumer.LoadedRead? then s
      else
        var r, w := s.consumer.r, s.seqWrite;
        if r >= w then s.(consumer := Waiting)
        else if w - r > MBOX_DEPTH then s.(consumer := Copying(r, MBOX_DEPTH, 0, []), clamped := true)
        else s.(consumer := Copying(r, w - r, 0, []))
    case RtCopyWord =>
      if !s.consumer.Copying? || s.consumer.n == s.consumer.count then s
      else
        var Copying(r, count, n, part) := s.consumer;
        var frame := s.slots[SlotOf(r + n)];
        var read := part + [frame[|part|]];
        if |read| == SLOT_WORDS
        then s.(consumer := Copying(r, count, n + 1, []), consumed := s.consumed + [read])
        else s.(consumer := Copying(r, count, n, read))
    case RtStoreReadCursor =>
      if !s.consumer.Copying? || s.consumer.n < s.consumer.count then s
      else s.(seqRead := s.consumer.r + s.consumer.count, consumer := Waiting)
  }

  /** The frames the RT thread has copied so far, counted from the first. */
  function Taken(s: State): nat {
    s.seqRead + if s.consumer.Copying? then s.consumer.n else 0
  }

  ghost predicate Cursors(s: State) {
    && s.seqRead <= s.seqWrite <= s.seqRead + MBOX_DEPTH
    && |s.committed| == s.seqWrite
    && !s.clamped
    && (match s.producer
        case Ready => true
        case LoadedWrite(w) => w == s.seqWrite
        case Filling(slot) => slot == SlotOf(s.seqWrite) && s.seqWrite < s.seqRead + MBOX_DEPTH)
    && (match s.consumer
        case Waiting => true
        case LoadedRead(r) => r == s.seqRead
        case Copying(r, count, n, part) =>
          r == s.seqRead && 0 < count && r + count <= s.seqWrite && (n == count ==> part == []))
  }

  /** Every frame that is committed and not yet released is intact in its slot. */
  ghost predicate UnreadIntact(s: State)
    requires WellFormed(s)
  {
    |s.committed| == s.seqWrite &&
    forall k :: s.seqRead <= k < s.seqWrite ==> s.slots[SlotOf(k)] == s.committed[k]
  }

  /** What has been consumed, to the word, is what was committed, in order, without loss or repetition. */
  ghost predicate ConsumedIsPrefix(s: State) {
    && Taken(s) <= |s.committed|
    && s.consumed == s.committed[..Taken(s)]
    && (s.consumer.Copying? && s.consumer.n < s.consumer.count ==>
          Taken(s) < |s.committed| && |s.consumer.part| < SLOT_WORDS &&
          s.consumer.part == s.committed[Taken(s)][..|s.consumer.part|])
  }

  ghost predicate Safe(s: State) {
    WellFormed(s) && Cursors(s) && UnreadIntact(s) && ConsumedIsPrefix(s)
  }

  lemma DistinctSlots(i: nat, j: nat)
    requires i < j < i + MBOX_DEPTH
    ensures SlotOf(i) != SlotOf(j)
  {
  }

  /** The producer writes only the slot behind the newest unread frame, and never an unread one. */
  lemma ProducerOwnsItsSlot(s: State, k: nat)
    requires Safe(s) && s.producer.Filling? && s.seqRead <= k < s.seqWrite
    ensures SlotOf(k) != s.producer.slot
  {
    DistinctSlots(k, s.seqWrite);
  }

  lemma StepIsSafe(s: State, e: Event)
    requires Safe(s)
    ensures Safe(Step(s, e))
  {
    hide SlotOf;
    var t := Step(s, e);
    match e
    case Fill(j, v) =>
      forall k | s.seqRead <= k < s.seqWrite && s.producer.Filling?
        ensures t.slots[SlotOf(k)] == s.committed[k]
      {
        ProducerOwnsItsSlot(s, k);
      }
    case RtCopyWord =>
      if s.consumer.Copying? && s.consumer.n < s.consumer.count {
        CopyFollowsCommitted(s);
      }
    case _ =>
  }

  lemma CopyFollowsCommitted(s: State)
    requires Safe(s) && s.consumer.Copying? && s.consumer.n < s.consumer.count
    ensures ConsumedIsPrefix(Step(s, RtCopyWord))
  {
    hide SlotOf;
    var k, part := Taken(s), s.consumer.part;
    var frame := s.slots[SlotOf(k)];
    assert frame == s.committed[k];
    assert part + [frame[|part|]] == frame[..|part| + 1];
    assert frame[..SLOT_WORDS] == frame;
    assert s.committed[..k] + [frame] == s.committed[..k + 1];
  }

  /** Any interleaving of the two threads. */
  function Run(es: seq<Event>): (s: State)
    ensures WellFormed(s)
  {
    if es == [] then Init() else Step(Run(es[..|es| - 1]), es[|es| - 1])
  }

  /** Main result, for every interleaving: at most 8 frames are unread and they are intact, the count clamp
      never fires, and what the RT thread has consumed is a prefix of what was committed. */
  lemma {:induction false} AlwaysSafe(es: seq<Event>)
    ensures Safe(Run(es))
  {
    if es != [] {
      AlwaysSafe(es[..|es| - 1]);
      StepIsSafe(Run(es[..|es| - 1]), es[|es| - 1]);
    }
  }

  // ---------- nothing is left behind ----------

  /** The number of words a pass still has to copy. */
  function WordsLeft(c: Consumer): nat
    requires c.Copying? && c.n <= c.count && |c.part| < SLOT_WORDS
  {
    (c.count - c.n) * SLOT_WORDS - (if c.n < c.count then |c.part| else 0)
  }

  function Steps(s: State, es: seq<Event>): (t: State)
    requires WellFormed(s)
    ensures WellFormed(t)
    decreases |es|
  {
    if es == [] then s else Steps(Step(s, es[0]), es[1..])
  }

  function Copies(n: nat): (es: seq<Event>)
    ensures |es| == n
  {
    seq(n, i => RtCopyWord)
  }

  lemma CopyOne(s: State)
    requires Safe(s) && s.consumer.Copying? && WordsLeft(s.consumer) > 0
    ensures var t := Step(s, RtCopyWord);
            && Safe(t) && t == s.(consumer := t.consumer, consumed := t.consumed)
            && t.consumer.Copying? && t.consumer.r == s.consumer.r && t.consumer.count == s.consumer.count
            && WordsLeft(t.consumer) == WordsLeft(s.consumer) - 1
  {
    StepIsSafe(s, RtCopyWord);
  }

  lemma NothingLeft(s: State)
    requires Safe(s) && s.consumer.Copying? && WordsLeft(s.consumer) == 0
    ensures s.consumer == Copying(s.consumer.r, s.consumer.count, s.consumer.count, [])
  {
  }

  lemma {:induction false} CopyingFinishes(s: State)
    requires Safe(s) && s.consumer.Copying?
    ensures var t := Steps(s, Copies(WordsLeft(s.consumer)));
            && Safe(t) && t.seqWrite == s.seqWrite && t.committed == s.committed
            && t.consumer == Copying(s.consumer.r, s.consumer.count, s.consumer.count, [])
    decreases WordsLeft(s.consumer)
  {
    hide Step, WordsLeft, Cursors, UnreadIntact, ConsumedIsPrefix;
    var n := WordsLeft(s.consumer);
    if n > 0 {
      assert Copies(n)[1..] == Copies(n - 1);
      CopyOne(s);
      CopyingFinishes(Step(s, RtCopyWord));
    } else {
      NothingLeft(s);
    }
  }

  /** One pass of ProcessMailbox over what is committed when it starts. */
  function Pass(s: State): seq<Event>
    requires s.seqRead <= s.seqWrite
  {
    [RtLoadReadCursor, RtLoadWriteCursor] + (Copies((s.seqWrite - s.seqRead) * SLOT_WORDS) + [RtStoreReadCursor])
  }

  lemma StepsTwoThen(s: State, a: Event, b: Event, es: seq<Event>)
    requires WellFormed(s)
    ensures Steps(s, [a, b] + es) == Steps(Step(Step(s, a), b), es)
  {
    assert ([a, b] + es)[1..] == [b] + es && ([b] + es)[1..] == es;
  }

  lemma {:induction false} StepsThenOne(s: State, es: seq<Event>, e: Event)
    requires WellFormed(s)
    ensures Steps(s, es + [e]) == Step(Steps(s, es), e)
    decreases |es|
  {
    if es == [] {
      assert [e][1..] == [] && es + [e] == [e];
    } else {
      assert (es + [e])[1..] == es[1..] + [e];
      StepsThenOne(Step(s, es[0]), es[1..], e);
    }
  }

  /** The two loads that open a pass. */
  lemma PassOpens(s: State)
    requires Safe(s) && s.consumer.Waiting?
    ensures var t := Step(Step(s, RtLoadReadCursor), RtLoadWriteCursor);
            && Safe(t)
            && t == s.(consumer := if s.seqRead == s.seqWrite then Waiting
                                   else Copying(s.seqRead, s.seqWrite - s.seqRead, 0, []))
  {
    hide UnreadIntact, ConsumedIsPrefix;
    StepIsSafe(s, RtLoadReadCursor);
    StepIsSafe(Step(s, RtLoadReadCursor), RtLoadWriteCursor);
  }

  lemma PassCloses(s: State)
    requires Safe(s) && s.consumer == Copying(s.seqRead, s.seqWrite - s.seqRead, s.seqWrite - s.seqRead, [])
    ensures var t := Step(s, RtStoreReadCursor);
            t.committed == s.committed && t.consumed == t.committed && t.seqRead == t.seqWrite && t.consumer.Waiting?
  {
    assert s.committed[..|s.committed|] == s.committed;
  }

  /** One undisturbed pass of the RT thread takes everything that was committed before it. */
  lemma PassTakesEverything(s: State)
    requires Safe(s) && s.consumer.Waiting?
    ensures var t := Steps(s, Pass(s));
            && t.committed == s.committed && t.consumed == t.committed
            && t.seqRead == t.seqWrite && t.consumer.Waiting?
  {
    hide Step, UnreadIntact;
    var left := (s.seqWrite - s.seqRead) * SLOT_WORDS;
    StepsTwoThen(s, RtLoadReadCursor, RtLoadWriteCursor, Copies(left) + [RtStoreReadCursor]);
    PassOpens(s);
    var s2 := Step(Step(s, RtLoadReadCursor), RtLoadWriteCursor);
    StepsThenOne(s2, Copies(left), RtStoreReadCursor);
    if s.seqRead < s.seqWrite {
      CopyingFinishes(s2);
      CursorsKept(s2, Steps(s2, Copies(left)));
      PassCloses(Steps(s2, Copies(left)));
    } else {
      IdleStore(s);
      assert s.committed[..|s.committed|] == s.committed;
    }
  }

  lemma CursorsKept(s: State, t: State)
    requires Safe(s) && Safe(t) && s.consumer.Copying? && t.consumer.Copying? && s.consumer.r == t.consumer.r
    ensures s.seqRead == t.seqRead
  {
  }

  lemma IdleStore(s: State)
    requires WellFormed(s) && s.consumer.Waiting?
    ensures Step(s, RtStoreReadCursor) == s == Steps(s, Copies(0))
  {
  }

  // ---------- and nothing is refused without need ----------

  /** The stores of words n and up of frame f. */
  function Fills(f: SlotFrame, n: nat): (es: seq<Event>)
    requires n <= SLOT_WORDS
    ensures |es| == SLOT_WORDS - n
    decreases SLOT_WORDS - n
  {
    if n == SLOT_WORDS then [] else [Fill(n, f[n])] + Fills(f, n + 1)
  }

  lemma {:induction false} FillsStore(s: State, f: SlotFrame, n: nat)
    requires WellFormed(s) && s.producer.Filling? && n <= SLOT_WORDS
    requires s.slots[s.producer.slot][..n] == f[..n]
    ensures Steps(s, Fills(f, n)) == s.(slots := s.slots[s.producer.slot := f])
    decreases SLOT_WORDS - n
  {
    if n == SLOT_WORDS {
      assert s.slots[s.producer.slot][..n] == s.slots[s.producer.slot] && f[..n] == f;
      assert s.slots[s.producer.slot := f] == s.slots;
    } else {
      var t := Step(s, Fill(n, f[n]));
      assert t.slots[s.producer.slot][..n + 1] == f[..n + 1];
      FillsStore(t, f, n + 1);
      assert t.slots[s.producer.slot := f] == s.slots[s.producer.slot := f];
      assert Fills(f, n)[1..] == Fills(f, n + 1);
    }
  }

  /** One undisturbed send of frame f. */
  function Send(f: SlotFrame): seq<Event> {
    [LoadWriteCursor, LoadReadCursor] + (Fills(f, 0) + [Commit])
  }

  /** Main result: a send commits exactly its ten words if fewer than eight frames are unread, and otherwise
      leaves the mailbox as it was. */
  lemma SendCommits(s: State, f: SlotFrame)
    requires Safe(s) && s.producer.Ready?
    ensures |f| == 10
    ensures var t := Steps(s, Send(f));
            && t.producer.Ready? && t.seqRead == s.seqRead && t.consumed == s.consumed
            && t.committed == (if s.seqWrite - s.seqRead < 8 then s.committed + [f] else s.committed)
            && t.seqWrite == (if s.seqWrite - s.seqRead < 8 then s.seqWrite + 1 else s.seqWrite)
  {
    hide UnreadIntact, ConsumedIsPrefix;
    var s2 := Step(Step(s, LoadWriteCursor), LoadReadCursor);
    StepsTwoThen(s, LoadWriteCursor, LoadReadCursor, Fills(f, 0) + [Commit]);
    StepsThenOne(s2, Fills(f, 0), Commit);
    if s.seqWrite - s.seqRead < 8 {
      FillsStore(s2, f, 0);
    } else {
      FillsIdle(s2, f, 0);
    }
  }

  lemma {:induction false} FillsIdle(s: State, f: SlotFrame, n: nat)
    requires WellFormed(s) && !s.producer.Filling? && n <= SLOT_WORDS
    ensures Steps(s, Fills(f, n)) == s
    decreases SLOT_WORDS - n
  {
    if n < SLOT_WORDS {
      FillsIdle(s, f, n + 1);
      assert Fills(f, n)[1..] == Fills(f, n + 1);
    }
  }
}
