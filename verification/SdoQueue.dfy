/** The SDO response queue of sdo_client.c: a 32-slot ring written by the CAN receiver thread and
    searched by the threads that wait for a response. Every member below runs under the queue mutex. */
module SdoQueue {
  import opened Bytes

  const SDO_QUEUE_SIZE: nat := 32
  const COB_SDO_RX_BASE: nat := 0x580

  /** What a waiter looks for: the response COB-ID of its node and the object index it asked for.
      The subindex takes no part in the match. */
  datatype Key = Key(id: int, index: u16)

  function KeyOf(f: Frame): Key {
    Key(f.id, Le16(f.data[1], f.data[2]))
  }

  function Wanted(node: byte, index: u16): Key {
    Key(COB_SDO_RX_BASE + node, index)
  }

  /** The frame in which a node answers a request for an object of its dictionary: the node in the identifier,
      the object index in bytes 1 and 2, low byte first. */
  predicate IsResponse(f: Frame, node: byte, index: u16) {
    f.id == 0x580 + node && f.data[1] == index % 0x100 && f.data[2] == index / 0x100
  }

  /** A waiter takes the responses of its node for its object and no other frame. */
  lemma MatchesItsResponses(f: Frame, node: byte, index: u16)
    ensures KeyOf(f) == Wanted(node, index) <==> IsResponse(f, node, index)
  {
  }

  /** Drop-oldest-if-full, then append. */
  function Pushed<T>(q: seq<T>, x: T): seq<T> {
    (if |q| >= SDO_QUEUE_SIZE then q[1..] else q) + [x]
  }

  function Removed<T>(q: seq<T>, k: nat): seq<T>
    requires k < |q|
  {
    q[..k] + q[k + 1..]
  }

  predicate IsFirstMatch(q: seq<Frame>, key: Key, r: Option<nat>) {
    match r
    case Some(k) => k < |q| && KeyOf(q[k]) == key && forall j :: 0 <= j < k ==> KeyOf(q[j]) != key
    case None => forall j :: 0 <= j < |q| ==> KeyOf(q[j]) != key
  }

  function FirstMatch(q: seq<Frame>, key: Key): (r: Option<nat>)
    ensures IsFirstMatch(q, key, r)
  {
    if q == [] then None
    else if KeyOf(q[0]) == key then Some(0)
    else match FirstMatch(q[1..], key)
      case None => assert forall j :: 0 < j < |q| ==> q[j] == q[1..][j - 1]; None
      case Some(k) => assert forall j :: 0 < j <= k ==> q[j] == q[1..][j - 1]; Some(k + 1)
  }

  lemma FirstMatchUnique(q: seq<Frame>, key: Key, r: Option<nat>)
    requires IsFirstMatch(q, key, r)
    ensures r == FirstMatch(q, key)
  {
    var s := FirstMatch(q, key);
    assert r.Some? && s.Some? ==> !(r.value < s.value) && !(s.value < r.value);
  }

  /** Main result: the frame found is the oldest response for the node and object, and there is none only if no
      such response is queued. */
  lemma FoundIsResponse(q: seq<Frame>, node: byte, index: u16)
    ensures match FirstMatch(q, Wanted(node, index))
            case Some(k) => IsResponse(q[k], node, index) && forall j :: 0 <= j < k ==> !IsResponse(q[j], node, index)
            case None => forall f :: f in q ==> !IsResponse(f, node, index)
  {
    hide KeyOf, Wanted, IsResponse;
    forall f | f in q ensures KeyOf(f) == Wanted(node, index) <==> IsResponse(f, node, index) {
      MatchesItsResponses(f, node, index);
    }
  }

  /** So a queued response with none for the same request before it is the one that is found. */
  lemma OldestResponseIsFound(q: seq<Frame>, node: byte, index: u16, k: nat)
    requires k < |q| && IsResponse(q[k], node, index) && forall j :: 0 <= j < k ==> !IsResponse(q[j], node, index)
    ensures FirstMatch(q, Wanted(node, index)) == Some(k)
  {
    FoundIsResponse(q, node, index);
    hide FirstMatch, IsResponse;
  }

  /** The slot that holds the i-th oldest frame. */
  function Slot(tail: nat, i: nat): (s: nat)
    ensures s < SDO_QUEUE_SIZE
  {
    (tail + i) % SDO_QUEUE_SIZE
  }

  /** Stepping round the ring twice is stepping once by the sum. */
  lemma SlotOfSlot(tail: nat, i: nat, j: nat)
    ensures Slot(Slot(tail, i), j) == Slot(tail, i + j)
  {
    var x := (tail + i) % SDO_QUEUE_SIZE + j;
    ModUnique(tail + i + j, SDO_QUEUE_SIZE, (tail + i) / SDO_QUEUE_SIZE + x / SDO_QUEUE_SIZE, x % SDO_QUEUE_SIZE);
  }

  lemma SlotsDiffer(tail: nat, i: nat, j: nat)
    requires i < SDO_QUEUE_SIZE && j < SDO_QUEUE_SIZE && i != j
    ensures Slot(tail, i) != Slot(tail, j)
  {
    var a, b := tail + i, tail + j;
    assert a == SDO_QUEUE_SIZE * (a / SDO_QUEUE_SIZE) + Slot(tail, i);
    assert b == SDO_QUEUE_SIZE * (b / SDO_QUEUE_SIZE) + Slot(tail, j);
  }

  /** The live part of the ring, oldest first. */
  function Window(slots: seq<Frame>, tail: nat, count: nat): (w: seq<Frame>)
    requires |slots| == SDO_QUEUE_SIZE
    ensures |w| == count
    ensures forall i :: 0 <= i < count ==> w[i] == slots[Slot(tail, i)]
  {
    seq(count, i requires 0 <= i < count => slots[Slot(tail, i)])
  }

  /** Writing slot j of the window changes that entry of the sequence and no other. */
  lemma WindowUpdate(slots: seq<Frame>, tail: nat, count: nat, j: nat, f: Frame)
    requires |slots| == SDO_QUEUE_SIZE && j < count <= SDO_QUEUE_SIZE
    ensures Window(slots[Slot(tail, j) := f], tail, count) == Window(slots, tail, count)[j := f]
  {
    forall i | 0 <= i < count && i != j ensures Slot(tail, i) != Slot(tail, j) {
      SlotsDiffer(tail, i, j);
    }
    hide Slot;
  }

  lemma WindowAppend(slots: seq<Frame>, tail: nat, count: nat, f: Frame)
    requires |slots| == SDO_QUEUE_SIZE && count < SDO_QUEUE_SIZE
    ensures Window(slots[Slot(tail, count) := f], tail, count + 1) == Window(slots, tail, count) + [f]
  {
    WindowUpdate(slots, tail, count + 1, count, f);
    assert Window(slots, tail, count + 1)[..count] == Window(slots, tail, count);
  }

  /** `head` follows the window: one step forward for an append, one step back for a removal. */
  lemma HeadFollows(tail: nat, count: nat)
    ensures Slot(Slot(tail, count), 1) == Slot(tail, count + 1)
    ensures (Slot(tail, count + 1) + SDO_QUEUE_SIZE - 1) % SDO_QUEUE_SIZE == Slot(tail, count)
    ensures count > 0 ==> Slot(Slot(tail, 1), count - 1) == Slot(tail, count)
  {
    SlotOfSlot(tail, count, 1);
    SlotOfSlot(tail, count + 1, SDO_QUEUE_SIZE - 1);
    var n := tail + count;
    ModUnique(n + SDO_QUEUE_SIZE, SDO_QUEUE_SIZE, n / SDO_QUEUE_SIZE + 1, n % SDO_QUEUE_SIZE);
    if count > 0 {
      SlotOfSlot(tail, 1, count - 1);
    }
  }

  lemma WindowDropOldest(slots: seq<Frame>, tail: nat, count: nat)
    requires |slots| == SDO_QUEUE_SIZE && 0 < count
    ensures Window(slots, Slot(tail, 1), count - 1) == Window(slots, tail, count)[1..]
  {
    forall i | 0 <= i < count - 1 ensures Slot(Slot(tail, 1), i) == Slot(tail, i + 1) {
      SlotOfSlot(tail, 1, i);
    }
    hide Slot;
  }

  /** The queue in the middle of a compaction that has moved entries found+1..j one place down. */
  function Shifted<T>(q: seq<T>, found: nat, j: nat): (s: seq<T>)
    requires found <= j < |q|
    ensures |s| == |q|
    ensures forall i :: j <= i < |q| ==> s[i] == q[i]
  {
    q[..found] + q[found + 1..j + 1] + q[j..]
  }

  lemma ShiftStep<T>(q: seq<T>, found: nat, j: nat)
    requires found <= j < |q| - 1
    ensures Shifted(q, found, j)[j := q[j + 1]] == Shifted(q, found, j + 1)
  {
  }

  lemma ShiftEnds<T>(q: seq<T>, found: nat)
    requires found < |q|
    ensures Shifted(q, found, found) == q
    ensures Shifted(q, found, |q| - 1)[..|q| - 1] == Removed(q, found)
  {
  }

  class Queue {
    const frames: array<Frame>
    var head: nat
    var tail: nat
    var count: nat

    ghost predicate Valid()
      reads this, frames
    {
      && frames.Length == SDO_QUEUE_SIZE
      && tail < SDO_QUEUE_SIZE
      && count <= SDO_QUEUE_SIZE
      && head == Slot(tail, count)
    }

    ghost function Contents(): (q: seq<Frame>)
      requires Valid()
      reads this, frames
      ensures |q| == count <= SDO_QUEUE_SIZE
    {
      Window(frames[..], tail, count)
    }

    /** sdo_queue_init */
    constructor ()
      ensures Valid() && Contents() == [] && fresh(frames)
    {
      var blank: Frame := CanFrame(0, 0, ZeroBytes(CANFD_MAX_DLC), false, false);
      frames := new Frame[SDO_QUEUE_SIZE](i => blank);
      head, tail, count := 0, 0, 0;
    }

    /** sdo_push_response */
    method Push(f: Frame)
      requires Valid()
      modifies this, frames
      ensures Valid() && Contents() == Pushed(old(Contents()), f)
    {
      hide Window, Slot;
      ghost var slots := frames[..];
      HeadFollows(tail, count);
      if count >= SDO_QUEUE_SIZE {
        WindowDropOldest(slots, tail, count);
        tail := Slot(tail, 1);
        count := count - 1;
      }
      WindowAppend(slots, tail, count, f);
      HeadFollows(tail, count);
      frames[head] := f;
      assert frames[..] == slots[head := f];
      head := Slot(head, 1);
      count := count + 1;
    }

    /** One pass of _sdo_wait_response under the mutex: the scan and, on a hit, the compacting removal. */
    method TakeFirst(node: byte, index: u16) returns (r: Option<Frame>)
      requires Valid()
      modifies this, frames
      ensures Valid()
      ensures match FirstMatch(old(Contents()), Wanted(node, index))
              case None => r == None && Contents() == old(Contents())
              case Some(k) => r == Some(old(Contents())[k]) && Contents() == Removed(old(Contents()), k)
      ensures r.None? ==> forall f :: f in old(Contents()) ==> !IsResponse(f, node, index)
      ensures r.Some? ==> IsResponse(r.value, node, index)
    {
      FoundIsResponse(Contents(), node, index);
      hide Window, Slot, FirstMatch, Removed, IsResponse;
      var found := Search(node, index);
      if found == None {
        return None;
      }
      r := Some(frames[Slot(tail, found.value)]);
      Compact(found.value);
    }

    /** The scan, oldest frame first. */
    method Search(node: byte, index: u16) returns (found: Option<nat>)
      requires Valid()
      ensures found == FirstMatch(Contents(), Wanted(node, index))
      ensures found.Some? ==> found.value < count
    {
      hide Window, Slot, FirstMatch, Le16;
      ghost var q, key := Contents(), Wanted(node, index);
      var i := 0;
      while i < count
        invariant 0 <= i <= count
        invariant forall j :: 0 <= j < i ==> KeyOf(q[j]) != key
      {
        var f := frames[Slot(tail, i)];
        assert f == q[i];
        if f.id == COB_SDO_RX_BASE + node && Le16(f.data[1], f.data[2]) == index {
          FirstMatchUnique(q, key, Some(i));
          return Some(i);
        }
        i := i + 1;
      }
      FirstMatchUnique(q, key, None);
      found := None;
    }

    /** The removal: every later frame moves one slot towards the tail, then the newest slot is freed. */
    method Compact(found: nat)
      requires Valid() && found < count
      modifies this, frames
      ensures Valid() && Contents() == Removed(old(Contents()), found)
    {
      hide Window, Shifted;
      ghost var before := Contents();
      ShiftEnds(before, found);
      var j := found;
      while j < count - 1
        invariant found <= j <= count - 1
        invariant Valid() && tail == old(tail) && count == old(count)
        invariant Contents() == Shifted(before, found, j)
      {
        ShiftStep(before, found, j);
        MoveDown(j);
        j := j + 1;
      }
      DropNewest();
    }

    method MoveDown(j: nat)
      requires Valid() && j + 1 < count
      modifies frames
      ensures Valid() && Contents() == old(Contents())[j := old(Contents())[j + 1]]
    {
      var src := (tail + j + 1) % SDO_QUEUE_SIZE;
      var dst := (tail + j) % SDO_QUEUE_SIZE;
      ghost var slots := frames[..];
      assert src == Slot(tail, j + 1) && dst == Slot(tail, j);
      WindowUpdate(slots, tail, count, j, slots[src]);
      frames[dst] := frames[src];
      assert frames[..] == slots[dst := slots[src]];
    }

    method DropNewest()
      requires Valid() && count > 0
      modifies this`head, this`count
      ensures Valid() && Contents() == old(Contents())[..old(count) - 1]
    {
      HeadFollows(tail, count - 1);
      head := (head + SDO_QUEUE_SIZE - 1) % SDO_QUEUE_SIZE;
      count := count - 1;
    }
  }
}
