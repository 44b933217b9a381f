/** Whole runs of the SDO response queue: the receiver thread pushes, any number of waiters scan, sleep on
    the condition variable and time out, in any order the mutex allows. */
module SdoRuns {
  import opened Bytes
  import opened SdoQueue

  /** Entering: the call has begun and has not scanned yet. Asleep: inside pthread_cond_timedwait.
      Woken: released by a broadcast or spuriously, and about to scan again. */
  datatype Phase = Entering | Asleep | Woken

  datatype Waiter = Waiter(key: Key, phase: Phase)

  datatype Delivery = Delivery(waiter: nat, key: Key, tag: nat)

  /** Frames are named by their arrival number (tag), so that two equal frames stay two frames. */
  datatype State = State(
    arrived: seq<Frame>,
    queue: seq<nat>,
    dropped: seq<nat>,
    delivered: seq<Delivery>,
    waiters: map<nat, Waiter>)

  /** One critical section of the queue mutex (or the start or timeout of a wait). */
  datatype Event =
    | Receive(f: Frame)
    | Begin(w: nat, node: byte, index: u16)
    | Scan(w: nat)
    | Spurious(w: nat)
    | Timeout(w: nat)

  function Init(): State {
    State([], [], [], [], map[])
  }

  function Frames(arrived: seq<Frame>, tags: seq<nat>): (fs: seq<Frame>)
    requires forall i :: 0 <= i < |tags| ==> tags[i] < |arrived|
    ensures |fs| == |tags| && forall i :: 0 <= i < |tags| ==> fs[i] == arrived[tags[i]]
  {
    seq(|tags|, i requires 0 <= i < |tags| => arrived[tags[i]])
  }

  ghost predicate TagsBounded(s: State) {
    forall i :: 0 <= i < |s.queue| ==> s.queue[i] < |s.arrived|
  }

  function WakeAll(ws: map<nat, Waiter>): map<nat, Waiter> {
    map w | w in ws :: if ws[w].phase == Asleep then ws[w].(phase := Woken) else ws[w]
  }

  /** A step that is not enabled leaves the state as it is. */
  ghost function Step(s: State, e: Event): State
    requires TagsBounded(s)
  {
    match e
    case Receive(f) =>
      s.(arrived := s.arrived + [f],
         queue := Pushed<nat>(s.queue, |s.arrived|),
         dropped := if |s.queue| >= SDO_QUEUE_SIZE then s.dropped + [s.queue[0]] else s.dropped,
         waiters := WakeAll(s.waiters))
    case Begin(w, node, index) =>
      if w in s.waiters then s
      else s.(waiters := s.waiters[w := Waiter(Wanted(node, index), Entering)])
    case Scan(w) =>
      if w !in s.waiters || s.waiters[w].phase == Asleep then s
      else
        var key := s.waiters[w].key;
        (match FirstMatch(Frames(s.arrived, s.queue), key)
         case Some(k) =>
           s.(queue := Removed(s.queue, k),
              delivered := s.delivered + [Delivery(w, key, s.queue[k])],
              waiters := s.waiters - {w})
         case None =>
           s.(waiters := s.waiters[w := Waiter(key, Asleep)]))
    case Spurious(w) =>
      if w in s.waiters && s.waiters[w].phase == Asleep
      then s.(waiters := s.waiters[w := s.waiters[w].(phase := Woken)]) else s
    case Timeout(w) =>
      if w in s.waiters && s.waiters[w].phase != Entering then s.(waiters := s.waiters - {w}) else s
  }

  function Tags(ds: seq<Delivery>): (ts: seq<nat>)
    ensures |ts| == |ds| && forall i :: 0 <= i < |ds| ==> ts[i] == ds[i].tag
  {
    seq(|ds|, i requires 0 <= i < |ds| => ds[i].tag)
  }

  function Upto(n: nat): (ts: seq<nat>)
    ensures |ts| == n && forall i :: 0 <= i < n ==> ts[i] == i
  {
    seq(n, i => i)
  }

  ghost predicate Increasing(ts: seq<nat>) {
    forall i, j :: 0 <= i < j < |ts| ==> ts[i] < ts[j]
  }

  /** Conservation: queued, dropped and delivered together are the arrivals, each exactly once. */
  ghost predicate Conserved(s: State) {
    multiset(s.queue) + multiset(s.dropped) + multiset(Tags(s.delivered)) == multiset(Upto(|s.arrived|))
  }

  /** The queue is in arrival order and holds at most 32 frames; what was dropped is older than all of it. */
  ghost predicate Ordered(s: State) {
    && |s.queue| <= SDO_QUEUE_SIZE
    && Increasing(s.queue)
    && Increasing(s.dropped)
    && (forall i :: 0 <= i < |s.dropped| ==> s.dropped[i] < |s.arrived|)
    && (forall i, j :: 0 <= i < |s.dropped| && 0 <= j < |s.queue| ==> s.dropped[i] < s.queue[j])
  }

  /** Every delivery answers what its waiter asked for, and equal keys are answered in arrival order. */
  ghost predicate DeliveredInOrder(s: State)
    requires TagsBounded(s)
  {
    && (forall i :: 0 <= i < |s.delivered| ==> Answers(s.arrived, s.delivered[i]))
    && (forall i, j :: 0 <= i < j < |s.delivered| && s.delivered[i].key == s.delivered[j].key ==>
          s.delivered[i].tag < s.delivered[j].tag)
    && (forall i :: 0 <= i < |s.delivered| ==> Precedes(s.arrived, s.delivered[i], s.queue))
  }

  ghost predicate Answers(arrived: seq<Frame>, d: Delivery) {
    d.tag < |arrived| && KeyOf(arrived[d.tag]) == d.key
  }

  /** What is still queued under the same key arrived later. */
  ghost predicate Precedes(arrived: seq<Frame>, d: Delivery, q: seq<nat>)
    requires forall j :: 0 <= j < |q| ==> q[j] < |arrived|
  {
    forall j :: 0 <= j < |q| && KeyOf(arrived[q[j]]) == d.key ==> d.tag < q[j]
  }

  /** No lost wake-up: nobody sleeps while a response for it is in the queue. */
  ghost predicate NoneSleepsOnAMatch(s: State)
    requires TagsBounded(s)
  {
    forall w, j :: w in s.waiters && s.waiters[w].phase == Asleep && 0 <= j < |s.queue| ==>
      KeyOf(s.arrived[s.queue[j]]) != s.waiters[w].key
  }

  ghost predicate Safe(s: State) {
    TagsBounded(s) && Conserved(s) && Ordered(s) && DeliveredInOrder(s) && NoneSleepsOnAMatch(s)
  }

  lemma RemovedMultiset<T>(q: seq<T>, k: nat)
    requires k < |q|
    ensures multiset(q) == multiset(Removed(q, k)) + multiset{q[k]}
  {
    assert q == q[..k] + [q[k]] + q[k + 1..];
  }

  lemma Appended<T>(q: seq<T>, x: T)
    ensures multiset(q + [x]) == multiset(q) + multiset{x}
  {
  }

  lemma OldestAndRest<T>(q: seq<T>)
    requires q != []
    ensures multiset(q) == multiset{q[0]} + multiset(q[1..])
  {
    assert q == [q[0]] + q[1..];
  }

  lemma OneMoreTag(n: nat)
    ensures multiset(Upto(n + 1)) == multiset(Upto(n)) + multiset{n}
  {
    Appended(Upto(n), n);
    assert Upto(n + 1) == Upto(n) + [n];
  }

  /** A push into a queue that is not full adds its own tag to the balance ... */
  lemma PushBalances(q: multiset<nat>, d: multiset<nat>, r: multiset<nat>, all: multiset<nat>, x: nat)
    requires q + d + r == all
    ensures (q + multiset{x}) + d + r == all + multiset{x}
  {
  }

  /** ... and into a full one it also moves the oldest tag over to the dropped ones. */
  lemma DropBalances(q: multiset<nat>, d: multiset<nat>, r: multiset<nat>, all: multiset<nat>, x: nat, y: nat)
    requires (multiset{y} + q) + d + r == all
    ensures (q + multiset{x}) + (d + multiset{y}) + r == all + multiset{x}
  {
  }

  lemma PushConserves(q: seq<nat>, d: seq<nat>, r: multiset<nat>, all: multiset<nat>, x: nat)
    requires multiset(q) + multiset(d) + r == all
    ensures multiset(Pushed(q, x)) + multiset(if |q| >= SDO_QUEUE_SIZE then d + [q[0]] else d) + r
            == all + multiset{x}
  {
    if |q| >= SDO_QUEUE_SIZE {
      OldestAndRest(q);
      Appended(q[1..], x);
      Appended(d, q[0]);
      DropBalances(multiset(q[1..]), multiset(d), r, all, x, q[0]);
    } else {
      Appended(q, x);
      PushBalances(multiset(q), multiset(d), r, all, x);
    }
  }

  lemma ReceiveConserves(s: State, f: Frame)
    requires TagsBounded(s) && Conserved(s)
    ensures Conserved(Step(s, Receive(f)))
  {
    hide Frames, FirstMatch, Tags, Upto, Pushed, WakeAll;
    var n: nat := |s.arrived|;
    OneMoreTag(n);
    PushConserves(s.queue, s.dropped, multiset(Tags(s.delivered)), multiset(Upto(n)), n);
  }

  /** What the newest arrival and a dropped head do to the order of the queue. */
  lemma ReceiveKeepsOrder(s: State, f: Frame)
    requires TagsBounded(s) && Ordered(s)
    ensures TagsBounded(Step(s, Receive(f))) && Ordered(Step(s, Receive(f)))
  {
    hide Frames, FirstMatch;
    var t := Step(s, Receive(f));
    var d := if |s.queue| >= SDO_QUEUE_SIZE then 1 else 0;
    assert forall j :: 0 <= j < |t.queue| ==> t.queue[j] == if j + d < |s.queue| then s.queue[j + d] else |s.arrived|;
    assert forall i :: 0 <= i < |t.dropped| ==> t.dropped[i] == if i < |s.dropped| then s.dropped[i] else s.queue[0];
    assert Increasing(t.queue);
    assert Increasing(t.dropped);
  }

  lemma ReceiveKeepsDeliveries(s: State, f: Frame)
    requires Safe(s) && TagsBounded(Step(s, Receive(f)))
    ensures DeliveredInOrder(Step(s, Receive(f)))
  {
    hide Frames, FirstMatch, Conserved, Ordered, NoneSleepsOnAMatch;
    var t := Step(s, Receive(f));
    var d := if |s.queue| >= SDO_QUEUE_SIZE then 1 else 0;
    assert forall j :: 0 <= j < |t.queue| ==> t.queue[j] == if j + d < |s.queue| then s.queue[j + d] else |s.arrived|;
  }

  lemma ScanConserves(s: State, w: nat)
    requires TagsBounded(s) && Conserved(s)
    ensures Conserved(Step(s, Scan(w)))
  {
    hide Frames, FirstMatch, Tags, Removed, Upto;
    if w in s.waiters && s.waiters[w].phase != Asleep {
      var key := s.waiters[w].key;
      match FirstMatch(Frames(s.arrived, s.queue), key)
      case None =>
      case Some(k) =>
        var tag := s.queue[k];
        RemovedMultiset(s.queue, k);
        OneMoreDelivery(s.delivered, Delivery(w, key, tag));
        TakeBalances(multiset(Removed(s.queue, k)), multiset(s.dropped), multiset(Tags(s.delivered)),
                     multiset(Upto(|s.arrived|)), tag);
    }
  }

  lemma OneMoreDelivery(ds: seq<Delivery>, d: Delivery)
    ensures multiset(Tags(ds + [d])) == multiset(Tags(ds)) + multiset{d.tag}
  {
    Appended(Tags(ds), d.tag);
    assert Tags(ds + [d]) == Tags(ds) + [d.tag];
  }

  /** A delivery moves its tag from the queue to the delivered ones. */
  lemma TakeBalances(q: multiset<nat>, d: multiset<nat>, r: multiset<nat>, all: multiset<nat>, x: nat)
    requires (q + multiset{x}) + d + r == all
    ensures q + d + (r + multiset{x}) == all
  {
  }

  lemma RemovedIncreasing(q: seq<nat>, k: nat)
    requires Increasing(q) && k < |q|
    ensures Increasing(Removed(q, k))
    ensures forall x :: x in Removed(q, k) ==> x in q
  {
    var r := Removed(q, k);
    assert forall j :: 0 <= j < |r| ==> r[j] == if j < k then q[j] else q[j + 1];
  }

  lemma ScanKeepsOrder(s: State, w: nat)
    requires TagsBounded(s) && Ordered(s)
    ensures TagsBounded(Step(s, Scan(w))) && Ordered(Step(s, Scan(w)))
  {
    hide Frames, FirstMatch;
    var t := Step(s, Scan(w));
    if t.queue != s.queue {
      var k := FirstMatch(Frames(s.arrived, s.queue), s.waiters[w].key).value;
      RemovedIncreasing(s.queue, k);
      hide Removed, Increasing;
      assert forall j :: 0 <= j < |t.queue| ==> t.queue[j] in s.queue;
    }
  }

  /** What a scan that finds frame k does to queue and deliveries, entry by entry. */
  lemma Taken(s: State, w: nat) returns (k: nat)
    requires TagsBounded(s) && Step(s, Scan(w)).queue != s.queue
    ensures w in s.waiters && k < |s.queue| && KeyOf(s.arrived[s.queue[k]]) == s.waiters[w].key
    ensures forall j :: 0 <= j < k ==> KeyOf(s.arrived[s.queue[j]]) != s.waiters[w].key
    ensures var t := Step(s, Scan(w));
            && t.arrived == s.arrived && t.queue == Removed<nat>(s.queue, k)
            && t.delivered == s.delivered + [Delivery(w, s.waiters[w].key, s.queue[k])]
  {
    hide Frames;
    var fs, key := Frames(s.arrived, s.queue), s.waiters[w].key;
    k := FirstMatch(fs, key).value;
    assert fs[k] == s.arrived[s.queue[k]];
    assert forall j :: 0 <= j < k ==> KeyOf(fs[j]) != key && fs[j] == s.arrived[s.queue[j]];
    hide FirstMatch, KeyOf;
  }

  lemma ScanKeepsDeliveries(s: State, w: nat)
    requires Safe(s) && TagsBounded(Step(s, Scan(w)))
    ensures DeliveredInOrder(Step(s, Scan(w)))
  {
    var t := Step(s, Scan(w));
    if t.queue != s.queue {
      var k := Taken(s, w);
      hide Conserved, NoneSleepsOnAMatch, Step, KeyOf, Removed, Answers, Precedes, Increasing;
      var d := Delivery(w, s.waiters[w].key, s.queue[k]);
      NewestIsLast(s.arrived, s.queue, k, d);
      forall i | 0 <= i < |s.delivered|
        ensures Precedes(s.arrived, s.delivered[i], t.queue)
        ensures s.delivered[i].key == d.key ==> s.delivered[i].tag < d.tag
      {
        StillPrecedes(s.arrived, s.delivered[i], s.queue, k);
      }
      assert forall i :: 0 <= i < |t.delivered| ==> t.delivered[i] == if i < |s.delivered| then s.delivered[i] else d;
    } else {
      SameQueue(s, w);
    }
  }

  lemma StillPrecedes(arrived: seq<Frame>, d: Delivery, q: seq<nat>, k: nat)
    requires k < |q| && forall j :: 0 <= j < |q| ==> q[j] < |arrived|
    requires Precedes(arrived, d, q)
    ensures forall j :: 0 <= j < |Removed(q, k)| ==> Removed(q, k)[j] < |arrived|
    ensures Precedes(arrived, d, Removed(q, k))
    ensures KeyOf(arrived[q[k]]) == d.key ==> d.tag < q[k]
  {
    hide KeyOf;
    var r := Removed(q, k);
    assert forall j :: 0 <= j < |r| ==> r[j] == if j < k then q[j] else q[j + 1];
  }

  lemma NewestIsLast(arrived: seq<Frame>, q: seq<nat>, k: nat, d: Delivery)
    requires k < |q| && Increasing(q) && forall j :: 0 <= j < |q| ==> q[j] < |arrived|
    requires d.tag == q[k] && KeyOf(arrived[q[k]]) == d.key
    requires forall j :: 0 <= j < k ==> KeyOf(arrived[q[j]]) != d.key
    ensures Answers(arrived, d)
    ensures forall j :: 0 <= j < |Removed(q, k)| ==> Removed(q, k)[j] < |arrived|
    ensures Precedes(arrived, d, Removed(q, k))
  {
    hide KeyOf;
    var r := Removed(q, k);
    assert forall j :: 0 <= j < |r| ==> r[j] == if j < k then q[j] else q[j + 1];
  }

  lemma SameQueue(s: State, w: nat)
    requires TagsBounded(s) && Step(s, Scan(w)).queue == s.queue
    ensures Step(s, Scan(w)).arrived == s.arrived && Step(s, Scan(w)).delivered == s.delivered
  {
  }

  lemma ScanWakesNobodyWrongly(s: State, w: nat)
    requires Safe(s) && TagsBounded(Step(s, Scan(w)))
    ensures NoneSleepsOnAMatch(Step(s, Scan(w)))
  {
    hide Conserved, Ordered, DeliveredInOrder, Frames;
    var t := Step(s, Scan(w));
    var fs := Frames(s.arrived, s.queue);
    if t.queue != s.queue {
      var k := FirstMatch(fs, s.waiters[w].key).value;
      assert forall j :: 0 <= j < |t.queue| ==> t.queue[j] == if j < k then s.queue[j] else s.queue[j + 1];
    }
    assert forall j :: 0 <= j < |s.queue| ==> fs[j] == s.arrived[s.queue[j]];
  }

  lemma StepIsSafe(s: State, e: Event)
    requires Safe(s)
    ensures Safe(Step(s, e))
  {
    hide Frames, FirstMatch;
    match e
    case Receive(f) =>
      ReceiveConserves(s, f);
      ReceiveKeepsOrder(s, f);
      ReceiveKeepsDeliveries(s, f);
      assert NoneSleepsOnAMatch(Step(s, e));
    case Scan(w) =>
      ScanConserves(s, w);
      ScanKeepsOrder(s, w);
      ScanKeepsDeliveries(s, w);
      ScanWakesNobodyWrongly(s, w);
    case Begin(_, _, _) => WaitersAlone(s, Step(s, e));
    case Spurious(_) => WaitersAlone(s, Step(s, e));
    case Timeout(_) => WaitersAlone(s, Step(s, e));
  }

  /** A step that puts nobody to sleep and moves no frame is safe. */
  lemma WaitersAlone(s: State, t: State)
    requires Safe(s) && t == s.(waiters := t.waiters)
    requires forall w :: w in t.waiters && t.waiters[w].phase == Asleep ==>
               w in s.waiters && t.waiters[w] == s.waiters[w]
    ensures Safe(t)
  {
  }

  /** The state after a run; the events are the critical sections in the order the mutex serialised them. */
  ghost function Run(es: seq<Event>): (s: State)
    ensures TagsBounded(s)
    ensures Safe(s)
  {
    if es == [] then Init()
    else
      var s := Run(es[..|es| - 1]);
      StepIsSafe(s, es[|es| - 1]);
      Step(s, es[|es| - 1])
  }

  /** Main result, tag by tag: after any run every pushed response is exactly one of queued, dropped, delivered. */
  lemma EachResponseHasOneFate(es: seq<Event>, t: nat)
    ensures var s := Run(es);
            multiset(s.queue)[t] + multiset(s.dropped)[t] + multiset(Tags(s.delivered))[t]
            == if t < |s.arrived| then 1 else 0
  {
    var n := |Run(es).arrived|;
    CountUpto(n, t);
  }

  lemma {:induction false} CountUpto(n: nat, t: nat)
    ensures multiset(Upto(n))[t] == if t < n then 1 else 0
  {
    if n == 0 {
    } else {
      CountUpto(n - 1, t);
      assert Upto(n) == Upto(n - 1) + [n - 1];
    }
  }

  /** The runs use the ring: on the queued frames a receive is exactly `Queue.Push` ... */
  lemma ReceiveMatchesRing(s: State, f: Frame)
    requires Safe(s) && Safe(Step(s, Receive(f)))
    ensures var t := Step(s, Receive(f));
            Frames(t.arrived, t.queue) == Pushed(Frames(s.arrived, s.queue), f)
  {
    hide Conserved, Ordered, DeliveredInOrder, NoneSleepsOnAMatch, FirstMatch;
  }

  /** ... and a scan is exactly `Queue.TakeFirst`, whose frame is the one recorded as delivered. */
  lemma ScanMatchesRing(s: State, w: nat)
    requires Safe(s) && w in s.waiters && s.waiters[w].phase != Asleep
    requires TagsBounded(Step(s, Scan(w)))
    ensures var t, fs := Step(s, Scan(w)), Frames(s.arrived, s.queue);
            match FirstMatch(fs, s.waiters[w].key)
            case None => Frames(t.arrived, t.queue) == fs && t.delivered == s.delivered
            case Some(k) =>
              && Frames(t.arrived, t.queue) == Removed(fs, k)
              && t.delivered == s.delivered + [Delivery(w, s.waiters[w].key, s.queue[k])]
              && s.arrived[s.queue[k]] == fs[k]
  {
    hide Conserved, Ordered, DeliveredInOrder, NoneSleepsOnAMatch;
  }

  /** A response is only ever lost when 32 younger ones have arrived behind it and are all still queued. */
  lemma DropsOnlyTheOldestOfAFullQueue(s: State, e: Event)
    requires Safe(s) && Step(s, e).dropped != s.dropped
    ensures e.Receive? && |s.queue| == 32
    ensures Step(s, e).dropped == s.dropped + [s.queue[0]]
    ensures forall i :: 1 <= i < |s.queue| ==> s.queue[0] < s.queue[i] < |s.arrived|
  {
  }

  /** The wait of a request (node, index), seen from outside: while it sleeps no response to it is queued. */
  lemma NoSleepOnAResponse(es: seq<Event>, w: nat, node: byte, index: u16, j: nat)
    requires var s := Run(es);
             w in s.waiters && s.waiters[w] == Waiter(Wanted(node, index), Asleep) && j < |s.queue|
    ensures var s := Run(es); !IsResponse(s.arrived[s.queue[j]], node, index)
  {
    var s := Run(es);
    MatchesItsResponses(s.arrived[s.queue[j]], node, index);
    hide Run, KeyOf, Wanted, IsResponse, Conserved, Ordered, DeliveredInOrder;
  }

  /** Every delivery to a request is a response to it. */
  lemma DeliveriesAreResponses(es: seq<Event>, i: nat, node: byte, index: u16)
    requires var s := Run(es); i < |s.delivered| && s.delivered[i].key == Wanted(node, index)
    ensures var s := Run(es);
            s.delivered[i].tag < |s.arrived| && IsResponse(s.arrived[s.delivered[i].tag], node, index)
  {
    var s := Run(es);
    assert Answers(s.arrived, s.delivered[i]);
    MatchesItsResponses(s.arrived[s.delivered[i].tag], node, index);
    hide Run, KeyOf, Wanted, IsResponse;
  }

  /** A scan decides: a waiter that is awake is served with the oldest response to its request and leaves, or
      falls asleep because there is none. */
  lemma ScanServesOrSleeps(s: State, w: nat, node: byte, index: u16)
    requires TagsBounded(s) && w in s.waiters && s.waiters[w].phase != Asleep
    requires s.waiters[w].key == Wanted(node, index)
    ensures var t := Step(s, Scan(w));
            if exists j :: 0 <= j < |s.queue| && IsResponse(s.arrived[s.queue[j]], node, index)
            then w !in t.waiters && |t.delivered| == |s.delivered| + 1 && t.delivered[|s.delivered|].waiter == w
            else t == s.(waiters := s.waiters[w := Waiter(Wanted(node, index), Asleep)])
  {
    var fs := Frames(s.arrived, s.queue);
    FoundIsResponse(fs, node, index);
    assert forall j :: 0 <= j < |fs| ==> fs[j] in fs;
    hide FirstMatch, Wanted, IsResponse;
  }

  /** A receive wakes everybody: nobody is asleep after it. */
  lemma ReceiveWakesAll(s: State, f: Frame)
    requires TagsBounded(s)
    ensures var t := Step(s, Receive(f));
            t.waiters.Keys == s.waiters.Keys && forall w :: w in t.waiters ==> t.waiters[w].phase != Asleep
  {
  }

  /** Whose wait an event is about; a receive is about none. */
  function About(e: Event): Option<nat> {
    match e
    case Receive(_) => None
    case Begin(w, _, _) => Some(w)
    case Scan(w) => Some(w)
    case Spurious(w) => Some(w)
    case Timeout(w) => Some(w)
  }

  /** The waits do not touch each other, and only a scan takes a frame. */
  lemma WaitsAreIndependent(s: State, e: Event, v: nat)
    requires TagsBounded(s) && About(e).Some? && About(e) != Some(v)
    ensures var t := Step(s, e);
            && (v in t.waiters <==> v in s.waiters) && (v in s.waiters ==> t.waiters[v] == s.waiters[v])
            && (!e.Scan? ==> t == s.(waiters := t.waiters))
  {
    hide FirstMatch, Removed;
  }

  /** A wait scans before it can time out, and can time out once it has slept; a wake-up, spurious or not, does
      not end it. */
  lemma AWaitScansFirst(s: State, w: nat, node: byte, index: u16)
    requires TagsBounded(s) && w !in s.waiters
    ensures var t := Step(s, Begin(w, node, index));
            && w in t.waiters && t.waiters[w].key == Wanted(node, index)
            && Step(t, Timeout(w)) == t && Step(t, Spurious(w)) == t
    ensures (forall j :: 0 <= j < |s.queue| ==> !IsResponse(s.arrived[s.queue[j]], node, index)) ==>
              var u := Step(Step(s, Begin(w, node, index)), Scan(w));
              Step(u, Timeout(w)) == s && Step(Step(u, Spurious(w)), Timeout(w)) == s
  {
    var t := Step(s, Begin(w, node, index));
    if forall j :: 0 <= j < |s.queue| ==> !IsResponse(s.arrived[s.queue[j]], node, index) {
      ScanServesOrSleeps(t, w, node, index);
      assert t.waiters[w := Waiter(Wanted(node, index), Asleep)] - {w} == s.waiters;
      assert t.waiters[w := Waiter(Wanted(node, index), Asleep)][w := Waiter(Wanted(node, index), Woken)] - {w}
          == s.waiters;
    }
    hide FirstMatch, Wanted, IsResponse;
  }
}
