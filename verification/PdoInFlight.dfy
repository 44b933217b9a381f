/** The single-axis calls as the threads interleave them: a call changes the byte and builds its frame under
    the lock, and sends the frame after releasing it (motor_hal.c). */
module PdoInFlight {
  import opened Bytes
  import opened P = PdoByte0

  /** The axis, and the frame of every thread that is between its lock and its send. */
  datatype Bus = Bus(axis: Axis, inFlight: map<nat, P.Frame>, sent: seq<P.Frame>)

  datatype Event = Locked(thread: nat, op: Op, c: Config) | Leaves(thread: nat)

  const IDLE := Bus(OFF, map[], [])

  /** A thread inside a call makes no other; every other thread may. */
  function Step(b: Bus, e: Event, node: byte): Bus {
    match e
    case Locked(t, op, c) =>
      if t in b.inFlight then b
      else
        var f := FrameOf(b.axis, op, node, c);
        b.(axis := After(b.axis, op), inFlight := if f.Some? then b.inFlight[t := f.value] else b.inFlight)
    case Leaves(t) =>
      if t in b.inFlight then b.(inFlight := b.inFlight - {t}, sent := b.sent + [b.inFlight[t]]) else b
  }

  function Run(b: Bus, events: seq<Event>, node: byte): Bus {
    if events == [] then b else Step(Run(b, events[..|events| - 1], node), events[|events| - 1], node)
  }

  /** The calls of a run that got the lock. */
  function Calls(events: seq<Event>, node: byte): seq<Op> {
    if events == [] then []
    else
      var front, e := events[..|events| - 1], events[|events| - 1];
      Calls(front, node)
      + if e.Locked? && e.thread !in Run(IDLE, front, node).inFlight then [e.op] else []
  }

  /** In every interleaving the axis is where its calls lead in the order of their locks. */
  lemma {:induction false} AxisFollowsTheLocks(events: seq<Event>, node: byte)
    ensures Run(IDLE, events, node).axis == State(Calls(events, node))
  {
    if events != [] {
      var front, e := events[..|events| - 1], events[|events| - 1];
      AxisFollowsTheLocks(front, node);
      if e.Locked? && e.thread !in Run(IDLE, front, node).inFlight {
        StateSnoc(Calls(front, node), e.op);
      } else {
        assert Calls(events, node) == Calls(front, node);
      }
      hide State, After, FrameOf;
    }
  }

  /** Nobody switches the axis on again. */
  predicate Quiet(events: seq<Event>) {
    forall e | e in events :: e.Locked? ==> !Reenables(e.op)
  }

  lemma OffSendsNothing(a: Axis, op: Op, node: byte, c: Config)
    requires !a.enabled && !Reenables(op)
    ensures FrameOf(a, op, node, c) == None && !After(a, op).enabled
  {
    FieldsAfter(a, op);
    StaysOff(op);
    hide After, TargetsOf, ByteOf, SwitchWrite, EnableBitWrite, BusWrite, ModeWrite, ReservedWrite;
  }

  predicate Distinct(s: seq<nat>) {
    forall i, j :: 0 <= i < j < |s| ==> s[i] != s[j]
  }

  function FramesOf(inFlight: map<nat, P.Frame>, threads: seq<nat>): seq<P.Frame>
    requires forall t | t in threads :: t in inFlight
  {
    seq(|threads|, i requires 0 <= i < |threads| => inFlight[threads[i]])
  }

  /** Main result: from an axis that is off, and in every interleaving that does not switch it on again, what
      is sent are frames that were in flight at the start, each at most once. */
  lemma {:induction false} OnlyWhatWasInFlight(b: Bus, events: seq<Event>, node: byte) returns (left: seq<nat>)
    requires !b.axis.enabled && Quiet(events)
    ensures Distinct(left) && forall t | t in left :: t in b.inFlight
    ensures var r := Run(b, events, node);
            && !r.axis.enabled
            && r.sent == b.sent + FramesOf(b.inFlight, left)
            && r.inFlight == b.inFlight - set t | t in left
  {
    left := [];
    if events != [] {
      var front, e := events[..|events| - 1], events[|events| - 1];
      assert forall f | f in front :: f in events;
      left := OnlyWhatWasInFlight(b, front, node);
      var r := Run(b, front, node);
      if e.Locked? {
        OffSendsNothing(r.axis, e.op, node, e.c);
      } else if e.thread in r.inFlight {
        assert FramesOf(b.inFlight, left + [e.thread]) == FramesOf(b.inFlight, left) + [r.inFlight[e.thread]];
        left := left + [e.thread];
      }
      hide After, FrameOf;
    }
  }

  /** Main result: an emergency stop is the last word on the bus, whatever follows but a re-enabling call,
      exactly when no other thread was between its lock and its send. */
  lemma EstopIsFinalExactlyWhen(b: Bus, thread: nat, c: Config, node: byte)
    requires thread !in b.inFlight
    ensures var stopped := Step(b, Locked(thread, Estop, c), node);
            (forall later | Quiet(later) :: Run(stopped, later, node).sent == b.sent) <==> b.inFlight == map[]
  {
    var stopped := Step(b, Locked(thread, Estop, c), node);
    assert !stopped.axis.enabled && stopped.inFlight == b.inFlight && stopped.sent == b.sent;
    hide After, FrameOf, Step;
    if b.inFlight == map[] {
      forall later | Quiet(later) ensures Run(stopped, later, node).sent == b.sent {
        var left := OnlyWhatWasInFlight(stopped, later, node);
        EmptySelection(left, b.inFlight);
      }
    } else {
      var t :| t in b.inFlight;
      OneMoreFrame(stopped, t, node);
    }
  }

  lemma EmptySelection(threads: seq<nat>, inFlight: map<nat, P.Frame>)
    requires forall t | t in threads :: t in inFlight
    ensures threads == [] || exists t :: t in inFlight
  {
    if threads != [] {
      assert threads[0] in threads;
    }
  }

  lemma OneMoreFrame(b: Bus, t: nat, node: byte)
    requires t in b.inFlight
    ensures Quiet([Leaves(t)]) && Run(b, [Leaves(t)], node).sent == b.sent + [b.inFlight[t]]
  {
    assert Run(b, [Leaves(t)], node) == Step(Run(b, [], node), Leaves(t), node);
  }

  /** A call whose send follows at once is the call of the sequential model: its frame, if it has one, is the
      next on the bus. */
  lemma CallThenSend(b: Bus, thread: nat, op: Op, c: Config, node: byte)
    requires thread !in b.inFlight
    ensures var t, f := Step(Step(b, Locked(thread, op, c), node), Leaves(thread), node), FrameOf(b.axis, op, node, c);
            t == Bus(After(b.axis, op), b.inFlight, if f.Some? then b.sent + [f.value] else b.sent)
  {
    hide After, FrameOf;
    var f := FrameOf(b.axis, op, node, c);
    assert f.Some? ==> b.inFlight[thread := f.value] - {thread} == b.inFlight;
  }

  /** A frame after the stop: a torque call that got the lock first and sends last. */
  lemma ALateFrame(c: Config, currentMa: s16, node: byte)
    ensures var b := Run(IDLE, [Locked(0, PdoEnable, c)] + [Locked(0, SetTorque(currentMa), c)]
                               + [Locked(1, Estop, c)] + [Leaves(0)], node);
            !b.axis.enabled && |b.sent| == 1 && b.sent[0].AxisFrame? && b.sent[0].targets == Targets(currentMa, 0, 0)
  {
    var es := [Locked(0, PdoEnable, c)] + [Locked(0, SetTorque(currentMa), c)];
    RunSnoc(IDLE, [], Locked(0, PdoEnable, c), node);
    RunSnoc(IDLE, [Locked(0, PdoEnable, c)], Locked(0, SetTorque(currentMa), c), node);
    RunSnoc(IDLE, es, Locked(1, Estop, c), node);
    RunSnoc(IDLE, es + [Locked(1, Estop, c)], Leaves(0), node);
    assert [] + [Locked(0, PdoEnable, c)] == [Locked(0, PdoEnable, c)];
    SwitchingCalls(OFF);
    Reaction(After(OFF, PdoEnable), currentMa, node, c);
    FaultCalls(After(After(OFF, PdoEnable), SetTorque(currentMa)));
    hide Run, After, FrameOf;
  }

  lemma Reaction(a: Axis, currentMa: s16, node: byte, c: Config)
    requires a.enabled
    ensures var f := FrameOf(a, SetTorque(currentMa), node, c);
            f.Some? && f.value.AxisFrame? && f.value.targets == Targets(currentMa, 0, 0)
    ensures FrameOf(a, PdoEnable, node, c) == None == FrameOf(a, Estop, node, c)
    ensures FrameOf(OFF, PdoEnable, node, c) == None
  {
    hide After, ByteOf;
  }

  lemma RunSnoc(b: Bus, es: seq<Event>, e: Event, node: byte)
    ensures Run(b, es + [e], node) == Step(Run(b, es, node), e, node)
  {
    assert (es + [e])[..|es|] == es;
  }
}
