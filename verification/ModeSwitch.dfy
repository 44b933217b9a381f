/** The double send on a mode switch (_pdo_send_with_switch of motor_rt_worker.cpp). */
module ModeSwitch {
  import opened Bytes

  const MAX_MOTORS: nat := 2
  const NO_MODE: byte := 0xFF

  /** One control command as it reaches the function; its `mode` is the frame's mode as well. */
  datatype Command = Command(motor: nat, mode: byte, target1: s16, target2: u16, feedforward: s16)

  /** The commands of one motor, in order. */
  function Own(h: seq<Command>, m: nat): seq<Command> {
    if h == [] then []
    else
      var c := h[|h| - 1];
      if c.motor == m then Own(h[..|h| - 1], m) + [c] else Own(h[..|h| - 1], m)
  }

  /** The last command of h is the first of its run of equal modes. */
  predicate StartsRun(h: seq<Command>)
    requires h != []
  {
    |h| == 1 || h[|h| - 2].mode != h[|h| - 1].mode
  }

  /** Among the commands of one motor: the last one is the second of its run. */
  predicate IsSecond(h: seq<Command>)
    requires h != []
  {
    !StartsRun(h) && (|h| == 2 || h[|h| - 3].mode != h[|h| - 2].mode)
  }

  function Copies(c: Command, twice: bool): seq<Command> {
    if twice then [c, c] else [c]
  }

  /** The frames on the bus after the commands of h, for all motors. */
  function Wire(h: seq<Command>): seq<Command> {
    if h == [] then []
    else
      var c := h[|h| - 1];
      Wire(h[..|h| - 1]) + Copies(c, IsSecond(Own(h, c.motor)))
  }

  /** All commands belong to one motor. */
  predicate Alone(h: seq<Command>, m: nat) {
    forall i :: 0 <= i < |h| ==> h[i].motor == m
  }

  lemma Snoc(h: seq<Command>, c: Command, m: nat)
    ensures Own(h + [c], m) == if c.motor == m then Own(h, m) + [c] else Own(h, m)
    ensures Wire(h + [c]) == Wire(h) + Copies(c, IsSecond(Own(h + [c], c.motor)))
  {
    assert (h + [c])[..|h + [c]| - 1] == h;
  }

  /** What the worker remembers of one motor's commands. */
  predicate Tracks(own: seq<Command>, last: byte, pending: bool) {
    && last == (if own == [] then NO_MODE else own[|own| - 1].mode)
    && pending == (own != [] && StartsRun(own))
  }

  lemma TracksStep(own: seq<Command>, last: byte, pending: bool, c: Command)
    requires Tracks(own, last, pending) && c.mode != NO_MODE
    ensures Tracks(own + [c], c.mode, last != c.mode)
    ensures IsSecond(own + [c]) == (last == c.mode && pending)
  {
  }

  class Worker {
    var lastMode: array<byte>
    var pendingRetry: array<bool>
    ghost var history: seq<Command>
    ghost var sent: seq<Command>

    ghost predicate Valid()
      reads this, lastMode, pendingRetry
    {
      && lastMode.Length == pendingRetry.Length == MAX_MOTORS
      && sent == Wire(history)
      && forall m :: 0 <= m < MAX_MOTORS ==>
           Tracks(Own(history, m), lastMode[m], pendingRetry[m])
    }

    constructor ()
      ensures Valid() && fresh(lastMode) && fresh(pendingRetry)
      ensures history == [] && sent == []
    {
      lastMode := new byte[MAX_MOTORS](i => NO_MODE);
      pendingRetry := new bool[MAX_MOTORS](i => false);
      history, sent := [], [];
    }

    /** motor_hal_multi_ctrl(hal, cmd, 1) */
    ghost method MultiCtrl(c: Command)
      modifies this`sent
      ensures sent == old(sent) + [c]
    {
      sent := sent + [c];
    }

    method SendWithSwitch(c: Command)
      requires Valid() && c.motor < 2 && c.mode != 0xFF
      modifies this`history, this`sent, lastMode, pendingRetry
      ensures Valid() && history == old(history) + [c]
      ensures sent == Wire(old(history) + [c])
    {
      hide Own, Wire, Tracks, IsSecond;
      ghost var own := Own(history, c.motor);
      Snoc(history, c, 0);
      Snoc(history, c, 1);
      TracksStep(own, lastMode[c.motor], pendingRetry[c.motor], c);
      var modeChanged := lastMode[c.motor] != c.mode;
      lastMode[c.motor] := c.mode;
      MultiCtrl(c);
      if modeChanged {
        pendingRetry[c.motor] := true;
      } else if pendingRetry[c.motor] {
        pendingRetry[c.motor] := false;
        MultiCtrl(c);
      }
      assert sent == old(sent) + Copies(c, IsSecond(own + [c]));
      history := history + [c];
    }
  }

  // ---------- motors do not affect each other ----------

  lemma {:induction false} OwnIsAlone(h: seq<Command>, m: nat)
    ensures Alone(Own(h, m), m)
  {
    if h != [] {
      OwnIsAlone(h[..|h| - 1], m);
    }
  }

  lemma {:induction false} OwnOfAlone(h: seq<Command>, m: nat)
    requires Alone(h, m)
    ensures Own(h, m) == h
  {
    if h != [] {
      OwnOfAlone(h[..|h| - 1], m);
    }
  }

  lemma OwnCopies(h: seq<Command>, c: Command, twice: bool, m: nat)
    ensures Own(h + Copies(c, twice), m) == if c.motor == m then Own(h, m) + Copies(c, twice) else Own(h, m)
  {
    Snoc(h, c, m);
    Snoc(h + [c], c, m);
    hide Own, Wire;
    assert (h + [c]) + [c] == h + [c, c];
    assert (Own(h, m) + [c]) + [c] == Own(h, m) + [c, c];
  }

  /** Main result: what a motor is sent is what it would be sent if it were alone on the bus. */
  lemma {:induction false} MotorsAreIndependent(h: seq<Command>, m: nat)
    ensures Own(Wire(h), m) == Wire(Own(h, m))
  {
    if h != [] {
      var c, rest := h[|h| - 1], h[..|h| - 1];
      assert h == rest + [c];
      MotorsAreIndependent(rest, m);
      Snoc(rest, c, m);
      OwnCopies(Wire(rest), c, IsSecond(Own(h, c.motor)), m);
      if c.motor == m {
        Snoc(Own(rest, m), c, m);
        OwnIsAlone(h, m);
        OwnOfAlone(Own(h, m), m);
      }
    }
  }

  // ---------- one motor: exactly one extra frame for each run of two or more ----------

  /** The length of the maximal run of equal modes at the front of h. */
  function FrontRun(h: seq<Command>): (n: nat)
    requires h != []
    ensures 1 <= n <= |h|
    ensures forall i :: 0 <= i < n ==> h[i].mode == h[0].mode
    ensures n < |h| ==> h[n].mode != h[0].mode
  {
    if |h| == 1 || h[1].mode != h[0].mode then 1 else 1 + FrontRun(h[1..])
  }

  /** A run goes out with its second command doubled; its first command is never repeated. */
  function SecondDoubled(run: seq<Command>): seq<Command> {
    if |run| < 2 then run else [run[0], run[1], run[1]] + run[2..]
  }

  /** h split into its maximal runs, each with its second command doubled. */
  function ByRuns(h: seq<Command>): seq<Command> {
    if h == [] then []
    else SecondDoubled(h[..FrontRun(h)]) + ByRuns(h[FrontRun(h)..])
  }

  /** The number of maximal runs of length two or more. */
  function LongRuns(h: seq<Command>): nat {
    if h == [] then 0
    else (if FrontRun(h) >= 2 then 1 else 0) + LongRuns(h[FrontRun(h)..])
  }

  lemma SnocAlone(h: seq<Command>, c: Command, m: nat)
    requires Alone(h + [c], m)
    ensures Wire(h + [c]) == Wire(h) + Copies(c, IsSecond(h + [c]))
  {
    assert (h + [c])[|h|] == c;
    OwnOfAlone(h + [c], m);
    Snoc(h, c, m);
  }

  /** A run by itself. */
  lemma {:induction false} WireOfRun(run: seq<Command>, m: nat)
    requires Alone(run, m) && forall i :: 0 <= i < |run| ==> run[i].mode == run[0].mode
    ensures Wire(run) == SecondDoubled(run)
  {
    if run != [] {
      var front, c := run[..|run| - 1], run[|run| - 1];
      assert run == front + [c];
      WireOfRun(front, m);
      SnocAlone(front, c, m);
      hide Wire;
    }
  }

  lemma SecondAfterBreak(a: seq<Command>, b: seq<Command>)
    requires a != [] && b != [] && a[|a| - 1].mode != b[0].mode
    ensures IsSecond(a + b) == IsSecond(b)
  {
  }

  lemma Grouped(a: seq<Command>, b: seq<Command>, c: Command, m: nat)
    requires Alone(a, m) && Alone(b + [c], m)
    ensures a + (b + [c]) == (a + b) + [c] && Alone((a + b) + [c], m)
  {
    assert a + (b + [c]) == (a + b) + [c];
  }

  lemma WireConcatStep(a: seq<Command>, b: seq<Command>, c: Command, m: nat)
    requires Alone(a, m) && Alone(b + [c], m) && a != [] && a[|a| - 1].mode != (b + [c])[0].mode
    requires Wire(a + b) == Wire(a) + Wire(b)
    ensures Wire(a + (b + [c])) == Wire(a) + Wire(b + [c])
  {
    hide *;
    Grouped(a, b, c, m);
    SnocAlone(a + b, c, m);
    SnocAlone(b, c, m);
    SecondAfterBreak(a, b + [c]);
    Associative(Wire(a), Wire(b), Copies(c, IsSecond(b + [c])));
  }

  lemma Associative(x: seq<Command>, y: seq<Command>, z: seq<Command>)
    ensures (x + y) + z == x + (y + z)
  {
  }

  /** A mode change starts afresh. */
  lemma {:induction false} WireConcat(a: seq<Command>, b: seq<Command>, m: nat)
    requires Alone(a, m) && Alone(b, m)
    requires a != [] && (b != [] ==> a[|a| - 1].mode != b[0].mode)
    ensures Wire(a + b) == Wire(a) + Wire(b)
    decreases |b|
  {
    if b == [] {
      assert a + b == a && Wire(b) == [];
    } else {
      hide Wire;
      var front, c := b[..|b| - 1], b[|b| - 1];
      assert b == front + [c];
      WireConcat(a, front, m);
      WireConcatStep(a, front, c, m);
    }
  }

  /** Main result: what a motor is sent is its commands, each maximal same-mode run of two or more having
      its second command sent twice and nothing else repeated. */
  lemma {:induction false} EachLongRunIsDoubledOnce(h: seq<Command>, m: nat)
    requires Alone(h, m)
    ensures Wire(h) == ByRuns(h)
    ensures |Wire(h)| == |h| + LongRuns(h)
    decreases |h|
  {
    if h != [] {
      FirstRun(h, m);
      RunStep(h);
      var run, rest := h[..FrontRun(h)], h[FrontRun(h)..];
      hide *;
      EachLongRunIsDoubledOnce(rest, m);
      WireOfRun(run, m);
      WireConcat(run, rest, m);
    }
  }

  lemma FirstRun(h: seq<Command>, m: nat)
    requires h != [] && Alone(h, m)
    ensures var run, rest := h[..FrontRun(h)], h[FrontRun(h)..];
            && h == run + rest && Alone(run, m) && Alone(rest, m) && run != []
            && (forall i :: 0 <= i < |run| ==> run[i].mode == run[0].mode)
            && (rest != [] ==> run[|run| - 1].mode != rest[0].mode)
  {
    hide FrontRun;
    var n := FrontRun(h);
    assert h[..n][n - 1] == h[n - 1];
  }

  lemma RunStep(h: seq<Command>)
    requires h != []
    ensures var run, rest := h[..FrontRun(h)], h[FrontRun(h)..];
            && ByRuns(h) == SecondDoubled(run) + ByRuns(rest)
            && |SecondDoubled(run)| + LongRuns(rest) == |run| + LongRuns(h)
            && |h| == |run| + |rest|
  {
    hide FrontRun;
  }

  /** The two results together, for any interleaving of the motors. */
  lemma FramesPerMotor(h: seq<Command>, m: nat)
    ensures Own(Wire(h), m) == ByRuns(Own(h, m))
    ensures |Own(Wire(h), m)| == |Own(h, m)| + LongRuns(Own(h, m))
  {
    MotorsAreIndependent(h, m);
    OwnIsAlone(h, m);
    EachLongRunIsDoubledOnce(Own(h, m), m);
  }
}
