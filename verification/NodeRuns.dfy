/** What runs of the main loop mean for the motors: which sides a calibration checks, and when BOOTING ends. */
module NodeRuns {
  import opened Bytes
  import opened NodeMachine
  import M = MotorCalib

  // ---------- a calibration, from the request to its end ----------

  /** A CALIBRATE request is pending in READY and nothing is under way. */
  ghost predicate Requested(s: State) {
    Inv(s) && s.phase == Ready && !s.firstBoot && s.flags.requested && s.flags.toggle && !s.flags.triggered
  }

  /** The calibrator is created, and both start exchanges of every motor online are answered: motor 1 is the
      right side, motor 2 the left side of a node that has both. */
  predicate StartAnswered(u: Setup, i: Input) {
    && i.created
    && (i.right ==> i.start.shutdownR && i.start.zeroR)
    && (u.both && i.left ==> i.start.shutdownL && i.start.zeroL)
  }

  /** Within one degree of zero. */
  predicate NearZero(position: Option<s16>) {
    position.Some? && -182 <= position.value <= 182
  }

  /** The configured time, ten seconds if there is none. */
  predicate InTime(u: Setup, i: Input, io: M.PollIo) {
    (io.now - i.start.now) % TWO_64 <= 1000 * (if u.timeoutMs <= 0 then 10_000 else u.timeoutMs) % TWO_64
  }

  predicate AllNearZero(u: Setup, i: Input, io: M.PollIo) {
    (i.right ==> NearZero(io.positionR)) && (u.both && i.left ==> NearZero(io.positionL))
  }

  /** Every side that was online at the start is in place and accepts its mode and enabling. */
  predicate Calibrates(u: Setup, i: Input, io: M.PollIo) {
    && InTime(u, i, io) && AllNearZero(u, i, io)
    && (i.right ==> io.modeR && io.enableR)
    && (u.both && i.left ==> io.modeL && io.enableL)
  }

  predicate Pending(u: Setup, i: Input, io: M.PollIo) {
    InTime(u, i, io) && !AllNearZero(u, i, io)
  }

  /** Pass k is the first in which the calibration is not pending, and there it succeeds. */
  predicate CalibratesAt(u: Setup, i: Input, inputs: seq<Input>, k: int) {
    && 0 <= k < |inputs| && Calibrates(u, i, inputs[k].poll)
    && forall j :: 0 <= j < k ==> Pending(u, i, inputs[j].poll)
  }

  /** What the calibrator is started with, side by side with the inputs. */
  lemma StartedAs(u: Setup, i: Input)
    requires StartAnswered(u, i)
    ensures M.StartSucceeds(M.FRESH, CalibConfig(u, i), i.start)
    ensures var c := M.Started(M.FRESH, CalibConfig(u, i), i.start);
            && c.phase.Checking? && c.startUs == i.start.now
            && (c.cfg.idR > 0 <==> i.right) && (c.cfg.idL > 0 <==> u.both && i.left)
            && c.cfg.threshold == M.DEFAULT_THRESHOLD && c.cfg.enableAfterDone
            && c.cfg.timeoutMs == if u.timeoutMs <= 0 then 10_000 else u.timeoutMs
  {
  }

  lemma PlaceAs(id: byte, position: Option<s16>)
    requires id > 0
    ensures M.InPlace(id, position, M.DEFAULT_THRESHOLD) <==> NearZero(position)
  {
    if position.Some? {
      M.OneDegree(id, position.value);
    }
    hide M.AngleDeg;
  }

  lemma ReadAs(u: Setup, i: Input, io: M.PollIo)
    requires StartAnswered(u, i)
    ensures M.StartSucceeds(M.FRESH, CalibConfig(u, i), i.start)
    ensures var c := M.Started(M.FRESH, CalibConfig(u, i), i.start);
            && c.phase.Checking?
            && (M.Waits(c, io) <==> Pending(u, i, io))
            && (M.Succeeds(c, io) <==> Calibrates(u, i, io))
  {
    StartedAs(u, i);
    hide M.Started, M.StartSucceeds, CalibConfig;
    var c := M.Started(M.FRESH, CalibConfig(u, i), i.start);
    if i.right { PlaceAs(c.cfg.idR, io.positionR); }
    if u.both && i.left { PlaceAs(c.cfg.idL, io.positionL); }
    hide NearZero, M.AngleDeg;
  }

  lemma NotAnswered(u: Setup, i: Input)
    requires i.created && !StartAnswered(u, i)
    ensures !M.StartSucceeds(M.FRESH, CalibConfig(u, i), i.start)
  {
  }

  /** The pass that takes the request up is the first pass of the calibration that it begins. */
  lemma SamePass(s: State, u: Setup, i: Input)
    requires Requested(s)
    ensures Pass(s, u, i) == Pass(Begun(s, u, i), u, i)
  {
    BegunKeepsInv(s, u, i);
    hide M.StartSucceeds, M.Started, CalibConfig, Advanced;
  }

  lemma {:induction false} SameRun(s: State, s1: State, u: Setup, i: Input, rest: seq<Input>)
    requires Pass(s, u, i) == Pass(s1, u, i)
    ensures RunFrom(s, u, [i] + rest) == RunFrom(s1, u, [i] + rest)
  {
    hide Pass;
    LastPass(s, u, [i] + rest);
    LastPass(s1, u, [i] + rest);
    if rest == [] {
      assert ([i] + rest)[..0] == [] && ([i] + rest)[0] == i;
    } else {
      var front := rest[..|rest| - 1];
      assert ([i] + rest)[..|rest|] == [i] + front;
      SameRun(s, s1, u, i, front);
    }
  }

  lemma {:induction false} IdleStaysReady(s: State, u: Setup, inputs: seq<Input>)
    requires Inv(s) && s.phase == Ready && !s.firstBoot && !s.flags.requested && !s.flags.running
    requires Undisturbed(inputs)
    ensures RunFrom(s, u, inputs) == s
  {
    if inputs != [] {
      IdleStaysReady(s, u, inputs[..|inputs| - 1]);
      LastPass(s, u, inputs);
    }
  }

  lemma Starts(s: State, u: Setup, i: Input)
    requires Requested(s)
    ensures var s1 := Begun(s, u, i);
            && Inv(s1) && s1.phase == Ready && !s1.firstBoot && !s1.flags.requested
            && (s1.flags.running <==> StartAnswered(u, i))
            && (s1.flags.running ==> s1.ctx == Some(M.Started(M.FRESH, CalibConfig(u, i), i.start)))
  {
    BegunKeepsInv(s, u, i);
    if StartAnswered(u, i) {
      ReadAs(u, i, i.poll);
    } else if i.created {
      NotAnswered(u, i);
    }
    assert StartAnswered(u, i) ==> i.created;
    hide M.StartSucceeds, M.Started, CalibConfig, StartAnswered;
  }

  lemma DoneMeans(c: M.Calib, u: Setup, i: Input, inputs: seq<Input>)
    requires StartAnswered(u, i) && c == M.Started(M.FRESH, CalibConfig(u, i), i.start)
    ensures M.PolledAll(c, Polls(inputs)).phase.Done? <==> exists k :: CalibratesAt(u, i, inputs, k)
  {
    ReadAs(u, i, i.poll);
    M.PollsEndExactlyWhen(c, Polls(inputs));
    forall k | 0 <= k < |inputs|
      ensures M.Waits(c, Polls(inputs)[k]) <==> Pending(u, i, inputs[k].poll)
      ensures M.Succeeds(c, Polls(inputs)[k]) <==> Calibrates(u, i, inputs[k].poll)
    {
      ReadAs(u, i, inputs[k].poll);
    }
    hide M.Started, M.Waits, M.Succeeds, Pending, Calibrates, StartAnswered, CalibConfig, M.PolledAll, M.TimesOut,
      M.IsRefused;
    forall k ensures M.FirstDecisive(c, Polls(inputs), k) && M.Succeeds(c, Polls(inputs)[k])
                     <==> CalibratesAt(u, i, inputs, k) {
      if 0 <= k < |inputs| {
        Exclusive(u, i, inputs[k].poll);
      }
    }
  }

  lemma Exclusive(u: Setup, i: Input, io: M.PollIo)
    ensures !(Pending(u, i, io) && Calibrates(u, i, io))
  {
  }

  /** Main result: a request leads to RUNNING with calib_state 2, undisturbed, exactly when every motor online at
      the request answers the start, and in the first pass that finds all of them within a degree of zero (or
      the time up) they are so in time and accept mode and enabling. */
  lemma CalibratedExactlyWhen(s: State, u: Setup, i: Input, rest: seq<Input>)
    requires Requested(s) && Undisturbed([i] + rest)
    ensures var t := RunFrom(s, u, [i] + rest);
            t.phase == Running && t.calibState == 2 <==>
              StartAnswered(u, i) && exists k :: CalibratesAt(u, i, [i] + rest, k)
  {
    var s1 := Begun(s, u, i);
    SamePass(s, u, i);
    SameRun(s, s1, u, i, rest);
    Starts(s, u, i);
    hide Begun, Pass, StartAnswered, CalibratesAt, M.Started, CalibConfig;
    if StartAnswered(u, i) {
      CalibrationOutcome(s1, u, [i] + rest);
      DoneMeans(s1.ctx.value, u, i, [i] + rest);
    } else {
      IdleStaysReady(s1, u, [i] + rest);
    }
    hide RunFrom, M.PolledAll, Inv;
  }

  // ---------- the end of BOOTING ----------

  predicate SomeOnline(u: Setup, i: Input) {
    i.right || (u.both && i.left)
  }

  /** The clock at the first pass of the unbroken stretch of passes with a motor online that ends the run. */
  function OnlineSince(u: Setup, inputs: seq<Input>): u64 {
    if inputs == [] then 0
    else
      var i, since := inputs[|inputs| - 1], OnlineSince(u, inputs[..|inputs| - 1]);
      if !SomeOnline(u, i) then 0 else if since == 0 then i.now else since
  }

  /** Every configured motor is online, or some motor has been for more than five seconds. */
  predicate BootOver(u: Setup, inputs: seq<Input>)
    requires inputs != []
  {
    var i := inputs[|inputs| - 1];
    || (i.right && (u.both ==> i.left))
    || (SomeOnline(u, i) && (i.later - OnlineSince(u, inputs)) % TWO_64 > 5_000_000)
  }

  /** A run without fault requests that is still in BOOTING. */
  ghost predicate StillBooting(u: Setup, inputs: seq<Input>) {
    forall k :: 0 < k <= |inputs| ==> !BootOver(u, inputs[..k])
  }

  predicate NoFaults(inputs: seq<Input>) {
    forall k :: 0 <= k < |inputs| ==> !inputs[k].fault
  }

  lemma BootingStep(s: State, u: Setup, i: Input, inputs: seq<Input>)
    requires s.phase == Booting && !i.fault && inputs != [] && i == inputs[|inputs| - 1]
    requires s.threads.bootFirst == OnlineSince(u, inputs[..|inputs| - 1])
    ensures var t := Pass(s, u, i);
            && t.phase == (if BootOver(u, inputs) then Ready else Booting)
            && (t.phase == Booting ==> t.threads.bootFirst == OnlineSince(u, inputs))
  {
  }

  lemma StillBootingStep(u: Setup, inputs: seq<Input>)
    requires inputs != []
    ensures StillBooting(u, inputs) <==> StillBooting(u, inputs[..|inputs| - 1]) && !BootOver(u, inputs)
  {
    var front := inputs[..|inputs| - 1];
    assert inputs[..|inputs|] == inputs;
    forall k | 0 < k <= |front| ensures front[..k] == inputs[..k] {
    }
    hide BootOver;
  }

  /** Main result: without fault requests BOOTING ends, in READY, in the first pass that finds every configured
      motor online or the five seconds over. */
  lemma {:induction false} BootingEndsExactlyWhen(u: Setup, inputs: seq<Input>)
    requires NoFaults(inputs)
    ensures var t := RunFrom(INIT, u, inputs);
            && (t.phase == Booting <==> StillBooting(u, inputs))
            && (t.phase == Booting ==> t.threads.bootFirst == OnlineSince(u, inputs))
            && (inputs != [] && StillBooting(u, inputs[..|inputs| - 1]) && BootOver(u, inputs) ==> t.phase == Ready)
  {
    if inputs != [] {
      var front, i := inputs[..|inputs| - 1], inputs[|inputs| - 1];
      BootingEndsExactlyWhen(u, front);
      LastPass(INIT, u, inputs);
      StillBootingStep(u, inputs);
      var s := RunFrom(INIT, u, front);
      if s.phase == Booting {
        BootingStep(s, u, i, inputs);
      } else {
        LeavesBooting(s, u, i);
      }
      hide Pass, RunFrom, StillBooting, BootOver, OnlineSince;
    }
  }

  // ---------- the order of the phases ----------

  /** RUNNING is entered only from READY, FAULT is entered only on request and left only for READY, and BOOTING is
      left for READY or FAULT. */
  lemma PhasesInOrder(s: State, u: Setup, i: Input)
    requires Inv(s)
    ensures var t := Pass(s, u, i).phase;
            && (t == Running && s.phase != Running ==> s.phase == Ready)
            && (s.phase == Fault && t != Fault ==> t == Ready)
            && (s.phase == Booting && t != Booting ==> t == Ready || t == Fault)
            && (t == Booting ==> s.phase == Booting)
            && (t == Fault && s.phase != Fault ==> i.fault)
  {
    hide M.StartSucceeds, M.Started, M.PollPhase, CalibConfig, AnyOnline, AllOnline, BootTimedOut, ThreadsUp;
  }

  /** The transitions that are allowed, one by one. */
  lemma TransitionTable(p: (Stark, Stark))
    ensures Allowed(p.0, p.1) <==>
              p in {(Booting, Booting), (Booting, Ready), (Booting, Fault), (Ready, Ready), (Ready, Running),
                    (Ready, Fault),
                    (Running, Running), (Running, Ready), (Running, Fault), (Fault, Fault), (Fault, Ready)}
  {
  }

  // ---------- what each request does ----------

  predicate Quiet(i: Input) {
    !i.pressed && !i.fault
  }

  /** The first pass in READY needs no calibration. */
  lemma FirstReadyPass(s: State, u: Setup, i: Input)
    requires Inv(s) && s.phase == Ready && s.firstBoot && Quiet(i)
    ensures Pass(s, u, i) == s.(phase := Running, firstBoot := false, rtActive := true, calibState := 2)
  {
  }

  /** Without a request a node that runs or has a fault stays as it is. */
  lemma NothingRequested(s: State, u: Setup, i: Input)
    requires Inv(s) && (s.phase == Running || s.phase == Fault) && !s.flags.requested && Quiet(i)
    ensures Pass(s, u, i) == s
  {
  }

  /** A CALIBRATE in RUNNING or FAULT takes the node to READY with the request still pending, so that the next
      pass takes it up (CalibratedExactlyWhen). */
  lemma RequestReachesReady(s: State, u: Setup, i: Input)
    requires Inv(s) && (s.phase == Running || s.phase == Fault) && s.flags.requested && s.flags.toggle
    requires !s.flags.triggered && !s.firstBoot && Quiet(i)
    ensures Requested(Pass(s, u, i)) && !Pass(s, u, i).rtActive
  {
    PassKeepsInv(s, u, i);
  }

  /** A CANCEL in RUNNING or FAULT stops the RT thread, clears the result of the last calibration and ends one
      that a fault interrupted. */
  lemma CancelInService(s: State, u: Setup, i: Input)
    requires Inv(s) && (s.phase == Running || s.phase == Fault) && s.flags.requested && !s.flags.toggle && Quiet(i)
    ensures Pass(s, u, i)
            == s.(phase := Ready, rtActive := false, calibState := 0, ctx := None,
                  flags := Flags(false, false, s.flags.triggered && !s.flags.running, false, false))
  {
  }

  /** A CANCEL during a calibration ends it without a result; a second CALIBRATE is ignored. */
  lemma RequestWhileCalibrating(s: State, u: Setup, i: Input)
    requires Inv(s) && s.phase == Ready && s.flags.running && s.flags.requested && !s.firstBoot && Quiet(i)
    ensures Pass(s, u, i) == if s.flags.toggle then s.(flags := s.flags.(requested := false))
                             else s.(calibState := 0, ctx := None,
                                     flags := Flags(false, false, false, false, false))
  {
    hide M.PollPhase;
  }

  // ---------- the RT thread in BOOTING ----------

  /** Some pass so far saw a motor online and started the SYNC thread. */
  predicate Synced(u: Setup, inputs: seq<Input>) {
    exists k :: 0 <= k < |inputs| && SomeOnline(u, inputs[k]) && inputs[k].syncOk
  }

  lemma SyncedStep(u: Setup, inputs: seq<Input>)
    requires inputs != []
    ensures var n := |inputs| - 1;
            Synced(u, inputs) <==> Synced(u, inputs[..n]) || (SomeOnline(u, inputs[n]) && inputs[n].syncOk)
  {
    var n := |inputs| - 1;
    assert forall k :: 0 <= k < n ==> inputs[..n][k] == inputs[k];
    hide SomeOnline;
  }

  /** The mailbox is served in BOOTING exactly from the pass on that starts the SYNC thread. */
  lemma {:induction false} ActiveInBootingExactlyWhen(u: Setup, inputs: seq<Input>)
    requires NoFaults(inputs) && StillBooting(u, inputs)
    ensures var t := RunFrom(INIT, u, inputs);
            t.phase == Booting && (t.rtActive <==> Synced(u, inputs)) && (t.threads.syncStarted <==> Synced(u, inputs))
  {
    if inputs != [] {
      var front, i := inputs[..|inputs| - 1], inputs[|inputs| - 1];
      StillBootingStep(u, inputs);
      ActiveInBootingExactlyWhen(u, front);
      BootingEndsExactlyWhen(u, inputs);
      LastPass(INIT, u, inputs);
      SyncedStep(u, inputs);
      hide RunFrom, StillBooting, OnlineSince, BootOver, Synced, BootTimedOut, AllOnline;
    }
  }
}
