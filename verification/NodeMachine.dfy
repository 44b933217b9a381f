/** The node state machine and the calibration flags that the main loop drives (main_loop.cpp, motor_state.cpp). */
module NodeMachine {
  import opened Bytes
  import M = MotorCalib

  /** stark_state_t */
  datatype Stark = Booting | Ready | Running | Fault

  const BOOT_TIMEOUT_US: int := 5_000_000

  /** The values of stark_shm_t.calib_state; stark_ready() tests for the third. */
  const CALIB_NONE: byte := 0
  const CALIB_ACTIVE: byte := 1
  const CALIB_COMPLETE: byte := 2
  const CALIB_TIMED_OUT: byte := 3

  /** state_transition_allowed */
  predicate Allowed(from: Stark, to: Stark) {
    || from == to
    || to == Fault
    || (from == Booting && to == Ready)
    || (from == Ready && to == Running)
    || (from == Running && to == Ready)
    || (from == Fault && to == Ready)
  }

  /** What one pass of the loop sees: which of the motors 1 (right) and 2 (left) are online, the clock
      before and after starting the threads, whether the SYNC thread starts, whether motor_calib_create
      succeeds, the exchanges of start and poll, a fault request, and a calibration request at the end. */
  datatype Input = Input(
    right: bool, left: bool, now: u64, later: u64, syncOk: bool,
    created: bool, start: M.StartIo, poll: M.PollIo, fault: bool, pressed: bool)

  /** When the first motor came online (0 for none yet), and which threads have been started. */
  datatype Threads = Threads(bootFirst: u64, rtStarted: bool, syncStarted: bool)

  /** The calibration flags of g_ctx, and g_calib_triggered. */
  datatype Flags = Flags(requested: bool, toggle: bool, triggered: bool, running: bool, done: bool)

  /** `ctx` is the calibrator, if there is one; `calibState` is shm->calib_state; `denied` records whether
      state_transition ever refused. */
  datatype State = State(
    phase: Stark, threads: Threads, rtActive: bool, firstBoot: bool, flags: Flags, ctx: Option<M.Calib>,
    calibState: byte, denied: bool)

  const INIT := State(
    Booting, Threads(0, false, false), false, true, Flags(false, false, false, false, false), None, CALIB_NONE, false)

  /** Configuration fixed for the run: the number of motors and the calibration timeout. */
  datatype Setup = Setup(both: bool, timeoutMs: int)

  predicate AllOnline(u: Setup, i: Input) {
    i.right && (u.both ==> i.left)
  }

  predicate AnyOnline(u: Setup, i: Input) {
    i.right || (u.both && i.left)
  }

  function CalibConfig(u: Setup, i: Input): M.Config {
    M.Config(if i.right then 1 else 0, if u.both && i.left then 2 else 0, u.timeoutMs, 1.0, true)
  }

  function Go(s: State, to: Stark): State {
    if Allowed(s.phase, to) then s.(phase := to) else s.(denied := true)
  }

  /** Unsigned 64-bit subtraction. */
  predicate BootTimedOut(first: u64, now: u64) {
    (now - first) % TWO_64 > BOOT_TIMEOUT_US
  }

  // ---------- one pass, part by part ----------

  /** What starting the threads leaves behind once a motor is online. */
  function ThreadsUp(t: Threads, i: Input): Threads {
    Threads(if t.bootFirst == 0 then i.now else t.bootFirst, true, t.syncStarted || i.syncOk)
  }

  function BootingPass(s: State, u: Setup, i: Input): State {
    if !AnyOnline(u, i) then s.(threads := s.threads.(bootFirst := 0))
    else
      var t := ThreadsUp(s.threads, i);
      var active := s.rtActive || t.syncStarted;
      if AllOnline(u, i) || BootTimedOut(t.bootFirst, i.later)
      then Go(s.(threads := t.(bootFirst := 0), rtActive := active), Ready)
      else s.(threads := t, rtActive := active)
  }

  /** A request with nothing running: CALIBRATE creates and starts a calibration, CANCEL does nothing. */
  function Begun(s: State, u: Setup, i: Input): State {
    var f := s.flags.(requested := false);
    if !s.flags.requested || s.flags.running || s.flags.triggered then s
    else if !f.toggle then s.(flags := f)
    else
      var ctx := if s.ctx.Some? then s.ctx else if i.created then Some(M.FRESH) else None;
      if ctx.None? then s.(flags := f.(triggered := true), rtActive := false)
      else if M.StartSucceeds(ctx.value, CalibConfig(u, i), i.start)
      then s.(flags := f.(triggered := true, running := true), rtActive := false, calibState := CALIB_ACTIVE,
              ctx := Some(M.Started(ctx.value, CalibConfig(u, i), i.start)))
      else s.(flags := f, rtActive := true, ctx := None)
  }

  function Ended(s: State, complete: bool, outcome: byte): State {
    s.(flags := s.flags.(done := complete, running := false, triggered := false), rtActive := true,
       calibState := outcome, ctx := None)
  }

  function Advanced(s: State, i: Input): State {
    if !s.flags.running || s.ctx.None? then s
    else
      var c := M.Polled(s.ctx.value, i.poll);
      match c.phase
      case Done => Go(Ended(s, true, CALIB_COMPLETE), Running)
      case Timeout => Go(Ended(s, true, CALIB_TIMED_OUT), Running)
      case Failed => Ended(s, false, CALIB_TIMED_OUT)
      case _ => s.(ctx := Some(c))
  }

  function Aborted(s: State): State {
    s.(flags := s.flags.(requested := false, running := false, triggered := false, done := false),
       calibState := CALIB_NONE, ctx := None)
  }

  function ReadyPass(s: State, u: Setup, i: Input): State {
    if s.flags.done then Go(s.(rtActive := true), Running)
    else if s.firstBoot then Go(s.(firstBoot := false, rtActive := true, calibState := CALIB_COMPLETE), Running)
    else if s.flags.requested && s.flags.running then
      if s.flags.toggle then s.(flags := s.flags.(requested := false)) else Aborted(s)
    else Advanced(Begun(s, u, i), i)
  }

  function ServicePass(s: State): State {
    if !s.flags.requested then s
    else if s.flags.toggle then Go(s.(flags := s.flags.(done := false), rtActive := false), Ready)
    else if s.flags.running && s.ctx.Some? then Go(Aborted(s).(rtActive := false), Ready)
    else
      Go(s.(flags := s.flags.(requested := false, done := false), rtActive := false, calibState := CALIB_NONE), Ready)
  }

  function Dispatch(s: State, u: Setup, i: Input): State {
    match s.phase
    case Booting => BootingPass(s, u, i)
    case Ready => ReadyPass(s, u, i)
    case _ => ServicePass(s)
  }

  function PendingFault(s: State, i: Input): State {
    if i.fault && s.phase != Fault then Go(s, Fault) else s
  }

  function EndOfPass(s: State, i: Input): State {
    if i.pressed then s.(flags := s.flags.(requested := true, toggle := !s.flags.toggle)) else s
  }

  function Pass(s: State, u: Setup, i: Input): State {
    EndOfPass(PendingFault(Dispatch(s, u, i), i), i)
  }

  // ---------- the loop as the source writes it ----------

  class Node {
    const setup: Setup
    var phase: Stark
    var threads: Threads
    var rtActive: bool
    var firstBoot: bool
    var flags: Flags
    var ctx: M.Calibrator?
    var calibState: byte
    ghost var denied: bool

    ghost function View(): State
      reads this, ctx
    {
      State(phase, threads, rtActive, firstBoot, flags, if ctx == null then None else Some(ctx.View()),
            calibState, denied)
    }

    constructor (u: Setup)
      ensures setup == u && View() == INIT
    {
      setup := u;
      phase, threads, rtActive, firstBoot := Booting, Threads(0, false, false), false, true;
      flags, ctx, calibState, denied := Flags(false, false, false, false, false), null, CALIB_NONE, false;
    }

    /** state_transition */
    method Transition(to: Stark) returns (ok: bool)
      modifies this`phase, this`denied
      ensures ok == Allowed(old(phase), to)
      ensures phase == (if ok then to else old(phase)) && denied == (old(denied) || !ok)
    {
      if !Allowed(phase, to) {
        denied := true;
        return false;
      }
      phase := to;
      ok := true;
    }

    /** The RT and SYNC threads start, and the mailbox is activated, once one motor is online. */
    method StartThreads(i: Input)
      modifies this`threads, this`rtActive
      ensures threads == ThreadsUp(old(threads), i) && rtActive == (old(rtActive) || threads.syncStarted)
    {
      if threads.bootFirst == 0 {
        threads := threads.(bootFirst := i.now);
      }
      if !threads.rtStarted {
        threads := threads.(rtStarted := true);
      }
      if !threads.syncStarted {
        threads := threads.(syncStarted := i.syncOk);
      }
      if threads.rtStarted && threads.syncStarted && !rtActive {
        rtActive := true;
      }
    }

    method PollBooting(i: Input)
      modifies this`phase, this`threads, this`rtActive, this`denied
      ensures View() == BootingPass(old(View()), setup, i)
    {
      hide AnyOnline, AllOnline, BootTimedOut, Allowed, ThreadsUp;
      if !AnyOnline(setup, i) {
        threads := threads.(bootFirst := 0);
        return;
      }
      StartThreads(i);
      if AllOnline(setup, i) {
        threads := threads.(bootFirst := 0);
        var _ := Transition(Ready);
        return;
      }
      if BootTimedOut(threads.bootFirst, i.later) {
        threads := threads.(bootFirst := 0);
        var _ := Transition(Ready);
      }
    }

    method BeginCalibration(i: Input)
      modifies this`flags, this`rtActive, this`calibState, this`ctx, ctx
      ensures View() == Begun(old(View()), setup, i)
      ensures ctx == old(ctx) || ctx == null || fresh(ctx)
    {
      hide M.StartSucceeds, M.Started, CalibConfig;
      if flags.requested && !flags.running && !flags.triggered {
        flags := flags.(requested := false);
        if flags.toggle {
          flags := flags.(triggered := true);
          rtActive := false;
          if ctx == null && i.created {
            ctx := new M.Calibrator();
          }
          if ctx != null {
            var ok := ctx.Start(CalibConfig(setup, i), i.start);
            if ok {
              flags, calibState := flags.(running := true), CALIB_ACTIVE;
            } else {
              ctx := null;
              flags, rtActive := flags.(triggered := false), true;
            }
          }
        }
      }
    }

    method AdvanceCalibration(i: Input)
      modifies this`phase, this`denied, this`flags, this`rtActive, this`calibState, this`ctx, ctx
      ensures View() == Advanced(old(View()), i)
      ensures ctx == old(ctx) || ctx == null
    {
      hide M.PollPhase, Allowed;
      if flags.running && ctx != null {
        var result := ctx.Poll(i.poll);
        if result == M.Done {
          flags := flags.(done := true, running := false, triggered := false);
          ctx, rtActive, calibState := null, true, CALIB_COMPLETE;
          var _ := Transition(Running);
        } else if result == M.Timeout {
          flags := flags.(done := true, running := false, triggered := false);
          ctx, rtActive, calibState := null, true, CALIB_TIMED_OUT;
          var _ := Transition(Running);
        } else if result == M.Failed {
          flags := flags.(done := false, running := false, triggered := false);
          ctx, rtActive, calibState := null, true, CALIB_TIMED_OUT;
        }
      }
    }

    method PollReady(i: Input)
      modifies this, ctx
      ensures View() == ReadyPass(old(View()), setup, i)
      ensures ctx == old(ctx) || ctx == null || fresh(ctx)
    {
      hide Begun, Advanced, Allowed;
      if flags.done {
        rtActive := true;
        var _ := Transition(Running);
        return;
      }
      if firstBoot {
        firstBoot, rtActive, calibState := false, true, CALIB_COMPLETE;
        var _ := Transition(Running);
        return;
      }
      if flags.requested && flags.running {
        flags := flags.(requested := false);
        if !flags.toggle {
          if ctx != null {
            ctx.Exit();
            ctx := null;
          }
          flags, calibState := flags.(running := false, triggered := false, done := false), CALIB_NONE;
        }
        return;
      }
      BeginCalibration(i);
      AdvanceCalibration(i);
    }

    /** The RUNNING and FAULT branch of the loop. */
    method Service()
      modifies this, ctx
      ensures View() == ServicePass(old(View()))
      ensures ctx == old(ctx) || ctx == null
    {
      hide Allowed;
      if flags.requested {
        flags := flags.(requested := false);
        if flags.toggle {
          rtActive, flags := false, flags.(done := false);
          flags := flags.(requested := true);
          var _ := Transition(Ready);
        } else {
          rtActive := false;
          if flags.running && ctx != null {
            ctx.Exit();
            ctx, flags := null, flags.(running := false, triggered := false);
          }
          flags, calibState := flags.(done := false), CALIB_NONE;
          var _ := Transition(Ready);
        }
      }
    }

    method PollRtPending(i: Input)
      modifies this`phase, this`denied
      ensures View() == PendingFault(old(View()), i)
    {
      hide Allowed;
      if i.fault && phase != Fault {
        var _ := Transition(Fault);
      }
    }

    /** The body of the main loop. */
    method Iterate(i: Input)
      modifies this, ctx
      ensures View() == Pass(old(View()), setup, i)
    {
      hide BootingPass, ReadyPass, ServicePass, PendingFault;
      match phase {
        case Booting => PollBooting(i);
        case Ready => PollReady(i);
        case _ => Service();
      }
      PollRtPending(i);
      if i.pressed {
        flags := flags.(requested := true, toggle := !flags.toggle);
      }
    }
  }

  // ---------- every run ----------

  function RunFrom(s: State, u: Setup, inputs: seq<Input>): State {
    if inputs == [] then s else Pass(RunFrom(s, u, inputs[..|inputs| - 1]), u, inputs[|inputs| - 1])
  }

  predicate Calibrating(s: State) {
    s.ctx.Some? && s.ctx.value.phase.Checking?
  }

  /** A calibration was triggered but none exists: motor_calib_create returned nothing. */
  predicate Stuck(s: State) {
    s.flags.triggered && !s.flags.running
  }

  /** The flags agree at the boundary of every pass: a calibration is running exactly when its calibrator
      exists and is checking and when calib_state says so; the RT thread is inactive meanwhile (PDO and SDO
      traffic never mix); RUNNING means active and not calibrating; and no transition is ever refused. */
  predicate Inv(s: State) {
    && !s.denied
    && (s.flags.running <==> s.ctx.Some?)
    && (s.flags.running <==> Calibrating(s))
    && (s.flags.running <==> s.calibState == CALIB_ACTIVE)
    && (s.flags.running ==> s.flags.triggered)
    && (s.flags.triggered ==> !s.rtActive && (s.phase == Ready || s.phase == Fault))
    && (s.flags.done ==> s.phase == Running || s.phase == Fault)
    && (s.phase == Running ==> s.rtActive && (s.calibState == CALIB_COMPLETE || s.calibState == CALIB_TIMED_OUT))
    && (s.firstBoot ==> !s.flags.triggered && !s.flags.done && s.calibState == CALIB_NONE)
    && (s.phase == Booting ==> s.firstBoot)
  }

  lemma AdvancedKeepsInv(s: State, i: Input)
    requires Inv(s) && s.phase == Ready && !s.firstBoot
    ensures Inv(Advanced(s, i))
  {
    hide M.Expired, M.InPlace, M.IfUsed;
  }

  lemma BegunKeepsInv(s: State, u: Setup, i: Input)
    requires Inv(s) && s.phase == Ready && !s.firstBoot
    ensures Inv(Begun(s, u, i)) && Begun(s, u, i).phase == Ready && !Begun(s, u, i).firstBoot
  {
    hide M.IfUsed, M.Normalized, CalibConfig;
  }

  lemma PassKeepsInv(s: State, u: Setup, i: Input)
    requires Inv(s)
    ensures Inv(Pass(s, u, i))
  {
    if s.phase == Ready && !s.firstBoot {
      BegunKeepsInv(s, u, i);
      AdvancedKeepsInv(Begun(s, u, i), i);
    }
    hide Begun, Advanced, AnyOnline, AllOnline, BootTimedOut, ThreadsUp;
    assert Inv(Dispatch(s, u, i));
  }

  /** Main result: the invariant holds after every run of the main loop, whatever the motors, the clock, the
      SDO exchanges, the RT thread and the button do. */
  lemma {:induction false} AlwaysInv(u: Setup, inputs: seq<Input>)
    ensures Inv(RunFrom(INIT, u, inputs))
  {
    if inputs != [] {
      AlwaysInv(u, inputs[..|inputs| - 1]);
      PassKeepsInv(RunFrom(INIT, u, inputs[..|inputs| - 1]), u, inputs[|inputs| - 1]);
    }
  }

  /** So the branch of poll_ready for a finished calibration is never taken: whenever READY is dispatched,
      calib_done is false. */
  lemma DoneBranchIsDead(u: Setup, inputs: seq<Input>)
    requires RunFrom(INIT, u, inputs).phase == Ready
    ensures !RunFrom(INIT, u, inputs).flags.done
  {
    AlwaysInv(u, inputs);
  }

  /** BOOTING is left once and for all. */
  lemma {:induction false} BootingIsNotReentered(u: Setup, inputs: seq<Input>, more: seq<Input>)
    requires RunFrom(INIT, u, inputs).phase != Booting
    ensures RunFrom(INIT, u, inputs + more).phase != Booting
  {
    if more == [] {
      assert inputs + more == inputs;
    } else {
      var front := inputs + more[..|more| - 1];
      BootingIsNotReentered(u, inputs, more[..|more| - 1]);
      AlwaysInv(u, front);
      AlwaysInv(u, inputs + more);
      assert (inputs + more)[..|inputs + more| - 1] == front;
      LeavesBooting(RunFrom(INIT, u, front), u, more[|more| - 1]);
    }
  }

  lemma LeavesBooting(s: State, u: Setup, i: Input)
    requires s.phase != Booting
    ensures Pass(s, u, i).phase != Booting
  {
    ReadyKeeps(s, u, i);
    ServiceKeeps(s);
    hide ReadyPass, ServicePass;
  }

  // ---------- the outcomes of a calibration ----------

  function Polls(inputs: seq<Input>): (ios: seq<M.PollIo>)
    ensures |ios| == |inputs| && forall k :: 0 <= k < |inputs| ==> ios[k] == inputs[k].poll
  {
    seq(|inputs|, k requires 0 <= k < |inputs| => inputs[k].poll)
  }

  /** Neither the button nor the RT thread interferes. */
  predicate Undisturbed(inputs: seq<Input>) {
    forall k :: 0 <= k < |inputs| ==> !inputs[k].pressed && !inputs[k].fault
  }

  /** A node `s` that was calibrating has come to `t`, given what the polls came to: DONE and TIMEOUT lead to
      RUNNING (only the first with stark_ready()), FAILED to READY with the RT thread active and a retry
      possible, and until then it goes on calibrating. */
  predicate Came(t: State, c: M.Calib) {
    && !t.flags.requested && !t.firstBoot
    && (c.phase.Checking? ==> t.phase == Ready && t.ctx == Some(c) && t.flags.running)
    && (c.phase.Done? ==> t.phase == Running && t.calibState == CALIB_COMPLETE && t.flags.done)
    && (c.phase.Timeout? ==> t.phase == Running && t.calibState == CALIB_TIMED_OUT && t.flags.done)
    && (c.phase.Failed? ==> t.phase == Ready && t.calibState == CALIB_TIMED_OUT && t.rtActive && !t.flags.running
                            && !t.flags.triggered && !t.flags.done)
    && !c.phase.Idle?
  }

  lemma CamePass(t: State, c: M.Calib, u: Setup, i: Input)
    requires Inv(t) && Came(t, c) && !i.fault && !i.pressed
    ensures Came(Pass(t, u, i), M.Polled(c, i.poll))
  {
    hide M.Expired, M.InPlace, M.IfUsed;
  }

  /** Main result: over any number of undisturbed passes a calibrating node goes where the polls of its
      calibrator, taken in a row, end up. With `MotorCalib.PollsEndExactlyWhen` this says from the motors'
      answers alone when it reaches RUNNING and with which calib_state. */
  lemma {:induction false} CalibrationOutcome(s: State, u: Setup, inputs: seq<Input>)
    requires Inv(s) && s.phase == Ready && s.flags.running && !s.flags.requested && !s.firstBoot && Undisturbed(inputs)
    ensures Inv(RunFrom(s, u, inputs)) && Came(RunFrom(s, u, inputs), M.PolledAll(s.ctx.value, Polls(inputs)))
  {
    if inputs != [] {
      var front, i := inputs[..|inputs| - 1], inputs[|inputs| - 1];
      CalibrationOutcome(s, u, front);
      var t := RunFrom(s, u, front);
      assert Polls(inputs)[..|front|] == Polls(front);
      PassKeepsInv(t, u, i);
      CamePass(t, M.PolledAll(s.ctx.value, Polls(front)), u, i);
      hide Pass, Came, Inv, M.Polled;
    }
  }

  /** With no motor online there is nothing to check: a calibration requested in READY completes in the pass
      that starts it. */
  lemma NothingToCalibrate(s: State, u: Setup, i: Input)
    requires Inv(s) && s.phase == Ready && !s.firstBoot && s.flags.requested && s.flags.toggle && !s.flags.triggered
    requires !AnyOnline(u, i) && i.created && !i.fault
    requires !M.Expired(M.Started(M.FRESH, CalibConfig(u, i), i.start), i.poll.now)
    ensures var t := Pass(s, u, i); t.phase == Running && t.flags.done && t.calibState == CALIB_COMPLETE
  {
    var c := M.Started(M.FRESH, CalibConfig(u, i), i.start);
    assert M.StartSucceeds(M.FRESH, CalibConfig(u, i), i.start);
    assert M.PollPhase(c, i.poll).Done?;
    hide M.PollPhase, M.StartSucceeds, M.Started, CalibConfig;
  }

  // ---------- a calibrator that cannot be created ----------

  /** Exactly one thing gets the node stuck: a CALIBRATE request in READY whose calibrator is not created. */
  lemma StuckExactlyWhen(s: State, u: Setup, i: Input)
    requires Inv(s) && !Stuck(s)
    ensures Stuck(Pass(s, u, i)) <==>
              s.phase == Ready && !s.firstBoot && s.flags.requested && s.flags.toggle && !s.flags.running && !i.created
  {
    hide M.StartSucceeds, M.Started, M.PollPhase, CalibConfig, AnyOnline, AllOnline, BootTimedOut, ThreadsUp;
  }

  /** Main result: from then on, whatever happens, the node never runs, never calibrates and never
      reactivates the RT thread again. */
  lemma {:induction false} StuckForever(s: State, u: Setup, inputs: seq<Input>)
    requires Inv(s) && Stuck(s)
    ensures var t := RunFrom(s, u, inputs);
            Inv(t) && Stuck(t) && t.phase != Running && !t.flags.running && !t.rtActive
  {
    if inputs != [] {
      var t := RunFrom(s, u, inputs[..|inputs| - 1]);
      StuckForever(s, u, inputs[..|inputs| - 1]);
      PassKeepsInv(t, u, inputs[|inputs| - 1]);
      StaysStuck(t, u, inputs[|inputs| - 1]);
    }
  }

  lemma StaysStuck(s: State, u: Setup, i: Input)
    requires Inv(s) && Stuck(s)
    ensures Stuck(Pass(s, u, i))
  {
    hide M.StartSucceeds, M.Started, M.PollPhase, CalibConfig, AnyOnline, AllOnline, BootTimedOut, ThreadsUp;
  }

  // ---------- the RT thread ----------

  /** Pass k was dispatched in BOOTING with a motor online. */
  predicate MotorSeenAt(u: Setup, inputs: seq<Input>, k: int)
    requires 0 <= k < |inputs|
  {
    RunFrom(INIT, u, inputs[..k]).phase == Booting && AnyOnline(u, inputs[k])
  }

  predicate MotorSeen(u: Setup, inputs: seq<Input>) {
    exists k :: 0 <= k < |inputs| && MotorSeenAt(u, inputs, k)
  }

  lemma MotorSeenStep(u: Setup, inputs: seq<Input>)
    requires inputs != []
    ensures var n := |inputs| - 1;
            MotorSeen(u, inputs) <==> MotorSeen(u, inputs[..n]) || MotorSeenAt(u, inputs, n)
  {
    var n := |inputs| - 1;
    forall k | 0 <= k < n ensures MotorSeenAt(u, inputs, k) == MotorSeenAt(u, inputs[..n], k) {
      assert inputs[..n][..k] == inputs[..k];
      hide RunFrom, AnyOnline;
    }
    hide MotorSeenAt;
  }

  lemma ThreadsAfter(s: State, u: Setup, i: Input)
    ensures Pass(s, u, i).threads.rtStarted == (s.threads.rtStarted || (s.phase == Booting && AnyOnline(u, i)))
  {
    DispatchKeeps(s, u, i);
    hide Dispatch, AnyOnline;
  }

  lemma DispatchKeeps(s: State, u: Setup, i: Input)
    ensures Dispatch(s, u, i).flags.toggle == s.flags.toggle
    ensures Dispatch(s, u, i).threads.rtStarted
            == (s.threads.rtStarted || (s.phase == Booting && AnyOnline(u, i)))
  {
    ReadyKeeps(s, u, i);
    BootingKeeps(s, u, i);
    ServiceKeeps(s);
    hide BootingPass, ReadyPass, ServicePass, AnyOnline;
  }

  lemma ReadyKeeps(s: State, u: Setup, i: Input)
    ensures ReadyPass(s, u, i).threads == s.threads && ReadyPass(s, u, i).flags.toggle == s.flags.toggle
    ensures s.phase != Booting ==> ReadyPass(s, u, i).phase != Booting
  {
    hide M.StartSucceeds, M.Started, M.PollPhase, CalibConfig;
  }

  lemma ServiceKeeps(s: State)
    ensures ServicePass(s).threads == s.threads && ServicePass(s).flags.toggle == s.flags.toggle
    ensures s.phase != Booting ==> ServicePass(s).phase != Booting
  {
  }

  lemma BootingKeeps(s: State, u: Setup, i: Input)
    ensures BootingPass(s, u, i).threads.rtStarted == (s.threads.rtStarted || AnyOnline(u, i))
    ensures BootingPass(s, u, i).flags == s.flags
  {
    hide AnyOnline, AllOnline, BootTimedOut;
  }

  /** Main result: the RT thread has been started exactly when some pass in BOOTING saw a motor. */
  lemma {:induction false} ThreadStartedIffMotorSeen(u: Setup, inputs: seq<Input>)
    ensures RunFrom(INIT, u, inputs).threads.rtStarted <==> MotorSeen(u, inputs)
  {
    if inputs != [] {
      var n := |inputs| - 1;
      ThreadStartedIffMotorSeen(u, inputs[..n]);
      ThreadsAfter(RunFrom(INIT, u, inputs[..n]), u, inputs[n]);
      LastPass(INIT, u, inputs);
      MotorSeenStep(u, inputs);
      hide Pass, RunFrom, AnyOnline, MotorSeen;
    }
  }

  lemma LastPass(s: State, u: Setup, inputs: seq<Input>)
    requires inputs != []
    ensures RunFrom(s, u, inputs) == Pass(RunFrom(s, u, inputs[..|inputs| - 1]), u, inputs[|inputs| - 1])
  {
  }

  /** No pass dispatched in BOOTING met a fault request. */
  predicate BootedInPeace(u: Setup, inputs: seq<Input>) {
    forall k :: 0 <= k < |inputs| && inputs[k].fault ==> RunFrom(INIT, u, inputs[..k]).phase != Booting
  }

  /** So without such a fault a node that has left BOOTING, and in particular one in RUNNING, has its RT
      thread. */
  lemma {:induction false} RunningHasItsThread(u: Setup, inputs: seq<Input>)
    requires BootedInPeace(u, inputs)
    ensures var t := RunFrom(INIT, u, inputs); t.phase != Booting ==> t.threads.rtStarted
  {
    if inputs != [] {
      var n := |inputs| - 1;
      var front := inputs[..n];
      assert BootedInPeace(u, front) by {
        forall k | 0 <= k < n && front[k].fault ensures RunFrom(INIT, u, front[..k]).phase != Booting {
          assert front[..k] == inputs[..k];
        }
      }
      RunningHasItsThread(u, front);
      LastPass(INIT, u, inputs);
      ThreadsAfter(RunFrom(INIT, u, front), u, inputs[n]);
      var before := RunFrom(INIT, u, front);
      if before.phase == Booting && Pass(before, u, inputs[n]).phase != Booting {
        LeavingBooting(before, u, inputs[n]);
      }
      hide RunFrom, Pass;
    }
  }

  lemma LeavingBooting(s: State, u: Setup, i: Input)
    requires s.phase == Booting && !i.fault && Pass(s, u, i).phase != Booting
    ensures AnyOnline(u, i)
  {
  }

  /** A fault before any motor is online, with a press of the button, leads to RUNNING without the thread
      that would serve the mailbox. */
  lemma RunningWithoutTheThread(u: Setup, i: Input, j: Input, k: Input)
    requires !AnyOnline(u, i) && i.fault && i.pressed && !j.fault && !j.pressed && !k.fault
    ensures var t := RunFrom(INIT, u, [i, j, k]);
            t.phase == Running && t.rtActive && t.calibState == CALIB_COMPLETE && !t.threads.rtStarted
  {
    var s1 := Pass(INIT, u, i);
    var s2 := Pass(s1, u, j);
    var s3 := Pass(s2, u, k);
    assert s1.phase == Fault && s1.flags.requested && s1.flags.toggle && s1.firstBoot && !s1.threads.rtStarted;
    assert s2.phase == Ready && s2.firstBoot && !s2.flags.done && !s2.threads.rtStarted;
    assert [i, j, k][..2] == [i, j] && [i, j][..1] == [i] && [i][..0] == [];
    assert s3 == RunFrom(INIT, u, [i, j, k]) by {
      hide Pass;
      LastPass(INIT, u, [i, j, k]);
      LastPass(INIT, u, [i, j]);
      LastPass(INIT, u, [i]);
    }
  }

  // ---------- a cancel with nothing to cancel ----------

  /** The comment in poll_ready speaks of falling through to RUNNING; the code stays in READY and only
      consumes the request. */
  lemma CancelInReady(s: State, u: Setup, i: Input)
    requires s.phase == Ready && !s.firstBoot && !s.flags.done && s.flags.requested && !s.flags.toggle
    requires !s.flags.running && !s.flags.triggered && !i.fault && !i.pressed
    ensures Pass(s, u, i) == s.(flags := s.flags.(requested := false))
  {
  }

  // ---------- stark_ready() while the RT thread is inactive ----------

  /** Clients read calib_state 2 as permission to command the motors, but no mailbox frame is read. */
  predicate Misleading(s: State) {
    s.calibState == CALIB_COMPLETE && !s.rtActive
  }

  /** Main result: exactly one kind of pass makes a node misleading: a CALIBRATE request taken up after a
      completed calibration or first boot, in RUNNING or FAULT, or in READY when no calibrator is created. */
  lemma MisleadingExactlyWhen(s: State, u: Setup, i: Input)
    requires Inv(s) && !Misleading(s)
    ensures Misleading(Pass(s, u, i)) <==>
              && s.calibState == CALIB_COMPLETE && s.flags.requested && s.flags.toggle
              && (s.phase == Running || s.phase == Fault
                  || (s.phase == Ready && !s.flags.triggered && !i.created))
  {
    hide M.StartSucceeds, M.Started, M.PollPhase, CalibConfig, AnyOnline, AllOnline, BootTimedOut, ThreadsUp;
  }

  /** Main result: and it stays so exactly until a calibrator is created in READY (and then starts or fails
      to), or a CANCEL is taken up in FAULT. */
  lemma MisleadingUntil(s: State, u: Setup, i: Input)
    requires Inv(s) && Misleading(s)
    ensures s.phase == Ready || s.phase == Fault
    ensures Misleading(Pass(s, u, i)) <==>
              !(s.flags.requested &&
                if s.phase == Ready then s.flags.toggle && !s.flags.triggered && i.created else !s.flags.toggle)
  {
    hide M.StartSucceeds, M.Started, M.PollPhase, CalibConfig, AnyOnline, AllOnline, BootTimedOut, ThreadsUp;
  }

  /** For instance, two presses in successive passes from RUNNING leave a misleading node in READY with
      nothing requested, where it stays until the button is pressed again. */
  lemma TwoQuickPresses(s: State, u: Setup, i: Input, j: Input)
    requires Inv(s) && s.phase == Running && s.calibState == CALIB_COMPLETE && s.flags.requested && s.flags.toggle
    requires !i.fault && i.pressed && !j.fault && !j.pressed
    ensures var t := Pass(Pass(s, u, i), u, j);
            t.phase == Ready && Misleading(t) && !t.flags.running && !t.flags.requested
  {
    var t := Pass(s, u, i);
    assert t.phase == Ready && t.flags.requested && !t.flags.toggle && !t.flags.triggered && !t.flags.done;
    MisleadingExactlyWhen(s, u, i);
    PassKeepsInv(s, u, i);
    CancelInReady(t, u, j);
  }

  // ---------- the button ----------

  function Presses(inputs: seq<Input>): nat {
    if inputs == [] then 0 else Presses(inputs[..|inputs| - 1]) + if inputs[|inputs| - 1].pressed then 1 else 0
  }

  /** Every press turns the toggle over: the first, third, ... press asks for CALIBRATE (true), the others for
      CANCEL (false). */
  lemma {:induction false} PressesAlternate(u: Setup, inputs: seq<Input>)
    ensures RunFrom(INIT, u, inputs).flags.toggle <==> Presses(inputs) % 2 == 1
  {
    if inputs != [] {
      var front, i := inputs[..|inputs| - 1], inputs[|inputs| - 1];
      PressesAlternate(u, front);
      PassToggles(RunFrom(INIT, u, front), u, i);
      hide Pass;
    }
  }

  lemma PassToggles(s: State, u: Setup, i: Input)
    ensures Pass(s, u, i).flags.toggle == (s.flags.toggle != i.pressed)
  {
    DispatchKeeps(s, u, i);
    hide Dispatch;
  }
}
