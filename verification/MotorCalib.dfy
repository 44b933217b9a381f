/** The calibration of the joint motors (motor_calib.c). */
module MotorCalib {
  import opened Bytes

  datatype Phase = Idle | Checking | Done | Timeout | Failed

  /** A motor id of 0 means that the side is not used. */
  datatype Config = Config(idR: byte, idL: byte, timeoutMs: int, threshold: real, enableAfterDone: bool)

  const NO_CONFIG := Config(0, 0, 0, 0.0, false)
  const DEFAULT_TIMEOUT_MS: int := 10000
  const DEFAULT_THRESHOLD: real := 1.0

  datatype Calib = Calib(phase: Phase, cfg: Config, startUs: u64)

  const FRESH := Calib(Idle, NO_CONFIG, 0)

  /** What the SDO exchanges of motor_calib_start returned, and the clock after them. */
  datatype StartIo = StartIo(shutdownR: bool, shutdownL: bool, zeroR: bool, zeroL: bool, now: u64)

  /** What one motor_calib_poll sees: the clock, the cached positions, and whether the mode switch and the
      three enabling writes succeed. */
  datatype PollIo = PollIo(
    now: u64, positionR: Option<s16>, positionL: Option<s16>, modeR: bool, modeL: bool, enableR: bool, enableL: bool)

  /** A condition on a side that only counts when the side is used. */
  predicate IfUsed(id: byte, ok: bool) {
    id > 0 ==> ok
  }

  function Normalized(cfg: Config): Config {
    cfg.(timeoutMs := if cfg.timeoutMs <= 0 then DEFAULT_TIMEOUT_MS else cfg.timeoutMs,
         threshold := if cfg.threshold <= 0.0 then DEFAULT_THRESHOLD else cfg.threshold)
  }

  predicate CanStart(c: Calib) {
    c.phase.Idle? || c.phase.Timeout?
  }

  predicate StartSucceeds(c: Calib, cfg: Config, io: StartIo) {
    && CanStart(c)
    && IfUsed(cfg.idR, io.shutdownR) && IfUsed(cfg.idL, io.shutdownL)
    && IfUsed(cfg.idR, io.zeroR) && IfUsed(cfg.idL, io.zeroL)
  }

  /** A refused start leaves the phase alone. */
  function Started(c: Calib, cfg: Config, io: StartIo): Calib {
    if StartSucceeds(c, cfg, io) then Calib(Checking, Normalized(cfg), io.now)
    else if CanStart(c) then c.(cfg := Normalized(cfg))
    else c
  }

  function AngleDeg(position: s16): real {
    position as real * 180.0 / 32768.0
  }

  predicate InPlace(id: byte, position: Option<s16>, threshold: real) {
    IfUsed(id, position.Some? && -threshold <= AngleDeg(position.value) <= threshold)
  }

  predicate Expired(c: Calib, now: u64) {
    (now - c.startUs) % TWO_64 > (c.cfg.timeoutMs * 1000) % TWO_64
  }

  function PollPhase(c: Calib, io: PollIo): Phase {
    if !c.phase.Checking? then c.phase
    else if Expired(c, io.now) then Timeout
    else if !InPlace(c.cfg.idR, io.positionR, c.cfg.threshold) || !InPlace(c.cfg.idL, io.positionL, c.cfg.threshold)
    then Checking
    else if !c.cfg.enableAfterDone then Done
    else if !IfUsed(c.cfg.idR, io.modeR) || !IfUsed(c.cfg.idL, io.modeL) then Failed
    else if !IfUsed(c.cfg.idR, io.enableR) || !IfUsed(c.cfg.idL, io.enableL) then Timeout
    else Done
  }

  function Polled(c: Calib, io: PollIo): Calib {
    c.(phase := PollPhase(c, io))
  }

  /** struct motor_calib */
  class Calibrator {
    var phase: Phase
    var cfg: Config
    var startUs: u64

    function View(): Calib
      reads this
    {
      Calib(phase, cfg, startUs)
    }

    /** motor_calib_create */
    constructor ()
      ensures View() == FRESH
    {
      phase, cfg, startUs := Idle, NO_CONFIG, 0;
    }

    method Start(config: Config, io: StartIo) returns (ok: bool)
      modifies this
      ensures ok == StartSucceeds(old(View()), config, io)
      ensures View() == Started(old(View()), config, io)
    {
      if phase != Idle && phase != Timeout {
        return false;
      }
      cfg := config;
      if cfg.timeoutMs <= 0 {
        cfg := cfg.(timeoutMs := 10000);
      }
      if cfg.threshold <= 0.0 {
        cfg := cfg.(threshold := 1.0);
      }
      var failed := false;
      if config.idR > 0 { failed := failed || !io.shutdownR; }
      if config.idL > 0 { failed := failed || !io.shutdownL; }
      if failed {
        return false;
      }
      if config.idR > 0 { failed := failed || !io.zeroR; }
      if config.idL > 0 { failed := failed || !io.zeroL; }
      if failed {
        return false;
      }
      phase, startUs := Checking, io.now;
      ok := true;
    }

    method Poll(io: PollIo) returns (r: Phase)
      modifies this`phase
      ensures View() == Polled(old(View()), io) && r == phase
    {
      if phase != Checking {
        return phase;
      }
      var elapsed := (io.now - startUs) % TWO_64;
      if elapsed > (cfg.timeoutMs * 1000) % TWO_64 {
        phase := Timeout;
        return phase;
      }
      var needR, needL := cfg.idR > 0, cfg.idL > 0;
      if (needR && io.positionR.None?) || (needL && io.positionL.None?) {
        return Checking;
      }
      if needR {
        var angle := AngleDeg(io.positionR.value);
        if angle < -cfg.threshold || angle > cfg.threshold {
          return Checking;
        }
      }
      if needL {
        var angle := AngleDeg(io.positionL.value);
        if angle < -cfg.threshold || angle > cfg.threshold {
          return Checking;
        }
      }
      if cfg.enableAfterDone {
        if (needR && !io.modeR) || (needL && !io.modeL) {
          phase := Failed;
          return phase;
        }
        if (needR && !io.enableR) || (needL && !io.enableL) {
          phase := Timeout;
          return phase;
        }
      }
      phase := Done;
      r := phase;
    }

    method Exit()
      modifies this`phase
      ensures View() == old(View()).(phase := Idle)
    {
      if phase != Idle {
        phase := Idle;
      }
    }
  }

  // ---------- what calibration guarantees ----------

  /** One degree is 182 counts: a used motor counts as calibrated exactly when it reads within them. */
  lemma OneDegree(id: byte, position: s16)
    requires id > 0
    ensures InPlace(id, Some(position), DEFAULT_THRESHOLD) <==> -182 <= position <= 182
  {
  }

  /** The phases after successive polls. */
  function PolledAll(c: Calib, ios: seq<PollIo>): Calib {
    if ios == [] then c else Polled(PolledAll(c, ios[..|ios| - 1]), ios[|ios| - 1])
  }

  /** Every used side has feedback and stands within the threshold. */
  predicate BothInPlace(c: Calib, io: PollIo) {
    InPlace(c.cfg.idR, io.positionR, c.cfg.threshold) && InPlace(c.cfg.idL, io.positionL, c.cfg.threshold)
  }

  predicate ModesAccepted(c: Calib, io: PollIo) {
    IfUsed(c.cfg.idR, io.modeR) && IfUsed(c.cfg.idL, io.modeL)
  }

  predicate Enables(c: Calib, io: PollIo) {
    IfUsed(c.cfg.idR, io.enableR) && IfUsed(c.cfg.idL, io.enableL)
  }

  /** In time, and a used side is missing or out of place: nothing is decided. */
  predicate Waits(c: Calib, io: PollIo) {
    !Expired(c, io.now) && !BothInPlace(c, io)
  }

  /** In time and in place: the motors are asked to switch mode and enable, if the configuration wants it. */
  predicate Arrives(c: Calib, io: PollIo) {
    !Expired(c, io.now) && BothInPlace(c, io)
  }

  predicate Succeeds(c: Calib, io: PollIo) {
    Arrives(c, io) && (c.cfg.enableAfterDone ==> ModesAccepted(c, io) && Enables(c, io))
  }

  predicate TimesOut(c: Calib, io: PollIo) {
    Expired(c, io.now) || (Arrives(c, io) && c.cfg.enableAfterDone && ModesAccepted(c, io) && !Enables(c, io))
  }

  predicate IsRefused(c: Calib, io: PollIo) {
    Arrives(c, io) && c.cfg.enableAfterDone && !ModesAccepted(c, io)
  }

  /** Poll k is the first that does not wait. */
  predicate FirstDecisive(c: Calib, ios: seq<PollIo>, k: int) {
    0 <= k < |ios| && !Waits(c, ios[k]) && forall j :: 0 <= j < k ==> Waits(c, ios[j])
  }

  lemma OnePoll(c: Calib, io: PollIo)
    requires c.phase.Checking?
    ensures PollPhase(c, io).Checking? <==> Waits(c, io)
    ensures PollPhase(c, io).Done? <==> Succeeds(c, io)
    ensures PollPhase(c, io).Timeout? <==> TimesOut(c, io)
    ensures PollPhase(c, io).Failed? <==> IsRefused(c, io)
  {
    hide Expired, InPlace, IfUsed;
  }

  /** A decisive poll is the last one, or was decisive before it. */
  lemma DecisiveBefore(c: Calib, ios: seq<PollIo>, k: int)
    requires ios != [] && FirstDecisive(c, ios, k)
    ensures var n := |ios| - 1;
            if k < n then FirstDecisive(c, ios[..n], k) && ios[..n][k] == ios[k]
            else k == n && forall j :: 0 <= j < n ==> Waits(c, ios[..n][j])
  {
    hide Waits;
  }

  lemma AllWait(c: Calib, ios: seq<PollIo>)
    requires ios != []
    ensures var n := |ios| - 1;
            (forall j :: 0 <= j < |ios| ==> Waits(c, ios[j]))
            <==> Waits(c, ios[n]) && forall j :: 0 <= j < n ==> Waits(c, ios[..n][j])
  {
    hide Waits;
    var n := |ios| - 1;
    assert forall j :: 0 <= j < n ==> ios[..n][j] == ios[j];
  }

  lemma {:induction false} FirstPollDecides(c: Calib, ios: seq<PollIo>)
    requires c.phase.Checking?
    ensures PolledAll(c, ios) == c.(phase := PolledAll(c, ios).phase)
    ensures PolledAll(c, ios).phase.Checking? <==> forall j :: 0 <= j < |ios| ==> Waits(c, ios[j])
    ensures forall k :: FirstDecisive(c, ios, k) ==> PolledAll(c, ios).phase == PollPhase(c, ios[k])
  {
    if ios == [] {
    } else {
      var n := |ios| - 1;
      var before := PolledAll(c, ios[..n]);
      FirstPollDecides(c, ios[..n]);
      AllWait(c, ios);
      OnePoll(c, ios[n]);
      StaysDecided(before, ios[n]);
      assert before.phase.Checking? ==> before == c;
      assert PolledAll(c, ios) == Polled(before, ios[n]);
      hide Waits, PollPhase, PolledAll, FirstDecisive;
      forall k | FirstDecisive(c, ios, k)
        ensures 0 <= k < |ios| && PolledAll(c, ios).phase == PollPhase(c, ios[k])
      {
        Decisive(c, ios, k);
        DecisiveBefore(c, ios, k);
        if k < n {
          Decisive(c, ios[..n], k);
        }
      }
    }
  }

  lemma StaysDecided(c: Calib, io: PollIo)
    ensures !c.phase.Checking? ==> Polled(c, io) == c
  {
  }

  lemma {:induction false} SomePollDecides(c: Calib, ios: seq<PollIo>)
    requires !forall j :: 0 <= j < |ios| ==> Waits(c, ios[j])
    ensures exists k :: FirstDecisive(c, ios, k)
  {
    hide Waits;
    var n := |ios| - 1;
    if forall j :: 0 <= j < n ==> Waits(c, ios[j]) {
      assert FirstDecisive(c, ios, n);
    } else {
      SomePollDecides(c, ios[..n]);
      var k :| FirstDecisive(c, ios[..n], k);
      assert FirstDecisive(c, ios, k);
    }
  }

  /** Main result: how a calibration ends, from the clock and the motors' answers alone. It goes on exactly
      while every poll is in time with a used side missing or out of place; the first other poll decides:
      DONE if it is in time, in place and (when asked for) the mode switch and the enabling are accepted,
      FAILED if the mode switch is refused, TIMEOUT if time is up or the enabling fails. */
  lemma PollsEndExactlyWhen(c: Calib, ios: seq<PollIo>)
    requires c.phase.Checking?
    ensures var p := PolledAll(c, ios).phase;
            && (p.Checking? <==> forall j :: 0 <= j < |ios| ==> Waits(c, ios[j]))
            && (p.Done? <==> exists k :: FirstDecisive(c, ios, k) && Succeeds(c, ios[k]))
            && (p.Failed? <==> exists k :: FirstDecisive(c, ios, k) && IsRefused(c, ios[k]))
            && (p.Timeout? <==> exists k :: FirstDecisive(c, ios, k) && TimesOut(c, ios[k]))
  {
    FirstPollDecides(c, ios);
    hide Waits, Succeeds, IsRefused, TimesOut, PollPhase, PolledAll, FirstDecisive;
    forall k | FirstDecisive(c, ios, k)
      ensures 0 <= k < |ios|
      ensures PollPhase(c, ios[k]).Done? <==> Succeeds(c, ios[k])
      ensures PollPhase(c, ios[k]).Failed? <==> IsRefused(c, ios[k])
      ensures PollPhase(c, ios[k]).Timeout? <==> TimesOut(c, ios[k])
      ensures !PollPhase(c, ios[k]).Checking?
    {
      Decisive(c, ios, k);
      OnePoll(c, ios[k]);
    }
    if !forall j :: 0 <= j < |ios| ==> Waits(c, ios[j]) {
      SomePollDecides(c, ios);
    }
  }

  lemma Decisive(c: Calib, ios: seq<PollIo>, k: int)
    requires FirstDecisive(c, ios, k)
    ensures 0 <= k < |ios| && !Waits(c, ios[k])
  {
  }

  /** A calibration that is under way, done or failed is not started again before an exit. */
  lemma RefusedStart(c: Calib, cfg: Config, io: StartIo)
    requires c.phase.Checking? || c.phase.Done? || c.phase.Failed?
    ensures !StartSucceeds(c, cfg, io) && Started(c, cfg, io) == c
  {
  }
}
