/** The single-axis calls from setpoint to payload: what a drive reads of what the host was asked for. */
module WirePath {
  import opened Bytes
  import opened Units
  import opened P = PdoByte0
  import Byte0
  import C = CanopenFrames
  import M = MitQuantization

  /** A MIT frame holds what the encoder produced. */
  predicate Encodable(f: P.Frame) {
    f.MitFrame? ==> M.InRange(f.raw)
  }

  function Slot(f: P.Frame): (s: seq<byte>)
    ensures |s| == if f.MitFrame? then C.MIT_SLOT else C.AXIS_SLOT
  {
    match f
    case AxisFrame(_, b0, t) => C.AxisSlot(b0, t.target1, t.target2, t.feedforward)
    case MitFrame(_, b0, raw) => C.MitSlot(b0, raw.position, raw.velocity, raw.kp, raw.kd, raw.torque)
  }

  /** pdo_ctrl_send_raw and pdo_mit_send_raw: the frame of a call on the bus. */
  method Build(f: P.Frame, buffer: C.FrameBuffer)
    requires Encodable(f) && buffer.data.Length == CANFD_MAX_DLC
    modifies buffer, buffer.data
    ensures buffer.IsPdo((if f.MitFrame? then 0x110 else 0x100) + f.node, if f.MitFrame? then 9 else 7)
    ensures buffer.data[..] == Slot(f) + ZeroBytes(CANFD_MAX_DLC - |Slot(f)|)
  {
    hide C.AxisSlot, C.MitSlot;
    match f
    case AxisFrame(node, b0, t) =>
      C.CustomPdoBuild(node, b0, t.target1, t.target2, t.feedforward, buffer);
    case MitFrame(node, b0, raw) =>
      C.MitPdoBuild(node, b0, raw.position, raw.velocity, raw.kp, raw.kd, raw.torque, buffer);
  }

  // ---------- one slot ----------

  lemma SignedWord(x: s16)
    ensures Signed(Be16(Hi(x), Lo(x)), 0x1_0000) == x
  {
    C.WordRoundTrip(x);
    ModUnique(x, 0x1_0000, if x < 0 then -1 else 0, if x < 0 then x + 0x1_0000 else x);
    hide Be16, Hi, Lo;
  }

  lemma Word(x: u16)
    ensures Be16(Hi(x), Lo(x)) == x
  {
    C.WordRoundTrip(x);
    ModUnique(x, 0x1_0000, 0, x);
    hide Be16, Hi, Lo;
  }

  /** A drive reads the control byte and the three targets of an axis frame as they were sent. */
  lemma AxisSlotArrives(node: byte, b: bv8, t: Targets)
    ensures C.AxisRead(C.AxisSlot(b, t.target1, t.target2, t.feedforward), node)
            == C.AxisCmd(node, Byte0.Mode(b), Byte0.Enabled(b), Byte0.BusOn(b), Byte0.ClearsError(b),
                         t.target1, t.target2, t.feedforward)
  {
    Byte0.ByteRoundTrip(b);
    SignedWord(t.target1);
    Word(t.target2);
    SignedWord(t.feedforward);
    hide Hi, Lo, Be16, Signed, Byte0.FromByte, Byte0.ToByte, Byte0.Mode, Byte0.Enabled, Byte0.BusOn,
      Byte0.ClearsError;
  }

  lemma AxisFrameArrives(f: P.Frame)
    requires f.AxisFrame?
    ensures |Slot(f)| == C.AXIS_SLOT
    ensures var got, b := C.AxisRead(Slot(f), f.node), f.byte0;
            && got.mode == Byte0.Mode(b) && got.enable == Byte0.Enabled(b) && got.releaseBrake == Byte0.BusOn(b)
            && got.clearError == Byte0.ClearsError(b)
            && Targets(got.target1, got.target2, got.feedforward) == f.targets
  {
    AxisSlotArrives(f.node, f.byte0, f.targets);
    hide C.AxisRead, C.AxisSlot, Byte0.Mode, Byte0.Enabled, Byte0.BusOn, Byte0.ClearsError;
  }

  /** The same for a MIT frame, whose 12-bit fields are in range. */
  lemma MitSlotArrives(node: byte, b: bv8, raw: M.Raw)
    requires M.InRange(raw)
    ensures C.MitRead(C.MitSlot(b, raw.position, raw.velocity, raw.kp, raw.kd, raw.torque), node)
            == C.MitCmd(node, Byte0.Enabled(b), Byte0.BusOn(b), Byte0.ClearsError(b),
                        raw.position, raw.velocity, raw.kp, raw.kd, raw.torque)
  {
    Byte0.ByteRoundTrip(b);
    Word(raw.position);
    C.UpperRoundTrip(raw.velocity, raw.kp);
    C.LowerRoundTrip(raw.velocity, raw.kp);
    C.UpperRoundTrip(raw.kd, raw.torque);
    C.LowerRoundTrip(raw.kd, raw.torque);
    InTwelveBits(raw.velocity);
    InTwelveBits(raw.kp);
    InTwelveBits(raw.kd);
    InTwelveBits(raw.torque);
    hide Hi, Lo, C.Mid, C.Nibbles, Be16, C.Upper12, C.Lower12, Byte0.FromByte, Byte0.ToByte, Byte0.Enabled,
      Byte0.BusOn, Byte0.ClearsError;
  }

  lemma MitModeByte(b: bv8, raw: M.Raw)
    ensures Byte0.FromByte(C.MitSlot(b, raw.position, raw.velocity, raw.kp, raw.kd, raw.torque)[0]) == b
  {
    Byte0.ByteRoundTrip(b);
  }

  lemma InTwelveBits(x: int)
    requires 0 <= x < 0x1000
    ensures x % 0x1000 == x
  {
    ModUnique(x, 0x1000, 0, x);
  }

  // ---------- from the call to the drive ----------

  function RawRead(c: C.MitCmd): M.Raw {
    M.Raw(c.position, c.velocity, c.kp, c.kd, c.torque)
  }

  /** Main result: after any history, what a drive reads of a MIT setpoint that is sent is an enabled command
      with exactly the encoded fields, which it decodes to the clamped setpoint within half a step of each. */
  lemma MitSetpointArrives(h: seq<Op>, p: M.Setpoint, node: byte, c: Config)
    requires !M.Refused(c.scales, InRadians(p))
    ensures var f := FrameOf(State(h), MitControl(p), node, c);
            && f.Some? && Encodable(f.value) && |Slot(f.value)| == C.MIT_SLOT
            && var got := C.MitRead(Slot(f.value), node);
               && got.enable && got.releaseBrake && Byte0.Mode(Byte0.FromByte(Slot(f.value)[0])) == 6
               && got.clearError == LastWrite(h, ClearOnWire, false)
               && RawRead(got) == RawOf(p, c)
               && M.Close(c.scales, M.Decoded(c.scales, RawRead(got)), M.Clamped(c.scales, InRadians(p)))
  {
    WhatMitSends(h, p, node, c);
    var f := FrameOf(State(h), MitControl(p), node, c).value;
    MitSlotArrives(node, f.byte0, f.raw);
    MitModeByte(f.byte0, f.raw);
    M.DecodedIsNear(c.scales, InRadians(p));
    hide FrameOf, State, LastWrite, C.MitRead, C.MitSlot, M.Refused, M.Encoded, M.Decoded, M.Clamped, M.Close,
      M.InRange, InRadians, Byte0.Enabled, Byte0.BusOn, Byte0.ClearsError, Byte0.Mode;
  }

  /** Main result: what a drive reads of any other control call that is sent, by last writers. */
  lemma ControlArrives(h: seq<Op>, op: Op, node: byte, c: Config)
    requires IsControl(op) && !op.MitControl? && LastWrite(h, SwitchWrite, false)
    ensures var f := FrameOf(State(h), op, node, c);
            && f.Some? && f.value.AxisFrame? && |Slot(f.value)| == C.AXIS_SLOT
            && var g, got := h + [op], C.AxisRead(Slot(f.value), node);
               && got.enable == LastWrite(g, EnableBitWrite, false)
               && got.releaseBrake == LastWrite(g, BusWrite, false)
               && got.clearError == LastWrite(g, ClearOnWire, false)
               && got.mode == Low4(LastWrite(g, ModeWrite, 0))
               && Targets(got.target1, got.target2, got.feedforward) == TargetsOf(op, c)
  {
    hide *;
    WhatIsSent(h, op, node, c);
    SentTargets(State(h), op, node, c);
    AxisFrameArrives(FrameOf(State(h), op, node, c).value);
  }

  lemma SentTargets(a: Axis, op: Op, node: byte, c: Config)
    requires IsControl(op) && !op.MitControl?
    ensures var f := FrameOf(a, op, node, c);
            f.Some? ==> f.value.AxisFrame? && f.value.node == node && f.value.targets == TargetsOf(op, c)
  {
    hide After, ByteOf, TargetsOf;
  }

  /** So a position call arrives in mode 3 with the angle less than one count nearer to zero. */
  lemma AngleArrives(h: seq<Op>, degrees: real, other: s16, node: byte, c: Config)
    requires LastWrite(h, SwitchWrite, false) && -180.0 - 360.0 / COUNTS_PER_TURN < degrees < 180.0
    ensures var f := FrameOf(State(h), SetPosition(degrees, other), node, c);
            && f.Some? && f.value.AxisFrame? && |Slot(f.value)| == C.AXIS_SLOT
            && var got := C.AxisRead(Slot(f.value), node);
               && got.mode == 3 && got.target2 == c.accel && got.feedforward == 0
               && var back := Degrees(got.target1);
                  if degrees >= 0.0 then 0.0 <= degrees - back < 360.0 / COUNTS_PER_TURN
                  else 0.0 <= back - degrees < 360.0 / COUNTS_PER_TURN
  {
    var op := SetPosition(degrees, other);
    ControlArrives(h, op, node, c);
    WithinOneCount(degrees, other);
    LastModeIs(h, op);
    LowModes();
    hide FrameOf, State, LastWrite, C.AxisRead, Slot, Counts, Degrees, ToInt16, Low4;
  }

  /** The call sends, and the drive reads `got`. */
  ghost predicate Arrives(h: seq<Op>, op: Op, node: byte, c: Config, got: C.AxisCmd) {
    var f := FrameOf(State(h), op, node, c);
    f.Some? && f.value.AxisFrame? && got == C.AxisRead(Slot(f.value), node)
  }

  lemma Received(h: seq<Op>, op: Op, node: byte, c: Config) returns (got: C.AxisCmd)
    requires IsControl(op) && !op.MitControl? && LastWrite(h, SwitchWrite, false)
    ensures Arrives(h, op, node, c, got)
    ensures Targets(got.target1, got.target2, got.feedforward) == TargetsOf(op, c)
    ensures got.mode == Low4(LastWrite(h + [op], ModeWrite, 0))
    ensures got.releaseBrake == LastWrite(h + [op], BusWrite, false)
  {
    ControlArrives(h, op, node, c);
    got := C.AxisRead(Slot(FrameOf(State(h), op, node, c).value), node);
    hide FrameOf, State, LastWrite, C.AxisRead, Slot, TargetsOf, Low4;
  }

  /** A velocity call arrives in mode 4, the RPM without its fraction ... */
  lemma VelocityArrives(h: seq<Op>, rpm: real, other: s16, node: byte, c: Config) returns (got: C.AxisCmd)
    requires LastWrite(h, SwitchWrite, false) && -32769.0 < rpm < 32768.0
    ensures Arrives(h, SetVelocity(rpm, other), node, c, got)
    ensures got.mode == 4 && got.target2 == c.accel && got.feedforward == 0
    ensures if rpm >= 0.0 then 0.0 <= rpm - got.target1 as real < 1.0 else 0.0 <= got.target1 as real - rpm < 1.0
  {
    var op := SetVelocity(rpm, other);
    got := Received(h, op, node, c);
    TargetsByHand(op, c);
    LastOf(h, op);
    LowModes();
    DropsTheFraction(rpm, other);
    hide Arrives, LastWrite, TargetsOf, ToInt16, Low4;
  }

  /** ... a torque call in mode 5 with the current it was given ... */
  lemma TorqueArrives(h: seq<Op>, currentMa: s16, node: byte, c: Config) returns (got: C.AxisCmd)
    requires LastWrite(h, SwitchWrite, false)
    ensures Arrives(h, SetTorque(currentMa), node, c, got)
    ensures got.mode == 5 && got.target1 == currentMa && got.target2 == 0 && got.feedforward == 0
  {
    var op := SetTorque(currentMa);
    got := Received(h, op, node, c);
    TargetsByHand(op, c);
    LastOf(h, op);
    LowModes();
    hide Arrives, LastWrite, TargetsOf, Low4;
  }

  /** ... a raw call as it was made ... */
  lemma RawArrives(h: seq<Op>, mode: bv8, t: Targets, node: byte, c: Config) returns (got: C.AxisCmd)
    requires LastWrite(h, SwitchWrite, false)
    ensures Arrives(h, CtrlRaw(mode, t.target1, t.target2, t.feedforward), node, c, got)
    ensures got.mode == mode & 0x0F && Targets(got.target1, got.target2, got.feedforward) == t
  {
    var op := CtrlRaw(mode, t.target1, t.target2, t.feedforward);
    got := Received(h, op, node, c);
    TargetsByHand(op, c);
    LastOf(h, op);
    TwiceLow(mode);
    hide Arrives, LastWrite, TargetsOf, Low4;
  }

  /** ... and stop and brake calls with zeros, in the mode that was set before. */
  lemma StopArrives(h: seq<Op>, op: Op, node: byte, c: Config) returns (got: C.AxisCmd)
    requires LastWrite(h, SwitchWrite, false) && (op.Stop? || op.SetBrake?)
    ensures Arrives(h, op, node, c, got)
    ensures got.target1 == 0 && got.target2 == 0 && got.feedforward == 0
    ensures got.mode == Low4(LastWrite(h, ModeWrite, 0)) && (op.SetBrake? ==> got.releaseBrake == op.release)
  {
    got := Received(h, op, node, c);
    TargetsByHand(op, c);
    LastOf(h, op);
    hide Arrives, LastWrite, TargetsOf, Low4;
  }

  lemma TwiceLow(mode: bv8)
    ensures Low4(Low4(mode)) == mode & 0x0F
  {
  }

  lemma TargetsByHand(op: Op, c: Config)
    ensures op.SetVelocity? ==> TargetsOf(op, c) == Targets(ToInt16(op.rpm, op.other), c.accel, 0)
    ensures op.SetTorque? ==> TargetsOf(op, c) == Targets(op.currentMa, 0, 0)
    ensures op.CtrlRaw? ==> TargetsOf(op, c) == Targets(op.target1, op.target2, op.feedforward)
    ensures op.Stop? || op.SetBrake? ==> TargetsOf(op, c) == Targets(0, 0, 0)
  {
    hide ToInt16;
  }

  /** A call's own write is the last one. */
  lemma LastOf(h: seq<Op>, op: Op)
    ensures var m := LastWrite(h + [op], ModeWrite, 0);
            && (op.SetVelocity? ==> m == MODE_CSV) && (op.SetTorque? ==> m == MODE_CURRENT)
            && (op.CtrlRaw? ==> m == Low4(op.mode))
            && (op.Stop? || op.SetBrake? ==> m == LastWrite(h, ModeWrite, 0))
    ensures op.SetBrake? ==> LastWrite(h + [op], BusWrite, false) == op.release
  {
    hide Low4;
    assert (h + [op])[..|h|] == h;
  }

  lemma LastModeIs(h: seq<Op>, op: Op)
    requires ModeWrite(op).Some?
    ensures LastWrite(h + [op], ModeWrite, 0) == ModeWrite(op).value
  {
    hide ModeWrite;
  }
}
