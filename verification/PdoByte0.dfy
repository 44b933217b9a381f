/** The persistent PDO control byte of each axis and the calls that change or send it (motor_hal.c). */
module PdoByte0 {
  import opened Bytes
  import opened Units
  import Byte0
  import M = MitQuantization

  const MAX_MOTORS: nat := 4

  const MODE_CSP: bv8 := 3
  const MODE_CSV: bv8 := 4
  const MODE_CURRENT: bv8 := 5
  const MODE_MIT: bv8 := 6

  /** The single-axis calls. `other` is what the cast to int16_t gives for a value that does not fit; Sdo* carry
      the outcome of the SDO exchange. */
  datatype Op =
    | SetPosition(degrees: real, other: s16) | SetVelocity(rpm: real, other: s16) | SetTorque(currentMa: s16)
    | CtrlRaw(mode: bv8, target1: s16, target2: u16, feedforward: s16)
    | MitControl(setpoint: M.Setpoint)
    | Stop | SetBrake(release: bool)
    | PdoEnable | PdoDisable | BusOn | BusOff | ClearFault | SetMode(newMode: u32) | Estop | Recover
    | SetByte0(byte0: bv8) | GetByte0 | ConsumeByte0
    | SdoEnable(ok: bool) | SdoDisable(ok: bool)

  datatype Status = Success | NoDevice | NoEntry | Again | Invalid | SdoFailed | NoSpace | Exists

  /** What pdo_ctrl_send_raw or pdo_mit_send_raw is called with. */
  datatype Frame =
    | AxisFrame(node: byte, byte0: bv8, targets: Targets)
    | MitFrame(node: byte, byte0: bv8, raw: M.Raw)

  datatype Targets = Targets(target1: s16, target2: u16, feedforward: s16)

  /** What the calls read of a node besides the byte and the flags. */
  datatype Config = Config(accel: u16, scales: M.NonZeroScales)

  // ---------- the control byte, field by field ----------

  /** The fields of the byte, and the two flags kept beside it. */
  datatype Axis = Axis(
    enable: bool, bus: bool, clear: bool, mode: bv8, reserved: bool,
    enabled: bool, clearPending: bool)

  const OFF := Axis(false, false, false, 0, false, false, false)

  function ByteOf(a: Axis): bv8 {
    Byte0.Build(a.enable, a.bus, a.clear, a.mode) | if a.reserved then Byte0.RESERVED else 0
  }

  /** Reading the byte clears a pending error-clear pulse first. */
  function Consumed(a: Axis): Axis {
    a.(clear := a.clear && !a.clearPending, clearPending := false)
  }

  function Low4(mode: bv8): bv8 {
    mode & 0x0F
  }

  /** The modes that pdo_set_mode accepts. */
  function AsMode(m: u32): bv8
    requires m <= 6
  {
    m as bv8
  }

  function Overwritten<T>(value: T, w: Option<T>): T {
    match w
    case Some(v) => v
    case None => value
  }

  /** Who turns sending on and off. */
  function SwitchWrite(op: Op): Option<bool> {
    match op
    case PdoEnable | Recover | MitControl(_) => Some(true)
    case PdoDisable | Estop => Some(false)
    case SdoEnable(ok) => if ok then Some(true) else None
    case SdoDisable(ok) => if ok then Some(false) else None
    case _ => None
  }

  function EnableBitWrite(op: Op): Option<bool> {
    match op
    case PdoEnable | Recover | MitControl(_) => Some(true)
    case PdoDisable | Estop => Some(false)
    case SetByte0(b) => Some(Byte0.Enabled(b))
    case _ => None
  }

  function BusWrite(op: Op): Option<bool> {
    match op
    case PdoEnable | Recover | MitControl(_) | BusOn => Some(true)
    case BusOff | Estop => Some(false)
    case SetBrake(release) => Some(release)
    case SetByte0(b) => Some(Byte0.BusOn(b))
    case _ => None
  }

  /** A mode sticks even when the call that named it was refused because the axis is off. */
  function ModeWrite(op: Op): Option<bv8> {
    match op
    case SetPosition(_, _) => Some(MODE_CSP)
    case SetVelocity(_, _) => Some(MODE_CSV)
    case SetTorque(_) => Some(MODE_CURRENT)
    case CtrlRaw(mode, _, _, _) => Some(Low4(mode))
    case MitControl(_) => Some(MODE_MIT)
    case SetMode(m) => if m > 6 then None else Some(AsMode(m))
    case SetByte0(b) => Some(Byte0.Mode(b))
    case _ => None
  }

  function ClearWrite(op: Op): Option<bool> {
    match op
    case ClearFault => Some(true)
    case Estop | Recover => Some(false)
    case SetByte0(b) => Some(Byte0.ClearsError(b))
    case _ => None
  }

  function PendingWrite(op: Op): Option<bool> {
    match op
    case ClearFault => Some(true)
    case Estop | Recover | SetByte0(_) => Some(false)
    case _ => None
  }

  function ReservedWrite(op: Op): Option<bool> {
    match op
    case SetByte0(b) => Some(Byte0.ReservedSet(b))
    case Estop | Recover => Some(false)
    case _ => None
  }

  /** The calls that send a control frame, when they do. */
  predicate IsControl(op: Op) {
    op.SetPosition? || op.SetVelocity? || op.SetTorque? || op.CtrlRaw? || op.MitControl? || op.Stop? || op.SetBrake?
  }

  /** The calls that read the byte. */
  predicate Consumes(op: Op) {
    IsControl(op) || op.ConsumeByte0?
  }

  /** What each call writes to each field; what it does not write, it keeps. */
  function After(a: Axis, op: Op): Axis {
    var c := if Consumes(op) then Consumed(a) else a;
    Axis(Overwritten(c.enable, EnableBitWrite(op)), Overwritten(c.bus, BusWrite(op)),
         Overwritten(c.clear, ClearWrite(op)), Overwritten(c.mode, ModeWrite(op)),
         Overwritten(c.reserved, ReservedWrite(op)),
         Overwritten(c.enabled, SwitchWrite(op)), Overwritten(c.clearPending, PendingWrite(op)))
  }

  const ZEROS := M.Raw(0, 0, 0, 0, 0)

  /** Callers speak in degrees and RPM, the encoder in radians. */
  function InRadians(p: M.Setpoint): M.Setpoint {
    p.(position := Radians(p.position), velocity := RadiansPerSecond(p.velocity))
  }

  function RawOf(p: M.Setpoint, c: Config): M.Raw {
    M.Encoded(c.scales, InRadians(p))
  }

  function TargetsOf(op: Op, c: Config): Targets {
    match op
    case SetPosition(degrees, other) => Targets(ToInt16(Counts(degrees), other), c.accel, 0)
    case SetVelocity(rpm, other) => Targets(ToInt16(rpm, other), c.accel, 0)
    case SetTorque(currentMa) => Targets(currentMa, 0, 0)
    case CtrlRaw(_, target1, target2, feedforward) => Targets(target1, target2, feedforward)
    case _ => Targets(0, 0, 0)
  }

  /** mit_control enables the axis itself but never sends an all-zero setpoint. */
  predicate Sends(a: Axis, op: Op, c: Config) {
    if op.MitControl? then RawOf(op.setpoint, c) != ZEROS else IsControl(op) && a.enabled
  }

  function FrameOf(a: Axis, op: Op, node: byte, c: Config): Option<Frame> {
    if !Sends(a, op, c) then None
    else if op.MitControl? then Some(MitFrame(node, ByteOf(After(a, op)), RawOf(op.setpoint, c)))
    else Some(AxisFrame(node, ByteOf(After(a, op)), TargetsOf(op, c)))
  }

  function StatusOf(a: Axis, op: Op, c: Config): Status {
    match op
    case MitControl(_) => if Sends(a, op, c) then Success else Invalid
    case SetMode(m) => if m > 6 then Invalid else Success
    case SdoEnable(ok) => if ok then Success else SdoFailed
    case SdoDisable(ok) => if ok then Success else SdoFailed
    case Stop => Success
    case _ => if IsControl(op) && !a.enabled then Again else Success
  }

  lemma SmallMode(m: u32)
    requires m <= 6
    ensures Low4(AsMode(m)) == AsMode(m)
  {
    assert m == 0 || m == 1 || m == 2 || m == 3 || m == 4 || m == 5 || m == 6;
  }

  // ---------- histories ----------

  /** The axis after a history of calls that found it registered (and the driver present). */
  function State(h: seq<Op>): Axis {
    if h == [] then OFF else After(State(h[..|h| - 1]), h[|h| - 1])
  }

  lemma StateSnoc(h: seq<Op>, op: Op)
    ensures State(h + [op]) == After(State(h), op)
  {
    assert (h + [op])[..|h|] == h;
  }

  // ---------- the bit operations of the source ----------

  datatype Node = Node(byte0: bv8, enabled: bool, clrErrPending: bool, config: Config)

  function View(n: Node): Axis {
    Axis(Byte0.Enabled(n.byte0), Byte0.BusOn(n.byte0), Byte0.ClearsError(n.byte0), Byte0.Mode(n.byte0),
         Byte0.ReservedSet(n.byte0), n.enabled, n.clrErrPending)
  }

  const NOT_MODE: bv8 := 0xE1
  const NOT_CLR_ERR: bv8 := 0xDF
  const NOT_ENABLE: bv8 := 0x7F
  const NOT_BUS_ON: bv8 := 0xBF

  function WithMode(b: bv8, mode: bv8): bv8 {
    (b & NOT_MODE) | Byte0.ModePart(mode)
  }

  function WithBus(b: bv8, on: bool): bv8 {
    if on then b | Byte0.BUS_ON else b & NOT_BUS_ON
  }

  /** What a call does to its own node: the new node, what is returned and what is sent. */
  predicate Effect(n: Node, after: Node, op: Op, node: byte, status: Status, sent: Option<Frame>) {
    && View(after) == After(View(n), op) && after.config == n.config
    && status == StatusOf(View(n), op, n.config) && sent == FrameOf(View(n), op, node, n.config)
  }

  /** The node as reading the byte leaves it. */
  predicate Pulsed(n: Node, after: Node) {
    after == n.(byte0 := after.byte0, clrErrPending := false) && View(after) == Consumed(View(n))
  }

  lemma LowModes()
    ensures Low4(MODE_CSP) == MODE_CSP && Low4(MODE_CSV) == MODE_CSV
    ensures Low4(MODE_CURRENT) == MODE_CURRENT && Low4(MODE_MIT) == MODE_MIT
  {
  }

  lemma ByteOfView(n: Node)
    ensures ByteOf(View(n)) == n.byte0
    ensures View(n).enabled == n.enabled && View(n).clearPending == n.clrErrPending
  {
  }

  /** Each bit operation changes the field it is meant for and no other. */
  lemma ReplacingMode(n: Node, mode: bv8)
    ensures View(n.(byte0 := WithMode(n.byte0, mode))) == View(n).(mode := Low4(mode))
  {
  }

  lemma PulseEffect(n: Node)
    ensures Pulsed(n, if n.clrErrPending then n.(byte0 := n.byte0 & NOT_CLR_ERR, clrErrPending := false) else n)
  {
  }

  lemma ControlEffect(n: Node, read: Node, mode: bv8, op: Op, node: byte)
    requires Pulsed(n, read) && ModeWrite(op) == Some(Low4(mode))
    requires op.SetPosition? || op.SetVelocity? || op.SetTorque? || op.CtrlRaw?
    ensures var b0 := WithMode(read.byte0, mode);
            Effect(n, read.(byte0 := b0), op, node, if n.enabled then Success else Again,
                   if n.enabled then Some(AxisFrame(node, b0, TargetsOf(op, n.config))) else None)
  {
    ReplacingMode(read, mode);
    ByteOfView(n);
    ByteOfView(read.(byte0 := WithMode(read.byte0, mode)));
    hide View, TargetsOf, ByteOf, WithMode;
  }

  lemma MitEffect(n: Node, read: Node, p: M.Setpoint, node: byte)
    requires Pulsed(n, read)
    ensures var b0 := WithMode(read.byte0, MODE_MIT) | Byte0.ENABLE | Byte0.BUS_ON;
            var raw := RawOf(p, n.config);
            Effect(n, read.(byte0 := b0, enabled := true), MitControl(p), node,
                   if raw == ZEROS then Invalid else Success,
                   if raw == ZEROS then None else Some(MitFrame(node, b0, raw)))
  {
    LowModes();
    ReplacingMode(read, MODE_MIT);
    var mit := read.(byte0 := WithMode(read.byte0, MODE_MIT));
    EnableBits(mit);
    ByteOfView(mit.(byte0 := mit.byte0 | Byte0.ENABLE | Byte0.BUS_ON, enabled := true));
    hide View, RawOf, ByteOf, WithMode;
  }

  lemma EnableBits(n: Node)
    ensures View(n.(byte0 := n.byte0 | Byte0.ENABLE | Byte0.BUS_ON, enabled := true))
            == View(n).(enable := true, bus := true, enabled := true)
    ensures View(n.(byte0 := n.byte0 & NOT_ENABLE, enabled := false))
            == View(n).(enable := false, enabled := false)
  {
  }

  lemma StopEffect(n: Node, read: Node, node: byte)
    requires Pulsed(n, read)
    ensures Effect(n, read, Stop, node, Success,
                   if n.enabled then Some(AxisFrame(node, read.byte0, Targets(0, 0, 0))) else None)
  {
    ByteOfView(n);
    ByteOfView(read);
    hide View, ByteOf, RawOf;
  }

  lemma BrakeEffect(n: Node, read: Node, release: bool, node: byte)
    requires Pulsed(n, read)
    ensures var b0 := WithBus(read.byte0, release);
            Effect(n, read.(byte0 := b0), SetBrake(release), node, if n.enabled then Success else Again,
                   if n.enabled then Some(AxisFrame(node, b0, Targets(0, 0, 0))) else None)
  {
    BusBit(read, release);
    ByteOfView(n);
    ByteOfView(read.(byte0 := WithBus(read.byte0, release)));
    hide View, ByteOf, WithBus;
  }

  lemma BusBit(n: Node, on: bool)
    ensures View(n.(byte0 := WithBus(n.byte0, on))) == View(n).(bus := on)
  {
  }

  lemma EnablingEffect(n: Node, node: byte)
    ensures Effect(n, n.(byte0 := n.byte0 | Byte0.ENABLE | Byte0.BUS_ON, enabled := true), PdoEnable, node,
                   Success, None)
    ensures Effect(n, n.(byte0 := n.byte0 & NOT_ENABLE, enabled := false), PdoDisable, node, Success, None)
  {
    EnableBits(n);
    hide View;
  }

  lemma BusEffect(n: Node, node: byte)
    ensures Effect(n, n.(byte0 := WithBus(n.byte0, true)), BusOn, node, Success, None)
    ensures Effect(n, n.(byte0 := WithBus(n.byte0, false)), BusOff, node, Success, None)
  {
    BusBit(n, true);
    BusBit(n, false);
    hide View, WithBus;
  }

  lemma ClearBit(n: Node)
    ensures View(n.(byte0 := n.byte0 | Byte0.CLR_ERR, clrErrPending := true))
            == View(n).(clear := true, clearPending := true)
  {
  }

  lemma ClearFaultEffect(n: Node, node: byte)
    ensures Effect(n, n.(byte0 := n.byte0 | Byte0.CLR_ERR, clrErrPending := true), ClearFault, node, Success, None)
  {
    ClearBit(n);
    hide View;
  }

  lemma ModeEffect(n: Node, mode: u32, node: byte)
    requires mode <= 6
    ensures Effect(n, n.(byte0 := WithMode(n.byte0, AsMode(mode))), SetMode(mode), node, Success, None)
  {
    SmallMode(mode);
    ReplacingMode(n, AsMode(mode));
    hide View, WithMode;
  }

  lemma EstopEffect(n: Node, node: byte)
    ensures Effect(n, n.(byte0 := n.byte0 & Byte0.MODE_MASK, enabled := false, clrErrPending := false), Estop, node,
                   Success, None)
  {
  }

  lemma RecoverEffect(n: Node, node: byte)
    ensures Effect(n, n.(byte0 := (n.byte0 & Byte0.MODE_MASK) | Byte0.ENABLE | Byte0.BUS_ON, enabled := true,
                         clrErrPending := false), Recover, node, Success, None)
  {
  }

  lemma RawByteEffect(n: Node, byte0: bv8, node: byte)
    ensures Effect(n, n.(byte0 := byte0, clrErrPending := false), SetByte0(byte0), node, Success, None)
  {
  }

  lemma GetEffect(n: Node, node: byte)
    ensures Effect(n, n, GetByte0, node, Success, None)
  {
    hide View;
  }

  lemma ConsumeEffect(n: Node, read: Node, node: byte)
    requires Pulsed(n, read)
    ensures Effect(n, read, ConsumeByte0, node, Success, None)
  {
    hide View;
  }

  lemma SdoEnableEffect(n: Node, ok: bool, node: byte)
    ensures Effect(n, if ok then n.(enabled := true) else n, SdoEnable(ok), node,
                   if ok then Success else SdoFailed, None)
  {
    Switch(n);
    hide View;
  }

  lemma SdoDisableEffect(n: Node, ok: bool, node: byte)
    ensures Effect(n, if ok then n.(enabled := false) else n, SdoDisable(ok), node,
                   if ok then Success else SdoFailed, None)
  {
    Switch(n);
    hide View;
  }

  lemma Switch(n: Node)
    ensures View(n.(enabled := true)) == View(n).(enabled := true)
    ensures View(n.(enabled := false)) == View(n).(enabled := false)
  {
  }

  lemma NewNode(c: Config)
    ensures View(Node(0x00, false, false, c)) == OFF == State([])
  {
  }

  /** What a node is configured with has no part in its state. */
  lemma Configured(n: Node, c: Config)
    ensures View(n.(config := c)) == View(n)
  {
  }

  // ---------- the calls ----------

  /** The registered nodes, every frame on the bus, and the calls that each node has seen. */
  datatype World = World(nodes: map<byte, Node>, sent: seq<Frame>, history: map<byte, seq<Op>>)

  /** Every node is in the state its own calls lead to. */
  ghost predicate Explained(w: World) {
    && w.history.Keys == w.nodes.Keys
    && forall n :: n in w.nodes ==> View(w.nodes[n]) == State(w.history[n])
  }

  predicate NeedsDriver(op: Op) {
    IsControl(op) || op.SdoEnable? || op.SdoDisable?
  }

  function Logged(h: map<byte, seq<Op>>, node: byte, op: Op): map<byte, seq<Op>> {
    h[node := (if node in h then h[node] else []) + [op]]
  }

  function Frames(f: Option<Frame>): seq<Frame> {
    if f.Some? then [f.value] else []
  }

  /** A call that found its node: its effect on that node, the history and the bus; nothing else changes. */
  ghost predicate Done(before: World, after: World, node: byte, op: Op, status: Status)
    requires node in before.nodes
  {
    var n := before.nodes[node];
    && node in after.nodes && after.nodes == before.nodes[node := after.nodes[node]]
    && after.history == Logged(before.history, node, op)
    && var sent := FrameOf(View(n), op, node, n.config);
       Effect(n, after.nodes[node], op, node, status, sent) && after.sent == before.sent + Frames(sent)
  }

  /** Only some calls need the CAN driver; a call that does not find its node changes nothing. */
  ghost predicate Performed(driver: bool, before: World, after: World, node: byte, op: Op, status: Status) {
    if !driver && NeedsDriver(op) then status == NoDevice && after == before
    else if node !in before.nodes then status == (if op.Stop? then Success else NoEntry) && after == before
    else Done(before, after, node, op, status)
  }

  lemma Completed(before: World, after: World, node: byte, op: Op, status: Status, sent: Option<Frame>)
    requires Explained(before) && node in before.nodes
    requires node in after.nodes && after.nodes == before.nodes[node := after.nodes[node]]
    requires after.history == Logged(before.history, node, op)
    requires Effect(before.nodes[node], after.nodes[node], op, node, status, sent)
    requires after.sent == before.sent + Frames(sent)
    ensures Done(before, after, node, op, status) && Explained(after)
  {
    hide View, After, State, StatusOf, FrameOf;
    StateSnoc(before.history[node], op);
  }

  /** Main result: every call keeps every node explained by its own history, so what is proved below about
      histories holds of the objects. */
  lemma StaysExplained(driver: bool, before: World, after: World, node: byte, op: Op, status: Status)
    requires Explained(before) && Performed(driver, before, after, node, op, status)
    ensures Explained(after)
  {
    hide View, After, State, StatusOf, FrameOf;
    if (driver || !NeedsDriver(op)) && node in before.nodes {
      StateSnoc(before.history[node], op);
    }
  }

  class Hal {
    const hasDriver: bool
    var nodes: map<byte, Node>
    ghost var sent: seq<Frame>
    ghost var history: map<byte, seq<Op>>

    ghost function Now(): World
      reads this
    {
      World(nodes, sent, history)
    }

    ghost predicate Valid()
      reads this
    {
      Explained(Now())
    }

    constructor (driver: bool)
      ensures hasDriver == driver && Now() == World(map[], [], map[]) && Valid()
    {
      hasDriver := driver;
      nodes := map[];
      sent := [];
      history := map[];
    }

    /** motor_hal_add_motor: at most four nodes, no duplicates, everything off. */
    method AddMotor(node: byte, accel: u16) returns (r: Status)
      requires Valid()
      modifies this`nodes, this`history
      ensures Valid()
      ensures r == if |old(nodes)| >= 4 then NoSpace else if node in old(nodes) then Exists else Success
      ensures r != Success ==> Now() == old(Now())
      ensures r == Success ==>
                && node in nodes && nodes == old(nodes)[node := nodes[node]]
                && View(nodes[node]) == OFF && nodes[node].config == Config(accel, M.DEFAULTS)
                && history == old(history)[node := []]
    {
      hide View, State;
      if |nodes| >= MAX_MOTORS {
        return NoSpace;
      }
      if node in nodes {
        return Exists;
      }
      nodes := nodes[node := Node(0x00, false, false, Config(accel, M.DEFAULTS))];
      history := history[node := []];
      NewNode(Config(accel, M.DEFAULTS));
      r := Success;
    }

    /** motor_hal_read_mit_scales: each of the five answers replaces its scale or leaves the default. */
    method ReadMitScales(node: byte, answers: seq<Option<u32>>) returns (r: Status)
      requires Valid() && |answers| == 5
      modifies this`nodes
      ensures Valid()
      ensures r == if !hasDriver then NoDevice else if node !in nodes then NoEntry
                   else if None in answers || Some(0) in answers then SdoFailed else Success
      ensures nodes == if !hasDriver || node !in old(nodes) then old(nodes)
                       else var n := old(nodes[node]);
                            old(nodes)[node := n.(config := n.config.(scales := M.ScalesRead(answers)))]
    {
      hide View, State, M.ScalesRead;
      if !hasDriver {
        return NoDevice;
      }
      if node !in nodes {
        return NoEntry;
      }
      M.ReadScalesAreNonZero(answers);
      var n := nodes[node];
      Configured(n, n.config.(scales := M.ScalesRead(answers)));
      nodes := nodes[node := n.(config := n.config.(scales := M.ScalesRead(answers)))];
      r := if None in answers || Some(0) in answers then SdoFailed else Success;
    }

    /** _consume_pdo_byte0 */
    method Consume(node: byte) returns (b0: bv8)
      requires node in nodes
      modifies this`nodes
      ensures nodes == old(nodes)[node := old(nodes[node]).(byte0 := b0, clrErrPending := false)]
      ensures Pulsed(old(nodes[node]), nodes[node])
    {
      hide Pulsed;
      var n := nodes[node];
      PulseEffect(n);
      b0 := n.byte0;
      if n.clrErrPending {
        b0 := b0 & NOT_CLR_ERR;
        nodes := nodes[node := n.(byte0 := b0, clrErrPending := false)];
      }
      assert n.clrErrPending || nodes[node] == n.(byte0 := b0, clrErrPending := false);
    }

    /** The body that set_position, set_velocity, set_torque and ctrl_raw repeat. */
    method Control(node: byte, mode: bv8, targets: Targets, ghost op: Op) returns (r: Status)
      requires Valid()
      requires op.SetPosition? || op.SetVelocity? || op.SetTorque? || op.CtrlRaw?
      requires ModeWrite(op) == Some(Low4(mode))
      requires node in nodes ==> TargetsOf(op, nodes[node].config) == targets
      modifies this
      ensures Valid() && Performed(hasDriver, old(Now()), Now(), node, op, r)
    {
      hide Done, Effect, Explained, Pulsed;
      if !hasDriver {
        return NoDevice;
      }
      if node !in nodes {
        return NoEntry;
      }
      var b0 := Consume(node);
      var n := nodes[node];
      ControlEffect(old(nodes[node]), n, mode, op, node);
      b0 := WithMode(b0, mode);
      nodes, history := nodes[node := n.(byte0 := b0)], Logged(history, node, op);
      if !n.enabled {
        r := Again;
        Completed(old(Now()), Now(), node, op, r, None);
      } else {
        sent := sent + [AxisFrame(node, b0, targets)];
        r := Success;
        Completed(old(Now()), Now(), node, op, r, Some(AxisFrame(node, b0, targets)));
      }
    }

    method SetPosition(node: byte, degrees: real, other: s16) returns (r: Status)
      requires Valid()
      modifies this
      ensures Valid() && Performed(hasDriver, old(Now()), Now(), node, Op.SetPosition(degrees, other), r)
    {
      hide Done, Explained;
      var counts := ToInt16(Counts(degrees), other);
      var accel := if node in nodes then nodes[node].config.accel else 0;
      LowModes();
      r := Control(node, MODE_CSP, Targets(counts, accel, 0), Op.SetPosition(degrees, other));
    }

    method SetVelocity(node: byte, rpm: real, other: s16) returns (r: Status)
      requires Valid()
      modifies this
      ensures Valid() && Performed(hasDriver, old(Now()), Now(), node, Op.SetVelocity(rpm, other), r)
    {
      hide Done, Explained;
      var accel := if node in nodes then nodes[node].config.accel else 0;
      LowModes();
      r := Control(node, MODE_CSV, Targets(ToInt16(rpm, other), accel, 0), Op.SetVelocity(rpm, other));
    }

    method SetTorque(node: byte, currentMa: s16) returns (r: Status)
      requires Valid()
      modifies this
      ensures Valid() && Performed(hasDriver, old(Now()), Now(), node, Op.SetTorque(currentMa), r)
    {
      hide Done, Explained;
      LowModes();
      r := Control(node, MODE_CURRENT, Targets(currentMa, 0, 0), Op.SetTorque(currentMa));
    }

    method CtrlRaw(node: byte, mode: bv8, target1: s16, target2: u16, feedforward: s16) returns (r: Status)
      requires Valid()
      modifies this
      ensures Valid()
      ensures Performed(hasDriver, old(Now()), Now(), node, Op.CtrlRaw(mode, target1, target2, feedforward), r)
    {
      hide Done, Explained;
      r := Control(node, mode, Targets(target1, target2, feedforward), Op.CtrlRaw(mode, target1, target2, feedforward));
    }

    method MitControl(node: byte, p: M.Setpoint) returns (r: Status)
      requires Valid()
      modifies this
      ensures Valid() && Performed(hasDriver, old(Now()), Now(), node, Op.MitControl(p), r)
    {
      hide Done, Effect, Explained, Pulsed;
      if !hasDriver {
        return NoDevice;
      }
      if node !in nodes {
        return NoEntry;
      }
      var b0 := Consume(node);
      var n := nodes[node];
      MitEffect(old(nodes[node]), n, p, node);
      b0 := WithMode(b0, MODE_MIT) | Byte0.ENABLE | Byte0.BUS_ON;
      nodes, history := nodes[node := n.(byte0 := b0, enabled := true)], Logged(history, node, Op.MitControl(p));
      var raw := M.EncodeRaw(n.config.scales, InRadians(p));
      if raw == ZEROS {
        r := Invalid;
        Completed(old(Now()), Now(), node, Op.MitControl(p), r, None);
      } else {
        sent := sent + [MitFrame(node, b0, raw)];
        r := Success;
        Completed(old(Now()), Now(), node, Op.MitControl(p), r, Some(MitFrame(node, b0, raw)));
      }
    }

    /** Unlike the others it reports success when there is nothing to stop. */
    method Stop(node: byte) returns (r: Status)
      requires Valid()
      modifies this
      ensures Valid() && Performed(hasDriver, old(Now()), Now(), node, Op.Stop, r)
    {
      hide Done, Effect, Explained, Pulsed;
      if !hasDriver {
        return NoDevice;
      }
      if node !in nodes {
        return Success;
      }
      var b0 := Consume(node);
      var n := nodes[node];
      StopEffect(old(nodes[node]), n, node);
      history := Logged(history, node, Op.Stop);
      r := Success;
      if !n.enabled {
        Completed(old(Now()), Now(), node, Op.Stop, r, None);
      } else {
        sent := sent + [AxisFrame(node, b0, Targets(0, 0, 0))];
        Completed(old(Now()), Now(), node, Op.Stop, r, Some(AxisFrame(node, b0, Targets(0, 0, 0))));
      }
    }

    method SetBrake(node: byte, release: bool) returns (r: Status)
      requires Valid()
      modifies this
      ensures Valid() && Performed(hasDriver, old(Now()), Now(), node, Op.SetBrake(release), r)
    {
      hide Done, Effect, Explained, Pulsed;
      if !hasDriver {
        return NoDevice;
      }
      if node !in nodes {
        return NoEntry;
      }
      var b0 := Consume(node);
      var n := nodes[node];
      BrakeEffect(old(nodes[node]), n, release, node);
      b0 := WithBus(b0, release);
      nodes, history := nodes[node := n.(byte0 := b0)], Logged(history, node, Op.SetBrake(release));
      if !n.enabled {
        r := Again;
        Completed(old(Now()), Now(), node, Op.SetBrake(release), r, None);
      } else {
        sent := sent + [AxisFrame(node, b0, Targets(0, 0, 0))];
        r := Success;
        Completed(old(Now()), Now(), node, Op.SetBrake(release), r, Some(AxisFrame(node, b0, Targets(0, 0, 0))));
      }
    }

    method PdoEnable(node: byte) returns (r: Status)
      requires Valid()
      modifies this`nodes, this`history
      ensures Valid() && Performed(hasDriver, old(Now()), Now(), node, Op.PdoEnable, r)
    {
      hide Done, Effect, Explained, Pulsed;
      if node !in nodes {
        return NoEntry;
      }
      var n := nodes[node];
      EnablingEffect(n, node);
      nodes := nodes[node := n.(byte0 := n.byte0 | Byte0.ENABLE | Byte0.BUS_ON, enabled := true)];
      history := Logged(history, node, Op.PdoEnable);
      r := Success;
      Completed(old(Now()), Now(), node, Op.PdoEnable, r, None);
    }

    method PdoDisable(node: byte) returns (r: Status)
      requires Valid()
      modifies this`nodes, this`history
      ensures Valid() && Performed(hasDriver, old(Now()), Now(), node, Op.PdoDisable, r)
    {
      hide Done, Effect, Explained, Pulsed;
      if node !in nodes {
        return NoEntry;
      }
      var n := nodes[node];
      EnablingEffect(n, node);
      nodes := nodes[node := n.(byte0 := n.byte0 & NOT_ENABLE, enabled := false)];
      history := Logged(history, node, Op.PdoDisable);
      r := Success;
      Completed(old(Now()), Now(), node, Op.PdoDisable, r, None);
    }

    method BusOn(node: byte) returns (r: Status)
      requires Valid()
      modifies this`nodes, this`history
      ensures Valid() && Performed(hasDriver, old(Now()), Now(), node, Op.BusOn, r)
    {
      hide Done, Effect, Explained, Pulsed;
      if node !in nodes {
        return NoEntry;
      }
      var n := nodes[node];
      BusEffect(n, node);
      nodes := nodes[node := n.(byte0 := WithBus(n.byte0, true))];
      history := Logged(history, node, Op.BusOn);
      r := Success;
      Completed(old(Now()), Now(), node, Op.BusOn, r, None);
    }

    method BusOff(node: byte) returns (r: Status)
      requires Valid()
      modifies this`nodes, this`history
      ensures Valid() && Performed(hasDriver, old(Now()), Now(), node, Op.BusOff, r)
    {
      hide Done, Effect, Explained, Pulsed;
      if node !in nodes {
        return NoEntry;
      }
      var n := nodes[node];
      BusEffect(n, node);
      nodes := nodes[node := n.(byte0 := WithBus(n.byte0, false))];
      history := Logged(history, node, Op.BusOff);
      r := Success;
      Completed(old(Now()), Now(), node, Op.BusOff, r, None);
    }

    method ClearFault(node: byte) returns (r: Status)
      requires Valid()
      modifies this`nodes, this`history
      ensures Valid() && Performed(hasDriver, old(Now()), Now(), node, Op.ClearFault, r)
    {
      hide Done, Effect, Explained, Pulsed;
      if node !in nodes {
        return NoEntry;
      }
      var n := nodes[node];
      ClearFaultEffect(n, node);
      nodes := nodes[node := n.(byte0 := n.byte0 | Byte0.CLR_ERR, clrErrPending := true)];
      history := Logged(history, node, Op.ClearFault);
      r := Success;
      Completed(old(Now()), Now(), node, Op.ClearFault, r, None);
    }

    /** The mode check comes before the look-up: a bad mode is Invalid even for an unknown node. */
    method SetMode(node: byte, mode: u32) returns (r: Status)
      requires Valid()
      modifies this`nodes, this`history
      ensures Valid()
      ensures mode <= 6 ==> Performed(hasDriver, old(Now()), Now(), node, Op.SetMode(mode), r)
      ensures mode > 6 ==> r == Invalid && Now() == old(Now())
    {
      hide Done, Effect, Explained, Pulsed;
      if mode > 6 {
        return Invalid;
      }
      if node !in nodes {
        return NoEntry;
      }
      var n := nodes[node];
      ModeEffect(n, mode, node);
      nodes := nodes[node := n.(byte0 := WithMode(n.byte0, AsMode(mode)))];
      history := Logged(history, node, Op.SetMode(mode));
      r := Success;
      Completed(old(Now()), Now(), node, Op.SetMode(mode), r, None);
    }

    method Estop(node: byte) returns (r: Status)
      requires Valid()
      modifies this`nodes, this`history
      ensures Valid() && Performed(hasDriver, old(Now()), Now(), node, Op.Estop, r)
    {
      hide Done, Effect, Explained, Pulsed;
      if node !in nodes {
        return NoEntry;
      }
      var n := nodes[node];
      EstopEffect(n, node);
      nodes := nodes[node := n.(byte0 := n.byte0 & Byte0.MODE_MASK, enabled := false, clrErrPending := false)];
      history := Logged(history, node, Op.Estop);
      r := Success;
      Completed(old(Now()), Now(), node, Op.Estop, r, None);
    }

    method Recover(node: byte) returns (r: Status)
      requires Valid()
      modifies this`nodes, this`history
      ensures Valid() && Performed(hasDriver, old(Now()), Now(), node, Op.Recover, r)
    {
      hide Done, Effect, Explained, Pulsed;
      if node !in nodes {
        return NoEntry;
      }
      var n := nodes[node];
      RecoverEffect(n, node);
      nodes := nodes[node := n.(byte0 := (n.byte0 & Byte0.MODE_MASK) | Byte0.ENABLE | Byte0.BUS_ON,
                                enabled := true, clrErrPending := false)];
      history := Logged(history, node, Op.Recover);
      r := Success;
      Completed(old(Now()), Now(), node, Op.Recover, r, None);
    }

    method SetByte0(node: byte, byte0: bv8) returns (r: Status)
      requires Valid()
      modifies this`nodes, this`history
      ensures Valid() && Performed(hasDriver, old(Now()), Now(), node, Op.SetByte0(byte0), r)
    {
      hide Done, Effect, Explained, Pulsed;
      if node !in nodes {
        return NoEntry;
      }
      var n := nodes[node];
      RawByteEffect(n, byte0, node);
      nodes := nodes[node := n.(byte0 := byte0, clrErrPending := false)];
      history := Logged(history, node, Op.SetByte0(byte0));
      r := Success;
      Completed(old(Now()), Now(), node, Op.SetByte0(byte0), r, None);
    }

    method GetByte0(node: byte) returns (r: Status, b0: bv8)
      requires Valid()
      modifies this`history
      ensures Valid() && Performed(hasDriver, old(Now()), Now(), node, Op.GetByte0, r)
      ensures r == Success ==> b0 == nodes[node].byte0
    {
      hide Done, Effect, Explained, Pulsed;
      if node !in nodes {
        return NoEntry, 0;
      }
      b0 := nodes[node].byte0;
      GetEffect(nodes[node], node);
      history := Logged(history, node, Op.GetByte0);
      r := Success;
      Completed(old(Now()), Now(), node, Op.GetByte0, r, None);
    }

    method ConsumeByte0(node: byte) returns (r: Status, b0: bv8)
      requires Valid()
      modifies this`nodes, this`history
      ensures Valid() && Performed(hasDriver, old(Now()), Now(), node, Op.ConsumeByte0, r)
      ensures r == Success ==> b0 == nodes[node].byte0
    {
      hide Done, Effect, Explained, Pulsed;
      if node !in nodes {
        return NoEntry, 0;
      }
      b0 := Consume(node);
      ConsumeEffect(old(nodes[node]), nodes[node], node);
      history := Logged(history, node, Op.ConsumeByte0);
      r := Success;
      Completed(old(Now()), Now(), node, Op.ConsumeByte0, r, None);
    }

    /** motor_hal_enable and motor_hal_disable change the flag but not the byte. */
    method SdoEnable(node: byte, ok: bool) returns (r: Status)
      requires Valid()
      modifies this`nodes, this`history
      ensures Valid() && Performed(hasDriver, old(Now()), Now(), node, Op.SdoEnable(ok), r)
    {
      hide Done, Effect, Explained, Pulsed;
      if !hasDriver {
        return NoDevice;
      }
      if node !in nodes {
        return NoEntry;
      }
      SdoEnableEffect(nodes[node], ok, node);
      history := Logged(history, node, Op.SdoEnable(ok));
      if ok {
        nodes := nodes[node := nodes[node].(enabled := true)];
      }
      r := if ok then Success else SdoFailed;
      Completed(old(Now()), Now(), node, Op.SdoEnable(ok), r, None);
    }

    method SdoDisable(node: byte, ok: bool) returns (r: Status)
      requires Valid()
      modifies this`nodes, this`history
      ensures Valid() && Performed(hasDriver, old(Now()), Now(), node, Op.SdoDisable(ok), r)
    {
      hide Done, Effect, Explained, Pulsed;
      if !hasDriver {
        return NoDevice;
      }
      if node !in nodes {
        return NoEntry;
      }
      SdoDisableEffect(nodes[node], ok, node);
      history := Logged(history, node, Op.SdoDisable(ok));
      if ok {
        nodes := nodes[node := nodes[node].(enabled := false)];
      }
      r := if ok then Success else SdoFailed;
      Completed(old(Now()), Now(), node, Op.SdoDisable(ok), r, None);
    }
  }

  // ---------- whole histories of one axis ----------

  /** The value that the last writing call of the history wrote, or `initial` if none did. */
  function LastWrite<T>(h: seq<Op>, writes: Op -> Option<T>, initial: T): T {
    if h == [] then initial else Overwritten(LastWrite(h[..|h| - 1], writes, initial), writes(h[|h| - 1]))
  }

  /** What a frame shows of the clear bit: clear_fault, meant to set it, is a call that takes it away. */
  function ClearOnWire(op: Op): Option<bool> {
    match op
    case SetByte0(b) => Some(Byte0.ClearsError(b))
    case ClearFault | Estop | Recover => Some(false)
    case _ => None
  }

  lemma PulseAfter(a: Axis, op: Op)
    ensures Consumed(After(a, op)).clear == Overwritten(Consumed(a).clear, ClearOnWire(op))
  {
    hide EnableBitWrite, BusWrite, ModeWrite, ReservedWrite, SwitchWrite, Byte0.ClearsError;
  }

  lemma FieldsAfter(a: Axis, op: Op)
    ensures var b := After(a, op);
            && b.enabled == Overwritten(a.enabled, SwitchWrite(op))
            && b.enable == Overwritten(a.enable, EnableBitWrite(op)) && b.bus == Overwritten(a.bus, BusWrite(op))
            && b.mode == Overwritten(a.mode, ModeWrite(op)) && b.reserved == Overwritten(a.reserved, ReservedWrite(op))
  {
    hide Overwritten, SwitchWrite, EnableBitWrite, BusWrite, ModeWrite, ReservedWrite, ClearWrite, PendingWrite;
  }

  /** Each field of the state is the business of its last writer alone, over every history. */
  lemma {:induction false} LastWriterWins(h: seq<Op>)
    ensures var a := State(h);
            && a.enabled == LastWrite(h, SwitchWrite, false)
            && a.enable == LastWrite(h, EnableBitWrite, false)
            && a.bus == LastWrite(h, BusWrite, false)
            && a.mode == LastWrite(h, ModeWrite, 0)
            && a.reserved == LastWrite(h, ReservedWrite, false)
            && Consumed(a).clear == LastWrite(h, ClearOnWire, false)
  {
    if h != [] {
      var front, op := h[..|h| - 1], h[|h| - 1];
      LastWriterWins(front);
      FieldsAfter(State(front), op);
      PulseAfter(State(front), op);
      hide After, Overwritten, Consumed, SwitchWrite, EnableBitWrite, BusWrite, ModeWrite, ReservedWrite, ClearOnWire;
    }
  }

  lemma {:induction false} ControlConsumes(a: Axis, op: Op)
    requires IsControl(op)
    ensures After(a, op).clear == Consumed(a).clear && !After(a, op).clearPending
  {
  }

  lemma {:induction false} FrameShape(a: Axis, op: Op, node: byte, c: Config)
    requires IsControl(op) && !op.MitControl?
    ensures var f := FrameOf(a, op, node, c);
            && f.Some? == a.enabled
            && (f.Some? ==> f.value.AxisFrame? && f.value.node == node && f.value.byte0 == ByteOf(After(a, op)))
  {
    hide ByteOf, After;
  }

  /** Call by call, what the tables above say field by field. */
  lemma SwitchingCalls(a: Axis)
    ensures After(a, PdoEnable) == a.(enable := true, bus := true, enabled := true)
    ensures After(a, PdoDisable) == a.(enable := false, enabled := false)
  {
  }

  lemma SdoCalls(a: Axis)
    ensures After(a, SdoEnable(true)) == a.(enabled := true) && After(a, SdoDisable(true)) == a.(enabled := false)
  {
  }

  lemma FailedSdoCalls(a: Axis)
    ensures After(a, SdoEnable(false)) == a && After(a, SdoDisable(false)) == a
  {
  }

  lemma LookingCall(a: Axis)
    ensures After(a, GetByte0) == a
  {
  }

  lemma BusCalls(a: Axis)
    ensures After(a, BusOn) == a.(bus := true) && After(a, BusOff) == a.(bus := false)
  {
  }

  lemma ModeCall(a: Axis, mode: u32)
    ensures After(a, SetMode(mode)) == if mode > 6 then a else a.(mode := AsMode(mode))
  {
  }

  lemma FaultCalls(a: Axis)
    ensures After(a, ClearFault) == a.(clear := true, clearPending := true)
    ensures After(a, Estop) == OFF.(mode := a.mode)
    ensures After(a, Recover) == OFF.(mode := a.mode, enable := true, bus := true, enabled := true)
  {
  }

  lemma RawByteCall(a: Axis, byte0: bv8)
    ensures var b := After(a, SetByte0(byte0));
            ByteOf(b) == byte0 && !b.clearPending && b.enabled == a.enabled
  {
  }

  /** The calls that read the byte: a pending clear is gone, and only the named fields change. */
  lemma TargetCalls(a: Axis, op: Op)
    requires op.SetPosition? || op.SetVelocity? || op.SetTorque? || op.CtrlRaw?
    ensures After(a, op) == a.(clear := a.clear && !a.clearPending, clearPending := false,
                               mode := match op
                                       case SetPosition(_, _) => 3
                                       case SetVelocity(_, _) => 4
                                       case SetTorque(_) => 5
                                       case CtrlRaw(mode, _, _, _) => mode & 0x0F)
  {
  }

  lemma OtherReadingCalls(a: Axis, release: bool, p: M.Setpoint)
    ensures var c := a.(clear := a.clear && !a.clearPending, clearPending := false);
            && After(a, Stop) == c && After(a, ConsumeByte0) == c && After(a, SetBrake(release)) == c.(bus := release)
            && After(a, MitControl(p)) == c.(mode := 6, enable := true, bus := true, enabled := true)
  {
  }

  /** Half a turn and one turn a second, as the encoder gets them. */
  lemma HalfATurn(kp: real, kd: real, torque: real)
    ensures InRadians(M.Setpoint(180.0, 60.0, kp, kd, torque)) == M.Setpoint(PI, 2.0 * PI, kp, kd, torque)
  {
    Turns();
  }

  /** Main result: when a control call sends, and every field of the byte it then sends, read off the
      history by last writers. */
  lemma WhatIsSent(h: seq<Op>, op: Op, node: byte, c: Config)
    requires IsControl(op) && !op.MitControl?
    ensures var g := h + [op];
            match FrameOf(State(h), op, node, c)
            case None => !LastWrite(h, SwitchWrite, false)
            case Some(f) =>
              && LastWrite(h, SwitchWrite, false)
              && f.AxisFrame? && f.node == node
              && Byte0.Enabled(f.byte0) == LastWrite(g, EnableBitWrite, false)
              && Byte0.BusOn(f.byte0) == LastWrite(g, BusWrite, false)
              && Byte0.Mode(f.byte0) == Low4(LastWrite(g, ModeWrite, 0))
              && Byte0.ReservedSet(f.byte0) == LastWrite(g, ReservedWrite, false)
              && Byte0.ClearsError(f.byte0) == LastWrite(g, ClearOnWire, false)
  {
    var g := h + [op];
    LastWriterWins(h);
    LastWriterWins(g);
    ByteFields(State(g));
    StateSnoc(h, op);
    ControlConsumes(State(h), op);
    FrameShape(State(h), op, node, c);
    hide FrameOf, After, State, LastWrite, ByteOf, Byte0.Enabled, Byte0.BusOn, Byte0.ClearsError, Byte0.Mode,
      Byte0.ReservedSet, Low4;
  }

  lemma ByteFields(a: Axis)
    ensures var b := ByteOf(a);
            && Byte0.Enabled(b) == a.enable && Byte0.BusOn(b) == a.bus && Byte0.Mode(b) == Low4(a.mode)
            && Byte0.ReservedSet(b) == a.reserved && Byte0.ClearsError(b) == a.clear
  {
  }

  /** MIT control depends on no switch: it sends any setpoint that does not encode to all zeros, enabled and
      on the bus; RefusedSetpoints of the encoder says which do. */
  lemma WhatMitSends(h: seq<Op>, p: M.Setpoint, node: byte, c: Config)
    ensures var f := FrameOf(State(h), MitControl(p), node, c);
            && (f.None? <==> M.Refused(c.scales, InRadians(p)))
            && (f.Some? ==>
                  && f.value.MitFrame? && f.value.node == node && M.InRange(f.value.raw)
                  && f.value.raw == RawOf(p, c)
                  && Byte0.Enabled(f.value.byte0) && Byte0.BusOn(f.value.byte0)
                  && Byte0.Mode(f.value.byte0) == MODE_MIT
                  && Byte0.ClearsError(f.value.byte0) == LastWrite(h, ClearOnWire, false))
  {
    hide M.Encoded, M.Refused, InRadians;
    M.RefusedSetpoints(c.scales, InRadians(p));
    M.EncodeMonotone(c.scales, InRadians(p), InRadians(p));
    MitByte(h, p);
    hide After, ByteOf, State, Byte0.Enabled, Byte0.BusOn, Byte0.ClearsError, Byte0.Mode;
  }

  lemma MitByte(h: seq<Op>, p: M.Setpoint)
    ensures var b := ByteOf(After(State(h), MitControl(p)));
            && Byte0.Enabled(b) && Byte0.BusOn(b) && Byte0.Mode(b) == MODE_MIT
            && Byte0.ClearsError(b) == LastWrite(h, ClearOnWire, false)
  {
    LastWriterWins(h);
    ByteFields(After(State(h), MitControl(p)));
    hide LastWrite, ByteOf, Byte0.Enabled, Byte0.BusOn, Byte0.ClearsError, Byte0.Mode, Byte0.ReservedSet;
    assert Low4(MODE_MIT) == MODE_MIT;
  }

  /** Neither the raw byte nor the SDO path, which change one of byte and flag without the other. */
  predicate PdoOnly(h: seq<Op>) {
    forall i :: 0 <= i < |h| ==> !h[i].SetByte0? && !h[i].SdoEnable? && !h[i].SdoDisable?
  }

  predicate Agrees(a: Axis) {
    a.enable == a.enabled && a.clear == a.clearPending && !a.reserved
  }

  /** Apart from the raw byte and the SDO path, byte and flag are always written together. */
  lemma WrittenTogether(op: Op)
    requires !op.SetByte0? && !op.SdoEnable? && !op.SdoDisable?
    ensures SwitchWrite(op) == EnableBitWrite(op) && ClearWrite(op) == PendingWrite(op)
    ensures ReservedWrite(op) != Some(true)
  {
  }

  lemma AgreesAfter(a: Axis, op: Op)
    requires Agrees(a) && !op.SetByte0? && !op.SdoEnable? && !op.SdoDisable?
    ensures Agrees(After(a, op))
  {
    hide SwitchWrite, EnableBitWrite, ClearWrite, PendingWrite, ReservedWrite, BusWrite, ModeWrite, Consumes;
    WrittenTogether(op);
  }

  /** Main result: under the PDO calls alone, byte and flags agree in every reachable state. */
  lemma {:induction false} ByteAgreesWithFlags(h: seq<Op>)
    requires PdoOnly(h)
    ensures Agrees(State(h))
  {
    if h != [] {
      var front := h[..|h| - 1];
      assert PdoOnly(front);
      ByteAgreesWithFlags(front);
      AgreesAfter(State(front), h[|h| - 1]);
      hide After, Agrees;
    }
  }

  /** Main result: so every control frame carries ENABLE, no frame ever carries the clear bit, and a call
      that names a mode sends that mode. */
  lemma ControlFrames(h: seq<Op>, op: Op, node: byte, c: Config)
    requires PdoOnly(h + [op]) && Sends(State(h), op, c)
    ensures var b := FrameOf(State(h), op, node, c).value.byte0;
            && Byte0.Enabled(b) && !Byte0.ClearsError(b) && !Byte0.ReservedSet(b)
            && (ModeWrite(op).Some? ==> Byte0.Mode(b) == Low4(ModeWrite(op).value))
  {
    var g := h + [op];
    assert g[..|g| - 1] == h;
    assert forall i :: 0 <= i < |h| ==> h[i] == g[i];
    ByteAgreesWithFlags(h);
    ByteAgreesWithFlags(g);
    ByteFields(State(g));
    StateSnoc(h, op);
    hide State, After, ByteOf, ModeWrite, Byte0.Enabled, Byte0.BusOn, Byte0.ClearsError, Byte0.Mode,
      Byte0.ReservedSet, Low4;
  }

  predicate Reenables(op: Op) {
    op.PdoEnable? || op.Recover? || op.MitControl? || op.SdoEnable?
  }

  lemma StaysOff(op: Op)
    requires !Reenables(op)
    ensures Overwritten(false, SwitchWrite(op)) == false
  {
  }

  /** Main result: after an emergency stop nothing but mit_control is sent until the axis is re-enabled. */
  lemma {:induction false} EstopHolds(h: seq<Op>, later: seq<Op>, op: Op, c: Config)
    requires forall i :: 0 <= i < |later| ==> !Reenables(later[i])
    requires !op.MitControl?
    ensures !Sends(State(h + [Estop] + later), op, c)
  {
    SwitchedOff(h, later);
  }

  /** The shutdown of the dispatcher: the zero torque it asks for after the stop is refused, and no frame says
      that the axis is off. */
  lemma EstopThenZeroTorque(h: seq<Op>, node: byte, c: Config)
    ensures var a, op := State(h + [Estop]), SetTorque(0);
            FrameOf(a, op, node, c) == None && StatusOf(a, op, c) == Again
  {
    EstopHolds(h, [], SetTorque(0), c);
    SwitchedOff(h, []);
    assert h + [Estop] + [] == h + [Estop];
  }

  lemma {:induction false} SwitchedOff(h: seq<Op>, later: seq<Op>)
    requires forall i :: 0 <= i < |later| ==> !Reenables(later[i])
    ensures !State(h + [Estop] + later).enabled
  {
    if later == [] {
      StateSnoc(h, Estop);
      assert h + [Estop] + later == h + [Estop];
    } else {
      var front, op := later[..|later| - 1], later[|later| - 1];
      SwitchedOff(h, front);
      assert h + [Estop] + later == (h + [Estop] + front) + [op];
      StateSnoc(h + [Estop] + front, op);
      FieldsAfter(State(h + [Estop] + front), op);
      StaysOff(op);
      hide State, After, SwitchWrite, EnableBitWrite, BusWrite, ModeWrite, ReservedWrite, Reenables;
    }
  }

  /** The clear bit reaches the bus in one way only: as part of a raw byte, and then in every frame until
      estop, recover or clear_fault takes it away. */
  lemma ClearBitNeedsTheRawByte(h: seq<Op>, op: Op, node: byte, c: Config)
    requires IsControl(op) && Sends(State(h), op, c)
    ensures Byte0.ClearsError(FrameOf(State(h), op, node, c).value.byte0)
            <==> LastWrite(h, ClearOnWire, false)
  {
    LastWriterWins(h);
    PulseAfter(State(h), op);
    ControlConsumes(State(h), op);
    ByteFields(After(State(h), op));
    hide After, State, LastWrite, ByteOf, Byte0.ClearsError;
  }

  /** After clear_fault no frame asks a drive to clear anything, however many calls follow, unless one of
      them sets the raw byte. */
  lemma ClearFaultIsNotSent(h: seq<Op>, later: seq<Op>, op: Op, node: byte, c: Config)
    requires forall i :: 0 <= i < |later| ==> !later[i].SetByte0?
    requires IsControl(op) && Sends(State(h + [ClearFault] + later), op, c)
    ensures !Byte0.ClearsError(FrameOf(State(h + [ClearFault] + later), op, node, c).value.byte0)
  {
    ClearedFromThere(h, later);
    ClearBitNeedsTheRawByte(h + [ClearFault] + later, op, node, c);
  }

  lemma {:induction false} ClearedFromThere(h: seq<Op>, later: seq<Op>)
    requires forall i :: 0 <= i < |later| ==> !later[i].SetByte0?
    ensures !LastWrite(h + [ClearFault] + later, ClearOnWire, false)
  {
    var g := h + [ClearFault] + later;
    if later == [] {
      assert g[|g| - 1] == ClearFault;
    } else {
      ClearedFromThere(h, later[..|later| - 1]);
      assert g[..|g| - 1] == h + [ClearFault] + later[..|later| - 1] && g[|g| - 1] == later[|later| - 1];
    }
  }

  /** The three calls that the CLEAR_FAULT command makes: a frame goes out, in current mode and with ENABLE,
      but without the clear bit the command is named after. */
  lemma TheClearFaultCommand(h: seq<Op>, node: byte, c: Config)
    ensures var a := State(h + [ClearFault] + [PdoEnable]);
            var op := CtrlRaw(MODE_CURRENT, 0, 0, 0);
            && Sends(a, op, c)
            && var b := FrameOf(a, op, node, c).value.byte0;
               Byte0.Enabled(b) && Byte0.Mode(b) == MODE_CURRENT && !Byte0.ClearsError(b)
  {
    var g, op := h + [ClearFault] + [PdoEnable], CtrlRaw(MODE_CURRENT, 0, 0, 0);
    StateSnoc(h + [ClearFault], PdoEnable);
    ClearFaultIsNotSent(h, [PdoEnable], op, node, c);
    ByteFields(After(State(g), op));
    hide State, ByteOf, Byte0.Enabled, Byte0.Mode, Byte0.ClearsError;
    assert Low4(MODE_CURRENT) == MODE_CURRENT && Low4(Low4(MODE_CURRENT)) == MODE_CURRENT;
  }
}
