/** The packed control frames of canopen_frames.c: the 0x200 and 0x210 broadcasts and their single-axis forms. */
module CanopenFrames {
  import opened Bytes
  import Byte0

  const COB_PDO_CTRL_BASE: u32 := 0x100
  const COB_PDO_MIT_BASE: u32 := 0x110
  const COB_MULTI_CTRL: u32 := 0x200
  const COB_MULTI_MIT: u32 := 0x210

  const AXIS_SLOT: nat := 7
  const MIT_SLOT: nat := 9
  const ID_MAP: nat := 56
  const MAX_AXES: nat := 8
  const MAX_MIT: nat := 6
  const MODE_MIT: bv8 := 6

  datatype AxisCmd = AxisCmd(
    nodeId: byte, mode: bv8, enable: bool, releaseBrake: bool, clearError: bool,
    target1: s16, target2: u16, feedforward: s16)

  datatype MitCmd = MitCmd(
    nodeId: byte, enable: bool, releaseBrake: bool, clearError: bool,
    position: u16, velocity: u16, kp: u16, kd: u16, torque: u16)

  /** canfd_frame_t, filled in place by the builders. */
  class FrameBuffer {
    var id: u32
    var dlc: byte
    const data: array<byte>
    var isFd: bool
    var useBrs: bool

    constructor ()
      ensures data.Length == CANFD_MAX_DLC && fresh(data)
    {
      data := new byte[CANFD_MAX_DLC];
    }

    predicate IsPdo(cob: u32, length: byte)
      reads this
    {
      id == cob && dlc == length && isFd && useBrs
    }
  }

  // ---------- the bytes of one slot ----------

  /** `((x & 0x0F) << 4) | ((y >> 8) & 0x0F)`: the two nibbles do not overlap. */
  function Nibbles(x: int, y: int): byte {
    x % 0x10 * 0x10 + y / 0x100 % 0x10
  }

  /** `(x >> 4) & 0xFF` */
  function Mid(x: int): byte {
    x / 0x10 % 0x100
  }

  function AxisSlot(flags: bv8, target1: int, target2: int, feedforward: int): (s: seq<byte>)
    ensures |s| == AXIS_SLOT
  {
    [Byte0.ToByte(flags), Hi(target1), Lo(target1), Hi(target2), Lo(target2), Hi(feedforward), Lo(feedforward)]
  }

  function MitSlot(flags: bv8, position: int, velocity: int, kp: int, kd: int, torque: int): (s: seq<byte>)
    ensures |s| == MIT_SLOT
  {
    [Byte0.ToByte(flags), Hi(position), Lo(position), Mid(velocity), Nibbles(velocity, kp), Lo(kp),
     Mid(kd), Nibbles(kd, torque), Lo(torque)]
  }

  function AxisBytes(c: AxisCmd): (s: seq<byte>)
    ensures |s| == AXIS_SLOT
  {
    AxisSlot(Byte0.Build(c.enable, c.releaseBrake, c.clearError, c.mode), c.target1, c.target2, c.feedforward)
  }

  function MitBytes(c: MitCmd): (s: seq<byte>)
    ensures |s| == MIT_SLOT
  {
    MitSlot(Byte0.Build(c.enable, c.releaseBrake, c.clearError, MODE_MIT),
            c.position, c.velocity, c.kp, c.kd, c.torque)
  }

  // ---------- how a drive reads a slot ----------

  /** Field layout as motor_hal_types.h and canopen_frames.h give it to the drive. */
  function AxisRead(s: seq<byte>, id: byte): AxisCmd
    requires |s| == AXIS_SLOT
  {
    var b := Byte0.FromByte(s[0]);
    AxisCmd(id, Byte0.Mode(b), Byte0.Enabled(b), Byte0.BusOn(b), Byte0.ClearsError(b),
            Signed(Be16(s[1], s[2]), 0x1_0000), Be16(s[3], s[4]), Signed(Be16(s[5], s[6]), 0x1_0000))
  }

  function MitRead(s: seq<byte>, id: byte): MitCmd
    requires |s| == MIT_SLOT
  {
    var b := Byte0.FromByte(s[0]);
    MitCmd(id, Byte0.Enabled(b), Byte0.BusOn(b), Byte0.ClearsError(b),
           Be16(s[1], s[2]), Upper12(s[3], s[4]), Lower12(s[4], s[5]), Upper12(s[6], s[7]), Lower12(s[7], s[8]))
  }

  /** A byte and the upper nibble of the next one. */
  function Upper12(hi: byte, nibbles: byte): u16 {
    0x10 * hi + nibbles / 0x10
  }

  /** The lower nibble of a byte and the byte after it. */
  function Lower12(nibbles: byte, lo: byte): u16 {
    0x100 * (nibbles % 0x10) + lo
  }

  lemma WordRoundTrip(x: int)
    ensures Be16(Hi(x), Lo(x)) == x % 0x1_0000
  {
    var q := x / 0x100;
    ModUnique(x, 0x1_0000, q / 0x100, 0x100 * (q % 0x100) + x % 0x100);
  }

  lemma UpperRoundTrip(x: int, y: int)
    ensures Upper12(Mid(x), Nibbles(x, y)) == x % 0x1000
  {
    var q := x / 0x10;
    ModUnique(Nibbles(x, y), 0x10, x % 0x10, y / 0x100 % 0x10);
    ModUnique(x, 0x1000, q / 0x100, 0x10 * (q % 0x100) + x % 0x10);
  }

  lemma LowerRoundTrip(x: int, y: int)
    ensures Lower12(Nibbles(x, y), Lo(y)) == y % 0x1000
  {
    var q := y / 0x100;
    ModUnique(Nibbles(x, y), 0x10, x % 0x10, q % 0x10);
    ModUnique(y, 0x1000, q / 0x10, 0x100 * (q % 0x10) + y % 0x100);
  }

  /** A drive reads back every field of a slot; of the mode, the low four bits. */
  lemma AxisSlotRoundTrip(c: AxisCmd)
    ensures AxisRead(AxisBytes(c), c.nodeId) == c.(mode := c.mode & 0x0F)
  {
    hide Hi, Lo, Be16, Byte0.Build, Byte0.FromByte, Byte0.ToByte, Byte0.Mode, Byte0.Enabled, Byte0.BusOn,
      Byte0.ClearsError;
    Byte0.ByteRoundTrip(Byte0.Build(c.enable, c.releaseBrake, c.clearError, c.mode));
    Byte0.BuildRoundTrip(c.enable, c.releaseBrake, c.clearError, c.mode);
    WordRoundTrip(c.target1);
    WordRoundTrip(c.target2);
    WordRoundTrip(c.feedforward);
  }

  /** The 12-bit fields of a command modulo 4096. */
  function Wrapped(c: MitCmd): MitCmd {
    c.(velocity := c.velocity % 0x1000, kp := c.kp % 0x1000, kd := c.kd % 0x1000, torque := c.torque % 0x1000)
  }

  /** The ranges that canopen_frames.h documents for the fields. */
  predicate InRange(c: MitCmd) {
    c.velocity < 0x1000 && c.kp < 0x1000 && c.kd < 0x1000 && c.torque < 0x1000
  }

  /** The same for MIT: the 12-bit fields come back modulo 4096, so exactly when they are in range. */
  lemma MitSlotRoundTrip(c: MitCmd)
    ensures MitRead(MitBytes(c), c.nodeId) == Wrapped(c)
    ensures MitRead(MitBytes(c), c.nodeId) == c <==> InRange(c)
  {
    hide MitRead, MitBytes;
    MitFields(c);
  }

  lemma MitFields(c: MitCmd)
    ensures MitRead(MitBytes(c), c.nodeId) == Wrapped(c)
  {
    hide Hi, Lo, Mid, Nibbles, Be16, Upper12, Lower12, Byte0.Build, Byte0.FromByte, Byte0.ToByte, Byte0.Mode,
      Byte0.Enabled, Byte0.BusOn, Byte0.ClearsError;
    Byte0.ByteRoundTrip(Byte0.Build(c.enable, c.releaseBrake, c.clearError, MODE_MIT));
    Byte0.BuildRoundTrip(c.enable, c.releaseBrake, c.clearError, MODE_MIT);
    WordRoundTrip(c.position);
    UpperRoundTrip(c.velocity, c.kp);
    LowerRoundTrip(c.velocity, c.kp);
    UpperRoundTrip(c.kd, c.torque);
    LowerRoundTrip(c.kd, c.torque);
  }

  // ---------- the 64-byte broadcast ----------

  predicate Uniform(slots: seq<seq<byte>>, width: nat) {
    forall i :: 0 <= i < |slots| ==> |slots[i]| == width
  }

  lemma Multiples(width: nat, n: nat)
    ensures width * (n + 1) == width * n + width
  {
  }

  lemma {:induction false} FlatLength(slots: seq<seq<byte>>, width: nat)
    requires Uniform(slots, width)
    ensures |Flatten(slots)| == width * |slots|
  {
    if slots != [] {
      var front := slots[..|slots| - 1];
      FlatLength(front, width);
      Multiples(width, |front|);
    }
  }

  lemma {:induction false} FlatSlot(slots: seq<seq<byte>>, width: nat, i: nat)
    requires Uniform(slots, width) && i < |slots|
    ensures 0 <= width * i && width * i + width <= |Flatten(slots)|
    ensures Flatten(slots)[width * i..width * i + width] == slots[i]
  {
    var front, last := slots[..|slots| - 1], slots[|slots| - 1];
    FlatLength(front, width);
    if i < |front| {
      FlatSlot(front, width, i);
      var from, to := width * i, width * i + width;
      hide Flatten;
      assert (Flatten(front) + last)[from..to] == Flatten(front)[from..to];
    }
  }

  function AxisSlots(cmds: seq<AxisCmd>): (slots: seq<seq<byte>>)
    ensures |slots| == |cmds| && Uniform(slots, AXIS_SLOT)
  {
    seq(|cmds|, i requires 0 <= i < |cmds| => AxisBytes(cmds[i]))
  }

  function MitSlots(cmds: seq<MitCmd>): (slots: seq<seq<byte>>)
    ensures |slots| == |cmds| && Uniform(slots, MIT_SLOT)
  {
    seq(|cmds|, i requires 0 <= i < |cmds| => MitBytes(cmds[i]))
  }

  /** A broadcast payload: the slots from byte 0, the node ids from byte 56, zeros elsewhere. */
  predicate IsPacked(data: seq<byte>, slots: seq<seq<byte>>, ids: seq<byte>) {
    var used := |Flatten(slots)|;
    && |data| == CANFD_MAX_DLC && used <= ID_MAP && |ids| <= CANFD_MAX_DLC - ID_MAP
    && data[..used] == Flatten(slots)
    && (forall k :: used <= k < ID_MAP ==> data[k] == 0)
    && data[ID_MAP..ID_MAP + |ids|] == ids
    && (forall k :: ID_MAP + |ids| <= k < CANFD_MAX_DLC ==> data[k] == 0)
  }

  function AxisIds(cmds: seq<AxisCmd>): (ids: seq<byte>)
    ensures |ids| == |cmds|
  {
    seq(|cmds|, i requires 0 <= i < |cmds| => cmds[i].nodeId)
  }

  function MitIds(cmds: seq<MitCmd>): (ids: seq<byte>)
    ensures |ids| == |cmds|
  {
    seq(|cmds|, i requires 0 <= i < |cmds| => cmds[i].nodeId)
  }

  /** `memset(f, 0, sizeof(*f))` */
  method Clear(f: FrameBuffer)
    requires f.data.Length == CANFD_MAX_DLC
    modifies f, f.data
    ensures f.id == 0 && f.dlc == 0 && !f.isFd && !f.useBrs
    ensures f.data[..] == ZeroBytes(CANFD_MAX_DLC)
  {
    f.id, f.dlc, f.isFd, f.useBrs := 0, 0, false, false;
    forall k | 0 <= k < f.data.Length {
      f.data[k] := 0;
    }
  }

  /** The stores that the axis broadcast (at each slot) and the single-axis frame (at 0) have in common. */
  method PutAxis(f: FrameBuffer, base: nat, flags: bv8, target1: s16, target2: u16, feedforward: s16)
    requires base + AXIS_SLOT <= ID_MAP && f.data.Length == CANFD_MAX_DLC
    modifies f.data
    ensures f.data[..] == old(f.data[..base]) + AxisSlot(flags, target1, target2, feedforward)
                          + old(f.data[base + AXIS_SLOT..])
  {
    hide Byte0.ToByte, Hi, Lo;
    f.data[base] := Byte0.ToByte(flags);
    f.data[base + 1], f.data[base + 2] := Hi(target1), Lo(target1);
    f.data[base + 3], f.data[base + 4] := Hi(target2), Lo(target2);
    f.data[base + 5], f.data[base + 6] := Hi(feedforward), Lo(feedforward);
  }

  /** The same for the MIT frames; the torque is unsigned in the broadcast and signed in the single frame. */
  method PutMit(f: FrameBuffer, base: nat, flags: bv8, position: u16, velocity: u16, kp: u16, kd: u16, torque: int)
    requires base + MIT_SLOT <= ID_MAP && f.data.Length == CANFD_MAX_DLC
    modifies f.data
    ensures f.data[..] == old(f.data[..base]) + MitSlot(flags, position, velocity, kp, kd, torque)
                          + old(f.data[base + MIT_SLOT..])
  {
    hide Byte0.ToByte, Hi, Lo, Mid, Nibbles;
    f.data[base] := Byte0.ToByte(flags);
    f.data[base + 1], f.data[base + 2] := Hi(position), Lo(position);
    f.data[base + 3] := Mid(velocity);
    f.data[base + 4], f.data[base + 5] := Nibbles(velocity, kp), Lo(kp);
    f.data[base + 6] := Mid(kd);
    f.data[base + 7], f.data[base + 8] := Nibbles(kd, torque), Lo(torque);
  }

  /** The slot region filled so far, then zeros. */
  predicate Filled(data: seq<byte>, slots: seq<seq<byte>>) {
    && |data| == CANFD_MAX_DLC && |Flatten(slots)| <= ID_MAP
    && data == Flatten(slots) + ZeroBytes(CANFD_MAX_DLC - |Flatten(slots)|)
  }

  lemma NothingFilled(data: seq<byte>)
    requires data == ZeroBytes(CANFD_MAX_DLC)
    ensures Filled(data, [])
  {
    assert data == Flatten([]) + ZeroBytes(CANFD_MAX_DLC);
  }

  lemma FilledStep(data: seq<byte>, slots: seq<seq<byte>>, i: nat, width: nat, next: seq<byte>)
    requires i < |slots| && Uniform(slots, width) && width * (i + 1) <= ID_MAP
    requires Filled(data, slots[..i])
    requires |data| == CANFD_MAX_DLC && 0 <= width * i && width * i + width <= CANFD_MAX_DLC
    requires next == data[..width * i] + slots[i] + data[width * i + width..]
    ensures Filled(next, slots[..i + 1])
  {
    FlatLength(slots[..i], width);
    var flat := Flatten(slots[..i]);
    assert slots[..i + 1][..i] == slots[..i];
    assert Flatten(slots[..i + 1]) == flat + slots[i];
    hide Flatten, Uniform;
  }

  lemma PackedWhen(before: seq<byte>, data: seq<byte>, slots: seq<seq<byte>>, ids: seq<byte>)
    requires Filled(before, slots) && |ids| <= CANFD_MAX_DLC - ID_MAP && |data| == CANFD_MAX_DLC
    requires data[..ID_MAP] == before[..ID_MAP]
    requires data[ID_MAP..] == ids + ZeroBytes(CANFD_MAX_DLC - ID_MAP - |ids|)
    ensures IsPacked(data, slots, ids)
  {
    hide Flatten;
    var used := |Flatten(slots)|;
    assert data[..used] == Flatten(slots) by {
      assert forall k :: 0 <= k < used ==> data[k] == data[..ID_MAP][k] && before[k] == before[..ID_MAP][k];
    }
    assert forall k :: used <= k < ID_MAP ==> data[k] == data[..ID_MAP][k] && before[k] == before[..ID_MAP][k];
    assert forall k :: ID_MAP <= k < CANFD_MAX_DLC ==> data[k] == data[ID_MAP..][k - ID_MAP];
  }

  /** The second loop of both broadcasts: the node ids from byte 56. */
  method PutIds(f: FrameBuffer, ids: seq<byte>, ghost slots: seq<seq<byte>>)
    requires f.data.Length == CANFD_MAX_DLC && |ids| <= CANFD_MAX_DLC - ID_MAP && Filled(f.data[..], slots)
    modifies f.data
    ensures IsPacked(f.data[..], slots, ids)
  {
    hide Flatten;
    assert f.data[ID_MAP..] == [] + ZeroBytes(CANFD_MAX_DLC - ID_MAP);
    hide Filled;
    var i := 0;
    while i < |ids|
      invariant 0 <= i <= |ids|
      invariant f.data[..ID_MAP] == old(f.data[..ID_MAP])
      invariant f.data[ID_MAP..] == ids[..i] + ZeroBytes(CANFD_MAX_DLC - ID_MAP - i)
    {
      f.data[ID_MAP + i] := ids[i];
      i := i + 1;
    }
    assert ids[..i] == ids;
    PackedWhen(old(f.data[..]), f.data[..], slots, ids);
    hide IsPacked, Filled;
  }

  /** The slot loop of the axis broadcast. */
  method PutAxes(f: FrameBuffer, cmds: seq<AxisCmd>)
    requires |cmds| <= MAX_AXES && f.data.Length == CANFD_MAX_DLC && Filled(f.data[..], [])
    modifies f.data
    ensures Filled(f.data[..], AxisSlots(cmds))
  {
    hide Filled, AxisSlot, Byte0.Build;
    ghost var slots := AxisSlots(cmds);
    assert slots[..0] == [];
    var i := 0;
    while i < |cmds|
      invariant 0 <= i <= |cmds|
      invariant Filled(f.data[..], slots[..i])
    {
      ghost var before := f.data[..];
      var c := cmds[i];
      var flags := Byte0.Build(c.enable, c.releaseBrake, c.clearError, c.mode);
      PutAxis(f, i * AXIS_SLOT, flags, c.target1, c.target2, c.feedforward);
      assert slots[i] == AxisSlot(flags, c.target1, c.target2, c.feedforward);
      FilledStep(before, slots, i, AXIS_SLOT, f.data[..]);
      i := i + 1;
    }
    assert slots[..i] == slots;
  }

  /** canopen_multi_ctrl_build: count is cut to 8. */
  method MultiCtrlBuild(cmds: seq<AxisCmd>, count: nat, f: FrameBuffer)
    requires count <= |cmds| && f.data.Length == CANFD_MAX_DLC
    modifies f, f.data
    ensures f.IsPdo(0x200, 64)
    ensures var used := cmds[..if count > 8 then 8 else count];
            IsPacked(f.data[..], AxisSlots(used), AxisIds(used))
  {
    hide Filled, IsPacked, AxisSlots, AxisIds;
    Clear(f);
    f.id, f.dlc, f.isFd, f.useBrs := COB_MULTI_CTRL, 64, true, true;
    NothingFilled(f.data[..]);
    var used := cmds[..if count > MAX_AXES then MAX_AXES else count];
    PutAxes(f, used);
    PutIds(f, AxisIds(used), AxisSlots(used));
  }

  /** The slot loop of the MIT broadcast. */
  method PutMits(f: FrameBuffer, cmds: seq<MitCmd>)
    requires |cmds| <= MAX_MIT && f.data.Length == CANFD_MAX_DLC && Filled(f.data[..], [])
    modifies f.data
    ensures Filled(f.data[..], MitSlots(cmds))
  {
    hide Filled, MitSlot, Byte0.Build;
    ghost var slots := MitSlots(cmds);
    assert slots[..0] == [];
    var i := 0;
    while i < |cmds|
      invariant 0 <= i <= |cmds|
      invariant Filled(f.data[..], slots[..i])
    {
      ghost var before := f.data[..];
      var c := cmds[i];
      var flags := Byte0.Build(c.enable, c.releaseBrake, c.clearError, MODE_MIT);
      PutMit(f, i * MIT_SLOT, flags, c.position, c.velocity, c.kp, c.kd, c.torque);
      assert slots[i] == MitSlot(flags, c.position, c.velocity, c.kp, c.kd, c.torque);
      FilledStep(before, slots, i, MIT_SLOT, f.data[..]);
      i := i + 1;
    }
    assert slots[..i] == slots;
  }

  /** canopen_mit_multi_build: count is cut to 6. */
  method MitMultiBuild(cmds: seq<MitCmd>, count: nat, f: FrameBuffer)
    requires count <= |cmds| && f.data.Length == CANFD_MAX_DLC
    modifies f, f.data
    ensures f.IsPdo(0x210, 64)
    ensures var used := cmds[..if count > 6 then 6 else count];
            IsPacked(f.data[..], MitSlots(used), MitIds(used))
  {
    hide Filled, IsPacked, MitSlots, MitIds;
    Clear(f);
    f.id, f.dlc, f.isFd, f.useBrs := COB_MULTI_MIT, 64, true, true;
    NothingFilled(f.data[..]);
    var used := cmds[..if count > MAX_MIT then MAX_MIT else count];
    PutMits(f, used);
    PutIds(f, MitIds(used), MitSlots(used));
  }

  // ---------- what the drives read back ----------

  /** Main result: drive i reads command i from its slot and finds its own id in the map; every other
      byte is zero, so the remaining slots are disabled. */
  lemma AxisBroadcastRoundTrip(cmds: seq<AxisCmd>, data: seq<byte>, i: nat)
    requires |cmds| <= 8 && IsPacked(data, AxisSlots(cmds), AxisIds(cmds)) && i < |cmds|
    ensures AxisRead(data[7 * i..7 * i + 7], data[56 + i])
            == cmds[i].(mode := cmds[i].mode & 0x0F)
  {
    FlatSlot(AxisSlots(cmds), AXIS_SLOT, i);
    hide Flatten, AxisRead, AxisBytes;
    var used := |Flatten(AxisSlots(cmds))|;
    assert data[AXIS_SLOT * i..AXIS_SLOT * i + AXIS_SLOT] == data[..used][AXIS_SLOT * i..AXIS_SLOT * i + AXIS_SLOT];
    assert data[ID_MAP + i] == data[ID_MAP..ID_MAP + |cmds|][i];
    AxisSlotRoundTrip(cmds[i]);
  }

  lemma MitBroadcastRoundTrip(cmds: seq<MitCmd>, data: seq<byte>, i: nat)
    requires |cmds| <= 6 && IsPacked(data, MitSlots(cmds), MitIds(cmds)) && i < |cmds|
    ensures var got := MitRead(data[9 * i..9 * i + 9], data[56 + i]);
            got == Wrapped(cmds[i]) && (got == cmds[i] <==> InRange(cmds[i]))
  {
    FlatSlot(MitSlots(cmds), MIT_SLOT, i);
    hide Flatten, MitRead, MitBytes, Wrapped, InRange;
    var used := |Flatten(MitSlots(cmds))|;
    assert data[MIT_SLOT * i..MIT_SLOT * i + MIT_SLOT] == data[..used][MIT_SLOT * i..MIT_SLOT * i + MIT_SLOT];
    assert data[ID_MAP + i] == data[ID_MAP..ID_MAP + |cmds|][i];
    MitSlotRoundTrip(cmds[i]);
  }

  /** The last slot ends where the id map begins (56 bytes for eight axes, 54 for six MIT axes), and a
      byte outside the used slots and ids is zero. */
  lemma UnusedBytesAreZero(slots: seq<seq<byte>>, width: nat, data: seq<byte>, ids: seq<byte>, k: nat)
    requires Uniform(slots, width) && |ids| == |slots| && IsPacked(data, slots, ids)
    requires width * |slots| <= k < 56 || 56 + |slots| <= k < 64
    ensures data[k] == 0
  {
    FlatLength(slots, width);
  }

  /** So a payload is determined by its commands: two different lists never share one. */
  lemma AxisBroadcastIsInjective(a: seq<AxisCmd>, b: seq<AxisCmd>, data: seq<byte>)
    requires |a| == |b| <= MAX_AXES
    requires forall i :: 0 <= i < |a| ==> a[i].mode & 0x0F == a[i].mode && b[i].mode & 0x0F == b[i].mode
    requires IsPacked(data, AxisSlots(a), AxisIds(a)) && IsPacked(data, AxisSlots(b), AxisIds(b))
    ensures a == b
  {
    hide IsPacked, AxisRead;
    forall i | 0 <= i < |a| ensures a[i] == b[i] {
      AxisBroadcastRoundTrip(a, data, i);
      AxisBroadcastRoundTrip(b, data, i);
    }
  }

  // ---------- the single-axis frames ----------

  /** canopen_custom_pdo_build_u8: the payload is one axis slot under an explicit control byte. */
  method CustomPdoBuild(node: byte, byte0: bv8, target1: s16, target2: u16, feedforward: s16, f: FrameBuffer)
    requires f.data.Length == CANFD_MAX_DLC
    modifies f, f.data
    ensures f.IsPdo(0x100 + node, 7)
    ensures f.data[..] == AxisSlot(byte0, target1, target2, feedforward) + ZeroBytes(CANFD_MAX_DLC - AXIS_SLOT)
  {
    Clear(f);
    f.id, f.dlc, f.isFd, f.useBrs := COB_PDO_CTRL_BASE + node, 7, true, true;
    PutAxis(f, 0, byte0, target1, target2, feedforward);
  }

  /** canopen_mit_pdo_build_u8: one MIT slot; here the torque is signed. */
  method MitPdoBuild(node: byte, byte0: bv8, position: u16, velocity: u16, kp: u16, kd: u16, torque: s16,
                     f: FrameBuffer)
    requires f.data.Length == CANFD_MAX_DLC
    modifies f, f.data
    ensures f.IsPdo(0x110 + node, 9)
    ensures f.data[..] == MitSlot(byte0, position, velocity, kp, kd, torque) + ZeroBytes(CANFD_MAX_DLC - MIT_SLOT)
  {
    Clear(f);
    f.id, f.dlc, f.isFd, f.useBrs := COB_PDO_MIT_BASE + node, 9, true, true;
    PutMit(f, 0, byte0, position, velocity, kp, kd, torque);
  }

  /** A drive that sign-extends the 12-bit torque recovers it exactly when it fits in 12 bits; otherwise
      it reads another value. */
  lemma SignedTorque(byte0: bv8, position: u16, velocity: u16, kp: u16, kd: u16, torque: s16)
    ensures var s := MitSlot(byte0, position, velocity, kp, kd, torque);
            Signed(Lower12(s[7], s[8]), 0x1000) == torque <==> -0x800 <= torque < 0x800
  {
    hide Byte0.ToByte, Hi, Mid, Nibbles, Lower12, Lo;
    LowerRoundTrip(kd, torque);
  }

  /** Every slot of the MIT broadcast carries the MIT mode, 6. */
  lemma MitSlotsAreInMitMode(c: MitCmd)
    ensures Byte0.Mode(Byte0.FromByte(MitBytes(c)[0])) == 6
  {
    Byte0.ByteRoundTrip(Byte0.Build(c.enable, c.releaseBrake, c.clearError, MODE_MIT));
    Byte0.BuildRoundTrip(c.enable, c.releaseBrake, c.clearError, MODE_MIT);
    hide Byte0.Build, Byte0.Mode, Byte0.ToByte, Byte0.FromByte;
    assert MODE_MIT & 0x0F == 6;
  }
}
