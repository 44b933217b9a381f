/** How received sensor frames reach the per-node cache (_dispatch_frame of motor_hal.c). */
module SensorDispatch {
  import opened Bytes

  const COB_SENSOR: int := 0x680
  const COB_RUN_FB0: int := 0x690
  const COB_RUN_FB1: int := 0x6A0
  const COB_SPI: int := 0x6B0
  const COB_AGGREGATE: int := 0x6C0

  /** motor_sensor_t without its receive timestamps. */
  datatype Cache = Cache(
    hall0: u16, hall1: u16, hall2: u16, force: u16, knee: u16, pc9: byte, valid: byte,
    spiForce: int, spiValid: byte, spiError: byte,
    temperature: s16, iq: s16, bus: int, error: u16,
    position: int, velocity: int)

  const NO_READING := Cache(0, 0, 0, 0, 0, 0, 0, 0, 0, 0, 0, 0, 0, 0, 0, 0)

  /** The caches of the registered nodes. */
  type Caches = map<byte, Cache>

  // ---------- the 64 packed bits of a hall frame ----------

  function LeValue(s: seq<byte>): nat {
    if s == [] then 0 else s[0] + 0x100 * LeValue(s[1..])
  }

  function Pow256(n: nat): nat {
    if n == 0 then 1 else 0x100 * Pow256(n - 1)
  }

  lemma {:induction false} LeSnoc(s: seq<byte>, b: byte)
    ensures LeValue(s + [b]) == LeValue(s) + Pow256(|s|) * b
  {
    if s == [] {
      assert [b][1..] == [];
    } else {
      LeSnoc(s[1..], b);
      assert (s + [b])[1..] == s[1..] + [b];
      Shifted(Pow256(|s| - 1), b);
    }
  }

  lemma Shifted(p: nat, b: nat)
    ensures 0x100 * (p * b) == (0x100 * p) * b
  {
  }

  /** `(p >> bits) & mask`: the quotient and the field below it, one after the other. */
  function WithHall(c: Cache, p: nat): Cache {
    c.(hall0 := p % 0x1000,
       hall1 := p / 0x1000 % 0x1000,
       hall2 := p / 0x100_0000 % 0x1000,
       force := p / 0x10_0000_0000 % 0x4000,
       knee := p / 0x4_0000_0000_0000 % 0x1000,
       pc9 := p / 0x4000_0000_0000_0000 % 2,
       valid := p / 0x8000_0000_0000_0000 % 2)
  }

  // ---------- the other three segments ----------

  function WithMotion(c: Cache, d: seq<byte>): Cache
    requires |d| >= 8
  {
    c.(position := Signed(Le32(d[0], d[1], d[2], d[3]), TWO_32),
       velocity := Signed(Le32(d[4], d[5], d[6], d[7]), TWO_32))
  }

  function WithRun(c: Cache, d: seq<byte>): Cache
    requires |d| >= 8
  {
    c.(iq := Signed(Le16(d[0], d[1]), 0x1_0000),
       bus := Signed(Le16(d[2], d[3]), 0x1_0000),
       temperature := Signed(Le16(d[4], d[5]), 0x1_0000),
       error := Le16(d[6], d[7]))
  }

  /** spi_force_frame_t */
  datatype SpiForce = SpiForce(force: int, valid: byte, error: byte)

  /** A 24-bit signed little-endian count, a validity bit and an error code; zeros if the frame is short. */
  function SpiOf(d: seq<byte>, dlc: byte): SpiForce
    requires |d| >= 8
  {
    if dlc < 6 then SpiForce(0, 0, 0)
    else SpiForce(Signed(Le32(d[0], d[1], d[2], 0), 0x100_0000), d[4] % 2, d[5])
  }

  function WithSpi(c: Cache, st: SpiForce): Cache {
    c.(spiForce := st.force, spiValid := st.valid, spiError := st.error)
  }

  function WithAggregate(d: seq<byte>): Cache
    requires |d| >= 32
  {
    WithSpi(WithRun(WithMotion(WithHall(NO_READING, LeValue(d[..8])), d[8..16]), d[16..24]), SpiOf(d[24..32], 8))
  }

  // ---------- dispatch, by identifier range ----------

  datatype Kind = Hall | Motion | Run | Spi | Aggregate

  /** Which node a frame is for and what it carries; frames of other ranges leave the sensor caches alone. */
  function Address(f: Frame): Option<(byte, Kind)> {
    var id := f.id % 0x800;
    if COB_RUN_FB0 <= id < COB_RUN_FB1 then Some((id - COB_RUN_FB0, Motion))
    else if COB_RUN_FB1 <= id < COB_SPI then Some((id - COB_RUN_FB1, Run))
    else if COB_SPI <= id < COB_AGGREGATE then Some((id - COB_SPI, Spi))
    else if COB_AGGREGATE <= id < COB_AGGREGATE + 0x10 && f.dlc >= 32 then Some((id - COB_AGGREGATE, Aggregate))
    else if COB_SENSOR <= id < 0x700 then Some((id - COB_SENSOR, Hall))
    else None
  }

  /** A short hall or SPI frame zeroes its own fields; a short 0x690 or 0x6A0 frame is ignored. */
  function Received(c: Cache, kind: Kind, f: Frame): Cache {
    match kind
    case Hall => WithHall(c, if f.dlc >= 8 then LeValue(f.data[..8]) else 0)
    case Motion => if f.dlc >= 8 then WithMotion(c, f.data) else c
    case Run => if f.dlc >= 8 then WithRun(c, f.data) else c
    case Spi => WithSpi(c, SpiOf(f.data, f.dlc))
    case Aggregate => WithAggregate(f.data)
  }

  function Dispatched(caches: Caches, f: Frame): Caches {
    match Address(f)
    case None => caches
    case Some((node, kind)) =>
      if node in caches then caches[node := Received(caches[node], kind, f)] else caches
  }

  /** Copies the seven packed fields only. */
  function CopyHall(c: Cache, s: Cache): Cache {
    c.(hall0 := s.hall0, hall1 := s.hall1, hall2 := s.hall2, force := s.force, knee := s.knee,
       pc9 := s.pc9, valid := s.valid)
  }

  /** The code's masks `id & 0x7F0` and `id & 0x780` cut out these ranges. */
  lemma Masks(id: u32)
    ensures var low := id % 0x800;
            && (low / 0x10 == 0x69 <==> COB_RUN_FB0 <= low < COB_RUN_FB1)
            && (low / 0x10 == 0x6A <==> COB_RUN_FB1 <= low < COB_SPI)
            && (low / 0x10 == 0x6B <==> COB_SPI <= low < COB_AGGREGATE)
            && (low / 0x10 == 0x6C <==> COB_AGGREGATE <= low < COB_AGGREGATE + 0x10)
            && (low / 0x80 == 0xD <==> COB_SENSOR <= low < 0x700)
            && (low / 0x10 == 0x69 ==> id % 0x10 == low - COB_RUN_FB0)
            && (low / 0x10 == 0x6A ==> id % 0x10 == low - COB_RUN_FB1)
            && (low / 0x10 == 0x6B ==> (id - COB_SPI) % 0x100 == low - COB_SPI)
            && (low / 0x10 == 0x6C ==> id % 0x10 == low - COB_AGGREGATE)
            && (low / 0x80 == 0xD ==> (id - COB_SENSOR) % 0x100 == low - COB_SENSOR)
  {
    var q, low := id / 0x800, id % 0x800;
    ModUnique(id, 0x10, 0x80 * q + low / 0x10, low % 0x10);
    if COB_SPI <= low < COB_AGGREGATE {
      ModUnique(id - COB_SPI, 0x100, 8 * q, low - COB_SPI);
    }
    if COB_SENSOR <= low < 0x700 {
      ModUnique(id - COB_SENSOR, 0x100, 8 * q, low - COB_SENSOR);
    }
  }

  /** canopen_parse_spi_force */
  method ParseSpiForce(d: seq<byte>, dlc: byte) returns (st: SpiForce)
    requires |d| >= 8
    ensures st == SpiOf(d, dlc)
  {
    st := SpiForce(0, 0, 0);
    if dlc < 6 {
      return;
    }
    var raw: int := Le32(d[0], d[1], d[2], 0);
    if raw / 0x80_0000 % 2 == 1 {
      raw := raw - 0x100_0000;
    }
    st := SpiForce(raw, d[4] % 2, d[5]);
  }

  /** _parse_sensor_frame: clears the whole structure, then fills the seven packed fields. */
  method ParseSensorFrame(d: seq<byte>, dlc: byte) returns (s: Cache)
    requires |d| >= 8
    ensures s == WithHall(NO_READING, if dlc >= 8 then LeValue(d[..8]) else 0)
  {
    s := NO_READING;
    if dlc < 8 {
      return;
    }
    var p: nat, shift: nat := 0, 1;
    for i := 0 to 8
      invariant p == LeValue(d[..i]) && shift == Pow256(i)
    {
      LeSnoc(d[..i], d[i]);
      assert d[..i] + [d[i]] == d[..i + 1];
      p, shift := p + shift * d[i], shift * 0x100;
    }
    s := WithHall(s, p);
  }

  class Hal {
    /** motor_node_t.cached_sensor of each registered node */
    var caches: Caches

    constructor (nodes: set<byte>)
      ensures caches.Keys == nodes && forall n :: n in nodes ==> caches[n] == NO_READING
    {
      caches := map n | n in nodes :: NO_READING;
    }

    /** The code tests `id & 0x7F0` range by range in this order, then `id & 0x780`. */
    method DispatchFrame(f: Frame)
      modifies this
      ensures caches == Dispatched(old(caches), f)
    {
      hide WithMotion, WithRun, WithSpi, WithAggregate, SpiOf, LeValue;
      Masks(f.id);
      var low := f.id % 0x10;
      if f.id % 0x800 / 0x10 == 0x6A {
        if f.dlc >= 8 && low in caches {
          caches := caches[low := WithRun(caches[low], f.data)];
        }
        return;
      }
      if f.id % 0x800 / 0x10 == 0x69 {
        if f.dlc >= 8 && low in caches {
          caches := caches[low := WithMotion(caches[low], f.data)];
        }
        return;
      }
      if f.id % 0x800 / 0x10 == 0x6C && f.dlc >= 32 {
        if low in caches {
          Aggregate(low, f);
        }
        return;
      }
      if f.id % 0x800 / 0x10 == 0x6B {
        var node := (f.id - COB_SPI) % 0x100;
        if node in caches {
          var st := ParseSpiForce(f.data, f.dlc);
          caches := caches[node := WithSpi(caches[node], st)];
        }
        return;
      }
      if f.id % 0x800 / 0x80 == 0xD {
        var node := (f.id - COB_SENSOR) % 0x100;
        if node in caches {
          var s := ParseSensorFrame(f.data, f.dlc);
          caches := caches[node := CopyHall(caches[node], s)];
        }
      }
    }

    /** The 32-byte frame: segment 1 overwrites the whole cache, the others fill in their fields. */
    method Aggregate(node: byte, f: Frame)
      requires node in caches && f.dlc >= 32
      modifies this
      ensures caches == old(caches)[node := WithAggregate(f.data)]
    {
      hide WithHall, WithMotion, WithRun, WithSpi, LeValue, SpiOf;
      var s := ParseSensorFrame(f.data, 8);
      s := WithMotion(s, f.data[8..16]);
      s := WithRun(s, f.data[16..24]);
      var st := ParseSpiForce(f.data[24..32], 8);
      caches := caches[node := WithSpi(s, st)];
    }
  }

  // ---------- the packed bits are a bijection ----------

  /** The seven fields as one 64-bit number, lowest field first. */
  function PackedHall(s: Cache): nat {
    s.hall0 + 0x1000 * (s.hall1 + 0x1000 * (s.hall2 + 0x1000 * (s.force + 0x4000 * (s.knee
    + 0x1000 * (s.pc9 + 2 * s.valid)))))
  }

  /** U12, U14 and single-bit fields. */
  predicate HallInRange(s: Cache) {
    s.hall0 < 0x1000 && s.hall1 < 0x1000 && s.hall2 < 0x1000 && s.force < 0x4000 && s.knee < 0x1000
    && s.pc9 < 2 && s.valid < 2
  }

  /** A shift by the sum of field widths is a chain of shifts by one width each. */
  lemma Shifts(p: nat)
    ensures p / 0x100_0000 == p / 0x1000 / 0x1000
    ensures p / 0x10_0000_0000 == p / 0x1000 / 0x1000 / 0x1000
    ensures p / 0x4_0000_0000_0000 == p / 0x1000 / 0x1000 / 0x1000 / 0x4000
    ensures p / 0x4000_0000_0000_0000 == p / 0x1000 / 0x1000 / 0x1000 / 0x4000 / 0x1000
    ensures p / 0x8000_0000_0000_0000 == p / 0x1000 / 0x1000 / 0x1000 / 0x4000 / 0x1000 / 2
  {
  }

  /** Parsing the packed number gives the fields back. */
  lemma HallFieldsSurvive(c: Cache, s: Cache)
    requires HallInRange(s)
    ensures WithHall(c, PackedHall(s)) == CopyHall(c, s)
  {
    var p := PackedHall(s);
    Shifts(p);
    var p5 := s.pc9 + 2 * s.valid;
    var p4 := s.knee + 0x1000 * p5;
    var p3 := s.force + 0x4000 * p4;
    var p2 := s.hall2 + 0x1000 * p3;
    var p1 := s.hall1 + 0x1000 * p2;
    ModUnique(p, 0x1000, p1, s.hall0);
    ModUnique(p1, 0x1000, p2, s.hall1);
    ModUnique(p2, 0x1000, p3, s.hall2);
    ModUnique(p3, 0x4000, p4, s.force);
    ModUnique(p4, 0x1000, p5, s.knee);
    ModUnique(p5, 2, s.valid, s.pc9);
  }

  /** Packing the parsed fields gives back any 64-bit number: no bit is lost or read twice. */
  lemma HallBitsSurvive(c: Cache, p: u64)
    ensures HallInRange(WithHall(c, p)) && PackedHall(WithHall(c, p)) == p
  {
    Shifts(p);
    assert p / 0x8000_0000_0000_0000 < 2;
  }

  // ---------- what a node sends ----------

  /** The low n bytes of x, least significant first; a negative x in two's complement. */
  function LeBytes(x: int, n: nat): (s: seq<byte>)
    ensures |s| == n
    decreases n
  {
    if n == 0 then [] else [x % 0x100] + LeBytes(x / 0x100, n - 1)
  }

  /** The four payloads as the node lays them out: U12 and U14 fields packed from bit 0, S32 position and
      velocity, S16 currents and temperature and U16 error, S24 force with a validity bit and an error code. */
  function HallPayload(s: Cache): seq<byte> {
    LeBytes(PackedHall(s), 8)
  }

  function MotionPayload(s: Cache): seq<byte> {
    LeBytes(s.position, 4) + LeBytes(s.velocity, 4)
  }

  function RunPayload(s: Cache): seq<byte> {
    LeBytes(s.iq, 2) + LeBytes(s.bus, 2) + LeBytes(s.temperature, 2) + LeBytes(s.error, 2)
  }

  function SpiPayload(s: Cache): seq<byte> {
    LeBytes(s.spiForce, 3) + [0, s.spiValid, s.spiError, 0, 0]
  }

  predicate InRange(s: Cache) {
    && HallInRange(s)
    && -0x8000_0000 <= s.position < 0x8000_0000 && -0x8000_0000 <= s.velocity < 0x8000_0000
    && -0x8000 <= s.bus < 0x8000
    && -0x80_0000 <= s.spiForce < 0x80_0000 && s.spiValid < 2
  }

  lemma Signed16(x: int)
    requires -0x8000 <= x < 0x8000
    ensures var b := LeBytes(x, 2); Signed(Le16(b[0], b[1]), 0x1_0000) == x
  {
    Unsigned16(x);
    ModUnique(x, 0x1_0000, if x < 0 then -1 else 0, if x < 0 then x + 0x1_0000 else x);
    hide Le16, LeBytes;
  }

  lemma Unsigned16(x: int)
    ensures var b := LeBytes(x, 2); Le16(b[0], b[1]) == x % 0x1_0000
  {
    var y := x / 0x100;
    assert LeBytes(x, 2) == [x % 0x100] + LeBytes(y, 1) && LeBytes(y, 1) == [y % 0x100];
    ModUnique(x, 0x1_0000, y / 0x100, x % 0x100 + 0x100 * (y % 0x100));
  }

  lemma Signed24(x: int)
    requires -0x80_0000 <= x < 0x80_0000
    ensures var b := LeBytes(x, 3); Signed(Le32(b[0], b[1], b[2], 0), 0x100_0000) == x
  {
    Unsigned24(x);
    ModUnique(x, 0x100_0000, if x < 0 then -1 else 0, if x < 0 then x + 0x100_0000 else x);
    hide Le32, LeBytes;
  }

  lemma Unsigned24(x: int)
    ensures var b := LeBytes(x, 3); Le32(b[0], b[1], b[2], 0) == x % 0x100_0000
  {
    var y := x / 0x100;
    Unsigned16(y);
    assert LeBytes(x, 3) == [x % 0x100] + LeBytes(y, 2);
    hide LeBytes;
    ModUnique(x, 0x100_0000, y / 0x1_0000, x % 0x100 + 0x100 * (y % 0x1_0000));
  }

  lemma Signed32(x: int)
    requires -0x8000_0000 <= x < 0x8000_0000
    ensures var b := LeBytes(x, 4); Signed(Le32(b[0], b[1], b[2], b[3]), TWO_32) == x
  {
    Unsigned32(x);
    ModUnique(x, TWO_32, if x < 0 then -1 else 0, if x < 0 then x + TWO_32 else x);
    hide Le32, LeBytes;
  }

  lemma Unsigned32(x: int)
    ensures var b := LeBytes(x, 4); Le32(b[0], b[1], b[2], b[3]) == x % TWO_32
  {
    var y := x / 0x100;
    Unsigned24(y);
    assert LeBytes(x, 4) == [x % 0x100] + LeBytes(y, 3);
    hide LeBytes;
    ModUnique(x, TWO_32, y / 0x100_0000, x % 0x100 + 0x100 * (y % 0x100_0000));
  }

  lemma {:induction false} LeRoundTrip(x: nat, n: nat)
    requires x < Pow256(n)
    ensures LeValue(LeBytes(x, n)) == x
  {
    if n > 0 {
      assert LeBytes(x, n)[1..] == LeBytes(x / 0x100, n - 1);
      LeRoundTrip(x / 0x100, n - 1);
    }
  }

  // ---------- and what arrives ----------

  lemma HallArrives(c: Cache, s: Cache)
    requires InRange(s)
    ensures WithHall(c, LeValue(HallPayload(s))) == CopyHall(c, s)
  {
    HallFieldsSurvive(c, s);
    PackedFits(s);
    LeRoundTrip(PackedHall(s), 8);
    hide WithHall, LeValue, LeBytes, PackedHall;
  }

  lemma PackedFits(s: Cache)
    requires HallInRange(s)
    ensures PackedHall(s) < Pow256(8)
  {
    assert Pow256(8) == 0x100 * (0x100 * (0x100 * (0x100 * Pow256(4))));
  }

  lemma MotionArrives(c: Cache, d: seq<byte>, s: Cache)
    requires InRange(s) && |d| >= 8 && d[..8] == MotionPayload(s)
    ensures WithMotion(c, d) == c.(position := s.position, velocity := s.velocity)
  {
    Signed32(s.position);
    Signed32(s.velocity);
    var p, v := LeBytes(s.position, 4), LeBytes(s.velocity, 4);
    hide LeBytes, Le32, Signed;
    assert forall k :: 0 <= k < 4 ==> d[..8][k] == p[k] && d[..8][k + 4] == v[k];
  }

  lemma RunArrives(c: Cache, d: seq<byte>, s: Cache)
    requires InRange(s) && |d| >= 8 && d[..8] == RunPayload(s)
    ensures WithRun(c, d) == c.(iq := s.iq, bus := s.bus, temperature := s.temperature, error := s.error)
  {
    Signed16(s.iq);
    Signed16(s.bus);
    Signed16(s.temperature);
    Unsigned16(s.error);
    var i, b, t, e := LeBytes(s.iq, 2), LeBytes(s.bus, 2), LeBytes(s.temperature, 2), LeBytes(s.error, 2);
    hide LeBytes, Le16, Signed;
    assert forall k :: 0 <= k < 2 ==>
      d[..8][k] == i[k] && d[..8][k + 2] == b[k] && d[..8][k + 4] == t[k] && d[..8][k + 6] == e[k];
  }

  lemma SpiArrives(c: Cache, d: seq<byte>, dlc: byte, s: Cache)
    requires InRange(s) && dlc >= 6 && |d| >= 8 && d[..8] == SpiPayload(s)
    ensures WithSpi(c, SpiOf(d, dlc))
            == c.(spiForce := s.spiForce, spiValid := s.spiValid, spiError := s.spiError)
  {
    Signed24(s.spiForce);
    var f := LeBytes(s.spiForce, 3);
    hide LeBytes, Le32, Signed;
    assert forall k :: 0 <= k < 3 ==> d[..8][k] == f[k];
    assert d[..8][4] == s.spiValid && d[..8][5] == s.spiError;
  }

  /** Main result: each of the five frames of a registered node below 16 leaves in its cache exactly the fields
      that the node sent, for all values in range, and touches no other field and no other node. */
  lemma FieldsArrive(caches: Caches, f: Frame, node: byte, s: Cache)
    requires node in caches && node < 0x10 && InRange(s)
    ensures var c, seen := caches[node], Dispatched(caches, f);
            && (f.id == 0x680 + node && f.dlc >= 8 && f.data[..8] == HallPayload(s) ==>
                  seen == caches[node := c.(hall0 := s.hall0, hall1 := s.hall1, hall2 := s.hall2, force := s.force,
                                            knee := s.knee, pc9 := s.pc9, valid := s.valid)])
            && (f.id == 0x690 + node && f.dlc >= 8 && f.data[..8] == MotionPayload(s) ==>
                  seen == caches[node := c.(position := s.position, velocity := s.velocity)])
            && (f.id == 0x6A0 + node && f.dlc >= 8 && f.data[..8] == RunPayload(s) ==>
                  seen == caches[node := c.(iq := s.iq, bus := s.bus, temperature := s.temperature,
                                            error := s.error)])
            && (f.id == 0x6B0 + node && f.dlc >= 6 && f.data[..8] == SpiPayload(s) ==>
                  seen == caches[node := c.(spiForce := s.spiForce, spiValid := s.spiValid, spiError := s.spiError)])
            && (f.id == 0x6C0 + node && f.dlc >= 32
                && f.data[..32] == HallPayload(s) + MotionPayload(s) + RunPayload(s) + SpiPayload(s) ==>
                  seen == caches[node := s])
  {
    var c := caches[node];
    Addresses(f, node);
    Opened(c, f);
    hide *;
    if f.id == 0x680 + node && f.dlc >= 8 && f.data[..8] == HallPayload(s) {
      Delivered(caches, f, node, Hall);
      HallArrives(c, s);
      CopyHallIs(c, s);
    } else if f.id == 0x690 + node && f.dlc >= 8 && f.data[..8] == MotionPayload(s) {
      Delivered(caches, f, node, Motion);
      MotionArrives(c, f.data, s);
    } else if f.id == 0x6A0 + node && f.dlc >= 8 && f.data[..8] == RunPayload(s) {
      Delivered(caches, f, node, Run);
      RunArrives(c, f.data, s);
    } else if f.id == 0x6B0 + node && f.dlc >= 6 && f.data[..8] == SpiPayload(s) {
      Delivered(caches, f, node, Spi);
      SpiArrives(c, f.data, f.dlc, s);
    } else if f.id == 0x6C0 + node && f.dlc >= 32
              && f.data[..32] == HallPayload(s) + MotionPayload(s) + RunPayload(s) + SpiPayload(s) {
      Delivered(caches, f, node, Aggregate);
      AggregateArrives(f.data, s);
    }
  }

  lemma Addresses(f: Frame, node: byte)
    requires node < 0x10
    ensures f.id == 0x680 + node ==> Address(f) == Some((node, Hall))
    ensures f.id == 0x690 + node ==> Address(f) == Some((node, Motion))
    ensures f.id == 0x6A0 + node ==> Address(f) == Some((node, Run))
    ensures f.id == 0x6B0 + node ==> Address(f) == Some((node, Spi))
    ensures f.id == 0x6C0 + node && f.dlc >= 32 ==> Address(f) == Some((node, Aggregate))
  {
  }

  lemma Delivered(caches: Caches, f: Frame, node: byte, kind: Kind)
    requires node in caches && Address(f) == Some((node, kind))
    ensures Dispatched(caches, f) == caches[node := Received(caches[node], kind, f)]
  {
    hide Address, Received;
  }

  lemma Opened(c: Cache, f: Frame)
    ensures f.dlc >= 8 ==> Received(c, Hall, f) == WithHall(c, LeValue(f.data[..8]))
    ensures f.dlc >= 8 ==> Received(c, Motion, f) == WithMotion(c, f.data) && Received(c, Run, f) == WithRun(c, f.data)
    ensures Received(c, Spi, f) == WithSpi(c, SpiOf(f.data, f.dlc))
    ensures Received(c, Aggregate, f) == WithAggregate(f.data)
  {
    hide WithHall, WithMotion, WithRun, WithSpi, WithAggregate, SpiOf, LeValue;
  }

  lemma CopyHallIs(c: Cache, s: Cache)
    ensures CopyHall(c, s) == c.(hall0 := s.hall0, hall1 := s.hall1, hall2 := s.hall2, force := s.force,
                                 knee := s.knee, pc9 := s.pc9, valid := s.valid)
  {
  }

  lemma PayloadLengths(s: Cache)
    ensures |HallPayload(s)| == |MotionPayload(s)| == |RunPayload(s)| == |SpiPayload(s)| == 8
  {
  }

  lemma AggregateArrives(d: seq<byte>, s: Cache)
    requires InRange(s) && |d| >= 32
    requires d[..32] == HallPayload(s) + MotionPayload(s) + RunPayload(s) + SpiPayload(s)
    ensures WithAggregate(d) == s
  {
    PayloadLengths(s);
    hide HallPayload, MotionPayload, RunPayload, SpiPayload, WithHall, WithMotion, WithRun, WithSpi, SpiOf, LeValue;
    assert d[..8] == d[..32][..8] == HallPayload(s);
    assert d[8..16] == d[..32][8..16] == MotionPayload(s);
    assert d[16..24] == d[..32][16..24] == RunPayload(s);
    assert d[24..32] == d[..32][24..32] == SpiPayload(s);
    assert d[8..16][..8] == d[8..16] && d[16..24][..8] == d[16..24] && d[24..32][..8] == d[24..32];
    var c := CopyHall(NO_READING, s);
    HallArrives(NO_READING, s);
    MotionArrives(c, d[8..16], s);
    var c2 := c.(position := s.position, velocity := s.velocity);
    RunArrives(c2, d[16..24], s);
    SpiArrives(c2.(iq := s.iq, bus := s.bus, temperature := s.temperature, error := s.error), d[24..32], 8, s);
  }

  // ---------- the aggregate frame against the four small ones ----------

  function CobOf(k: nat): int {
    COB_SENSOR + 0x10 * k
  }

  /** q is the 8-byte frame of segment k of the aggregate frame f. */
  predicate IsQuarter(q: Frame, f: Frame, node: byte, k: nat) {
    k < 4 && q.id == CobOf(k) + node && q.dlc >= 8 && q.data[..8] == f.data[8 * k..8 * k + 8]
  }

  function DispatchAll(caches: Caches, qs: seq<Frame>): Caches {
    if qs == [] then caches else Dispatched(DispatchAll(caches, qs[..|qs| - 1]), qs[|qs| - 1])
  }

  /** Segment k of the payload d laid over a cache. */
  function Overlaid(c: Cache, d: seq<byte>, k: nat): Cache
    requires |d| >= 32 && k < 4
  {
    if k == 0 then WithHall(c, LeValue(d[..8]))
    else if k == 1 then WithMotion(c, d[8..16])
    else if k == 2 then WithRun(c, d[16..24])
    else WithSpi(c, SpiOf(d[24..32], 8))
  }

  /** The cache c with the segments listed in ks replaced by those of the payload d. */
  function Blend(c: Cache, d: seq<byte>, ks: seq<nat>): Cache
    requires |d| >= 32
  {
    var c0 := if 0 in ks then Overlaid(c, d, 0) else c;
    var c1 := if 1 in ks then Overlaid(c0, d, 1) else c0;
    var c2 := if 2 in ks then Overlaid(c1, d, 2) else c1;
    if 3 in ks then Overlaid(c2, d, 3) else c2
  }

  lemma BlendAll(c: Cache, d: seq<byte>, ks: seq<nat>)
    requires |d| >= 32 && 0 in ks && 1 in ks && 2 in ks && 3 in ks
    ensures Blend(c, d, ks) == WithAggregate(d)
  {
    hide LeValue, Signed;
  }

  lemma QuarterAddress(q: Frame, f: Frame, node: byte, k: nat)
    requires node < 0x10 && IsQuarter(q, f, node, k)
    ensures Address(q) == Some((node, if k == 0 then Hall else if k == 1 then Motion else if k == 2 then Run else Spi))
  {
  }

  lemma QuarterReads(c: Cache, f: Frame, node: byte, q: Frame, k: nat)
    requires node < 0x10 && IsQuarter(q, f, node, k)
    ensures Address(q).Some? && Address(q).value.0 == node
    ensures Received(c, Address(q).value.1, q) == Overlaid(c, f.data, k)
  {
    QuarterAddress(q, f, node, k);
    hide Address, LeValue, Signed, Le16, Le32, WithHall;
    assert forall i :: 0 <= i < 8 ==> q.data[i] == q.data[..8][i];
  }

  /** A segment goes over the others without touching their fields. */
  lemma BlendMore(c: Cache, d: seq<byte>, ks: seq<nat>, k: nat)
    requires |d| >= 32 && k < 4
    ensures Overlaid(Blend(c, d, ks), d, k) == Blend(c, d, ks + [k])
  {
    hide LeValue, Signed, Le16, Le32;
    assert forall j: nat :: j in ks + [k] <==> j in ks || j == k;
  }

  lemma BlendStep(c: Cache, f: Frame, node: byte, q: Frame, ks: seq<nat>, k: nat)
    requires node < 0x10 && IsQuarter(q, f, node, k)
    ensures Address(q).Some? && Address(q).value.0 == node
    ensures Received(Blend(c, f.data, ks), Address(q).value.1, q) == Blend(c, f.data, ks + [k])
  {
    QuarterReads(Blend(c, f.data, ks), f, node, q, k);
    BlendMore(c, f.data, ks, k);
  }

  lemma AggregateAddress(f: Frame, node: byte)
    requires node < 0x10 && f.id == COB_AGGREGATE + node && f.dlc >= 32
    ensures Address(f) == Some((node, Aggregate))
  {
  }

  lemma AggregateReceived(c: Cache, f: Frame)
    ensures Received(c, Aggregate, f) == WithAggregate(f.data)
  {
  }

  lemma AggregateDispatched(caches: Caches, f: Frame, node: byte)
    requires node < 0x10 && f.id == COB_AGGREGATE + node && f.dlc >= 32
    ensures Dispatched(caches, f) == if node in caches then caches[node := WithAggregate(f.data)] else caches
  {
    AggregateAddress(f, node);
    hide Address, Received, WithAggregate;
    if node in caches {
      AggregateReceived(caches[node], f);
    }
  }

  /** Main result: the four quarters of an aggregate frame, received in any order and any number of times
      each (at least once), from any cache, leave what the aggregate frame leaves, and no other node's
      cache changes. */
  lemma AggregateEqualsParts(caches: Caches, f: Frame, node: byte, qs: seq<Frame>, ks: seq<nat>)
    requires node < 0x10 && f.id == COB_AGGREGATE + node && f.dlc >= 32
    requires |ks| == |qs| && forall i :: 0 <= i < |qs| ==> IsQuarter(qs[i], f, node, ks[i])
    requires 0 in ks && 1 in ks && 2 in ks && 3 in ks
    ensures DispatchAll(caches, qs) == Dispatched(caches, f)
    ensures forall n :: n in caches && n != node ==>
              n in DispatchAll(caches, qs) && DispatchAll(caches, qs)[n] == caches[n]
  {
    assert |f.data| >= 32;
    hide *;
    PartsBlend(caches, f, node, qs, ks);
    if node in caches {
      BlendAll(caches[node], f.data, ks);
    }
    AggregateDispatched(caches, f, node);
  }

  lemma {:induction false} PartsBlend(caches: Caches, f: Frame, node: byte, qs: seq<Frame>, ks: seq<nat>)
    requires node < 0x10
    requires |ks| == |qs| && forall i :: 0 <= i < |qs| ==> IsQuarter(qs[i], f, node, ks[i])
    ensures DispatchAll(caches, qs)
            == if node in caches then caches[node := Blend(caches[node], f.data, ks)] else caches
  {
    if qs != [] {
      var n := |qs| - 1;
      PartsBlend(caches, f, node, qs[..n], ks[..n]);
      assert ks == ks[..n] + [ks[n]];
      var c := if node in caches then caches[node] else NO_READING;
      BlendStep(c, f, node, qs[n], ks[..n], ks[n]);
      hide Blend, IsQuarter, Address, Received;
    } else if node in caches {
      assert Blend(caches[node], f.data, []) == caches[node];
    }
  }

  // ---------- which node a frame reaches ----------

  /** The identifier a node sends a kind of frame under. */
  function BaseOf(kind: Kind): int {
    match kind
    case Hall => COB_SENSOR
    case Motion => COB_RUN_FB0
    case Run => COB_RUN_FB1
    case Spi => COB_SPI
    case Aggregate => COB_AGGREGATE
  }

  /** Main result: for every kind of sensor frame and every 7-bit node id, when the frame reaches the node that
      sent it, as what it is. Hall frames survive wherever the ids of the other kinds leave a gap. */
  lemma ReachesItsNodeExactlyWhen(f: Frame, node: byte, kind: Kind)
    requires node < 0x80 && f.id == BaseOf(kind) + node
    ensures Address(f) == Some((node, kind)) <==>
              match kind
              case Hall => node < 0x10 || node >= 0x50 || (node >= 0x40 && f.dlc < 32)
              case Aggregate => node < 0x10 && f.dlc >= 32
              case _ => node < 0x10
  {
  }

  /** Where the others go: what node 16 + n sends as a hall frame is taken for the motion frame of node n, its
      motion frame for the run frame of node n, and so on; a cut-off aggregate frame of node n is taken for the
      hall frame of node 64 + n. */
  lemma Misdirected(f: Frame, n: byte)
    requires n < 0x10
    ensures f.id == COB_SENSOR + 0x10 + n ==> Address(f) == Some((n, Motion))
    ensures f.id == COB_RUN_FB0 + 0x10 + n ==> Address(f) == Some((n, Run))
    ensures f.id == COB_RUN_FB1 + 0x10 + n ==> Address(f) == Some((n, Spi))
    ensures f.id == COB_SPI + 0x10 + n && f.dlc >= 32 ==> Address(f) == Some((n, Aggregate))
    ensures f.id == COB_AGGREGATE + n && f.dlc < 32 ==> Address(f) == Some((0x40 + n, Hall))
  {
  }

  /** The bytes that a frame needs; an aggregate frame with fewer than 32 is not taken for one at all. */
  function Needed(kind: Kind): nat {
    match kind
    case Hall | Motion | Run => 8
    case Spi => 6
    case Aggregate => 0
  }

  /** The length of a frame has one effect: a frame that is too short changes nothing if it is a motion or run
      frame and zeroes the fields of its kind, and no others, if it is a hall or SPI frame, whatever its bytes;
      the fields of any longer frame do not depend on the length. */
  lemma ShortFrames(c: Cache, kind: Kind, f: Frame, g: Frame)
    ensures f.dlc < Needed(kind) ==>
              Received(c, kind, f) == match kind
                                      case Hall => CopyHall(c, NO_READING)
                                      case Spi => c.(spiForce := 0, spiValid := 0, spiError := 0)
                                      case _ => c
    ensures f.dlc >= Needed(kind) && g.dlc >= Needed(kind) && f.data == g.data ==>
              Received(c, kind, f) == Received(c, kind, g)
  {
  }
}
