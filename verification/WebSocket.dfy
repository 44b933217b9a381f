/** The WebSocket handshake key, the text framer and the deframer of WebServer.cpp (RFC 6455). */
module WebSocket {
  import opened Bytes
  import Sha1

  // ---------- base64 (RFC 4648, section 4) ----------

  type sextet = x: int | 0 <= x < 64

  /** b64_table: A-Z, a-z, 0-9, +, / */
  function Symbol(v: sextet): char {
    if v < 26 then 'A' + v as char
    else if v < 52 then 'a' + (v - 26) as char
    else if v < 62 then '0' + (v - 52) as char
    else if v == 62 then '+' else '/'
  }

  /** The table as the source and Table 1 of the standard spell it. */
  lemma Alphabet()
    ensures [Symbol(0), Symbol(1), Symbol(2), Symbol(3), Symbol(4), Symbol(5), Symbol(6), Symbol(7)]
            == "ABCDEFGH"
    ensures [Symbol(8), Symbol(9), Symbol(10), Symbol(11), Symbol(12), Symbol(13), Symbol(14), Symbol(15)]
            == "IJKLMNOP"
    ensures [Symbol(16), Symbol(17), Symbol(18), Symbol(19), Symbol(20), Symbol(21), Symbol(22), Symbol(23)]
            == "QRSTUVWX"
    ensures [Symbol(24), Symbol(25), Symbol(26), Symbol(27), Symbol(28), Symbol(29), Symbol(30), Symbol(31)]
            == "YZabcdef"
    ensures [Symbol(32), Symbol(33), Symbol(34), Symbol(35), Symbol(36), Symbol(37), Symbol(38), Symbol(39)]
            == "ghijklmn"
    ensures [Symbol(40), Symbol(41), Symbol(42), Symbol(43), Symbol(44), Symbol(45), Symbol(46), Symbol(47)]
            == "opqrstuv"
    ensures [Symbol(48), Symbol(49), Symbol(50), Symbol(51), Symbol(52), Symbol(53), Symbol(54), Symbol(55)]
            == "wxyz0123"
    ensures [Symbol(56), Symbol(57), Symbol(58), Symbol(59), Symbol(60), Symbol(61), Symbol(62), Symbol(63)]
            == "456789+/"
  {
  }

  function SymbolValue(c: char): Option<sextet> {
    if 'A' <= c <= 'Z' then Some(c as int - 'A' as int)
    else if 'a' <= c <= 'z' then Some(c as int - 'a' as int + 26)
    else if '0' <= c <= '9' then Some(c as int - '0' as int + 52)
    else if c == '+' then Some(62) else if c == '/' then Some(63) else None
  }

  /** Three bytes as one 24-bit number. */
  function Pack(b0: byte, b1: byte, b2: byte): (v: int)
    ensures 0 <= v < 0x100_0000
  {
    var hi: int, mid: int, lo: int := b0, b1, b2;
    0x1_0000 * hi + 0x100 * mid + lo
  }

  /** Up to three bytes become four characters, '=' standing for the bytes that are missing. */
  function Quad(g: seq<byte>): (q: string)
    requires 1 <= |g| <= 3
    ensures |q| == 4
  {
    var v := Pack(g[0], if |g| > 1 then g[1] else 0, if |g| > 2 then g[2] else 0);
    [Symbol(v / 0x4_0000 % 0x40), Symbol(v / 0x1000 % 0x40),
     if |g| > 1 then Symbol(v / 0x40 % 0x40) else '=', if |g| > 2 then Symbol(v % 0x40) else '=']
  }

  function Base64(d: seq<byte>): string {
    if d == [] then []
    else if |d| <= 3 then Quad(d)
    else Quad(d[..3]) + Base64(d[3..])
  }

  function Unpack(s0: sextet, s1: sextet, s2: sextet, s3: sextet): (g: seq<byte>)
    ensures |g| == 3
  {
    var a: int, b: int, c: int, d: int := s0, s1, s2, s3;
    var v := 0x4_0000 * a + 0x1000 * b + 0x40 * c + d;
    [v / 0x1_0000, v / 0x100 % 0x100, v % 0x100]
  }

  function UnQuad(q: string): Option<seq<byte>>
    requires |q| == 4
  {
    match (SymbolValue(q[0]), SymbolValue(q[1]), SymbolValue(q[2]), SymbolValue(q[3]))
    case (Some(a), Some(b), Some(c), Some(d)) => Some(Unpack(a, b, c, d))
    case (Some(a), Some(b), Some(c), None) => if q[3] == '=' then Some(Unpack(a, b, c, 0)[..2]) else None
    case (Some(a), Some(b), None, None) => if q[2] == q[3] == '=' then Some(Unpack(a, b, 0, 0)[..1]) else None
    case _ => None
  }

  /** The decoder of the standard. */
  function Base64Decode(s: string): Option<seq<byte>> {
    if s == [] then Some([])
    else if |s| < 4 then None
    else
      match UnQuad(s[..4])
      case None => None
      case Some(g) =>
        match Base64Decode(s[4..])
        case None => None
        case Some(rest) => Some(g + rest)
  }

  lemma SymbolRoundTrip(v: sextet)
    ensures SymbolValue(Symbol(v)) == Some(v)
  {
  }

  /** A 24-bit number is its four sextets ... */
  lemma Sextets(v: int)
    requires 0 <= v < 0x100_0000
    ensures v == 0x4_0000 * (v / 0x4_0000 % 0x40) + 0x1000 * (v / 0x1000 % 0x40) + 0x40 * (v / 0x40 % 0x40) + v % 0x40
  {
    assert v / 0x1000 == v / 0x40 / 0x40;
    assert v / 0x4_0000 == v / 0x1000 / 0x40;
  }

  /** ... and its three bytes. */
  lemma UnpackPack(b0: byte, b1: byte, b2: byte)
    ensures var v := Pack(b0, b1, b2);
            Unpack(v / 0x4_0000 % 0x40, v / 0x1000 % 0x40, v / 0x40 % 0x40, v % 0x40) == [b0, b1, b2]
  {
    var v := Pack(b0, b1, b2);
    Sextets(v);
    ByteFields(b0, b1, b2);
  }

  lemma ByteFields(b0: int, b1: byte, b2: byte)
    ensures var v := 0x1_0000 * b0 + 0x100 * b1 as int + b2;
            v / 0x1_0000 == b0 && v / 0x100 % 0x100 == b1 && v % 0x100 == b2
  {
    var v := 0x1_0000 * b0 + 0x100 * b1 as int + b2;
    assert v / 0x100 == 0x100 * b0 + b1;
  }

  lemma QuadRoundTrip(g: seq<byte>)
    requires 1 <= |g| <= 3
    ensures UnQuad(Quad(g)) == Some(g)
  {
    hide Symbol, SymbolValue, Pack, Unpack;
    var b1, b2 := if |g| > 1 then g[1] else 0, if |g| > 2 then g[2] else 0;
    var v := Pack(g[0], b1, b2);
    UnpackPack(g[0], b1, b2);
    SymbolRoundTrip(v / 0x4_0000 % 0x40);
    SymbolRoundTrip(v / 0x1000 % 0x40);
    SymbolRoundTrip(v / 0x40 % 0x40);
    SymbolRoundTrip(v % 0x40);
    PadIsNoSymbol(g[0], b1, b2);
    assert g == [g[0], b1, b2][..|g|];
    var q := Quad(g);
    if |g| == 1 {
      assert UnQuad(q) == Some(Unpack(v / 0x4_0000 % 0x40, v / 0x1000 % 0x40, 0, 0)[..1]);
    } else if |g| == 2 {
      assert UnQuad(q) == Some(Unpack(v / 0x4_0000 % 0x40, v / 0x1000 % 0x40, v / 0x40 % 0x40, 0)[..2]);
    } else {
      assert UnQuad(q) == Some(Unpack(v / 0x4_0000 % 0x40, v / 0x1000 % 0x40, v / 0x40 % 0x40, v % 0x40));
      assert g == [g[0], b1, b2];
    }
  }

  /** Missing bytes are zero bits, and '=' is no symbol. */
  lemma PadIsNoSymbol(b0: byte, b1: byte, b2: byte)
    ensures SymbolValue('=') == None
    ensures b2 == 0 ==> Pack(b0, b1, b2) % 0x40 == 0
    ensures b1 == 0 && b2 == 0 ==> Pack(b0, b1, b2) / 0x40 % 0x40 == 0
  {
    var b: int := b0;
    assert 0x1_0000 * b == 0x40 * (0x40 * (0x10 * b));
  }

  function Group(d: seq<byte>): (g: seq<byte>)
    requires d != []
    ensures 1 <= |g| <= 3 && |g| <= |d| && (|g| < 3 ==> g == d)
  {
    if |d| <= 3 then d else d[..3]
  }

  lemma Base64Step(d: seq<byte>)
    requires d != []
    ensures Base64(d) == Quad(Group(d)) + Base64(d[|Group(d)|..])
  {
  }

  /** Every byte string comes back: the Sec-WebSocket-Accept text loses nothing of the digest. */
  lemma {:induction false} Base64RoundTrip(d: seq<byte>)
    ensures Base64Decode(Base64(d)) == Some(d)
  {
    if d != [] {
      var g := Group(d);
      var rest := d[|g|..];
      Base64Step(d);
      assert (Quad(g) + Base64(rest))[..4] == Quad(g) && (Quad(g) + Base64(rest))[4..] == Base64(rest);
      QuadRoundTrip(g);
      Base64RoundTrip(rest);
      assert g + rest == d;
    }
  }

  /** base64_encode */
  method Base64Encode(data: seq<byte>) returns (out: string)
    ensures out == Base64(data)
  {
    out := "";
    var i := 0;
    while i < |data|
      invariant 0 <= i
      invariant Base64(data) == out + Base64(if i <= |data| then data[i..] else [])
    {
      ghost var g := Group(data[i..]);
      Base64Step(data[i..]);
      assert data[i..][|g|..] == if i + 3 <= |data| then data[i + 3..] else [];
      var q := EncodeGroup(data, i);
      assert out + (q + Base64(data[i..][|g|..])) == out + q + Base64(data[i..][|g|..]);
      out := out + q;
      i := i + 3;
    }
  }

  /** The body of its loop. */
  method EncodeGroup(data: seq<byte>, i: nat) returns (q: string)
    requires i < |data|
    ensures q == Quad(Group(data[i..]))
  {
    hide Pack, Symbol;
    var v := Pack(data[i], if i + 1 < |data| then data[i + 1] else 0, if i + 2 < |data| then data[i + 2] else 0);
    q := [Symbol(v / 0x4_0000 % 0x40)];
    q := q + [Symbol(v / 0x1000 % 0x40)];
    q := q + [if i + 1 < |data| then Symbol(v / 0x40 % 0x40) else '='];
    q := q + [if i + 2 < |data| then Symbol(v % 0x40) else '='];
  }

  /** ws_handshake_resp: the value of Sec-WebSocket-Accept (section 4.2.2 of RFC 6455). */
  const GUID: string := "258EAFA5-E914-47DA-95CA-C5AB0DC85B11"

  function AsBytes(s: string): seq<byte> {
    seq(|s|, i requires 0 <= i < |s| => s[i] as int % 0x100)
  }

  function Accepted(key: string): string {
    Base64(Sha1.Sha1(AsBytes(key + GUID)))
  }

  method AcceptKey(key: string) returns (accept: string)
    ensures accept == Accepted(key)
  {
    var ctx := new Sha1.Sha1Ctx();
    ctx.Update(AsBytes(key + GUID));
    assert [] + AsBytes(key + GUID) == AsBytes(key + GUID);
    var digest := ctx.Final();
    accept := Base64Encode(digest);
  }

  // ---------- framing ----------

  /** The longest std::string, and the longest payload section 5.2 allows. */
  const MAX_PAYLOAD: int := 0x7FFF_FFFF_FFFF_FFFF

  /** Section 5.2: FIN and the text opcode, then the shortest of the three length forms. */
  function Header(len: nat, maskBit: int): (h: seq<byte>)
    requires len <= MAX_PAYLOAD && (maskBit == 0 || maskBit == 0x80)
    ensures 2 <= |h| <= 10
  {
    if len <= 125 then [0x81, maskBit + len]
    else if len <= 65535 then [0x81, maskBit + 126] + BigEndian(len, 2)
    else [0x81, maskBit + 127] + BigEndian(len, 8)
  }

  function Framed(payload: seq<byte>): seq<byte>
    requires |payload| <= MAX_PAYLOAD
  {
    Header(|payload|, 0) + payload
  }

  function Pow2(n: nat): nat {
    if n == 0 then 1 else 2 * Pow2(n - 1)
  }

  /** The exclusive or of the low n bits. */
  function XorLow(a: nat, b: nat, n: nat): (x: nat)
    ensures x < Pow2(n)
  {
    if n == 0 then 0 else 2 * XorLow(a / 2, b / 2, n - 1) + (a + b) % 2
  }

  function Xor(a: byte, b: byte): byte {
    assert Pow2(8) == 2 * (2 * (2 * (2 * Pow2(4))));
    XorLow(a, b, 8)
  }

  /** Adding the same bit twice gives the first one back. */
  lemma BitUndone(a: nat, b: nat, y: nat)
    ensures var x := 2 * y + (a + b) % 2; x / 2 == y && (x + b) % 2 == a % 2
  {
    var p, s, q, t := a / 2, a % 2, b / 2, b % 2;
    var carry := if s == 1 && t == 1 then 1 else 0;
    var sum := s + t - 2 * carry;
    ModUnique(a + b, 2, p + q + carry, sum);
    ModUnique(2 * y + sum, 2, y, sum);
    ModUnique(2 * y + sum + b, 2, y + q + (if s == 0 && t == 1 then 1 else 0), s);
  }

  lemma {:induction false} XorLowUndone(a: nat, b: nat, n: nat)
    requires a < Pow2(n)
    ensures XorLow(XorLow(a, b, n), b, n) == a == XorLow(a, 0, n)
  {
    if n > 0 {
      XorLowUndone(a / 2, b / 2, n - 1);
      BitUndone(a, b, XorLow(a / 2, b / 2, n - 1));
    }
  }

  lemma XorUndone(a: byte, b: byte)
    ensures Xor(Xor(a, b), b) == a == Xor(a, 0)
  {
    assert Pow2(8) == 2 * (2 * (2 * (2 * Pow2(4))));
    XorLowUndone(a, b, 8);
  }

  /** Bit k of x. */
  function Bit(x: nat, k: nat): nat {
    if k == 0 then x % 2 else Bit(x / 2, k - 1)
  }

  lemma {:induction false} XorLowBits(a: nat, b: nat, n: nat, k: nat)
    requires k < n
    ensures Bit(XorLow(a, b, n), k) == (Bit(a, k) + Bit(b, k)) % 2
  {
    var y := XorLow(a / 2, b / 2, n - 1);
    var x := 2 * y + (a + b) % 2;
    assert x / 2 == y && x % 2 == (a + b) % 2;
    if k == 0 {
      BitSum(a, b);
    } else {
      XorLowBits(a / 2, b / 2, n - 1, k - 1);
    }
  }

  lemma BitSum(a: nat, b: nat)
    ensures (a + b) % 2 == (a % 2 + b % 2) % 2
  {
  }

  /** Xor is the exclusive or: each bit of the result is the sum of the two bits modulo 2. */
  lemma XorBits(a: byte, b: byte, k: nat)
    requires k < 8
    ensures Bit(Xor(a, b), k) == (Bit(a, k) + Bit(b, k)) % 2
  {
    XorLowBits(a, b, 8, k);
  }

  type MaskKey = k: seq<byte> | |k| == 4 witness [0, 0, 0, 0]

  /** Section 5.3: octet i is combined with octet i mod 4 of the key. */
  function Masked(s: seq<byte>, key: MaskKey): (m: seq<byte>)
    ensures |m| == |s|
  {
    seq(|s|, i requires 0 <= i < |s| => Xor(s[i], key[i % 4]))
  }

  /** What a client sends. */
  function ClientFramed(payload: seq<byte>, key: MaskKey): seq<byte>
    requires |payload| <= MAX_PAYLOAD
  {
    Header(|payload|, 0x80) + key + Masked(payload, key)
  }

  /** ws_frame_text */
  method FrameText(payload: seq<byte>) returns (frame: seq<byte>)
    requires |payload| <= MAX_PAYLOAD
    ensures frame == Framed(payload)
  {
    frame := [0x81];
    var len := |payload|;
    if len <= 125 {
      frame := frame + [len];
    } else if len <= 65535 {
      frame := frame + [126];
      frame := frame + [Lo(len / 0x100)];
      frame := frame + [Lo(len)];
      assert BigEndian(len, 2) == BigEndian(len / 0x100, 1) + [Lo(len)];
      assert BigEndian(len / 0x100, 1) == [Lo(len / 0x100)];
    } else {
      frame := frame + [127];
      var i := 8;
      while i > 0
        invariant 0 <= i <= 8
        invariant frame == [0x81, 127] + BigEndian(Shr(len, i), 8 - i)
      {
        i := i - 1;
        frame := frame + [Lo(Shr(len, i))];
      }
    }
    frame := frame + payload;
  }

  datatype Decoded = Payload(bytes: seq<byte>) | LengthError

  /** The fields of a frame header, as far as the bytes go. */
  datatype Parsed = Incomplete | Parsed(header: nat, length: u64, key: MaskKey)

  function ParseHeader(d: seq<byte>): (p: Parsed)
    ensures p.Parsed? ==> p.header <= 14 && p.header <= |d|
  {
    if |d| < 2 then Incomplete
    else
      var short := d[1] % 0x80;
      var h := if short == 126 then 4 else if short == 127 then 10 else 2;
      var masked := d[1] >= 0x80;
      if |d| < h || (masked && |d| < h + 4) then Incomplete
      else
        var length := if short < 126 then short else BigEndianValue(d[2..h]);
        BigEndianBound(d[2..h]);
        if masked then Parsed(h + 4, length, d[h..h + 4]) else Parsed(h, length, [0, 0, 0, 0])
  }

  lemma {:induction false} BigEndianBound(s: seq<byte>)
    ensures |s| <= 8 ==> BigEndianValue(s) < TWO_64
    ensures |s| == 0 ==> BigEndianValue(s) == 0
    ensures |s| == 1 ==> BigEndianValue(s) < 0x100
    ensures |s| == 2 ==> BigEndianValue(s) < 0x1_0000
    ensures |s| == 3 ==> BigEndianValue(s) < 0x100_0000
    ensures |s| == 4 ==> BigEndianValue(s) < 0x1_0000_0000
    ensures |s| == 5 ==> BigEndianValue(s) < 0x100_0000_0000
    ensures |s| == 6 ==> BigEndianValue(s) < 0x1_0000_0000_0000
    ensures |s| == 7 ==> BigEndianValue(s) < 0x100_0000_0000_0000
  {
    if s != [] {
      BigEndianBound(s[..|s| - 1]);
    }
  }

  /** The size_t sum `hdr + plen` wraps; a length no std::string can have makes its constructor throw. */
  function Decode(d: seq<byte>): Decoded {
    match ParseHeader(d)
    case Incomplete => Payload([])
    case Parsed(h, length, key) =>
      if |d| < (h + length) % TWO_64 then Payload([])
      else if length > MAX_PAYLOAD || |d| < h + length then LengthError
      else Payload(Masked(d[h..h + length], key))
  }

  /** Main result: the deframer throws exactly when the header is complete and its length is so large that
      adding the header's size wraps: in the 64-bit form, and within 14 of 2^64 if masked, 10 if not. */
  lemma ThrowsExactlyWhen(d: seq<byte>)
    requires |d| <= MAX_PAYLOAD
    ensures Decode(d).LengthError? <==>
              ParseHeader(d).Parsed? && ParseHeader(d).length + ParseHeader(d).header >= TWO_64
    ensures Decode(d).LengthError? <==>
              && |d| >= 10 && d[1] % 0x80 == 127
              && var header := if d[1] >= 0x80 then 14 else 10;
                 |d| >= header && BigEndianValue(d[2..10]) >= TWO_64 - header
  {
    hide BigEndianValue, Masked;
    if |d| >= 4 { BigEndianBound(d[2..4]); }
    match ParseHeader(d)
    case Incomplete =>
    case Parsed(h, length, _) =>
      if h + length >= TWO_64 {
        ModUnique(h + length, TWO_64, 1, h + length - TWO_64);
      } else {
        ModUnique(h + length, TWO_64, 0, h + length);
      }
  }

  lemma OneMoreByte(s: seq<byte>, n: nat)
    requires n < |s|
    ensures BigEndianValue(s[..0]) == 0 && BigEndianValue(s[..n + 1]) == 0x100 * BigEndianValue(s[..n]) + s[n]
  {
    assert s[..n + 1][..n] == s[..n];
  }

  lemma NearlyTwo64(s: seq<byte>)
    requires |s| == 8 && forall i :: 0 <= i < 7 ==> s[i] == 0xFF
    ensures BigEndianValue(s) == TWO_64 - 0x100 + s[7]
  {
    hide BigEndianValue;
    OneMoreByte(s, 0);
    OneMoreByte(s, 1);
    OneMoreByte(s, 2);
    OneMoreByte(s, 3);
    OneMoreByte(s, 4);
    OneMoreByte(s, 5);
    OneMoreByte(s, 6);
    OneMoreByte(s, 7);
    assert s[..8] == s;
  }

  /** For instance the unmasked header 81 7F FF FF FF FF FF FF FF and one more byte: it throws from F6 on, and
      below that waits for a payload that never comes. */
  lemma AThrowingFrame(last: byte)
    ensures var d: seq<byte> := [0x81, 0x7F, 0xFF, 0xFF, 0xFF, 0xFF, 0xFF, 0xFF, 0xFF, last];
            if last >= 0xF6 then Decode(d) == LengthError else Decode(d) == Payload([])
  {
    var d: seq<byte> := [0x81, 0x7F, 0xFF, 0xFF, 0xFF, 0xFF, 0xFF, 0xFF, 0xFF, last];
    NearlyTwo64(d[2..10]);
    ThrowsExactlyWhen(d);
    if last < 0xF6 {
      ModUnique(10 + (TWO_64 - 0x100 + last), TWO_64, 0, 10 + (TWO_64 - 0x100 + last));
    }
    hide BigEndianValue, Masked;
  }

  /** The payload length: seven bits, or the two or eight bytes behind them. */
  method ReadLength(data: seq<byte>) returns (hdr: nat, plen: u64)
    requires |data| >= 2
    ensures var short := data[1] % 0x80;
            var h := if short == 126 then 4 else if short == 127 then 10 else 2;
            if |data| < h then hdr == 0
            else hdr == h && plen == if short < 126 then short else BigEndianValue(data[2..h])
  {
    plen, hdr := data[1] % 0x80, 2;
    if plen == 126 {
      if |data| < 4 { return 0, 0; }
      assert data[2..4][..1] == [data[2]] && BigEndianValue([data[2]]) == data[2];
      plen, hdr := Be16(data[2], data[3]), 4;
    } else if plen == 127 {
      if |data| < 10 { return 0, 0; }
      var v: nat := 0;
      var i := 0;
      while i < 8
        invariant 0 <= i <= 8 && v == BigEndianValue(data[2..2 + i])
      {
        assert data[2..2 + i + 1][..i] == data[2..2 + i];
        v := 0x100 * v + data[2 + i];
        i := i + 1;
      }
      BigEndianBound(data[2..10]);
      plen, hdr := v, 10;
    }
  }

  method Unmask(data: seq<byte>, masked: bool, mask: MaskKey) returns (out: seq<byte>)
    requires masked || mask == [0, 0, 0, 0]
    ensures out == Masked(data, mask)
  {
    out := [];
    var i := 0;
    while i < |data|
      invariant 0 <= i <= |data| && out == Masked(data, mask)[..i]
    {
      out := out + [Xor(data[i], if masked then mask[i % 4] else 0)];
      i := i + 1;
    }
  }

  /** ws_frame_decode */
  method FrameDecode(data: seq<byte>) returns (r: Decoded)
    requires |data| <= MAX_PAYLOAD
    ensures r == Decode(data)
  {
    hide BigEndianValue, Masked;
    var len := |data|;
    if len < 2 { return Payload([]); }
    var masked := data[1] >= 0x80;
    var hdr, plen := ReadLength(data);
    if hdr == 0 { return Payload([]); }
    var mask: MaskKey := [0, 0, 0, 0];
    if masked {
      if len < hdr + 4 { return Payload([]); }
      mask := data[hdr..hdr + 4];
      hdr := hdr + 4;
    }
    assert ParseHeader(data) == Parsed(hdr, plen, mask);
    if len < (hdr + plen) % TWO_64 { return Payload([]); }
    if plen > MAX_PAYLOAD { return LengthError; }
    var out := Unmask(data[hdr..hdr + plen], masked, mask);
    r := Payload(out);
  }

  lemma NextBit(a: nat, b: nat, n: nat, low: nat)
    requires XorLow(a / 2, b / 2, n) == low
    ensures XorLow(a, b, n + 1) == 2 * low + (a + b) % 2
  {
  }

  lemma NoBit()
    ensures XorLow(0, 0, 0) == 0
  {
  }

  lemma UnmaskH()
    ensures Xor(0x7F, 0x37) == 0x48
  {
    hide XorLow, Pow2;
    NoBit();
    NextBit(0x00, 0x00, 0, 0x00);
    NextBit(0x01, 0x00, 1, 0x00);
    NextBit(0x03, 0x01, 2, 0x01);
    NextBit(0x07, 0x03, 3, 0x02);
    NextBit(0x0F, 0x06, 4, 0x04);
    NextBit(0x1F, 0x0D, 5, 0x09);
    NextBit(0x3F, 0x1B, 6, 0x12);
    NextBit(0x7F, 0x37, 7, 0x24);
  }

  lemma UnmaskE()
    ensures Xor(0x9F, 0xFA) == 0x65
  {
    hide XorLow, Pow2;
    NoBit();
    NextBit(0x01, 0x01, 0, 0x00);
    NextBit(0x02, 0x03, 1, 0x00);
    NextBit(0x04, 0x07, 2, 0x01);
    NextBit(0x09, 0x0F, 3, 0x03);
    NextBit(0x13, 0x1F, 4, 0x06);
    NextBit(0x27, 0x3E, 5, 0x0C);
    NextBit(0x4F, 0x7D, 6, 0x19);
    NextBit(0x9F, 0xFA, 7, 0x32);
  }

  lemma UnmaskL1()
    ensures Xor(0x4D, 0x21) == 0x6C
  {
    hide XorLow, Pow2;
    NoBit();
    NextBit(0x00, 0x00, 0, 0x00);
    NextBit(0x01, 0x00, 1, 0x00);
    NextBit(0x02, 0x01, 2, 0x01);
    NextBit(0x04, 0x02, 3, 0x03);
    NextBit(0x09, 0x04, 4, 0x06);
    NextBit(0x13, 0x08, 5, 0x0D);
    NextBit(0x26, 0x10, 6, 0x1B);
    NextBit(0x4D, 0x21, 7, 0x36);
  }

  lemma UnmaskL2()
    ensures Xor(0x51, 0x3D) == 0x6C
  {
    hide XorLow, Pow2;
    NoBit();
    NextBit(0x00, 0x00, 0, 0x00);
    NextBit(0x01, 0x00, 1, 0x00);
    NextBit(0x02, 0x01, 2, 0x01);
    NextBit(0x05, 0x03, 3, 0x03);
    NextBit(0x0A, 0x07, 4, 0x06);
    NextBit(0x14, 0x0F, 5, 0x0D);
    NextBit(0x28, 0x1E, 6, 0x1B);
    NextBit(0x51, 0x3D, 7, 0x36);
  }

  lemma UnmaskO()
    ensures Xor(0x58, 0x37) == 0x6F
  {
    hide XorLow, Pow2;
    NoBit();
    NextBit(0x00, 0x00, 0, 0x00);
    NextBit(0x01, 0x00, 1, 0x00);
    NextBit(0x02, 0x01, 2, 0x01);
    NextBit(0x05, 0x03, 3, 0x03);
    NextBit(0x0B, 0x06, 4, 0x06);
    NextBit(0x16, 0x0D, 5, 0x0D);
    NextBit(0x2C, 0x1B, 6, 0x1B);
    NextBit(0x58, 0x37, 7, 0x37);
  }

  /** The masked text message of section 5.7 of RFC 6455. */
  lemma MaskedHello()
    ensures Decode([0x81, 0x85, 0x37, 0xFA, 0x21, 0x3D, 0x7F, 0x9F, 0x4D, 0x51, 0x58])
            == Payload([0x48, 0x65, 0x6C, 0x6C, 0x6F])
  {
    var d: seq<byte> := [0x81, 0x85, 0x37, 0xFA, 0x21, 0x3D, 0x7F, 0x9F, 0x4D, 0x51, 0x58];
    assert d[2..6] == [0x37, 0xFA, 0x21, 0x3D] && d[6..11] == [0x7F, 0x9F, 0x4D, 0x51, 0x58];
    HelloUnmasked();
    hide Masked, BigEndianValue;
    assert ParseHeader(d) == Parsed(6, 5, [0x37, 0xFA, 0x21, 0x3D]);
    ModUnique(11, TWO_64, 0, 11);
  }

  lemma HelloUnmasked()
    ensures Masked([0x7F, 0x9F, 0x4D, 0x51, 0x58], [0x37, 0xFA, 0x21, 0x3D]) == [0x48, 0x65, 0x6C, 0x6C, 0x6F]
  {
    hide Xor;
    UnmaskH();
    UnmaskE();
    UnmaskL1();
    UnmaskL2();
    UnmaskO();
  }

  /** The unmasked text message of section 5.7, and the three length forms as its examples write them. */
  lemma HeaderExamples()
    ensures Framed([0x48, 0x65, 0x6C, 0x6C, 0x6F]) == [0x81, 0x05, 0x48, 0x65, 0x6C, 0x6C, 0x6F]
    ensures Header(0x100, 0) == [0x81, 0x7E, 0x01, 0x00]
    ensures Header(0x1_0000, 0) == [0x81, 0x7F, 0x00, 0x00, 0x00, 0x00, 0x00, 0x01, 0x00, 0x00]
  {
    LengthBytes();
    hide BigEndian;
  }

  /** Always the shortest of the three forms. */
  lemma ShortestForm(len: nat, maskBit: int)
    requires len <= MAX_PAYLOAD && (maskBit == 0 || maskBit == 0x80)
    ensures |Header(len, maskBit)| == if len < 126 then 2 else if len < 0x1_0000 then 4 else 10
  {
  }

  lemma LengthBytes()
    ensures BigEndian(0x100, 2) == [0x01, 0x00]
    ensures BigEndian(0x1_0000, 8) == [0x00, 0x00, 0x00, 0x00, 0x00, 0x01, 0x00, 0x00]
  {
  }

  lemma ShrOfLength(len: nat)
    ensures len < 0x1_0000 ==> Shr(len, 2) == 0
    ensures len <= MAX_PAYLOAD ==> Shr(len, 8) == 0
  {
    assert Shr(len, 2) == Shr(len, 0) / 0x100 / 0x100;
    assert Shr(len, 4) == Shr(len, 2) / 0x100 / 0x100;
    assert Shr(len, 6) == Shr(len, 4) / 0x100 / 0x100;
    assert Shr(len, 8) == Shr(len, 6) / 0x100 / 0x100;
  }

  /** A header is read back whatever follows it, and no proper prefix of it is taken for a header. */
  lemma HeaderRoundTrip(len: nat, x: seq<byte>)
    requires len <= MAX_PAYLOAD
    ensures var h := Header(len, 0); ParseHeader(h + x) == Parsed(|h|, len, [0, 0, 0, 0])
    ensures forall k :: 0 <= k < |Header(len, 0)| ==> ParseHeader(Header(len, 0)[..k]) == Incomplete
  {
    var h := Header(len, 0);
    ShrOfLength(len);
    if len > 125 {
      var n := |h| - 2;
      BigEndianRoundTrip(len, n);
      assert (h + x)[2..|h|] == BigEndian(len, n);
    }
  }

  lemma ClientHeaderRoundTrip(len: nat, key: MaskKey, x: seq<byte>)
    requires len <= MAX_PAYLOAD
    ensures var h := Header(len, 0x80); ParseHeader(h + key + x) == Parsed(|h| + 4, len, key)
    ensures forall k :: 0 <= k < |Header(len, 0x80)| + 4 ==> ParseHeader((Header(len, 0x80) + key)[..k]) == Incomplete
  {
    var h := Header(len, 0x80);
    ShrOfLength(len);
    assert (h + key + x)[|h|..|h| + 4] == key;
    if len > 125 {
      var n := |h| - 2;
      BigEndianRoundTrip(len, n);
      assert (h + key + x)[2..|h|] == BigEndian(len, n);
    }
  }

  lemma MaskedTwice(s: seq<byte>, key: MaskKey)
    ensures Masked(Masked(s, key), key) == s
  {
    forall i | 0 <= i < |s|
      ensures Masked(Masked(s, key), key)[i] == s[i]
    {
      XorUndone(s[i], key[i % 4]);
    }
  }

  lemma MaskedByZero(s: seq<byte>)
    ensures Masked(s, [0, 0, 0, 0]) == s
  {
    forall i | 0 <= i < |s|
      ensures Masked(s, [0, 0, 0, 0])[i] == s[i]
    {
      XorUndone(s[i], 0);
    }
  }

  /** Main result: the deframer undoes the framer in all three length forms and ignores what follows. */
  lemma FrameRoundTrip(p: seq<byte>, extra: seq<byte>)
    requires |p| <= MAX_PAYLOAD
    ensures Decode(Framed(p) + extra) == Payload(p)
  {
    var h := Header(|p|, 0);
    assert Framed(p) + extra == h + (p + extra);
    HeaderRoundTrip(|p|, p + extra);
    assert (h + (p + extra))[|h|..|h| + |p|] == p;
    MaskedByZero(p);
  }

  /** The same for what a client sends, masked with any key. */
  lemma ClientFrameRoundTrip(p: seq<byte>, key: MaskKey, extra: seq<byte>)
    requires |p| <= MAX_PAYLOAD
    ensures Decode(ClientFramed(p, key) + extra) == Payload(p)
  {
    var h := Header(|p|, 0x80);
    var m := Masked(p, key);
    assert ClientFramed(p, key) + extra == h + key + (m + extra);
    ClientHeaderRoundTrip(|p|, key, m + extra);
    assert (h + key + (m + extra))[|h| + 4..|h| + 4 + |p|] == m;
    MaskedTwice(p, key);
  }

  /** A frame that has not arrived in full decodes to nothing, wherever it is cut. */
  lemma ProperPrefixesAreEmpty(p: seq<byte>, k: nat)
    requires |p| <= MAX_PAYLOAD && k < |Framed(p)|
    ensures Decode(Framed(p)[..k]) == Payload([])
  {
    hide Header, ParseHeader, Masked;
    var h := Header(|p|, 0);
    HeaderRoundTrip(|p|, if k < |h| then [] else p[..k - |h|]);
    assert Framed(p)[..k] == if k < |h| then h[..k] else h + p[..k - |h|];
  }

  lemma ClientPrefixesAreEmpty(p: seq<byte>, key: MaskKey, k: nat)
    requires |p| <= MAX_PAYLOAD && k < |ClientFramed(p, key)|
    ensures Decode(ClientFramed(p, key)[..k]) == Payload([])
  {
    hide Header, ParseHeader, Masked;
    var h, m := Header(|p|, 0x80) + key, Masked(p, key);
    ClientHeaderRoundTrip(|p|, key, if k < |h| then [] else m[..k - |h|]);
    assert ClientFramed(p, key)[..k] == if k < |h| then h[..k] else h + m[..k - |h|];
  }
}
