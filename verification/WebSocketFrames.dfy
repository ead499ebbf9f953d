/** The hand-written WebSocket framing of the bots (RFC 6455, sections 5.2, 5.3, 5.5.2 and 5.5.3):
    three length encodings, masking, and the loop that answers pings. */
module WebSocketFrames {
  type Byte = b: int | 0 <= b < 256

  type Key = k: seq<Byte> | |k| == 4 witness [0, 0, 0, 0]

  const TEXT: Byte := 0x1
  const BINARY: Byte := 0x2
  const CLOSE: Byte := 0x8
  const PING: Byte := 0x9
  const PONG: Byte := 0xA

  const TWO63 := 0x8000_0000_0000_0000
  const TWO64 := 0x1_0000_0000_0000_0000

  datatype Frame = Frame(op: Byte, payload: seq<Byte>)

  // ---- The bits of a byte ----

  /** `b0 & 0x0F`, `b1 & 0x7F`, `b1 & 0x80 != 0`, and `0x80 | b`, on bytes as numbers. */
  function LowNibble(b: Byte): Byte { b % 16 }
  function LowBits(b: Byte): Byte { b % 128 }
  predicate TopBit(b: Byte) { b >= 128 }
  function WithTopBit(b: Byte): Byte { 128 + b % 128 }

  lemma BitsOfByte(b: bv8)
    ensures (b & 0x0F) as int == LowNibble(b as int)
    ensures (b & 0x7F) as int == LowBits(b as int)
    ensures (b & 0x80 != 0) <==> TopBit(b as int)
    ensures (0x80 | b) as int == WithTopBit(b as int)
  {
  }

  /** Exclusive or, bit by bit. */
  function Xor(a: nat, b: nat): nat {
    if a == 0 && b == 0 then 0 else 2 * Xor(a / 2, b / 2) + (a + b) % 2
  }

  function Bit(n: nat, k: nat): nat {
    if k == 0 then n % 2 else Bit(n / 2, k - 1)
  }

  lemma XorParts(a: nat, b: nat)
    ensures Xor(a, b) / 2 == Xor(a / 2, b / 2) && Xor(a, b) % 2 == (a + b) % 2
  {
  }

  lemma {:induction false} XorBits(a: nat, b: nat, k: nat)
    ensures Bit(Xor(a, b), k) == (Bit(a, k) + Bit(b, k)) % 2
  {
    XorParts(a, b);
    if k > 0 { XorBits(a / 2, b / 2, k - 1); }
  }

  lemma Halves(x: nat, y: nat)
    requires x / 2 == y / 2 && x % 2 == y % 2
    ensures x == y
  {
  }

  lemma ParityTwice(a: nat, b: nat, x: nat)
    requires x % 2 == (a + b) % 2
    ensures (x + b) % 2 == a % 2
  {
    var i, j, k := a / 2, b / 2, x / 2;
    assert a == 2 * i + a % 2 && b == 2 * j + b % 2 && x == 2 * k + x % 2;
  }

  lemma {:induction false} XorTwice(a: nat, b: nat)
    ensures Xor(Xor(a, b), b) == a
    decreases a + b
  {
    if a != 0 || b != 0 {
      XorTwice(a / 2, b / 2);
      XorParts(a, b);
      XorParts(Xor(a, b), b);
      assert Xor(Xor(a, b), b) % 2 == a % 2 by { ParityTwice(a, b, Xor(a, b)); }
      assert Xor(Xor(a, b), b) / 2 == a / 2;
      Halves(Xor(Xor(a, b), b), a);
    }
  }

  lemma {:induction false} XorFits(a: nat, b: nat, k: nat)
    requires a < Power2(k) && b < Power2(k)
    ensures Xor(a, b) < Power2(k)
  {
    if k > 0 && (a != 0 || b != 0) { XorFits(a / 2, b / 2, k - 1); }
  }

  function Power2(k: nat): nat { if k == 0 then 1 else 2 * Power2(k - 1) }

  function XorByte(a: Byte, b: Byte): Byte {
    assert Power2(4) == 16 && Power2(8) == 256;
    XorFits(a, b, 8);
    Xor(a, b)
  }

  // ---- Numbers in network byte order ----

  function Power256(k: nat): (p: int)
    ensures p > 0
  {
    if k == 0 then 1 else 256 * Power256(k - 1)
  }

  function Low(n: nat): Byte { n % 256 }

  /** The `k` low bytes of `n`, most significant first. */
  function Bytes(n: nat, k: nat): (s: seq<Byte>)
    ensures |s| == k
  {
    if k == 0 then [] else Bytes(n / 256, k - 1) + [Low(n)]
  }

  function BigEndian(s: seq<Byte>): nat {
    if s == [] then 0 else 256 * BigEndian(s[..|s| - 1]) + s[|s| - 1]
  }

  lemma {:induction false} BytesDenote(n: nat, k: nat)
    requires n < Power256(k)
    ensures BigEndian(Bytes(n, k)) == n
  {
    if k > 0 {
      var s := Bytes(n, k);
      assert s[..k - 1] == Bytes(n / 256, k - 1) && s[k - 1] == Low(n);
      assert n / 256 < Power256(k - 1);
      BytesDenote(n / 256, k - 1);
      assert BigEndian(s) == 256 * (n / 256) + n % 256;
    }
  }

  lemma {:induction false} DenotedBytes(s: seq<Byte>)
    ensures BigEndian(s) < Power256(|s|)
    ensures Bytes(BigEndian(s), |s|) == s
  {
    if s != [] {
      var n, last := |s| - 1, s[|s| - 1];
      DenotedBytes(s[..n]);
      assert BigEndian(s) / 256 == BigEndian(s[..n]) && BigEndian(s) % 256 == last;
      assert s == s[..n] + [last];
    }
  }

  lemma Powers()
    ensures Power256(2) == 0x1_0000 && Power256(8) == TWO64
  {
    assert Power256(4) == 0x1_0000_0000;
  }

  // ---- Encoding ----

  function Masked(payload: seq<Byte>, key: Key): (m: seq<Byte>)
    ensures |m| == |payload|
  {
    seq(|payload|, i requires 0 <= i < |payload| => XorByte(payload[i], key[i % 4]))
  }

  /** Bit for bit, byte `i` of `m` is byte `i` of `p` masked with byte `i` modulo 4 of the key, as section 5.3
      of RFC 6455 defines it. */
  ghost predicate MaskedWith(m: seq<Byte>, p: seq<Byte>, key: Key) {
    && |m| == |p|
    && forall i, j: nat :: 0 <= i < |p| && j < 8 ==> Bit(m[i], j) == (Bit(p[i], j) + Bit(key[i % 4], j)) % 2
  }

  lemma MaskedBits(p: seq<Byte>, key: Key)
    ensures MaskedWith(Masked(p, key), p, key)
  {
    forall i, j: nat | 0 <= i < |p| && j < 8
      ensures Bit(Masked(p, key)[i], j) == (Bit(p[i], j) + Bit(key[i % 4], j)) % 2
    {
      XorBits(p[i], key[i % 4], j);
    }
  }

  lemma UnmaskedBits(p: seq<Byte>, key: Key)
    ensures MaskedWith(p, Masked(p, key), key)
  {
    MaskTwice(p, key);
    MaskedBits(Masked(p, key), key);
  }

  /** A 7-bit length field with the mask bit in front of it. */
  function Field(masked: bool, n7: Byte): Byte {
    if masked then WithTopBit(n7) else n7
  }

  /** The second header byte and the length bytes behind it. */
  function LengthBytes(masked: bool, n: nat): seq<Byte> {
    if n <= 125 then [Field(masked, n)]
    else if n <= 65535 then [Field(masked, 126)] + Bytes(n, 2)
    else [Field(masked, 127)] + Bytes(n, 8)
  }

  /** The payload as it travels, behind its key; `key` is absent in frames from server to client. */
  function Body(payload: seq<Byte>, key: seq<Byte>): seq<Byte>
    requires key == [] || |key| == 4
  {
    if key == [] then payload else key + Masked(payload, key)
  }

  /** A final frame. */
  function Encode(f: Frame, key: seq<Byte>): seq<Byte>
    requires key == [] || |key| == 4
  {
    [WithTopBit(f.op)] + LengthBytes(key != [], |f.payload|) + Body(f.payload, key)
  }

  // ---- Decoding ----

  /** What reading an item off the front of the received bytes comes to. */
  datatype Read<T> =
    | Got(value: T, rest: seq<Byte>)
    | Short
    | Oversized(left: seq<Byte>)

  /** The payload length a 7-bit length field announces; a 64-bit length is converted to a signed
      integer, so from 2^63 on it comes out negative. */
  function ReadLength(n7: int, s: seq<Byte>): Read<int> {
    if n7 == 126 then
      if |s| < 2 then Short else Got(BigEndian(s[..2]), s[2..])
    else if n7 == 127 then
      if |s| < 8 then Short else Got(Signed64(BigEndian(s[..8])), s[8..])
    else Got(n7, s)
  }

  function Signed64(v: nat): int { if v < TWO63 then v else v - TWO64 }

  /** The payload, unmasked if the frame carries a key. */
  function ReadPayload(masked: bool, n: int, s: seq<Byte>): Read<seq<Byte>> {
    if masked && |s| < 4 then Short
    else
      var t := if masked then s[4..] else s;
      if n < 0 then Oversized(t)
      else if |t| < n then Short
      else Got(if masked then Masked(t[..n], s[..4]) else t[..n], t[n..])
  }

  /** A frame whose two header bytes have been read. */
  function DecodeBehind(op: Byte, n7: int, masked: bool, s: seq<Byte>): (r: Read<Frame>)
    ensures r.Got? ==> |r.rest| <= |s|
  {
    match ReadLength(n7, s)
    case Short => Short
    case Oversized(t) => Oversized(t)
    case Got(n, t) =>
      match ReadPayload(masked, n, t)
      case Short => Short
      case Oversized(u) => Oversized(u)
      case Got(payload, rest) => Got(Frame(op, payload), rest)
  }

  function Decode(s: seq<Byte>): (r: Read<Frame>)
    ensures r.Got? ==> |r.rest| < |s|
  {
    if |s| < 2 then Short
    else DecodeBehind(LowNibble(s[0]), LowBits(s[1]), TopBit(s[1]), s[2..])
  }

  // ---- Round trip ----

  lemma MaskTwice(p: seq<Byte>, key: Key)
    ensures Masked(Masked(p, key), key) == p
  {
    forall i | 0 <= i < |p| ensures Masked(Masked(p, key), key)[i] == p[i] {
      XorTwice(p[i], key[i % 4]);
    }
  }

  lemma LongLength(n: nat, k: nat, t: seq<Byte>)
    requires n < Power256(k)
    ensures
      var s := Bytes(n, k) + t;
      BigEndian(s[..k]) == n && s[k..] == t
  {
    assert (Bytes(n, k) + t)[..k] == Bytes(n, k);
    BytesDenote(n, k);
  }

  /** The length field in front of `t` reads back as `n`, and its top bit as the mask bit. */
  lemma LengthRoundTrip(masked: bool, n: nat, t: seq<Byte>)
    requires n < TWO63
    ensures
      var s := LengthBytes(masked, n) + t;
      && LengthBytes(masked, n) != []
      && TopBit(s[0]) == masked && ReadLength(LowBits(s[0]), s[1..]) == Got(n, t)
  {
    Powers();
    var s := LengthBytes(masked, n) + t;
    if n <= 125 {
      assert s[1..] == t;
    } else if n <= 65535 {
      assert s[1..] == Bytes(n, 2) + t;
      LongLength(n, 2, t);
    } else {
      assert s[1..] == Bytes(n, 8) + t;
      LongLength(n, 8, t);
    }
  }

  lemma PayloadRoundTrip(p: seq<Byte>, key: seq<Byte>, rest: seq<Byte>)
    requires key == [] || |key| == 4
    ensures ReadPayload(key != [], |p|, Body(p, key) + rest) == Got(p, rest)
  {
    var s := Body(p, key) + rest;
    if key == [] {
      assert s[..|p|] == p && s[|p|..] == rest;
    } else {
      assert s[..4] == key;
      assert s[4..][..|p|] == Masked(p, key) && s[4..][|p|..] == rest;
      MaskTwice(p, key);
    }
  }

  lemma Regroup(b: Byte, x: seq<Byte>, y: seq<Byte>, z: seq<Byte>)
    requires x != []
    ensures
      var s, t := [b] + x + y + z, x + (y + z);
      s[0] == b && s[1] == t[0] && s[2..] == t[1..]
  {
    assert [b] + x + y + z == [b] + (x + (y + z));
  }

  // ---- The bytes of a frame, as RFC 6455 draws them ----

  /** Two and eight bytes in network byte order. */
  function Short16(s: seq<Byte>): int
    requires |s| == 2
  {
    256 * (s[0] as int) + s[1]
  }

  function Long64(s: seq<Byte>): int
    requires |s| == 8
  {
    256 * (256 * (256 * (256 * (256 * (256 * (256 * (s[0] as int) + s[1]) + s[2]) + s[3]) + s[4]) + s[5]) + s[6]) + s[7]
  }

  /** The header `h` announces `n` bytes behind opcode `op`: one byte with the opcode, one with the mask bit
      and seven bits of length, and the longer lengths in two or eight bytes behind them. */
  ghost predicate Announces(h: seq<Byte>, op: Byte, masked: bool, n: int) {
    && |h| >= 2 && h[0] % 16 == op && (masked <==> h[1] >= 128)
    && var n7 := h[1] % 128;
       if n7 == 126 then |h| == 4 && n == Short16(h[2..])
       else if n7 == 127 then |h| == 10 && n == Long64(h[2..])
       else |h| == 2 && n == n7
  }

  /** Header, mask key if there is one, and the payload, masked with it. */
  ghost predicate Drawn(h: seq<Byte>, key: seq<Byte>, body: seq<Byte>, f: Frame) {
    && Announces(h, f.op, key != [], |f.payload|) && |f.payload| < TWO63 && (key == [] || |key| == 4)
    && if key == [] then body == f.payload else MaskedWith(body, f.payload, key)
  }

  /** The bytes `s` are one frame. */
  ghost predicate OnWire(s: seq<Byte>, f: Frame) {
    exists h, key, body :: Drawn(h, key, body, f) && s == h + key + body
  }

  lemma BigEndianTail(s: seq<Byte>, k: nat)
    requires 0 < k <= |s|
    ensures BigEndian(s[..k]) == 256 * BigEndian(s[..k - 1]) + s[k - 1]
  {
    assert s[..k][..k - 1] == s[..k - 1];
  }

  lemma BigEndianIs(s: seq<Byte>)
    ensures |s| == 2 ==> BigEndian(s) == Short16(s)
    ensures |s| == 8 ==> BigEndian(s) == Long64(s)
  {
    if |s| == 2 || |s| == 8 {
      assert BigEndian(s[..0]) == 0;
      BigEndianTail(s, 1);
      BigEndianTail(s, 2);
      if |s| == 8 {
        BigEndianTail(s, 3);
        BigEndianTail(s, 4);
        BigEndianTail(s, 5);
        BigEndianTail(s, 6);
        BigEndianTail(s, 7);
        BigEndianTail(s, 8);
      }
      assert s[..|s|] == s;
    }
  }

  /** The header a decoder has read, and the bytes behind it. */
  lemma HeaderRead(s: seq<Byte>, n: int, body: seq<Byte>)
    requires |s| >= 2 && ReadLength(LowBits(s[1]), s[2..]) == Got(n, body) && n >= 0
    ensures
      var h := s[..|s| - |body|];
      |body| <= |s| && s == h + body && Announces(h, s[0] % 16, s[1] >= 128, n)
  {
    var k := if LowBits(s[1]) == 126 then 4 else if LowBits(s[1]) == 127 then 10 else 2;
    var h := s[..k];
    assert body == s[k..] && s == h + body;
    assert h[2..] == s[2..][..k - 2];
    BigEndianIs(h[2..]);
    if k == 10 { DenotedBytes(h[2..]); Powers(); }
  }

  /** Conversely, behind a header the decoder reads the length it announces. */
  lemma HeaderReads(h: seq<Byte>, op: Byte, masked: bool, n: int, body: seq<Byte>)
    requires Announces(h, op, masked, n) && n < TWO63
    ensures var s := h + body;
      |s| >= 2 && LowNibble(s[0]) == op && TopBit(s[1]) == masked && ReadLength(LowBits(s[1]), s[2..]) == Got(n, body)
  {
    var s := h + body;
    assert s[2..] == h[2..] + body;
    assert (h[2..] + body)[..|h| - 2] == h[2..] && (h[2..] + body)[|h| - 2..] == body;
    BigEndianIs(h[2..]);
  }

  /** A payload read is the payload on the wire, unmasked. */
  lemma PayloadRead(masked: bool, n: int, s: seq<Byte>, payload: seq<Byte>, rest: seq<Byte>)
      returns (key: seq<Byte>, body: seq<Byte>)
    requires ReadPayload(masked, n, s) == Got(payload, rest)
    ensures s == key + body + rest && (key != [] <==> masked) && (key == [] || |key| == 4)
    ensures |payload| == n && if key == [] then body == payload else MaskedWith(body, payload, key)
  {
    if masked {
      key, body := s[..4], s[4..][..n];
      assert s[4..] == body + rest && s == key + s[4..];
      UnmaskedBits(body, key);
    } else {
      key, body := [], s[..n];
    }
  }

  lemma {:induction false} SameBits(a: nat, b: nat, k: nat)
    requires a < Power2(k) && b < Power2(k) && forall j: nat :: j < k ==> Bit(a, j) == Bit(b, j)
    ensures a == b
  {
    if k > 0 {
      assert Bit(a, 0) == Bit(b, 0);
      forall j: nat | j < k - 1 ensures Bit(a / 2, j) == Bit(b / 2, j) { assert Bit(a, j + 1) == Bit(b, j + 1); }
      SameBits(a / 2, b / 2, k - 1);
    }
  }

  /** The bits determine the masked bytes. */
  lemma MaskedWithIs(m: seq<Byte>, p: seq<Byte>, key: Key)
    requires MaskedWith(m, p, key)
    ensures m == Masked(p, key)
  {
    assert Power2(4) == 16 && Power2(8) == 256;
    MaskedBits(p, key);
    forall i | 0 <= i < |p| ensures m[i] == Masked(p, key)[i] {
      forall j: nat | j < 8 ensures Bit(m[i], j) == Bit(Masked(p, key)[i], j) {}
      SameBits(m[i], Masked(p, key)[i], 8);
    }
  }

  lemma PayloadReads(key: seq<Byte>, body: seq<Byte>, payload: seq<Byte>, rest: seq<Byte>)
    requires key == [] || |key| == 4
    requires if key == [] then body == payload else MaskedWith(body, payload, key)
    ensures ReadPayload(key != [], |payload|, key + body + rest) == Got(payload, rest)
  {
    if key != [] { MaskedWithIs(body, payload, key); }
    assert body == if key == [] then payload else Masked(payload, key);
    assert key + body == Body(payload, key);
    PayloadRoundTrip(payload, key, rest);
  }

  /** A decoded frame is exactly the bytes consumed, as the wire format draws them. */
  lemma DecodedIsOnWire(s: seq<Byte>) returns (c: seq<Byte>)
    requires Decode(s).Got?
    ensures s == c + Decode(s).rest && OnWire(c, Decode(s).value)
  {
    var f, rest := Decode(s).value, Decode(s).rest;
    var n, tail, payload := PartsOf(LowNibble(s[0]), LowBits(s[1]), TopBit(s[1]), s[2..]);
    var key, body := PayloadRead(TopBit(s[1]), n, tail, payload, rest);
    HeaderRead(s, n, tail);
    var h := s[..|s| - |tail|];
    c := h + key + body;
    FourParts(h, key, body, rest);
    LengthBelow(LowBits(s[1]), s[2..]);
    assert Drawn(h, key, body, f);
  }

  lemma FourParts(h: seq<Byte>, key: seq<Byte>, body: seq<Byte>, rest: seq<Byte>)
    ensures h + (key + body + rest) == (h + key + body) + rest
  {
  }

  lemma LengthBelow(n7: int, s: seq<Byte>)
    requires n7 < 128 && ReadLength(n7, s).Got?
    ensures ReadLength(n7, s).value < TWO63
  {
    if n7 == 126 { DenotedBytes(s[..2]); Powers(); }
    if n7 == 127 { DenotedBytes(s[..8]); Powers(); }
  }

  /** And bytes of the wire format decode to their frame and leave what follows. */
  lemma OnWireDecodes(c: seq<Byte>, f: Frame, rest: seq<Byte>)
    requires OnWire(c, f)
    ensures Decode(c + rest) == Got(f, rest)
  {
    var h, key, body :| Drawn(h, key, body, f) && c == h + key + body;
    var tail := key + body + rest;
    FourParts(h, key, body, rest);
    HeaderReads(h, f.op, key != [], |f.payload|, tail);
    PayloadReads(key, body, f.payload, rest);
    PartsDecode(f.op, LowBits((c + rest)[1]), key != [], (c + rest)[2..], |f.payload|, tail, f.payload, rest);
  }

  /** Any frame with a payload under 2^63 bytes, masked or not, decodes to itself and leaves exactly
      what followed it; of the opcode byte only the low four bits travel. */
  lemma RoundTrip(f: Frame, key: seq<Byte>, rest: seq<Byte>)
    requires |f.payload| < TWO63 && (key == [] || |key| == 4)
    ensures Decode(Encode(f, key) + rest) == Got(Frame(LowNibble(f.op), f.payload), rest)
  {
    var s, n, body := Encode(f, key) + rest, |f.payload|, Body(f.payload, key) + rest;
    LengthRoundTrip(key != [], n, body);
    Regroup(WithTopBit(f.op), LengthBytes(key != [], n), Body(f.payload, key), rest);
    PayloadRoundTrip(f.payload, key, rest);
    PartsDecode(LowNibble(f.op), LowBits(s[1]), key != [], s[2..], n, body, f.payload, rest);
    assert LowNibble(s[0]) == LowNibble(f.op) && TopBit(s[1]) == (key != []);
  }

  /** A length and a payload that can be read make a frame. */
  lemma PartsDecode(op: Byte, n7: int, masked: bool, s: seq<Byte>, n: int, body: seq<Byte>, payload: seq<Byte>,
      rest: seq<Byte>)
    requires ReadLength(n7, s) == Got(n, body) && ReadPayload(masked, n, body) == Got(payload, rest)
    ensures DecodeBehind(op, n7, masked, s) == Got(Frame(op, payload), rest)
  {
  }

  // ---- Every prefix of a frame is incomplete, whatever follows it is left alone ----

  lemma LengthIsPrefix(n7: int, s: seq<Byte>, k: nat)
    requires ReadLength(n7, s).Got? && k <= |s|
    ensures
      var r := ReadLength(n7, s);
      if k < |s| - |r.rest| then ReadLength(n7, s[..k]) == Short
      else ReadLength(n7, s[..k]) == Got(r.value, r.rest[..k - (|s| - |r.rest|)])
  {
    var h := if n7 == 126 then 2 else if n7 == 127 then 8 else 0;
    if k >= h {
      assert s[..k][..h] == s[..h];
      assert s[..k][h..] == s[h..][..k - h];
    }
  }

  lemma PayloadIsPrefix(masked: bool, n: int, s: seq<Byte>, k: nat)
    requires ReadPayload(masked, n, s).Got? && k <= |s|
    ensures
      var r := ReadPayload(masked, n, s);
      if k < |s| - |r.rest| then ReadPayload(masked, n, s[..k]) == Short
      else ReadPayload(masked, n, s[..k]) == Got(r.value, r.rest[..k - (|s| - |r.rest|)])
  {
    var h := if masked then 4 else 0;
    var t := if masked then s[4..] else s;
    if k >= h {
      assert s[..k][h..] == t[..k - h];
      if masked { assert s[..k][..4] == s[..4]; }
      if k - h >= n {
        assert t[..k - h][..n] == t[..n];
        assert t[..k - h][n..] == t[n..][..k - h - n];
      }
    }
  }

  lemma PartsMissing(op: Byte, n7: int, masked: bool, s: seq<Byte>, n: int, body: seq<Byte>)
    requires ReadLength(n7, s) == Short || (ReadLength(n7, s) == Got(n, body) && ReadPayload(masked, n, body) == Short)
    ensures DecodeBehind(op, n7, masked, s) == Short
  {
  }

  lemma PartsOf(op: Byte, n7: int, masked: bool, s: seq<Byte>) returns (n: int, body: seq<Byte>, payload: seq<Byte>)
    requires DecodeBehind(op, n7, masked, s).Got?
    ensures ReadLength(n7, s) == Got(n, body)
    ensures ReadPayload(masked, n, body) == Got(payload, DecodeBehind(op, n7, masked, s).rest)
    ensures DecodeBehind(op, n7, masked, s).value == Frame(op, payload)
  {
    n, body := ReadLength(n7, s).value, ReadLength(n7, s).rest;
    payload := ReadPayload(masked, n, body).value;
  }

  /** A piece of a frame that ends in its length or its payload, or behind it. */
  lemma PieceDecodes(op: Byte, n7: int, masked: bool, s: seq<Byte>, k: nat, n: int, body: seq<Byte>,
      payload: seq<Byte>, rest: seq<Byte>)
    requires ReadLength(n7, s) == Got(n, body) && ReadPayload(masked, n, body) == Got(payload, rest) && k <= |s|
    requires |rest| <= |body| <= |s|
    ensures DecodeBehind(op, n7, masked, s[..k]) ==
              if k < |s| - |rest| then Short else Got(Frame(op, payload), rest[..k - (|s| - |rest|)])
  {
    var used := |s| - |body|;
    LengthIsPrefix(n7, s, k);
    if k < used {
      PartsMissing(op, n7, masked, s[..k], n, body);
    } else {
      var piece := body[..k - used];
      PayloadIsPrefix(masked, n, body, k - used);
      if k < |s| - |rest| {
        PartsMissing(op, n7, masked, s[..k], n, piece);
      } else {
        PartsDecode(op, n7, masked, s[..k], n, piece, payload, rest[..k - (|s| - |rest|)]);
      }
    }
  }

  lemma BodyIsItsBytes(op: Byte, n7: int, masked: bool, s: seq<Byte>, k: nat)
    requires DecodeBehind(op, n7, masked, s).Got? && k <= |s|
    ensures
      var r := DecodeBehind(op, n7, masked, s);
      && |r.rest| <= |s| && r.rest == s[|s| - |r.rest|..]
      && DecodeBehind(op, n7, masked, s[..k]) ==
           if k < |s| - |r.rest| then Short else Got(r.value, r.rest[..k - (|s| - |r.rest|)])
  {
    var rest := DecodeBehind(op, n7, masked, s).rest;
    var n, body, payload := PartsOf(op, n7, masked, s);
    assert |rest| <= |body| <= |s| && rest == s[|s| - |rest|..] by {
      LengthRest(n7, s);
      PayloadRest(masked, n, body);
      EndOfEnd(s, body, rest);
    }
    PieceDecodes(op, n7, masked, s, k, n, body, payload, rest);
  }

  lemma EndOfEnd(s: seq<Byte>, t: seq<Byte>, u: seq<Byte>)
    requires |u| <= |t| <= |s| && t == s[|s| - |t|..] && u == t[|t| - |u|..]
    ensures u == s[|s| - |u|..]
  {
  }

  lemma CutBehindHeader(op: Byte, n7: int, masked: bool, s: seq<Byte>, k: nat, whole: Read<Frame>, cut: Read<Frame>)
    requires 2 <= k <= |s| && whole.Got?
    requires whole == DecodeBehind(op, n7, masked, s[2..]) && cut == DecodeBehind(op, n7, masked, s[2..][..k - 2])
    ensures
      var used := |s| - |whole.rest|;
      0 <= used && cut == if k < used then Short else Got(whole.value, s[used..k])
  {
    BodyIsItsBytes(op, n7, masked, s[2..], k - 2);
    EndOfEnd(s, s[2..], whole.rest);
    EndCut(s, |s| - |whole.rest|, k);
  }

  lemma EndCut(s: seq<Byte>, used: nat, k: nat)
    requires used <= |s| && k <= |s|
    ensures k >= used ==> s[used..][..k - used] == s[used..k]
  {
  }

  /** Received bytes decode the same however the connection cuts them: of a complete frame no shorter
      piece decodes to anything, and every longer one decodes to that frame. */
  lemma FrameIsItsBytes(s: seq<Byte>, k: nat)
    requires Decode(s).Got? && k <= |s|
    ensures
      var used := |s| - |Decode(s).rest|;
      Decode(s[..k]) == if k < used then Short else Got(Decode(s).value, s[used..k])
  {
    if k >= 2 {
      assert s[..k][2..] == s[2..][..k - 2];
      CutBehindHeader(LowNibble(s[0]), LowBits(s[1]), TopBit(s[1]), s, k, Decode(s), Decode(s[..k]));
    }
  }

  lemma LengthRest(n7: int, s: seq<Byte>)
    requires ReadLength(n7, s).Got?
    ensures |ReadLength(n7, s).rest| <= |s| && ReadLength(n7, s).rest == s[|s| - |ReadLength(n7, s).rest|..]
  {
  }

  lemma PayloadRest(masked: bool, n: int, s: seq<Byte>)
    requires ReadPayload(masked, n, s).Got?
    ensures
      var rest := ReadPayload(masked, n, s).rest;
      |rest| <= |s| && rest == s[|s| - |rest|..]
  {
  }

  // ---- What the decoder accepts beyond what an encoder produces ----

  /** The length is announced in the shortest form, as section 5.2 demands of senders. */
  predicate Shortest(n7: int, n: int) {
    (n7 == 126 ==> n > 125) && (n7 == 127 ==> n > 65535)
  }

  /** Read bits of the mask and length byte put back together. */
  lemma LengthFromRead(b: Byte, s: seq<Byte>)
    requires ReadLength(LowBits(b), s).Got? && ReadLength(LowBits(b), s).value >= 0
    ensures
      var r := ReadLength(LowBits(b), s);
      && |r.rest| <= |s|
      && ([b] + s[..|s| - |r.rest|] == LengthBytes(TopBit(b), r.value) <==> Shortest(LowBits(b), r.value))
  {
    Powers();
    var r := ReadLength(LowBits(b), s);
    if LowBits(b) == 126 {
      DenotedBytes(s[..2]);
      if r.value <= 125 { assert |LengthBytes(TopBit(b), r.value)| == 1; }
    } else if LowBits(b) == 127 {
      DenotedBytes(s[..8]);
      if r.value <= 65535 { assert |LengthBytes(TopBit(b), r.value)| <= 3; }
    }
  }

  lemma PayloadFromRead(masked: bool, n: int, s: seq<Byte>)
    requires ReadPayload(masked, n, s).Got?
    ensures
      var r := ReadPayload(masked, n, s);
      |r.value| == n && s == Body(r.value, if masked then s[..4] else []) + r.rest
  {
    if masked {
      MaskTwice(s[4..][..n], s[..4]);
      assert s == s[..4] + s[4..][..n] + s[4..][n..];
    } else {
      assert s == s[..n] + s[n..];
    }
  }

  /** The bytes are what an encoder makes of the frame, masked or not. */
  ghost predicate Produced(s: seq<Byte>, f: Frame, rest: seq<Byte>) {
    exists key: seq<Byte> :: (key == [] || |key| == 4) && s == Encode(f, key) + rest
  }

  /** The final bit is set and the reserved bits are not. */
  predicate Final(b: Byte) { b / 16 == 8 }

  lemma ProducedIsStrict(s: seq<Byte>, f: Frame, key: seq<Byte>, rest: seq<Byte>)
    requires |s| >= 2 && f.op == LowNibble(s[0]) && (key == [] || |key| == 4)
    requires s == Encode(f, key) + rest
    ensures Final(s[0]) && Shortest(LowBits(s[1]), |f.payload|)
  {
    Regroup(WithTopBit(f.op), LengthBytes(key != [], |f.payload|), Body(f.payload, key), rest);
  }

  lemma Reassemble(s: seq<Byte>, used: seq<Byte>, body: seq<Byte>, rest: seq<Byte>, first: Byte, field: seq<Byte>)
    requires |s| >= 2 && s[0] == first && [s[1]] + used == field && s[2..] == used + (body + rest)
    ensures s == [first] + field + body + rest
  {
    assert s == [s[0]] + [s[1]] + s[2..];
  }

  lemma BehindHeader(op: Byte, n7: int, masked: bool, s: seq<Byte>)
    requires DecodeBehind(op, n7, masked, s).Got?
    ensures
      var got, len := DecodeBehind(op, n7, masked, s), ReadLength(n7, s);
      && len.Got? && got.value.op == op && |got.value.payload| == len.value
      && |len.rest| <= |s| && s == s[..|s| - |len.rest|] + len.rest
      && len.rest == Body(got.value.payload, if masked then len.rest[..4] else []) + got.rest
  {
    var len := ReadLength(n7, s);
    LengthRest(n7, s);
    PayloadFromRead(masked, len.value, len.rest);
  }

  /** The key under which an encoder produces the bytes of a strict frame. */
  lemma StrictKey(s: seq<Byte>) returns (key: seq<Byte>)
    requires Decode(s).Got? && Final(s[0]) && Shortest(LowBits(s[1]), |Decode(s).value.payload|)
    ensures (key == [] || |key| == 4) && s == Encode(Decode(s).value, key) + Decode(s).rest
  {
    var f, rest := Decode(s).value, Decode(s).rest;
    var len := ReadLength(LowBits(s[1]), s[2..]);
    BehindHeader(LowNibble(s[0]), LowBits(s[1]), TopBit(s[1]), s[2..]);
    LengthFromRead(s[1], s[2..]);
    key := if TopBit(s[1]) then len.rest[..4] else [];
    Reassemble(s, s[2..][..|s[2..]| - |len.rest|], Body(f.payload, key), rest, WithTopBit(f.op),
               LengthBytes(TopBit(s[1]), len.value));
  }

  /** The decoder ignores the final bit, the reserved bits and the shortest-length rule: what it
      accepts was made by an encoder if and only if those are in order. */
  lemma AcceptedIsProduced(s: seq<Byte>)
    requires Decode(s).Got?
    ensures
      Produced(s, Decode(s).value, Decode(s).rest) <==>
        Final(s[0]) && Shortest(LowBits(s[1]), |Decode(s).value.payload|)
  {
    var f, rest := Decode(s).value, Decode(s).rest;
    if Produced(s, f, rest) {
      var key: seq<Byte> :| (key == [] || |key| == 4) && s == Encode(f, key) + rest;
      ProducedIsStrict(s, f, key, rest);
    }
    if Final(s[0]) && Shortest(LowBits(s[1]), |f.payload|) {
      var key := StrictKey(s);
      assert s == Encode(f, key) + rest;
    }
  }
}
