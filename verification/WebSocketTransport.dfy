/** Frames on a connection: whole streams, the loop that answers pings until data arrives, and the
    transport object that reads and writes them. */
module WebSocketTransport {
  import opened WebSocketFrames

  datatype Sent = Sent(frame: Frame, key: seq<Byte>)

  ghost predicate Sendable(x: Sent) {
    |x.frame.payload| < TWO63 && (x.key == [] || |x.key| == 4)
  }

  ghost predicate AllSendable(xs: seq<Sent>) {
    forall i :: 0 <= i < |xs| ==> Sendable(xs[i])
  }

  function EncodeAll(xs: seq<Sent>): seq<Byte>
    requires forall i :: 0 <= i < |xs| ==> xs[i].key == [] || |xs[i].key| == 4
  {
    if xs == [] then [] else Encode(xs[0].frame, xs[0].key) + EncodeAll(xs[1..])
  }

  /** What a reader sees of a frame. */
  function Seen(f: Frame): Frame { Frame(LowNibble(f.op), f.payload) }

  function SeenAll(xs: seq<Sent>): seq<Frame> {
    if xs == [] then [] else [Seen(xs[0].frame)] + SeenAll(xs[1..])
  }

  function DecodeMany(s: seq<Byte>, n: nat): Read<seq<Frame>> {
    if n == 0 then Got([], s)
    else
      match Decode(s)
      case Short => Short
      case Oversized(t) => Oversized(t)
      case Got(f, rest) =>
        match DecodeMany(rest, n - 1)
        case Short => Short
        case Oversized(t) => Oversized(t)
        case Got(fs, end) => Got([f] + fs, end)
  }

  lemma DecodeOneMore(s: seq<Byte>, f: Frame, t: seq<Byte>, n: nat, fs: seq<Frame>, rest: seq<Byte>)
    requires Decode(s) == Got(f, t) && DecodeMany(t, n) == Got(fs, rest)
    ensures DecodeMany(s, n + 1) == Got([f] + fs, rest)
  {
  }

  lemma FirstSent(xs: seq<Sent>, rest: seq<Byte>)
    requires AllSendable(xs) && xs != []
    ensures Decode(EncodeAll(xs) + rest) == Got(Seen(xs[0].frame), EncodeAll(xs[1..]) + rest)
  {
    var head, tail := Encode(xs[0].frame, xs[0].key), EncodeAll(xs[1..]);
    assert (head + tail) + rest == head + (tail + rest);
    assert Sendable(xs[0]);
    RoundTrip(xs[0].frame, xs[0].key, tail + rest);
  }

  /** A stream of frames decodes to exactly those frames and leaves exactly what follows them. */
  lemma {:induction false} StreamRoundTrip(xs: seq<Sent>, rest: seq<Byte>)
    requires AllSendable(xs)
    ensures DecodeMany(EncodeAll(xs) + rest, |xs|) == Got(SeenAll(xs), rest)
  {
    if xs == [] {
      assert EncodeAll(xs) + rest == rest;
    } else {
      FirstSent(xs, rest);
      StreamRoundTrip(xs[1..], rest);
      DecodeOneMore(EncodeAll(xs) + rest, Seen(xs[0].frame), EncodeAll(xs[1..]) + rest, |xs| - 1, SeenAll(xs[1..]),
          rest);
    }
  }

  // ---- Waiting for data, answering pings ----

  datatype WireError = EndOfStream | NoMaskKey | PeerClosed | UnexpectedOpcode(op: Byte)

  datatype Outcome = Payload(bytes: seq<Byte>) | Failed(error: WireError) | Panicked

  /** What a wait for data comes to: its outcome, the bytes not yet read, the bytes written, and the
      random mask keys not yet drawn. */
  datatype Served = Served(outcome: Outcome, rest: seq<Byte>, replies: seq<Byte>, keys: seq<Key>)

  function Serve(s: seq<Byte>, keys: seq<Key>): Served
    decreases |s|
  {
    match Decode(s)
    case Short => Served(Failed(EndOfStream), [], [], keys)
    case Oversized(t) => Served(Panicked, t, [], keys)
    case Got(f, rest) =>
      if f.op == TEXT || f.op == BINARY then Served(Payload(f.payload), rest, [], keys)
      else if f.op == PING then
        if keys == [] then Served(Failed(NoMaskKey), rest, [], keys)
        else
          var r := Serve(rest, keys[1..]);
          r.(replies := Encode(Frame(PONG, f.payload), keys[0]) + r.replies)
      else if f.op == CLOSE then Served(Failed(PeerClosed), rest, [], keys)
      else Served(Failed(UnexpectedOpcode(f.op)), rest, [], keys)
  }

  /** Text and binary frames carry data; section 5.2 of RFC 6455 gives the opcodes. */
  predicate IsData(f: Frame) { f.op == 0x1 || f.op == 0x2 }

  /** What one frame decides, opcode by opcode: data is returned, a ping (0x9) answered with a pong (0xA) of
      the same payload, a close (0x8) and anything else end the wait. */
  lemma ServeByOpcode(s: seq<Byte>, f: Frame, rest: seq<Byte>, keys: seq<Key>)
    requires Decode(s) == Got(f, rest)
    ensures
      var r := Serve(s, keys);
      if IsData(f) then r == Served(Payload(f.payload), rest, [], keys)
      else if f.op == 0x9 && keys != [] then
        var r1 := Serve(rest, keys[1..]);
        r == r1.(replies := Encode(Frame(0xA, f.payload), keys[0]) + r1.replies)
      else
        var error := if f.op == 0x9 then NoMaskKey else if f.op == 0x8 then PeerClosed else UnexpectedOpcode(f.op);
        r == Served(Failed(error), rest, [], keys)
  {
  }

  /** An encoded frame is one on the wire. */
  lemma EncodedOnWire(f: Frame, key: seq<Byte>)
    requires |f.payload| < TWO63 && (key == [] || |key| == 4)
    ensures OnWire(Encode(f, key), Seen(f))
  {
    var s := Encode(f, key);
    assert s + [] == s;
    RoundTrip(f, key, []);
    var c := DecodedIsOnWire(s);
    assert c + [] == c;
  }

  /** The bytes start with the frames `pings`, all of them pings, and then the data frame `data`. */
  ghost predicate PingsThenData(s: seq<Byte>, pings: seq<Frame>, data: Frame, rest: seq<Byte>)
    decreases |pings|
  {
    if pings == [] then Decode(s) == Got(data, rest) && IsData(data)
    else
      && Decode(s).Got? && Decode(s).value == pings[0] && pings[0].op == 0x9
      && PingsThenData(Decode(s).rest, pings[1..], data, rest)
  }

  /** The pongs to some pings, masked with the next keys. */
  function Pongs(pings: seq<Frame>, keys: seq<Key>): (xs: seq<Sent>)
    requires |pings| <= |keys|
    ensures forall i :: 0 <= i < |xs| ==> |xs[i].key| == 4
  {
    if pings == [] then []
    else [Sent(Frame(PONG, pings[0].payload), keys[0])] + Pongs(pings[1..], keys[1..])
  }

  lemma ServeData(s: seq<Byte>, data: Frame, rest: seq<Byte>, keys: seq<Key>)
    requires Decode(s) == Got(data, rest) && IsData(data)
    ensures Serve(s, keys) == Served(Payload(data.payload), rest, [], keys)
  {
  }

  lemma ServePing(s: seq<Byte>, ping: Frame, t: seq<Byte>, keys: seq<Key>)
    requires Decode(s) == Got(ping, t) && ping.op == PING && keys != []
    ensures
      var r := Serve(t, keys[1..]);
      Serve(s, keys) == r.(replies := Encode(Frame(PONG, ping.payload), keys[0]) + r.replies)
  {
  }

  /** Pings in front of the first data frame are answered in order, each with a pong carrying its
      payload, and the data frame's payload is returned; nothing behind it is read. */
  lemma {:induction false} PingsAnswered(s: seq<Byte>, pings: seq<Frame>, data: Frame, rest: seq<Byte>, keys: seq<Key>)
    requires PingsThenData(s, pings, data, rest) && |pings| <= |keys|
    ensures Serve(s, keys) == Served(Payload(data.payload), rest, EncodeAll(Pongs(pings, keys)), keys[|pings|..])
    decreases |pings|
  {
    if pings == [] {
      ServeData(s, data, rest, keys);
    } else {
      PingsAnswered(Decode(s).rest, pings[1..], data, rest, keys[1..]);
      ServePing(s, pings[0], Decode(s).rest, keys);
      assert keys[1..][|pings| - 1..] == keys[|pings|..];
      EncodeCons(Sent(Frame(PONG, pings[0].payload), keys[0]), Pongs(pings[1..], keys[1..]));
    }
  }

  lemma EncodeCons(x: Sent, xs: seq<Sent>)
    requires x.key == [] || |x.key| == 4
    requires forall i :: 0 <= i < |xs| ==> xs[i].key == [] || |xs[i].key| == 4
    ensures forall i :: 0 <= i < |[x] + xs| ==> ([x] + xs)[i].key == [] || |([x] + xs)[i].key| == 4
    ensures EncodeAll([x] + xs) == Encode(x.frame, x.key) + EncodeAll(xs)
  {
    assert ([x] + xs)[1..] == xs;
  }

  /** Conversely, a payload comes back only from a data frame behind nothing but answered pings. */
  lemma {:induction false} PayloadNeedsData(s: seq<Byte>, keys: seq<Key>) returns (pings: seq<Frame>, data: Frame)
    requires Serve(s, keys).outcome.Payload?
    ensures PingsThenData(s, pings, data, Serve(s, keys).rest) && |pings| <= |keys|
    ensures data.payload == Serve(s, keys).outcome.bytes
    decreases |s|
  {
    var r := Decode(s);
    if IsData(r.value) {
      pings, data := [], r.value;
    } else {
      var more;
      more, data := PayloadNeedsData(r.rest, keys[1..]);
      pings := [r.value] + more;
      assert pings[1..] == more;
    }
  }

  // ---- A whole exchange ----

  lemma {:induction false} EncodedPings(pings: seq<Sent>, data: Sent, rest: seq<Byte>)
    requires AllSendable(pings) && Sendable(data)
    requires forall i :: 0 <= i < |pings| ==> LowNibble(pings[i].frame.op) == PING
    requires IsData(Seen(data.frame))
    ensures PingsThenData(EncodeAll(pings) + (Encode(data.frame, data.key) + rest), SeenAll(pings),
        Seen(data.frame), rest)
    decreases |pings|
  {
    var tail := Encode(data.frame, data.key) + rest;
    if pings == [] {
      assert EncodeAll(pings) + tail == tail;
      RoundTrip(data.frame, data.key, rest);
    } else {
      FirstSent(pings, tail);
      EncodedPings(pings[1..], data, rest);
      assert SeenAll(pings)[1..] == SeenAll(pings[1..]);
    }
  }

  /** The pongs a reader of the replies should see: one per ping, with the ping's payload. */
  function Echoes(pings: seq<Sent>): seq<Frame> {
    if pings == [] then [] else [Frame(0xA, pings[0].frame.payload)] + Echoes(pings[1..])
  }

  lemma {:induction false} PongsAreEchoes(pings: seq<Sent>, keys: seq<Key>)
    requires AllSendable(pings) && |pings| <= |keys|
    ensures |SeenAll(pings)| == |pings|
    ensures
      var xs := Pongs(SeenAll(pings), keys);
      |xs| == |pings| && AllSendable(xs) && SeenAll(xs) == Echoes(pings)
  {
    if pings != [] {
      PongsAreEchoes(pings[1..], keys[1..]);
      var xs := Pongs(SeenAll(pings), keys);
      assert SeenAll(pings)[1..] == SeenAll(pings[1..]);
      assert xs[1..] == Pongs(SeenAll(pings[1..]), keys[1..]);
      assert Sendable(pings[0]);
      forall i | 0 <= i < |xs| ensures Sendable(xs[i]) {
        if i > 0 { assert xs[i] == xs[1..][i - 1]; }
      }
    }
  }

  /** The round trip of a whole exchange: whatever pings a peer encoded before its data, the reader
      gets the data, and what it wrote decodes to the pongs, payload by payload. */
  lemma ExchangeRoundTrip(pings: seq<Sent>, data: Sent, rest: seq<Byte>, keys: seq<Key>)
    requires AllSendable(pings) && Sendable(data) && |pings| <= |keys|
    requires forall i :: 0 <= i < |pings| ==> LowNibble(pings[i].frame.op) == 0x9
    requires IsData(Seen(data.frame))
    ensures
      var r := Serve(EncodeAll(pings) + (Encode(data.frame, data.key) + rest), keys);
      && r.outcome == Payload(data.frame.payload) && r.rest == rest && r.keys == keys[|pings|..]
      && DecodeMany(r.replies, |pings|) == Got(Echoes(pings), [])
  {
    var s := EncodeAll(pings) + (Encode(data.frame, data.key) + rest);
    EncodedPings(pings, data, rest);
    PongsAreEchoes(pings, keys);
    PingsAnswered(s, SeenAll(pings), Seen(data.frame), rest, keys);
    PongsDecode(Pongs(SeenAll(pings), keys));
  }

  lemma PongsDecode(pongs: seq<Sent>)
    requires AllSendable(pongs)
    ensures DecodeMany(EncodeAll(pongs), |pongs|) == Got(SeenAll(pongs), [])
  {
    StreamRoundTrip(pongs, []);
    assert EncodeAll(pongs) + [] == EncodeAll(pongs);
  }

  // ---- The transport ----

  datatype Received = Whole(f: Frame) | Ended | Crashed

  /** Receiving `r` and leaving `left` unread is what decoding says. */
  ghost predicate Reads(d: Read<Frame>, r: Received, left: seq<Byte>) {
    match d
    case Got(f, rest) => r == Whole(f) && left == rest
    case Short => r == Ended && left == []
    case Oversized(t) => r == Crashed && left == t
  }

  class WebSocketTransport {
    /** What the connection will still deliver before it ends. */
    var incoming: seq<Byte>
    /** What has been written to it. */
    var outgoing: seq<Byte>
    /** What the random source will still deliver. */
    var keys: seq<Key>

    constructor (incoming: seq<Byte>, keys: seq<Key>)
      ensures this.incoming == incoming && this.keys == keys && outgoing == []
    {
      this.incoming, this.keys, outgoing := incoming, keys, [];
    }

    /** Reads exactly `n` bytes, or, failing that, all there are. */
    method ReadFull(n: nat) returns (ok: bool, bytes: seq<Byte>)
      modifies this`incoming
      ensures ok <==> n <= |old(incoming)|
      ensures ok ==> bytes == old(incoming)[..n] && incoming == old(incoming)[n..]
      ensures !ok ==> incoming == []
    {
      if |incoming| < n {
        incoming := [];
        return false, [];
      }
      bytes := incoming[..n];
      incoming := incoming[n..];
      return true, bytes;
    }

    /** The masking loop, over a buffer of its own. */
    method Mask(payload: seq<Byte>, key: Key) returns (masked: seq<Byte>)
      ensures masked == Masked(payload, key)
    {
      var buffer := new Byte[|payload|];
      var i := 0;
      while i < |payload|
        invariant 0 <= i <= |payload|
        invariant forall k :: 0 <= k < i ==> buffer[k] == XorByte(payload[k], key[k % 4])
      {
        buffer[i] := XorByte(payload[i], key[i % 4]);
        i := i + 1;
      }
      masked := buffer[..];
    }

    /** The header bytes up to the mask key, for the three ranges of payload lengths. */
    method Header(op: Byte, n: nat) returns (header: seq<Byte>)
      ensures header == [WithTopBit(op)] + LengthBytes(true, n)
    {
      header := [WithTopBit(op)];
      if n <= 125 {
        header := header + [WithTopBit(n)];
      } else if n <= 65535 {
        header := header + [WithTopBit(126)];
        header := header + [Low(n / 256), Low(n)];
        TwoBytes(n);
      } else {
        header := header + [WithTopBit(127)];
        header := header + Bytes(n, 8);
      }
    }

    /** Writes one masked frame; fails only when no mask key can be drawn. */
    method WriteFrame(op: Byte, payload: seq<Byte>) returns (ok: bool)
      modifies this`outgoing, this`keys
      ensures ok <==> old(keys) != []
      ensures ok ==> keys == old(keys)[1..] && outgoing == old(outgoing) + Encode(Frame(op, payload), old(keys)[0])
      ensures !ok ==> keys == old(keys) && outgoing == old(outgoing)
      ensures ok ==> exists w :: ClientFrame(w, op, payload, old(keys)[0]) && outgoing == old(outgoing) + w
    {
      if keys == [] {
        return false;
      }
      var key := keys[0];
      keys := keys[1..];
      var header := Header(op, |payload|);
      var masked := Mask(payload, key);
      var frame := header + key + masked;
      assert frame == header + (key + masked);
      MaskedBits(payload, key);
      HeaderIsFinal(op, |payload|);
      assert FinalHeader(header, op, |payload|) && MaskedWith(masked, payload, key);
      assert ClientFrame(frame, op, payload, key);
      outgoing := outgoing + frame;
      return true;
    }

    /** Reads the extended length a 7-bit length field may announce. */
    method LengthField(n7: int) returns (ok: bool, n: int)
      modifies this`incoming
      ensures ok <==> ReadLength(n7, old(incoming)).Got?
      ensures ok ==> Got(n, incoming) == ReadLength(n7, old(incoming))
      ensures !ok ==> incoming == []
    {
      n := n7;
      if n7 == 126 {
        var got, ext := ReadFull(2);
        if !got {
          return false, 0;
        }
        n := BigEndian(ext);
      } else if n7 == 127 {
        var got, ext := ReadFull(8);
        if !got {
          return false, 0;
        }
        n := Signed64(BigEndian(ext));
      }
      ok := true;
    }

    /** The unmasking loop, in place. */
    method Unmask(payload: array<Byte>, key: Key)
      modifies payload
      ensures payload[..] == Masked(old(payload[..]), key)
    {
      var i := 0;
      while i < payload.Length
        invariant 0 <= i <= payload.Length
        invariant forall k :: 0 <= k < i ==> payload[k] == XorByte(old(payload[k]), key[k % 4])
        invariant forall k :: i <= k < payload.Length ==> payload[k] == old(payload[k])
      {
        payload[i] := XorByte(payload[i], key[i % 4]);
        i := i + 1;
      }
    }

    /** Reads mask key and payload; allocating a buffer of negative length panics. */
    method PayloadField(op: Byte, masked: bool, n: int) returns (r: Received)
      modifies this`incoming
      ensures match ReadPayload(masked, n, old(incoming))
              case Got(p, rest) => r == Whole(Frame(op, p)) && incoming == rest
              case Short => r == Ended && incoming == []
              case Oversized(t) => r == Crashed && incoming == t
    {
      var key: Key := [0, 0, 0, 0];
      if masked {
        var got, bytes := ReadFull(4);
        if !got {
          return Ended;
        }
        key := bytes;
      }
      if n < 0 {
        return Crashed;
      }
      var got, bytes := ReadFull(n);
      if !got {
        return Ended;
      }
      if masked {
        var payload := new Byte[n](i requires 0 <= i < n => bytes[i]);
        assert payload[..] == bytes;
        Unmask(payload, key);
        bytes := payload[..];
      }
      return Whole(Frame(op, bytes));
    }

    /** Reads a frame whose two header bytes have been read. */
    method ReadBehind(op: Byte, n7: int, masked: bool) returns (r: Received)
      modifies this`incoming
      ensures Reads(DecodeBehind(op, n7, masked, old(incoming)), r, incoming)
    {
      var ok, n := LengthField(n7);
      if !ok {
        return Ended;
      }
      r := PayloadField(op, masked, n);
    }

    /** Reads one frame. */
    method ReadFrame() returns (r: Received)
      modifies this`incoming
      ensures Reads(Decode(old(incoming)), r, incoming)
      ensures FromWire(old(incoming), r, incoming)
    {
      ghost var s := incoming;
      forall r, left | Reads(Decode(s), r, left) ensures FromWire(s, r, left) { ReadFromWire(s, r, left); }
      HeaderNeeded(s);
      var got, b0 := ReadFull(1);
      if !got {
        return Ended;
      }
      var got1, b1 := ReadFull(1);
      if !got1 {
        return Ended;
      }
      DecodeHeader(s, b0[0], b1[0], incoming);
      r := ReadBehind(LowNibble(b0[0]), LowBits(b1[0]), TopBit(b1[0]));
    }

    /** Waits for a data frame, answering pings on the way. */
    method ReadDataFrame() returns (out: Outcome)
      modifies this
      ensures
        var r := Serve(old(incoming), old(keys));
        && out == r.outcome && incoming == r.rest && keys == r.keys
        && outgoing == old(outgoing) + r.replies
    {
      ghost var s0, k0, o0 := incoming, keys, outgoing;
      while true
        invariant
          var r, r0 := Serve(incoming, keys), Serve(s0, k0);
          && r.outcome == r0.outcome && r.rest == r0.rest && r.keys == r0.keys
          && outgoing + r.replies == o0 + r0.replies
        decreases |incoming|
      {
        ghost var s, o, k := incoming, outgoing, keys;
        var got := ReadFrame();
        match got
        case Ended =>
          return Failed(EndOfStream);
        case Crashed =>
          return Panicked;
        case Whole(f) =>
          if f.op == TEXT || f.op == BINARY {
            return Payload(f.payload);
          } else if f.op == PING {
            var ok := WriteFrame(PONG, f.payload);
            if !ok {
              return Failed(NoMaskKey);
            }
            Answered(s, k, f, o);
          } else if f.op == CLOSE {
            return Failed(PeerClosed);
          } else {
            return Failed(UnexpectedOpcode(f.op));
          }
      }
    }
  }

  /** The header of a final, masked frame: section 5.2 of RFC 6455, in the shortest length form. */
  ghost predicate FinalHeader(h: seq<Byte>, op: Byte, n: int) {
    && |h| == (if n <= 125 then 2 else if n <= 65535 then 4 else 10)
    && h[0] >= 128 && h[1] >= 128 && (n < TWO63 ==> Announces(h, op % 16, true, n))
  }

  /** The bytes of such a frame: header, key, masked payload. */
  ghost predicate ClientFrame(w: seq<Byte>, op: Byte, payload: seq<Byte>, key: Key) {
    exists h, m :: FinalHeader(h, op, |payload|) && MaskedWith(m, payload, key) && w == h + key + m
  }

  lemma HeaderIsFinal(op: Byte, n: nat)
    ensures FinalHeader([WithTopBit(op)] + LengthBytes(true, n), op, n)
  {
    var h := [WithTopBit(op)] + LengthBytes(true, n);
    if 125 < n {
      var k := if n <= 65535 then 2 else 8;
      assert h[2..] == Bytes(n, k);
      if n < TWO63 { BytesSpell(n, k); }
    }
  }

  /** Two or eight bytes of a length, spelled out. */
  lemma BytesSpell(n: nat, k: nat)
    requires (k == 2 && n <= 65535) || (k == 8 && n < TWO63)
    ensures n == if k == 2 then Short16(Bytes(n, k)) else Long64(Bytes(n, k))
  {
    Powers();
    BytesDenote(n, k);
    BigEndianIs(Bytes(n, k));
  }

  /** What was received from `s`, leaving `left`, is the frame on the wire at its start: that one if there is
      one, and no other. */
  ghost predicate FromWire(s: seq<Byte>, r: Received, left: seq<Byte>) {
    && (r.Whole? ==> exists c :: OnWire(c, r.f) && s == c + left)
    && forall c, f, rest :: OnWire(c, f) && s == c + rest ==> r == Whole(f) && left == rest
  }

  lemma ReadFromWire(s: seq<Byte>, r: Received, left: seq<Byte>)
    requires Reads(Decode(s), r, left)
    ensures FromWire(s, r, left)
  {
    if Decode(s).Got? { var c := DecodedIsOnWire(s); }
    forall c, f, rest | OnWire(c, f) && s == c + rest ensures r == Whole(f) && left == rest {
      OnWireDecodes(c, f, rest);
    }
  }

  lemma HeaderNeeded(s: seq<Byte>)
    ensures |s| < 2 ==> Decode(s) == Short
  {
  }

  lemma DecodeHeader(s: seq<Byte>, b0: Byte, b1: Byte, t: seq<Byte>)
    requires |s| >= 2 && s[0] == b0 && s[1] == b1 && t == s[1..][1..]
    ensures Decode(s) == DecodeBehind(LowNibble(b0), LowBits(b1), TopBit(b1), t)
  {
    assert t == s[2..];
  }

  /** One ping answered. */
  lemma Answered(s: seq<Byte>, keys: seq<Key>, f: Frame, o: seq<Byte>)
    requires Decode(s).Got? && Decode(s).value == f && f.op == PING && keys != []
    ensures
      var r, r1 := Serve(s, keys), Serve(Decode(s).rest, keys[1..]);
      && r1.outcome == r.outcome && r1.rest == r.rest && r1.keys == r.keys
      && o + r.replies == o + Encode(Frame(PONG, f.payload), keys[0]) + r1.replies
  {
  }

  lemma TwoBytes(n: nat)
    ensures Bytes(n, 2) == [Low(n / 256), Low(n)]
  {
    assert Bytes(n / 256, 1) == Bytes(n / 256 / 256, 0) + [Low(n / 256)];
  }
}
