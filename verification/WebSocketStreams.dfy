/** The client end of a WebSocket that carries binary data: just enough of RFC 6455, sections 5.2 and 5.3. */
module WebSocketStreams {

  // The byte operations are written as arithmetic: a mask of the low bits as a remainder, the top bit as 128.
  type Byte = b: int | 0 <= b < 256
  type Bytes = seq<Byte>

  // What a call that raises ConnectionError raises it for, or ValueError for a byte out of range.
  datatype Result<T> = Ok(value: T) | ConnectionLost | ClosedByServer(reason: Bytes) | BadByte

  function Flat(chunks: seq<Bytes>): Bytes {
    if chunks == [] then [] else chunks[0] + Flat(chunks[1..])
  }

  /** The network: chunks as they will arrive, of any sizes, and then the end. */
  class Socket {
    var incoming: seq<Bytes>
    var sent: Bytes

    ghost predicate Valid()
      reads this
    {
      forall i | 0 <= i < |incoming| :: incoming[i] != []
    }

    constructor (incoming: seq<Bytes>)
      requires forall i | 0 <= i < |incoming| :: incoming[i] != []
      ensures Valid() && this.incoming == incoming && sent == []
    {
      this.incoming, sent := incoming, [];
    }

    /** Empty once the other end has closed. */
    method Recv() returns (chunk: Bytes)
      requires Valid()
      modifies this
      ensures Valid() && chunk + Flat(incoming) == Flat(old(incoming)) && sent == old(sent)
      ensures chunk == [] ==> incoming == [] == old(incoming)
      ensures chunk != [] ==> |incoming| < |old(incoming)|
    {
      chunk := [];
      if incoming != [] {
        chunk, incoming := incoming[0], incoming[1..];
      }
    }

    method SendAll(bytes: Bytes)
      modifies this
      ensures sent == old(sent) + bytes && incoming == old(incoming)
    {
      sent := sent + bytes;
    }
  }

  // ---- Reading frames -------------------------------------------------------------------------------------

  function BigEndian(bytes: Bytes): nat {
    if bytes == [] then 0 else 256 * BigEndian(bytes[..|bytes| - 1]) + bytes[|bytes| - 1]
  }

  // How a frame's length is written: in the second byte, or in two or eight bytes after it.
  datatype Form = Short | Medium | Long

  function Extra(form: Form): nat {
    match form case Short => 0 case Medium => 2 case Long => 8
  }

  function FormOf(second: Byte): Form {
    if second % 128 == 126 then Medium else if second % 128 == 127 then Long else Short
  }

  function LengthOf(second: Byte, extra: Bytes): nat {
    if FormOf(second) == Short then second % 128 else BigEndian(extra)
  }

  function Opcode(first: Byte): Byte {
    first % 16
  }

  datatype Parsed = Incomplete | Parsed(first: Byte, payload: Bytes, rest: Bytes)

  /** The first frame of the bytes, and what follows it. */
  function FirstFrame(bytes: Bytes): (parsed: Parsed)
    ensures parsed.Parsed? ==> |parsed.rest| + 2 <= |bytes|
  {
    if |bytes| < 2 then Incomplete
    else
      var start := 2 + Extra(FormOf(bytes[1]));
      if |bytes| < start then Incomplete
      else
        var length := LengthOf(bytes[1], bytes[2..start]);
        if |bytes| < start + length then Incomplete
        else Parsed(bytes[0], bytes[start..start + length], bytes[start + length..])
  }

  /** Bytes that stop inside a frame's header hold no frame. */
  lemma NotWhole(bytes: Bytes)
    ensures |bytes| < 2 || |bytes| < 2 + Extra(FormOf(bytes[1])) ==> FirstFrame(bytes).Incomplete?
  {
  }

  lemma Whole(bytes: Bytes, start: nat, length: nat)
    requires 2 <= |bytes| && start == 2 + Extra(FormOf(bytes[1])) <= |bytes|
    requires length == LengthOf(bytes[1], bytes[2..start])
    ensures |bytes[start..]| < length ==> FirstFrame(bytes).Incomplete?
    ensures |bytes[start..]| >= length ==> FirstFrame(bytes) == Parsed(bytes[0], bytes[start..][..length], bytes[start..][length..])
  {
    if |bytes[start..]| >= length {
      Pieces(bytes, start, length);
    }
  }

  function DropTwo(payload: Bytes): Bytes {
    if |payload| < 2 then [] else payload[2..]
  }

  function IsData(first: Byte): bool {
    Opcode(first) == 0x0 || Opcode(first) == 0x2
  }

  /** What is left unread of bytes that hold no whole frame: its header is taken off, where there is one. */
  function LeftOver(bytes: Bytes): Bytes {
    if |bytes| < 2 then bytes
    else
      var start := 2 + Extra(FormOf(bytes[1]));
      if |bytes| < start then bytes[2..] else bytes[start..]
  }

  // A read's buffers once it has enough, the connection ends, or the server closes the stream.
  datatype Filling =
    | Enough(data: Bytes, unread: Bytes)
    | Lost(data: Bytes, unread: Bytes)
    | Closed(data: Bytes, unread: Bytes, reason: Bytes)

  /** The data in hand once it reaches the size, or cannot, and the bytes then unread. */
  function Filled(data: Bytes, unread: Bytes, size: nat): (filling: Filling)
    ensures filling.Enough? ==> |filling.data| >= size
    decreases |unread|
  {
    if |data| >= size then Enough(data, unread)
    else
      var frame := FirstFrame(unread);
      if frame.Incomplete? then Lost(data, LeftOver(unread))
      else if Opcode(frame.first) == 0x8 then Closed(data, frame.rest, DropTwo(frame.payload))
      else Filled(if IsData(frame.first) then data + frame.payload else data, frame.rest, size)
  }

  /** What the read returns or raises. */
  function Outcome(filling: Filling, size: nat): Result<Bytes>
    requires filling.Enough? ==> size <= |filling.data|
  {
    match filling
    case Enough(data, _) => Ok(data[..size])
    case Lost(_, _) => ConnectionLost
    case Closed(_, _, reason) => ClosedByServer(reason)
  }

  class WebSocketStream {
    const sock: Socket
    var raw: Bytes
    var data: Bytes

    ghost predicate Valid()
      reads this, sock
    {
      sock.Valid()
    }

    /** Every byte not read yet, however it is split between the buffer and the chunks to come. */
    ghost function Unread(): Bytes
      reads this, sock
    {
      raw + Flat(sock.incoming)
    }

    constructor (sock: Socket, pending: Bytes)
      requires sock.Valid()
      ensures Valid() && this.sock == sock && raw == pending && data == []
    {
      this.sock, raw, data := sock, pending, [];
    }

    method Raw(size: nat) returns (r: Result<Bytes>)
      requires Valid()
      modifies this`raw, sock
      ensures Valid() && sock.sent == old(sock.sent)
      ensures |old(Unread())| >= size ==> r == Ok(old(Unread())[..size]) && Unread() == old(Unread())[size..]
      ensures |old(Unread())| < size ==> r == ConnectionLost && Unread() == old(Unread())
    {
      while |raw| < size
        invariant Valid() && Unread() == old(Unread()) && sock.sent == old(sock.sent)
        decreases |sock.incoming|
      {
        var chunk := sock.Recv();
        if chunk == [] {
          return ConnectionLost;
        }
        Regroup(raw, chunk, Flat(sock.incoming));
        raw := raw + chunk;
      }
      Split(raw, Flat(sock.incoming), size);
      r := Ok(raw[..size]);
      raw := raw[size..];
    }

    /** The next frame whole: its first byte and its payload. */
    method ReadFrame() returns (r: Result<(Byte, Bytes)>)
      requires Valid()
      modifies this`raw, sock
      ensures Valid() && sock.sent == old(sock.sent)
      ensures
        match FirstFrame(old(Unread()))
        case Incomplete => r == ConnectionLost && Unread() == LeftOver(old(Unread()))
        case Parsed(first, payload, rest) => r == Ok((first, payload)) && Unread() == rest
    {
      hide BigEndian, Flat, WebSocketStream.Unread, FirstFrame;
      ghost var unread := Unread();
      NotWhole(unread);
      var header := Raw(2);
      if header.ConnectionLost? {
        return ConnectionLost;
      }
      var first, second := header.value[0], header.value[1];
      var length := second % 128;
      if length == 126 {
        var extra := Raw(2);
        if extra.ConnectionLost? {
          return ConnectionLost;
        }
        Pieces(unread, 2, 2);
        length := BigEndian(extra.value);
      } else if length == 127 {
        var extra := Raw(8);
        if extra.ConnectionLost? {
          return ConnectionLost;
        }
        Pieces(unread, 2, 8);
        length := BigEndian(extra.value);
      }
      ghost var start := 2 + Extra(FormOf(second));
      assert start <= |unread| && Unread() == unread[start..] && length == LengthOf(second, unread[2..start]);
      Whole(unread, start, length);
      var payload := Raw(length);
      if payload.ConnectionLost? {
        return ConnectionLost;
      }
      r := Ok((first, payload.value));
    }

    method Read(size: nat) returns (r: Result<Bytes>)
      requires Valid()
      modifies this`raw, this`data, sock
      ensures Valid() && sock.sent == old(sock.sent)
      ensures
        var filling := Filled(old(data), old(Unread()), size);
        && Unread() == filling.unread
        && data == (if filling.Enough? then filling.data[size..] else filling.data)
        && r == Outcome(filling, size)
    {
      while |data| < size
        invariant Valid() && sock.sent == old(sock.sent)
        invariant Filled(data, Unread(), size) == Filled(old(data), old(Unread()), size)
        decreases |Unread()|
      {
        var frame := ReadFrame();
        if frame.ConnectionLost? {
          return ConnectionLost;
        }
        var (first, payload) := frame.value;
        if Opcode(first) == 0x8 {
          return ClosedByServer(DropTwo(payload));
        }
        if IsData(first) {
          data := data + payload;
        }
      }
      r := Ok(data[..size]);
      data := data[size..];
    }

    method Write(bytes: Bytes, mask: Bytes) returns (r: Result<()>)
      requires |mask| == 4
      modifies sock
      ensures sock.incoming == old(sock.incoming)
      ensures |bytes| < 256 ==> r == Ok(()) && sock.sent == old(sock.sent) + Written(bytes, mask)
      ensures |bytes| >= 256 ==> r == BadByte && sock.sent == old(sock.sent)
    {
      var masked: Bytes := [];
      for i := 0 to |bytes|
        invariant masked == Masked(bytes, mask)[..i]
      {
        masked := masked + [Xor(bytes[i], mask[i % 4])];
      }
      if |bytes| >= 256 {
        return BadByte;
      }
      sock.SendAll([0x82, WithTopBit(|bytes|)] + mask + masked);
      r := Ok(());
    }
  }

  lemma Regroup(a: Bytes, b: Bytes, c: Bytes)
    ensures a + (b + c) == (a + b) + c
  {
  }

  lemma Split(a: Bytes, b: Bytes, size: nat)
    requires size <= |a|
    ensures (a + b)[..size] == a[..size] && (a + b)[size..] == a[size..] + b
  {
  }

  lemma Pieces(bytes: Bytes, start: nat, length: nat)
    requires start + length <= |bytes|
    ensures bytes[start..][..length] == bytes[start..start + length]
    ensures bytes[start..][length..] == bytes[start + length..]
  {
  }

  function PowerOfTwo(bits: nat): nat {
    if bits == 0 then 1 else 2 * PowerOfTwo(bits - 1)
  }

  /** The exclusive or of so many low bits. */
  function XorBits(a: nat, b: nat, bits: nat): (r: nat)
    ensures r < PowerOfTwo(bits)
  {
    if bits == 0 then 0 else 2 * XorBits(a / 2, b / 2, bits - 1) + (a + b) % 2
  }

  /** The bit that counts for so many twos. */
  function Bit(n: nat, k: nat): nat {
    if k == 0 then n % 2 else Bit(n / 2, k - 1)
  }

  /** A bit of the exclusive or is set where exactly one of the two is. */
  lemma {:induction false} XorIsBitwise(a: nat, b: nat, bits: nat, k: nat)
    requires k < bits
    ensures Bit(XorBits(a, b, bits), k) == 1 <==> Bit(a, k) != Bit(b, k)
  {
    var x := XorBits(a, b, bits);
    assert x % 2 == (a + b) % 2 && x / 2 == XorBits(a / 2, b / 2, bits - 1);
    if k == 0 {
      OddSum(a, b);
    } else {
      XorIsBitwise(a / 2, b / 2, bits - 1, k - 1);
    }
  }

  lemma OddSum(a: nat, b: nat)
    ensures (a + b) % 2 == 1 <==> a % 2 != b % 2
  {
  }

  /** Every byte sent is the payload's with the key's byte over it, bit by bit, the key's four bytes in turn. */
  lemma MaskedBitByBit(bytes: Bytes, mask: Bytes, i: nat, k: nat)
    requires |mask| == 4 && i < |bytes| && k < 8
    ensures |Masked(bytes, mask)| == |bytes|
    ensures Bit(Masked(bytes, mask)[i], k) == 1 <==> Bit(bytes[i], k) != Bit(mask[i % 4], k)
  {
    XorIsBitwise(bytes[i], mask[i % 4], 8, k);
  }

  lemma EightBits()
    ensures PowerOfTwo(8) == 256
  {
  }

  function Xor(a: Byte, b: Byte): Byte {
    EightBits();
    XorBits(a, b, 8)
  }

  /** The top bit set: for a length that fits in seven bits, the length added to it. */
  function WithTopBit(n: nat): Byte
    requires n < 256
  {
    if n < 128 then 128 + n else n
  }

  function Masked(bytes: Bytes, mask: Bytes): Bytes
    requires |mask| == 4
  {
    seq(|bytes|, i requires 0 <= i < |bytes| => Xor(bytes[i], mask[i % 4]))
  }

  function Written(bytes: Bytes, mask: Bytes): Bytes
    requires |mask| == 4 && |bytes| < 256
  {
    [0x82, WithTopBit(|bytes|)] + mask + Masked(bytes, mask)
  }

  // ---- What a server sends ------------------------------------------------------------------------------------

  datatype Frame = Frame(first: Byte, form: Form, payload: Bytes)

  const TWO_BYTES: nat := 0x1_0000
  const EIGHT_BYTES: nat := 0x1_0000_0000_0000_0000

  predicate Sendable(frame: Frame) {
    match frame.form
    case Short => |frame.payload| < 126
    case Medium => |frame.payload| < TWO_BYTES
    case Long => |frame.payload| < EIGHT_BYTES
  }

  /** The low bytes of a number, most significant first. */
  function LowBytes(n: nat, count: nat): (bytes: Bytes)
    ensures |bytes| == count
  {
    if count == 0 then [] else LowBytes(n / 256, count - 1) + [n % 256]
  }

  function SecondByte(frame: Frame): Byte
    requires Sendable(frame)
  {
    match frame.form case Short => |frame.payload| case Medium => 126 case Long => 127
  }

  function Encoded(frame: Frame): Bytes
    requires Sendable(frame)
  {
    [frame.first, SecondByte(frame)] + LowBytes(|frame.payload|, Extra(frame.form)) + frame.payload
  }

  predicate AllSendable(frames: seq<Frame>) {
    forall i | 0 <= i < |frames| :: Sendable(frames[i])
  }

  predicate NoneClose(frames: seq<Frame>) {
    forall i | 0 <= i < |frames| :: Opcode(frames[i].first) != 0x8
  }

  function EncodedAll(frames: seq<Frame>): Bytes
    requires AllSendable(frames)
  {
    if frames == [] then [] else Encoded(frames[0]) + EncodedAll(frames[1..])
  }

  function Carried(frame: Frame): Bytes {
    if IsData(frame.first) then frame.payload else []
  }

  /** The data the frames carry: of text, ping and pong frames, none. */
  function Payloads(frames: seq<Frame>): Bytes {
    if frames == [] then [] else Carried(frames[0]) + Payloads(frames[1..])
  }

  function Power256(count: nat): nat {
    if count == 0 then 1 else 256 * Power256(count - 1)
  }

  /** The first byte of a number counts most. */
  lemma {:induction false} FirstByteCountsMost(bytes: Bytes)
    requires bytes != []
    ensures BigEndian(bytes) == bytes[0] * Power256(|bytes| - 1) + BigEndian(bytes[1..])
  {
    if |bytes| == 1 {
    } else {
      var rest := bytes[..|bytes| - 1];
      FirstByteCountsMost(rest);
      assert bytes[1..][..|bytes| - 2] == rest[1..];
      TimesMore(bytes[0], Power256(|bytes| - 2));
    }
  }

  lemma TimesMore(a: nat, b: nat)
    ensures 256 * (a * b) == a * (256 * b)
  {
  }

  lemma {:induction false} BigEndianOfLowBytes(n: nat, count: nat)
    requires n < Power256(count)
    ensures BigEndian(LowBytes(n, count)) == n
  {
    if count == 0 {
    } else {
      BigEndianOfLowBytes(n / 256, count - 1);
      var bytes := LowBytes(n, count);
      assert bytes[..count - 1] == LowBytes(n / 256, count - 1);
    }
  }

  lemma Powers()
    ensures Power256(2) == TWO_BYTES && Power256(8) == EIGHT_BYTES
  {
  }

  lemma FormOfSecond(frame: Frame)
    requires Sendable(frame)
    ensures FormOf(SecondByte(frame)) == frame.form
    ensures LengthOf(SecondByte(frame), LowBytes(|frame.payload|, Extra(frame.form))) == |frame.payload|
  {
    hide BigEndian, LowBytes, Power256;
    Powers();
    match frame.form
    case Short =>
      assert SecondByte(frame) as nat == |frame.payload|;
    case Medium =>
      BigEndianOfLowBytes(|frame.payload|, 2);
    case Long =>
      BigEndianOfLowBytes(|frame.payload|, 8);
  }

  /** A frame is read back whole, whatever follows it. */
  lemma FirstOfEncoded(frame: Frame, rest: Bytes)
    requires Sendable(frame)
    ensures FirstFrame(Encoded(frame) + rest) == Parsed(frame.first, frame.payload, rest)
  {
    hide BigEndian, LowBytes, FormOf, LengthOf, SecondByte;
    FormOfSecond(frame);
    var extra := LowBytes(|frame.payload|, Extra(frame.form));
    var bytes := Encoded(frame) + rest;
    var start := 2 + |extra|;
    assert bytes[2..start] == extra;
    assert bytes[start..start + |frame.payload|] == frame.payload;
    assert bytes[start + |frame.payload|..] == rest;
  }

  /** One frame of a read. */
  lemma FilledPastOne(data: Bytes, frame: Frame, rest: Bytes, size: nat)
    requires Sendable(frame) && Opcode(frame.first) != 0x8 && |data| < size
    ensures Filled(data, Encoded(frame) + rest, size) == Filled(data + Carried(frame), rest, size)
  {
    FirstOfEncoded(frame, rest);
    assert data + [] == data;
  }

  /** What one frame does to a read, by its opcode: continuations (0) and binary frames (2) bring their payload, a close
      (8) ends the stream with the reason after its two bytes of status, and every other, text, ping and pong, is
      passed over. */
  lemma WhatAFrameDoes(data: Bytes, final: bool, opcode: nat, form: Form, payload: Bytes, rest: Bytes, size: nat)
    requires opcode < 16 && |data| < size
    requires Sendable(Frame((if final then 0x80 else 0) + opcode, form, payload))
    ensures
      var bytes := Encoded(Frame((if final then 0x80 else 0) + opcode, form, payload)) + rest;
      Filled(data, bytes, size)
      == if opcode == 0x8 then Closed(data, rest, if |payload| < 2 then [] else payload[2..])
         else Filled(if opcode in {0x0, 0x2} then data + payload else data, rest, size)
  {
    hide Encoded, FirstFrame, Sendable, LeftOver;
    FirstOfEncoded(Frame((if final then 0x80 else 0) + opcode, form, payload), rest);
  }

  /** How many frames a read takes: until it has what it was asked for, and none it does not need. */
  function Taken(data: Bytes, frames: seq<Frame>, size: nat): (k: nat)
    ensures k <= |frames|
    decreases |frames|
  {
    if |data| >= size || frames == [] then 0 else 1 + Taken(data + Carried(frames[0]), frames[1..], size)
  }

  lemma {:induction false} FilledPastTaken(data: Bytes, frames: seq<Frame>, tail: Bytes, size: nat)
    requires AllSendable(frames) && NoneClose(frames)
    ensures
      var k := Taken(data, frames, size);
      Filled(data, EncodedAll(frames) + tail, size) == Filled(data + Payloads(frames[..k]), EncodedAll(frames[k..]) + tail, size)
    decreases |frames|
  {
    hide Filled, Encoded;
    var k := Taken(data, frames, size);
    if |data| >= size || frames == [] {
      assert frames[..0] == [] && frames[0..] == frames && data + [] == data;
    } else {
      var frame, more := frames[0], frames[1..];
      FilledPastTaken(data + Carried(frame), more, tail, size);
      FilledPastOne(data, frame, EncodedAll(more) + tail, size);
      Regroup(Encoded(frame), EncodedAll(more), tail);
      assert frames[..k] == [frame] + more[..k - 1] && frames[k..] == more[k - 1..];
      PayloadsOfMore(frame, more[..k - 1]);
      Regroup(data, Carried(frame), Payloads(more[..k - 1]));
    }
  }

  lemma {:induction false} TakenSplits(data: Bytes, frames: seq<Frame>, size: nat)
    ensures
      var k := Taken(data, frames, size);
      && data + Payloads(frames[..k]) + Payloads(frames[k..]) == data + Payloads(frames)
      && (|data + Payloads(frames[..k])| >= size || k == |frames|)
    decreases |frames|
  {
    var k := Taken(data, frames, size);
    if |data| >= size || frames == [] {
      assert frames[..0] == [] && frames[0..] == frames && data + [] == data;
    } else {
      var frame, more := frames[0], frames[1..];
      TakenSplits(data + Carried(frame), more, size);
      assert frames[..k] == [frame] + more[..k - 1] && frames[k..] == more[k - 1..];
      PayloadsOfMore(frame, more[..k - 1]);
      Regroup(data, Carried(frame), Payloads(more[..k - 1]));
      Regroup(data, Carried(frame), Payloads(more));
    }
  }

  /** A read the frames' data reaches takes whole frames and leaves the others unread. */
  lemma FilledFromFrames(data: Bytes, frames: seq<Frame>, tail: Bytes, size: nat)
    requires AllSendable(frames) && NoneClose(frames) && |data + Payloads(frames)| >= size
    ensures
      var k := Taken(data, frames, size);
      && Filled(data, EncodedAll(frames) + tail, size) == Enough(data + Payloads(frames[..k]), EncodedAll(frames[k..]) + tail)
      && data + Payloads(frames) == data + Payloads(frames[..k]) + Payloads(frames[k..])
  {
    hide Taken, Payloads, EncodedAll;
    FilledPastTaken(data, frames, tail, size);
    TakenSplits(data, frames, size);
    AllTaken(frames);
  }

  lemma AllTaken(frames: seq<Frame>)
    ensures frames[..|frames|] == frames
  {
  }

  /** One the data does not reach takes them all, and goes on with what follows. */
  lemma FilledPastFrames(data: Bytes, frames: seq<Frame>, tail: Bytes, size: nat)
    requires AllSendable(frames) && NoneClose(frames) && |data + Payloads(frames)| < size
    ensures Filled(data, EncodedAll(frames) + tail, size) == Filled(data + Payloads(frames), tail, size)
  {
    hide Filled, Taken, Payloads;
    FilledPastTaken(data, frames, tail, size);
    TakenSplits(data, frames, size);
    AllTaken(frames);
    assert frames[|frames|..] == [] && EncodedAll([]) + tail == tail;
  }

  lemma PayloadsOfMore(frame: Frame, more: seq<Frame>)
    ensures Payloads([frame] + more) == Carried(frame) + Payloads(more)
  {
  }

  // ---- Successive reads -----------------------------------------------------------------------------------------

  function Sum(sizes: seq<nat>): nat {
    if sizes == [] then 0 else sizes[0] + Sum(sizes[1..])
  }

  /** What a run of reads returns; it stops at the first that raises. */
  function Reads(data: Bytes, unread: Bytes, sizes: seq<nat>): seq<Result<Bytes>>
    decreases |sizes|
  {
    if sizes == [] then []
    else
      var filling := Filled(data, unread, sizes[0]);
      [Outcome(filling, sizes[0])]
      + if filling.Enough? then Reads(filling.data[sizes[0]..], filling.unread, sizes[1..]) else []
  }

  /** The stream cut into pieces of the given sizes, in order. */
  function Slices(stream: Bytes, sizes: seq<nat>): seq<Result<Bytes>>
    requires Sum(sizes) <= |stream|
  {
    if sizes == [] then [] else [Ok(stream[..sizes[0]])] + Slices(stream[sizes[0]..], sizes[1..])
  }

  /** However the server cuts its data into frames and interleaves others, and however the network cuts the
      frames into chunks, successive reads are consecutive slices of the data. */
  lemma {:induction false} ReadsAreSlices(data: Bytes, frames: seq<Frame>, tail: Bytes, sizes: seq<nat>)
    requires AllSendable(frames) && NoneClose(frames)
    requires Sum(sizes) <= |data + Payloads(frames)|
    ensures Reads(data, EncodedAll(frames) + tail, sizes) == Slices(data + Payloads(frames), sizes)
    decreases |sizes|
  {
    hide Filled, Taken, EncodedAll, Payloads;
    if sizes == [] {
    } else {
      var k := Taken(data, frames, sizes[0]);
      FilledFromFrames(data, frames, tail, sizes[0]);
      var filled := data + Payloads(frames[..k]);
      Split(filled, Payloads(frames[k..]), sizes[0]);
      ReadsAreSlices(filled[sizes[0]..], frames[k..], tail, sizes[1..]);
    }
  }

  /** A read the data does not reach raises: with the server's reason if it closed the stream, else for the
      end of the connection; what was read stays in hand, and what follows the close unread. */
  lemma ReadPastTheEnd(data: Bytes, frames: seq<Frame>, close: Frame, rest: Bytes, size: nat)
    requires AllSendable(frames) && NoneClose(frames) && |data + Payloads(frames)| < size
    requires Sendable(close) && Opcode(close.first) == 0x8
    ensures Filled(data, EncodedAll(frames), size) == Lost(data + Payloads(frames), [])
    ensures
      Filled(data, EncodedAll(frames) + (Encoded(close) + rest), size)
      == Closed(data + Payloads(frames), rest, DropTwo(close.payload))
  {
    hide EncodedAll, Encoded, Payloads;
    FilledPastFrames(data, frames, [], size);
    assert EncodedAll(frames) + [] == EncodedAll(frames);
    FilledPastFrames(data, frames, Encoded(close) + rest, size);
    FirstOfEncoded(close, rest);
  }

  // ---- What the client sends ------------------------------------------------------------------------------------

  /** A client's frame as a server reads it: masked, its length in any of the three forms. */
  function Unmasked(bytes: Bytes): Parsed {
    if |bytes| < 2 || bytes[1] < 128 then Incomplete
    else
      var start := 2 + Extra(FormOf(bytes[1]));
      if |bytes| < start + 4 then Incomplete
      else
        var length := LengthOf(bytes[1], bytes[2..start]);
        if |bytes| < start + 4 + length then Incomplete
        else Parsed(bytes[0], Masked(bytes[start + 4..start + 4 + length], bytes[start..start + 4]), bytes[start + 4 + length..])
  }

  lemma MaskTwice(bytes: Bytes, mask: Bytes)
    requires |mask| == 4
    ensures Masked(Masked(bytes, mask), mask) == bytes
  {
    forall i | 0 <= i < |bytes| ensures Masked(Masked(bytes, mask), mask)[i] == bytes[i] {
      EightBits();
      XorTwice(bytes[i], mask[i % 4], 8);
    }
  }

  lemma {:induction false} XorTwice(a: nat, b: nat, bits: nat)
    requires a < PowerOfTwo(bits)
    ensures XorBits(XorBits(a, b, bits), b, bits) == a
  {
    if bits == 0 {
    } else {
      XorTwice(a / 2, b / 2, bits - 1);
      LastBit(a, b, XorBits(a / 2, b / 2, bits - 1));
    }
  }

  lemma LastBit(a: nat, b: nat, half: nat)
    ensures
      var x := 2 * half + (a + b) % 2;
      x / 2 == half && 2 * (a / 2) + (x + b) % 2 == a
  {
  }

  /** A server reads what was written as one whole data frame exactly when it was under 126 bytes. */
  lemma WrittenIsRead(bytes: Bytes, mask: Bytes)
    requires |mask| == 4 && |bytes| < 256
    ensures Unmasked(Written(bytes, mask)) == Parsed(0x82, bytes, []) <==> |bytes| < 126
    ensures Opcode(0x82) == 0x2
  {
    hide BigEndian, XorBits;
    var sent := Written(bytes, mask);
    if |bytes| < 126 {
      assert sent[2..6] == mask;
      assert sent[6..6 + |bytes|] == Masked(bytes, mask);
      MaskTwice(bytes, mask);
      assert sent[6 + |bytes|..] == [];
    }
  }
}
