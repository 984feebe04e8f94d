/** RFC 6455 frames as this system prints and parses them: the server's incremental parser, both printers
    and the client's reader. Bytes are 0..255; masking is bitwise exclusive or. */
module WebSocketFrames {

  import opened Basics
  import opened IncrementalParsing

  type byte = x: int | 0 <= x < 256 witness 0

  const MAX_CLIENT_PAYLOAD: nat := 64 * 1024
  const MAX_SERVER_PAYLOAD: nat := 10 * 1024 * 1024

  // ----- masking

  function XorBits(a: nat, b: nat, bits: nat): nat {
    if bits == 0 then 0 else (a % 2 + b % 2) % 2 + 2 * XorBits(a / 2, b / 2, bits - 1)
  }

  lemma {:induction false} XorRange(a: nat, b: nat, bits: nat)
    ensures XorBits(a, b, bits) < Pow2(bits)
  {
    if bits > 0 {
      XorRange(a / 2, b / 2, bits - 1);
    }
  }

  lemma LowBit(low: nat, high: nat)
    requires low < 2
    ensures (low + 2 * high) % 2 == low && (low + 2 * high) / 2 == high
  {
  }

  lemma FlipTwice(x: nat, y: nat)
    requires x < 2 && y < 2
    ensures ((x + y) % 2 + y) % 2 == x
  {
  }

  lemma {:induction false} XorTwice(a: nat, b: nat, bits: nat)
    requires a < Pow2(bits)
    ensures XorBits(XorBits(a, b, bits), b, bits) == a
  {
    if bits > 0 {
      XorTwice(a / 2, b / 2, bits - 1);
      LowBit((a % 2 + b % 2) % 2, XorBits(a / 2, b / 2, bits - 1));
      FlipTwice(a % 2, b % 2);
    }
  }

  function Xor(a: byte, b: byte): byte {
    XorRange(a, b, 8);
    assert Pow2(8) == 256;
    XorBits(a, b, 8)
  }

  lemma XorInverse(a: byte, b: byte)
    ensures Xor(Xor(a, b), b) == a
  {
    assert Pow2(8) == 256;
    XorTwice(a, b, 8);
  }

  function Masked(payload: seq<byte>, mask: seq<byte>): (r: seq<byte>)
    requires |mask| == 4
  {
    seq(|payload|, i requires 0 <= i < |payload| => Xor(payload[i], mask[i % 4]))
  }

  lemma UnmaskMask(payload: seq<byte>, mask: seq<byte>)
    requires |mask| == 4
    ensures Masked(Masked(payload, mask), mask) == payload
  {
    forall i | 0 <= i < |payload| ensures Masked(Masked(payload, mask), mask)[i] == payload[i] {
      XorInverse(payload[i], mask[i % 4]);
    }
  }

  // ----- big-endian numbers

  function Big(bytes: seq<byte>): nat {
    if bytes == [] then 0 else Big(bytes[..|bytes| - 1]) * 256 + bytes[|bytes| - 1]
  }

  function Digits(n: nat, width: nat): (r: seq<byte>)
    ensures |r| == width
  {
    if width == 0 then [] else Digits(n / 256, width - 1) + [n % 256]
  }

  function Pow256(width: nat): (p: nat)
    ensures p > 0
  {
    if width == 0 then 1 else 256 * Pow256(width - 1)
  }

  lemma {:induction false} BigDigits(n: nat, width: nat)
    requires n < Pow256(width)
    ensures Big(Digits(n, width)) == n
  {
    if width > 0 {
      BigDigits(n / 256, width - 1);
      assert Digits(n, width)[..width - 1] == Digits(n / 256, width - 1);
    }
  }

  // ----- the server's parser

  /** What the parser does to the outside world with one frame, or with a protocol error. */
  datatype Event =
    | Message(payload: seq<byte>) | SendPong(payload: seq<byte>) | PongIgnored | SendClose(payload: seq<byte>) | ForceClose

  const TEXT: byte := 1
  const CLOSE: byte := 8
  const PING: byte := 9
  const PONG: byte := 10

  predicate BadHeader(b0: byte, b1: byte) {
    || b0 < 128 || b1 < 128 || (b0 / 16) % 8 != 0
    || (b0 % 16 != TEXT && b0 % 16 != CLOSE && b0 % 16 != PING && b0 % 16 != PONG)
    || (b0 % 16 >= 8 && b1 % 128 > 125)
  }

  /** How many bytes of extended length follow the two header bytes. */
  function Extra(b1: byte): nat {
    if b1 % 128 == 126 then 2 else if b1 % 128 == 127 then 8 else 0
  }

  function EventOf(opcode: byte, payload: seq<byte>): Event {
    if opcode == PING then SendPong(payload)
    else if opcode == CLOSE then SendClose(payload)
    else if opcode == TEXT then Message(payload)
    else PongIgnored
  }

  /** A close frame and a protocol error end the parsing. */
  function Parse(buffer: seq<byte>): Front<Event> {
    if |buffer| < 2 then Incomplete
    else if BadHeader(buffer[0], buffer[1]) then Last(ForceClose, 0)
    else
      var extra := Extra(buffer[1]);
      if |buffer| < 2 + extra then Incomplete
      else
        var length := if extra == 0 then buffer[1] % 128 else Big(buffer[2..2 + extra]);
        if length > MAX_CLIENT_PAYLOAD then Last(ForceClose, 0)
        else if |buffer| < 6 + extra + length then Incomplete
        else
          var opcode, body := buffer[0] % 16, 6 + extra;
          var event := EventOf(opcode, Masked(buffer[body..body + length], buffer[body - 4..body]));
          if opcode == CLOSE then Last(event, body + length) else More(event, body + length)
  }

  lemma ParseSound()
    ensures Sound(Parse)
  {
  }

  /** Bytes arriving later never change what a decided front is. */
  lemma ParseMore(buffer: seq<byte>, more: seq<byte>)
    requires !Parse(buffer).Incomplete?
    ensures Parse(buffer + more) == Parse(buffer)
  {
    var all := buffer + more;
    assert all[0] == buffer[0] && all[1] == buffer[1];
    if !BadHeader(buffer[0], buffer[1]) {
      var extra := Extra(buffer[1]);
      assert all[2..2 + extra] == buffer[2..2 + extra];
      var length := if extra == 0 then buffer[1] % 128 else Big(buffer[2..2 + extra]);
      if length <= MAX_CLIENT_PAYLOAD {
        var body := 6 + extra;
        assert |buffer| >= body + length;
        assert all[body..body + length] == buffer[body..body + length];
        assert all[body - 4..body] == buffer[body - 4..body];
      }
    }
  }

  lemma ParseStable()
    ensures Stable(Parse)
  {
    forall a: seq<byte>, b: seq<byte> | !Parse(a).Incomplete? ensures Parse(a + b) == Parse(a) {
      ParseMore(a, b);
    }
  }

  type Connection = Outcome<Event, byte>

  /** What a connection has done after the chunks arrived one by one. */
  function Receive(chunks: seq<seq<byte>>): Connection {
    ParseSound();
    FeedAll(Parse, chunks)
  }

  function DrainAll(buffer: seq<byte>): Connection {
    ParseSound();
    Drain(Parse, buffer)
  }

  lemma ReceiveIsDrain(chunks: seq<seq<byte>>)
    ensures Agree(Receive(chunks), DrainAll(Concat(chunks)))
  {
    ParseSound();
    ParseStable();
    FeedAllIsDrain(Parse, chunks);
  }

  /** Chunking independence, for arbitrary bytes: up to the first close or protocol error the events
      depend only on the bytes received, not on how they were cut, and so does the leftover. */
  lemma ChunkingIrrelevant(chunks: seq<seq<byte>>, others: seq<seq<byte>>)
    requires Concat(chunks) == Concat(others)
    ensures Agree(Receive(chunks), Receive(others))
  {
    ReceiveIsDrain(chunks);
    ReceiveIsDrain(others);
  }

  // ----- printing

  const CLIENT_MASK: seq<byte> := [0x12, 0x34, 0x56, 0x78]

  function Header(maskBit: nat, length: nat): seq<byte>
    requires maskBit == 0 || maskBit == 128
  {
    [0x81] +
    if length < 126 then [maskBit + length]
    else if length <= 0xFFFF then [maskBit + 126] + Digits(length, 2)
    else [maskBit + 127] + Digits(length, 8)
  }

  function ClientFrame(payload: seq<byte>): seq<byte> {
    Header(128, |payload|) + CLIENT_MASK + Masked(payload, CLIENT_MASK)
  }

  function ServerFrame(payload: seq<byte>): seq<byte> {
    Header(0, |payload|) + payload
  }

  lemma Powers()
    ensures Pow256(2) == 0x10000 && Pow256(8) == 0x1_0000_0000_0000_0000
  {
    assert Pow256(1) == 256 && Pow256(3) == 0x100_0000 && Pow256(4) == 0x1_0000_0000;
    assert Pow256(5) == 0x100_0000_0000 && Pow256(6) == 0x1_0000_0000_0000;
  }

  lemma HeaderTail(maskBit: nat, length: nat, tail: seq<byte>)
    requires maskBit == 0 || maskBit == 128
    requires length < 0x1_0000_0000_0000_0000
    ensures var head := Header(maskBit, length);
            |head| >= 2 && (head + tail)[0] == head[0] && (head + tail)[1] == head[1] && (head + tail)[2..|head|] == head[2..]
  {
  }

  /** The header is read back as it was printed, whatever follows. */
  lemma HeaderReads(maskBit: nat, length: nat, tail: seq<byte>)
    requires maskBit == 0 || maskBit == 128
    requires length < 0x1_0000_0000_0000_0000
    ensures var bytes := Header(maskBit, length) + tail;
            var extra := |Header(maskBit, length)| - 2;
            && bytes[0] == 0x81 && extra == Extra(bytes[1]) && bytes[1] / 128 == maskBit / 128
            && length == (if extra == 0 then bytes[1] % 128 else Big(bytes[2..2 + extra]))
  {
    HeaderTail(maskBit, length, tail);
    if length > 0xFFFF {
      LongHeader(maskBit, length);
    } else if length >= 126 {
      MediumHeader(maskBit, length);
    } else {
      ShortHeader(maskBit, length);
    }
  }

  lemma ShortHeader(maskBit: nat, length: nat)
    requires (maskBit == 0 || maskBit == 128) && length < 126
    ensures var head := Header(maskBit, length);
            && |head| == 2 && head[0] == 0x81 && Extra(head[1]) == 0 && head[1] / 128 == maskBit / 128
            && head[1] % 128 == length
  {
    assert (maskBit + length) % 128 == length;
  }

  lemma MediumHeader(maskBit: nat, length: nat)
    requires (maskBit == 0 || maskBit == 128) && 126 <= length <= 0xFFFF
    ensures var head := Header(maskBit, length);
            && |head| == 4 && head[0] == 0x81 && Extra(head[1]) == 2 && head[1] / 128 == maskBit / 128
            && Big(head[2..]) == length
  {
    assert (maskBit + 126) % 128 == 126;
    Powers();
    BigDigits(length, 2);
    assert Header(maskBit, length)[2..] == Digits(length, 2);
  }

  lemma LongHeader(maskBit: nat, length: nat)
    requires (maskBit == 0 || maskBit == 128) && 0xFFFF < length < 0x1_0000_0000_0000_0000
    ensures var head := Header(maskBit, length);
            && |head| == 10 && head[0] == 0x81 && Extra(head[1]) == 8 && head[1] / 128 == maskBit / 128
            && Big(head[2..]) == length
  {
    assert (maskBit + 127) % 128 == 127;
    Powers();
    BigDigits(length, 8);
    assert Header(maskBit, length)[2..] == Digits(length, 8);
  }

  /** The server parses a client frame back to its payload, or rejects it: within the limit it consumes
      exactly the frame whatever follows, above the limit it closes. */
  lemma ParseClientFrame(payload: seq<byte>, tail: seq<byte>)
    requires |payload| < 0x1_0000_0000_0000_0000
    ensures Parse(ClientFrame(payload) + tail) ==
            if |payload| <= MAX_CLIENT_PAYLOAD then More(Message(payload), |ClientFrame(payload)|) else Last(ForceClose, 0)
  {
    var masked := Masked(payload, CLIENT_MASK);
    var head, bytes := Header(128, |payload|), ClientFrame(payload) + tail;
    assert bytes == head + (CLIENT_MASK + masked + tail);
    HeaderReads(128, |payload|, CLIENT_MASK + masked + tail);
    if |payload| <= MAX_CLIENT_PAYLOAD {
      var body := |head| + 4;
      assert bytes[body - 4..body] == CLIENT_MASK;
      assert bytes[body..body + |payload|] == masked;
      UnmaskMask(payload, CLIENT_MASK);
    }
  }

  function ClientFrames(payloads: seq<seq<byte>>): seq<byte> {
    if payloads == [] then [] else ClientFrame(payloads[0]) + ClientFrames(payloads[1..])
  }

  function Messages(payloads: seq<seq<byte>>): seq<Event> {
    seq(|payloads|, i requires 0 <= i < |payloads| => Message(payloads[i]))
  }

  lemma DrainFrame(frame: seq<byte>, tail: seq<byte>, payload: seq<byte>)
    requires Parse(frame + tail) == More(Message(payload), |frame|)
    ensures DrainAll(frame + tail) ==
            Outcome([Message(payload)] + DrainAll(tail).items, DrainAll(tail).rest, DrainAll(tail).closed)
  {
    ParseSound();
    assert (frame + tail)[|frame|..] == tail;
  }

  lemma DrainNothing()
    ensures DrainAll([]) == Outcome([], [], false)
  {
    ParseSound();
    assert Parse([]).Incomplete?;
  }

  lemma {:induction false} DrainClientFrames(payloads: seq<seq<byte>>)
    requires forall p | p in payloads :: |p| <= MAX_CLIENT_PAYLOAD
    ensures DrainAll(ClientFrames(payloads)) == Outcome(Messages(payloads), [], false)
    decreases |payloads|
  {
    if payloads == [] {
      DrainNothing();
    } else {
      var frame, tail := ClientFrame(payloads[0]), ClientFrames(payloads[1..]);
      ParseClientFrame(payloads[0], tail);
      DrainClientFrames(payloads[1..]);
      DrainFrame(frame, tail, payloads[0]);
      MessagesOne(payloads);
    }
  }

  lemma MessagesOne(payloads: seq<seq<byte>>)
    requires payloads != []
    ensures Messages(payloads) == [Message(payloads[0])] + Messages(payloads[1..])
    ensures ClientFrames(payloads) == ClientFrame(payloads[0]) + ClientFrames(payloads[1..])
  {
  }

  /** Client to server: any list of payloads within the limit, printed, concatenated and delivered in any
      chunks, is received as exactly those messages in order, with nothing left over. */
  lemma ClientToServer(payloads: seq<seq<byte>>, chunks: seq<seq<byte>>)
    requires forall p | p in payloads :: |p| <= MAX_CLIENT_PAYLOAD
    requires Concat(chunks) == ClientFrames(payloads)
    ensures Receive(chunks) == Outcome(Messages(payloads), [], false)
  {
    DrainClientFrames(payloads);
    ReceiveIsDrain(chunks);
  }

  // ----- the client's reader

  /** The reader either fails or returns the payload and the bytes it did not consume. */
  datatype Read = Failed | Got(payload: seq<byte>, rest: seq<byte>)

  function ReadServer(input: seq<byte>): Read {
    if |input| < 2 then Failed
    else if input[0] < 128 || input[0] % 16 != 1 then Failed
    else
      var extra, masked := Extra(input[1]), input[1] >= 128;
      if |input| < 2 + extra then Failed
      else
        var length := if extra == 0 then input[1] % 128 else Big(input[2..2 + extra]);
        var body := 2 + extra + if masked then 4 else 0;
        if length > MAX_SERVER_PAYLOAD || |input| < body + length then Failed
        else
          var raw := input[body..body + length];
          Got(if masked then Masked(raw, input[body - 4..body]) else raw, input[body + length..])
  }

  /** Server to client, across all three length encodings: the reader returns the payload and consumes
      exactly the frame if and only if the payload is within the client's limit; otherwise it fails. */
  lemma ServerToClient(payload: seq<byte>, tail: seq<byte>)
    requires |payload| < 0x1_0000_0000_0000_0000
    ensures ReadServer(ServerFrame(payload) + tail) ==
            if |payload| <= MAX_SERVER_PAYLOAD then Got(payload, tail) else Failed
  {
    var head, bytes := Header(0, |payload|), ServerFrame(payload) + tail;
    assert bytes == head + (payload + tail);
    HeaderReads(0, |payload|, payload + tail);
    assert bytes[|head|..|head| + |payload|] == payload;
    assert bytes[|head| + |payload|..] == tail;
  }

  /** A frame that is cut short is never taken for a complete one. */
  lemma TruncatedServerFrame(payload: seq<byte>, n: nat)
    requires |payload| < 0x1_0000_0000_0000_0000 && n < |ServerFrame(payload)|
    ensures ReadServer(ServerFrame(payload)[..n]) == Failed
  {
    var head, frame := Header(0, |payload|), ServerFrame(payload);
    var cut := frame[..n];
    assert frame == head + payload;
    HeaderReads(0, |payload|, payload);
    if n >= |head| {
      assert cut[..|head|] == head && cut[2..|head|] == frame[2..|head|];
    }
  }

  // ----- the code in the form of the source

  /** The length shifted right by `count` bytes. */
  function Shift(n: nat, count: nat): nat {
    if count == 0 then n else Shift(n / 256, count - 1)
  }

  lemma {:induction false} ShiftOnce(n: nat, count: nat)
    ensures Shift(n, count + 1) == Shift(n, count) / 256
  {
    if count > 0 {
      ShiftOnce(n / 256, count - 1);
    }
  }

  /** Appends the low bytes of a length, most significant first. */
  method AppendDigits(frame: seq<byte>, length: nat, width: nat) returns (r: seq<byte>)
    ensures r == frame + Digits(length, width)
  {
    r := frame;
    var i := width;
    while i > 0
      invariant 0 <= i <= width
      invariant r == frame + Digits(Shift(length, i), width - i)
    {
      i := i - 1;
      ShiftOnce(length, i);
      r := r + [Shift(length, i) % 256];
    }
  }

  /** BuildWebSocketTextFrame. */
  method BuildServerFrame(payload: seq<byte>) returns (frame: seq<byte>)
    ensures frame == ServerFrame(payload)
  {
    frame := [0x81];
    var length := |payload|;
    if length < 126 {
      frame := frame + [length];
    } else if length <= 0xFFFF {
      frame := AppendDigits(frame + [126], length, 2);
    } else {
      frame := AppendDigits(frame + [127], length, 8);
    }
    frame := frame + payload;
  }

  /** BuildClientWebSocketTextFrame. */
  method BuildClientFrame(payload: seq<byte>) returns (frame: seq<byte>)
    ensures frame == ClientFrame(payload)
  {
    frame := [0x81];
    var length := |payload|;
    if length < 126 {
      frame := frame + [128 + length];
    } else if length <= 0xFFFF {
      frame := AppendDigits(frame + [128 + 126], length, 2);
    } else {
      frame := AppendDigits(frame + [128 + 127], length, 8);
    }
    frame := frame + CLIENT_MASK;
    var masked := ApplyMask(payload, CLIENT_MASK);
    frame := frame + masked;
  }

  /** The masking loop shared by both directions. */
  method ApplyMask(payload: seq<byte>, mask: seq<byte>) returns (r: seq<byte>)
    requires |mask| == 4
    ensures r == Masked(payload, mask)
  {
    r := [];
    for i := 0 to |payload|
      invariant |r| == i
      invariant forall k | 0 <= k < i :: r[k] == Xor(payload[k], mask[k % 4])
    {
      r := r + [Xor(payload[i], mask[i % 4])];
    }
  }

  /** Reads `width` bytes as one big-endian number. */
  method ReadDigits(input: seq<byte>, from: nat, width: nat) returns (n: nat)
    requires from + width <= |input|
    ensures n == Big(input[from..from + width])
  {
    n := 0;
    for i := 0 to width
      invariant n == Big(input[from..from + i])
    {
      n := n * 256 + input[from + i];
      assert input[from..from + i + 1][..i] == input[from..from + i];
    }
  }

  /** The length of a server frame and where what follows it begins, or nothing if the input is too short. */
  method ReadLength(input: seq<byte>) returns (whole: bool, length: nat, at: nat)
    requires |input| >= 2
    ensures whole <==> |input| >= 2 + Extra(input[1])
    ensures whole ==> at == 2 + Extra(input[1]) && length == if Extra(input[1]) == 0 then input[1] % 128 else Big(input[2..at])
  {
    whole, length, at := true, input[1] % 128, 2;
    if length == 126 {
      if |input| < at + 2 { return false, 0, 0; }
      length := ReadDigits(input, at, 2);
      at := at + 2;
    } else if length == 127 {
      if |input| < at + 8 { return false, 0, 0; }
      length := ReadDigits(input, at, 8);
      at := at + 8;
    }
  }

  /** ReadServerWebSocketTextFrame over the bytes the socket will deliver. */
  method ReadServerFrame(input: seq<byte>) returns (r: Read)
    ensures r == ReadServer(input)
  {
    if |input| < 2 { return Failed; }
    if input[0] < 128 || input[0] % 16 != 1 { return Failed; }
    var whole, length, at := ReadLength(input);
    if !whole { return Failed; }
    if length > MAX_SERVER_PAYLOAD { return Failed; }
    var mask: seq<byte> := [0, 0, 0, 0];
    if input[1] >= 128 {
      if |input| < at + 4 { return Failed; }
      mask := input[at..at + 4];
      at := at + 4;
    }
    if |input| < at + length { return Failed; }
    var payload := input[at..at + length];
    if input[1] >= 128 {
      payload := ApplyMask(payload, mask);
    }
    return Got(payload, input[at + length..]);
  }

  /** `front` is what draining this buffer begins with. */
  predicate Begins(buffer: seq<byte>, front: Front<Event>) {
    match front
    case Incomplete => DrainAll(buffer) == Outcome([], buffer, false)
    case Last(item, used) => used <= |buffer| && DrainAll(buffer) == Outcome([item], buffer[used..], true)
    case More(item, used) =>
      && 0 < used <= |buffer|
      && var later := DrainAll(buffer[used..]);
         DrainAll(buffer) == Outcome([item] + later.items, later.rest, later.closed)
  }

  /** The body of the loop of HandleWebSocketFrame: one frame from the front of the buffer. */
  method ParseFront(buffer: seq<byte>) returns (front: Front<Event>)
    ensures front == Parse(buffer)
  {
    if |buffer| < 2 { return Incomplete; }
    var b0, b1 := buffer[0], buffer[1];
    var opcode: byte := b0 % 16;
    if b0 < 128 || b1 < 128 || (b0 / 16) % 8 != 0 ||
       (opcode != TEXT && opcode != CLOSE && opcode != PING && opcode != PONG) || (opcode >= 8 && b1 % 128 > 125) {
      return Last(ForceClose, 0);
    }
    var length: nat, at := b1 % 128, 2;
    if length == 126 {
      if |buffer| < at + 2 { return Incomplete; }
      length := ReadDigits(buffer, at, 2);
      at := at + 2;
    } else if length == 127 {
      if |buffer| < at + 8 { return Incomplete; }
      length := ReadDigits(buffer, at, 8);
      at := at + 8;
    }
    if length > MAX_CLIENT_PAYLOAD { return Last(ForceClose, 0); }
    if |buffer| < at + 4 + length { return Incomplete; }
    var mask := buffer[at..at + 4];
    at := at + 4;
    var payload := ApplyMask(buffer[at..at + length], mask);
    if opcode == PING { return More(SendPong(payload), at + length); }
    if opcode == CLOSE { return Last(SendClose(payload), at + length); }
    if opcode == TEXT { return More(Message(payload), at + length); }
    return More(PongIgnored, at + length);
  }

  method NextFrame(buffer: seq<byte>) returns (front: Front<Event>)
    ensures Begins(buffer, front)
  {
    ParseSound();
    front := ParseFront(buffer);
  }

  class Socket {
    var buffer: seq<byte>
    var events: seq<Event>

    constructor ()
      ensures buffer == [] && events == []
    {
      buffer, events := [], [];
    }

    /** HandleWebSocketFrame: consumes complete frames from the buffer until more bytes are needed, the
        peer closes, or the protocol is violated. */
    method HandleFrames() returns (closed: bool)
      modifies this
      ensures var all := DrainAll(old(buffer));
              events == old(events) + all.items && buffer == all.rest && closed == all.closed
    {
      ghost var all, start, seen := DrainAll(buffer), events, [];
      assert [] + all.items == all.items;
      var done := false;
      closed := false;
      while !done
        invariant events == start + seen
        invariant Progress(all, seen, done, closed, buffer)
        decreases |buffer|, !done
      {
        var front := NextFrame(buffer);
        ProgressStep(all, seen, buffer, front);
        match front {
          case Incomplete => done := true;
          case Last(event, used) =>
            events, buffer, seen := events + [event], buffer[used..], seen + [event];
            done, closed := true, true;
          case More(event, used) =>
            events, buffer, seen := events + [event], buffer[used..], seen + [event];
        }
      }
    }
  }

  /** `seen` was taken from the front of what draining everything gives, and the rest is still to come. */
  predicate Progress(all: Connection, seen: seq<Event>, done: bool, closed: bool, buffer: seq<byte>) {
    if done then all == Outcome(seen, buffer, closed)
    else
      var left := DrainAll(buffer);
      !closed && all == Outcome(seen + left.items, left.rest, left.closed)
  }

  lemma ProgressStep(all: Connection, seen: seq<Event>, buffer: seq<byte>, front: Front<Event>)
    requires Progress(all, seen, false, false, buffer) && Begins(buffer, front)
    ensures match front
            case Incomplete => Progress(all, seen, true, false, buffer)
            case Last(event, used) => Progress(all, seen + [event], true, true, buffer[used..])
            case More(event, used) => Progress(all, seen + [event], false, false, buffer[used..])
  {
    match front
    case Incomplete => assert seen + [] == seen;
    case Last(event, _) =>
    case More(event, used) =>
      assert seen + ([event] + DrainAll(buffer[used..]).items) == seen + [event] + DrainAll(buffer[used..]).items;
  }
}
