/** What arbitrary peers can send: any well-formed frame of RFC 6455 section 5.2, with any length encoding that
    can hold its length, and what the server and the client reader make of it. */
module WebSocketPeers {
  import opened Basics
  import opened IncrementalParsing
  import opened WebSocketFrames

  /** How the length is written: in the second byte, in two more bytes or in eight more. */
  datatype Width = Short | Two | Eight

  /** A frame in the terms of the RFC; without a masking key the mask bit is clear. */
  datatype Frame = Frame(fin: bool, rsv: nat, opcode: nat, width: Width, mask: seq<byte>, payload: seq<byte>)

  predicate WellFormed(f: Frame) {
    && f.rsv < 8 && f.opcode < 16 && (f.mask == [] || |f.mask| == 4)
    && |f.payload| < (match f.width case Short => 126 case Two => 0x1_0000 case Eight => 0x1_0000_0000_0000_0000)
  }

  function FirstByte(f: Frame): byte
    requires f.rsv < 8 && f.opcode < 16
  {
    (if f.fin then 128 else 0) + 16 * f.rsv + f.opcode
  }

  function SecondByte(f: Frame): byte
    requires f.width == Short ==> |f.payload| < 126
  {
    (if f.mask != [] then 128 else 0) + match f.width case Short => |f.payload| case Two => 126 case Eight => 127
  }

  function LengthBytes(f: Frame): seq<byte> {
    match f.width
    case Short => []
    case Two => Digits(|f.payload|, 2)
    case Eight => Digits(|f.payload|, 8)
  }

  function Carried(f: Frame): (r: seq<byte>)
    requires WellFormed(f)
    ensures |r| == |f.payload|
  {
    if f.mask == [] then f.payload else Masked(f.payload, f.mask)
  }

  function Sent(f: Frame): seq<byte>
    requires WellFormed(f)
  {
    [FirstByte(f), SecondByte(f)] + LengthBytes(f) + f.mask + Carried(f)
  }

  /** A client's frame that the server handles: final, masked, without reserved bits, a text, close, ping or pong
      frame; a control frame has its length in the second byte, and no payload exceeds 64 KiB. */
  predicate Understood(f: Frame) {
    && f.fin && f.rsv == 0 && f.mask != [] && f.opcode in {1, 8, 9, 10}
    && (f.opcode >= 8 ==> f.width == Short) && |f.payload| <= 65536
  }

  function Effect(f: Frame): Event {
    if !Understood(f) then ForceClose
    else if f.opcode == 1 then Message(f.payload)
    else if f.opcode == 8 then SendClose(f.payload)
    else if f.opcode == 9 then SendPong(f.payload)
    else PongIgnored
  }

  predicate Closes(f: Frame) {
    !Understood(f) || f.opcode == 8
  }

  lemma FirstByteReads(f: Frame)
    requires WellFormed(f)
    ensures var b := FirstByte(f);
            (b >= 128 <==> f.fin) && (b / 16) % 8 == f.rsv && b % 16 == f.opcode
  {
    var b, top := FirstByte(f), if f.fin then 8 else 0;
    assert b == 16 * (top + f.rsv) + f.opcode;
    assert b / 16 == top + f.rsv && b % 16 == f.opcode;
  }

  lemma SecondByteReads(f: Frame)
    requires WellFormed(f)
    ensures var b := SecondByte(f);
            && (b >= 128 <==> f.mask != []) && |LengthBytes(f)| == Extra(b)
            && (b % 128 > 125 <==> f.width != Short)
            && |f.payload| == if Extra(b) == 0 then b % 128 else Big(LengthBytes(f))
  {
    var b := SecondByte(f);
    assert b % 128 == if f.mask != [] then b - 128 else b;
    Powers();
    match f.width
    case Short =>
    case Two => BigDigits(|f.payload|, 2);
    case Eight => BigDigits(|f.payload|, 8);
  }

  /** Where the parts of a frame stand, whatever follows it. */
  lemma PartsOf(f: Frame, tail: seq<byte>)
    requires WellFormed(f)
    ensures var bytes, extra := Sent(f) + tail, |LengthBytes(f)|;
            var body := 2 + extra + |f.mask|;
            && |Sent(f)| == body + |f.payload| <= |bytes|
            && bytes[0] == FirstByte(f) && bytes[1] == SecondByte(f) && bytes[2..2 + extra] == LengthBytes(f)
            && bytes[2 + extra..body] == f.mask
            && bytes[body..body + |f.payload|] == Carried(f)
            && bytes[body + |f.payload|..] == tail
  {
    var two, extra, carried := [FirstByte(f), SecondByte(f)], LengthBytes(f), Carried(f);
    Assoc(two + extra + f.mask, carried, tail);
    Assoc(two + extra, f.mask, carried + tail);
    Assoc(two, extra, f.mask + (carried + tail));
    Middle(two, extra, f.mask + (carried + tail));
    Middle(two + extra, f.mask, carried + tail);
    Middle(two + extra + f.mask, carried, tail);
  }

  lemma Assoc(a: seq<byte>, b: seq<byte>, c: seq<byte>)
    ensures a + b + c == a + (b + c)
  {
  }

  lemma Middle(a: seq<byte>, b: seq<byte>, c: seq<byte>)
    ensures (a + (b + c))[..|a|] == a && (a + (b + c))[|a|..|a| + |b|] == b && (a + (b + c))[|a| + |b|..] == c
  {
  }

  /** The server's reading of any client frame, whatever follows: an understood one has its effect and is consumed
      exactly, anything else closes the connection. */
  lemma ServerReads(f: Frame, tail: seq<byte>)
    requires WellFormed(f)
    ensures Parse(Sent(f) + tail) ==
              if !Understood(f) then Last(ForceClose, 0)
              else if f.opcode == 8 then Last(Effect(f), |Sent(f)|)
              else More(Effect(f), |Sent(f)|)
  {
    PartsOf(f, tail);
    FirstByteReads(f);
    SecondByteReads(f);
    if f.mask != [] {
      UnmaskMask(f.payload, f.mask);
    }
  }

  function AllSent(frames: seq<Frame>): seq<byte>
    requires forall f | f in frames :: WellFormed(f)
  {
    if frames == [] then [] else Sent(frames[0]) + AllSent(frames[1..])
  }

  /** The effects of frames up to the first that closes the connection. */
  function Effects(frames: seq<Frame>): seq<Event> {
    if frames == [] then []
    else [Effect(frames[0])] + if Closes(frames[0]) then [] else Effects(frames[1..])
  }

  lemma DrainFirst(f: Frame, tail: seq<byte>)
    requires WellFormed(f)
    ensures var all := DrainAll(Sent(f) + tail);
            if Closes(f) then all.items == [Effect(f)] && all.closed
            else all == Outcome([Effect(f)] + DrainAll(tail).items, DrainAll(tail).rest, DrainAll(tail).closed)
  {
    ParseSound();
    ServerReads(f, tail);
    assert (Sent(f) + tail)[|Sent(f)|..] == tail;
  }

  predicate AnyCloses(frames: seq<Frame>) {
    exists f | f in frames :: Closes(f)
  }

  lemma FirstCloses(frames: seq<Frame>)
    requires frames != []
    ensures AnyCloses(frames) <==> Closes(frames[0]) || AnyCloses(frames[1..])
  {
    assert forall f | f in frames :: f == frames[0] || f in frames[1..];
  }

  lemma {:induction false} DrainFrames(frames: seq<Frame>)
    requires forall f | f in frames :: WellFormed(f)
    ensures var all := DrainAll(AllSent(frames));
            all.items == Effects(frames) && (all.closed <==> AnyCloses(frames)) && (!all.closed ==> all.rest == [])
    decreases |frames|
  {
    if frames == [] {
      DrainNothing();
    } else {
      DrainFirst(frames[0], AllSent(frames[1..]));
      DrainFrames(frames[1..]);
      FirstCloses(frames);
    }
  }

  /** Any frames of any client, delivered in any chunks, have their effects in order up to the first that closes
      the connection: pings are answered with their own payload, a close with its own, pongs are ignored. */
  lemma AnyClient(frames: seq<Frame>, chunks: seq<seq<byte>>)
    requires forall f | f in frames :: WellFormed(f)
    requires Concat(chunks) == AllSent(frames)
    ensures Receive(chunks).items == Effects(frames)
    ensures Receive(chunks).closed <==> AnyCloses(frames)
  {
    DrainFrames(frames);
    ReceiveIsDrain(chunks);
  }

  /** The client's reader returns the payload of any server frame that is a final text frame within 10 MiB, masked
      or not, and leaves what follows; it fails for any other. */
  lemma AnyServer(f: Frame, tail: seq<byte>)
    requires WellFormed(f)
    ensures ReadServer(Sent(f) + tail) ==
              if f.fin && f.opcode == 1 && |f.payload| <= 10485760 then Got(f.payload, tail) else Failed
  {
    PartsOf(f, tail);
    FirstByteReads(f);
    SecondByteReads(f);
    if f.mask != [] {
      UnmaskMask(f.payload, f.mask);
    }
  }

  function WidthOf(length: nat): Width {
    if length < 126 then Short else if length < 65536 then Two else Eight
  }

  lemma OwnHeader(f: Frame, maskBit: nat)
    requires WellFormed(f) && f.fin && f.rsv == 0 && f.opcode == 1 && f.width == WidthOf(|f.payload|)
    requires maskBit == if f.mask != [] then 128 else 0
    ensures Header(maskBit, |f.payload|) == [FirstByte(f), SecondByte(f)] + LengthBytes(f)
  {
    match f.width
    case Short => assert [0x81] + [maskBit + |f.payload|] == [FirstByte(f), SecondByte(f)] + LengthBytes(f);
    case Two => assert [0x81] + ([maskBit + 126] + Digits(|f.payload|, 2)) == [FirstByte(f), SecondByte(f)] + LengthBytes(f);
    case Eight => assert [0x81] + ([maskBit + 127] + Digits(|f.payload|, 8)) == [FirstByte(f), SecondByte(f)] + LengthBytes(f);
  }

  /** The frames this system writes are among them: final text frames with the shortest length, the client's with
      its fixed masking key. */
  lemma OwnFrames(payload: seq<byte>)
    requires |payload| < 0x1_0000_0000_0000_0000
    ensures ClientFrame(payload) == Sent(Frame(true, 0, 1, WidthOf(|payload|), [0x12, 0x34, 0x56, 0x78], payload))
    ensures ServerFrame(payload) == Sent(Frame(true, 0, 1, WidthOf(|payload|), [], payload))
  {
    OwnHeader(Frame(true, 0, 1, WidthOf(|payload|), CLIENT_MASK, payload), 128);
    OwnHeader(Frame(true, 0, 1, WidthOf(|payload|), [], payload), 0);
    assert forall xs: seq<byte> :: xs + [] == xs;
  }

  // ----- masking and numbers, bit by bit and byte by byte

  predicate Bit(n: nat, i: nat) {
    (n / Pow2(i)) % 2 == 1
  }

  lemma {:induction false} HalfBit(n: nat, i: nat)
    ensures Bit(n / 2, i) == Bit(n, i + 1)
  {
    HalfOf(n, Pow2(i));
  }

  lemma HalfOf(n: nat, d: nat)
    requires d > 0
    ensures n / 2 / d == n / (2 * d)
  {
    var q, r := n / (2 * d), n % (2 * d);
    assert n == q * (2 * d) + r;
    assert n / 2 == q * d + r / 2 by {
      assert q * (2 * d) == 2 * (q * d);
    }
    assert r / 2 < d;
    QuotientIs(n / 2, d, q, r / 2);
  }

  lemma QuotientIs(n: nat, d: nat, q: nat, r: nat)
    requires n == q * d + r && r < d
    ensures n / d == q
  {
    var p, e := n / d, n % d;
    assert n == p * d + e;
    assert (p - q) * d == r - e;
    AtLeast(p - q, d);
    AtLeast(q - p, d);
    assert (q - p) * d == -((p - q) * d);
  }

  lemma AtLeast(k: int, d: nat)
    ensures k >= 1 ==> k * d >= d
  {
    if k >= 1 {
      assert (k - 1) * d >= 0;
    }
  }

  /** A masked byte differs from the byte in exactly the bits of the key. */
  lemma {:induction false} XorBit(a: nat, b: nat, bits: nat, i: nat)
    requires i < bits
    ensures Bit(XorBits(a, b, bits), i) <==> Bit(a, i) != Bit(b, i)
  {
    LowBit((a % 2 + b % 2) % 2, XorBits(a / 2, b / 2, bits - 1));
    if i > 0 {
      XorBit(a / 2, b / 2, bits - 1, i - 1);
      HalfBit(a, i - 1);
      HalfBit(b, i - 1);
      HalfBit(XorBits(a, b, bits), i - 1);
    }
  }

  /** Payload byte i is masked with byte i mod 4 of the key, bit by bit. */
  lemma MaskedBit(payload: seq<byte>, mask: seq<byte>, i: nat, bit: nat)
    requires |mask| == 4 && i < |payload| && bit < 8
    ensures |Masked(payload, mask)| == |payload|
    ensures Bit(Masked(payload, mask)[i], bit) <==> Bit(payload[i], bit) != Bit(mask[i % 4], bit)
  {
    XorBit(payload[i], mask[i % 4], 8, bit);
  }

  /** Numbers are written with the most significant byte first. */
  lemma {:induction false} BigEndian(n: nat, width: nat, i: nat)
    requires i < width
    ensures Digits(n, width)[i] == (n / Pow256(width - 1 - i)) % 256
  {
    if i < width - 1 {
      BigEndian(n / 256, width - 1, i);
      ByteOf(n, Pow256(width - 2 - i));
    }
  }

  lemma ByteOf(n: nat, d: nat)
    requires d > 0
    ensures n / 256 / d == n / (256 * d)
  {
    var q, r := n / (256 * d), n % (256 * d);
    assert n == q * (256 * d) + r;
    assert n / 256 == q * d + r / 256 by {
      assert q * (256 * d) == 256 * (q * d);
    }
    QuotientIs(n / 256, d, q, r / 256);
  }
}
