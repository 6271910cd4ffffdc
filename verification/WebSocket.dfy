/**
 * The Codex control-socket client (src/registered-shell/codex-socket.ts): a
 * masking frame encoder and an incremental frame decoder for RFC 6455.
 * Frame bytes and request ids are modelled; JSON is an abstract classifier.
 */
module WebSocket {
  import opened Options
  import opened ByteStrings

  const MAX_MESSAGE: nat := 16 * 1024 * 1024

  // --------------------------------------------------------------- encoding

  function Power2(k: nat): nat {
    if k == 0 then 1 else 2 * Power2(k - 1)
  }

  function Power256(k: nat): nat {
    if k == 0 then 1 else 256 * Power256(k - 1)
  }

  /** The low k bytes of n, most significant first. */
  function BigEndian(n: nat, k: nat): (b: Bytes)
    ensures |b| == k
  {
    if k == 0 then [] else BigEndian(n / 256, k - 1) + [(n % 256) as Byte]
  }

  function FromBigEndian(b: Bytes): nat {
    if b == [] then 0 else 256 * FromBigEndian(b[..|b| - 1]) + b[|b| - 1] as nat
  }

  /** Exclusive or of two k-bit numbers, bit by bit. */
  function XorBits(a: nat, b: nat, k: nat): (r: nat)
    requires a < Power2(k) && b < Power2(k)
    ensures r < Power2(k)
  {
    if k == 0 then 0 else (a + b) % 2 + 2 * XorBits(a / 2, b / 2, k - 1)
  }

  function Xor(a: Byte, b: Byte): Byte {
    assert Power2(8) == 256 by { PowerOfTwo8(); }
    XorBits(a as nat, b as nat, 8) as Byte
  }

  lemma PowerOfTwo8()
    ensures Power2(8) == 256
  {
    assert Power2(4) == 16;
    assert Power2(6) == 64;
  }

  type Mask = m: Bytes | |m| == 4 witness [0, 0, 0, 0]

  function Masked(payload: Bytes, mask: Mask): (r: Bytes)
    ensures |r| == |payload|
  {
    seq(|payload|, i requires 0 <= i < |payload| => Xor(payload[i], mask[i % 4]))
  }

  /** The length bytes of section 5.2 of RFC 6455, above the mask bit. */
  function LengthBytes(maskBit: int, size: nat): Bytes
    requires maskBit == 0 || maskBit == 128
  {
    if size < 126 then [(maskBit + size) as Byte]
    else if size <= 65535 then [(maskBit + 126) as Byte] + BigEndian(size, 2)
    else [(maskBit + 127) as Byte] + BigEndian(size, 8)
  }

  function ClientFrame(opcode: int, payload: Bytes, mask: Mask): Bytes
    requires 0 <= opcode < 16
  {
    [(128 + opcode) as Byte] + LengthBytes(128, |payload|) + mask + Masked(payload, mask)
  }

  function ServerFrame(final: bool, opcode: int, payload: Bytes): Bytes
    requires 0 <= opcode < 16
  {
    [((if final then 128 else 0) + opcode) as Byte] + LengthBytes(0, |payload|) + payload
  }

  /** frame(): refuses an oversized payload, otherwise masks a copy in place. */
  method Frame(payload: Bytes, opcode: int, mask: Mask) returns (frame: Option<Bytes>)
    requires 0 <= opcode < 16
    ensures frame == if |payload| > MAX_MESSAGE then None else Some(ClientFrame(opcode, payload, mask))
  {
    if |payload| > MAX_MESSAGE {
      return None;
    }
    var masked := new Byte[|payload|](i requires 0 <= i < |payload| => payload[i]);
    var i := 0;
    while i < masked.Length
      invariant 0 <= i <= masked.Length == |payload|
      invariant forall j :: 0 <= j < i ==> masked[j] == Xor(payload[j], mask[j % 4])
      invariant forall j :: i <= j < masked.Length ==> masked[j] == payload[j]
    {
      masked[i] := Xor(masked[i], mask[i % 4]);
      i := i + 1;
    }
    assert masked[..] == Masked(payload, mask);
    frame := Some([(128 + opcode) as Byte] + LengthBytes(128, |payload|) + mask + masked[..]);
  }

  // ------------------------------------------------------- the peer's reading

  datatype Decoded = Decoded(final: bool, opcode: int, payload: Bytes, rest: Bytes)

  /** A server's reading of one masked frame, by sections 5.2 and 5.3 of RFC 6455. */
  function DecodeMasked(s: Bytes): Option<Decoded> {
    if |s| < 2 || (s[0] / 16) % 8 != 0 || s[1] < 128 then None else
    var code := s[1] as int - 128;
    var extended := ExtendedBytes(code);
    if |s| < 6 + extended then None else
    var size := if extended == 0 then code else FromBigEndian(s[2..2 + extended]);
    var body := s[6 + extended..];
    if |body| < size then None else
    Some(Decoded(s[0] >= 128, s[0] as int % 16, Masked(body[..size], s[2 + extended..6 + extended]), body[size..]))
  }

  lemma {:induction false} BigEndianRoundTrip(n: nat, k: nat)
    requires n < Power256(k)
    ensures FromBigEndian(BigEndian(n, k)) == n
  {
    if k > 0 {
      BigEndianRoundTrip(n / 256, k - 1);
      var b := BigEndian(n, k);
      assert b[..|b| - 1] == BigEndian(n / 256, k - 1);
    }
  }

  function Bit(n: nat, j: nat): bool {
    if j == 0 then n % 2 == 1 else Bit(n / 2, j - 1)
  }

  lemma LowBits(a: nat, b: nat, high: nat)
    ensures var r := (a + b) % 2 + 2 * high;
            && r / 2 == high && (r + b) % 2 == a % 2 && (r % 2 == 1 <==> (a % 2 == 1) != (b % 2 == 1))
  {}

  /** The masking operation is exclusive or at every bit position. */
  lemma {:induction false} XorIsBitwise(a: nat, b: nat, k: nat, j: nat)
    requires a < Power2(k) && b < Power2(k) && j < k
    ensures Bit(XorBits(a, b, k), j) <==> Bit(a, j) != Bit(b, j)
  {
    LowBits(a, b, XorBits(a / 2, b / 2, k - 1));
    if j > 0 { XorIsBitwise(a / 2, b / 2, k - 1, j - 1); }
  }

  lemma {:induction false} XorBitsTwice(a: nat, b: nat, k: nat)
    requires a < Power2(k) && b < Power2(k)
    ensures XorBits(XorBits(a, b, k), b, k) == a
  {
    if k > 0 {
      XorBitsTwice(a / 2, b / 2, k - 1);
      LowBits(a, b, XorBits(a / 2, b / 2, k - 1));
    }
  }

  lemma MaskedTwice(payload: Bytes, mask: Mask)
    ensures Masked(Masked(payload, mask), mask) == payload
  {
    PowerOfTwo8();
    forall i | 0 <= i < |payload| ensures Masked(Masked(payload, mask), mask)[i] == payload[i] {
      XorBitsTwice(payload[i] as nat, mask[i % 4] as nat, 8);
    }
  }

  lemma LengthFits(size: nat)
    requires size <= MAX_MESSAGE
    ensures size <= 65535 ==> FromBigEndian(BigEndian(size, 2)) == size
    ensures FromBigEndian(BigEndian(size, 8)) == size
  {
    assert Power256(2) == 65536;
    assert Power256(4) == 4294967296;
    assert Power256(6) >= Power256(4);
    if size <= 65535 { BigEndianRoundTrip(size, 2); }
    BigEndianRoundTrip(size, 8);
  }

  function ExtendedBytes(code: int): nat {
    if code == 126 then 2 else if code == 127 then 8 else 0
  }

  lemma Cut(a: Bytes, b: Bytes, c: Bytes)
    ensures (a + b + c)[|a|..|a| + |b|] == b && (a + b + c)[|a| + |b|..] == c
  {}

  lemma CutFrame(flags: Bytes, extended: Bytes, mask: Mask, body: Bytes, rest: Bytes)
    requires |flags| == 2
    ensures var s, e := flags + extended + mask + body + rest, |extended|;
            && |s| == 6 + e + |body| + |rest| && s[..2] == flags && s[2..2 + e] == extended
            && s[2 + e..6 + e] == mask && s[6 + e..] == body + rest
  {
    var s := flags + extended + mask + body + rest;
    Cut(flags, extended, mask + body + rest);
    assert s == flags + extended + (mask + body + rest);
    Cut(flags + extended, mask, body + rest);
    assert s == flags + extended + mask + (body + rest);
  }

  lemma DecodeParts(opcode: int, code: int, extended: Bytes, mask: Mask, body: Bytes, rest: Bytes)
    requires 0 <= opcode < 16 && 0 <= code < 128 && |extended| == ExtendedBytes(code)
    requires |body| == if extended == [] then code else FromBigEndian(extended)
    ensures DecodeMasked([(128 + opcode) as Byte, (128 + code) as Byte] + extended + mask + body + rest)
            == Some(Decoded(true, opcode, Masked(body, mask), rest))
  {
    hide Masked, FromBigEndian, ExtendedBytes;
    var flags: Bytes := [(128 + opcode) as Byte, (128 + code) as Byte];
    var s := flags + extended + mask + body + rest;
    CutFrame(flags, extended, mask, body, rest);
    assert s[0] == s[..2][0] && s[1] == s[..2][1];
    Cut([], body, rest);
    assert [] + body + rest == body + rest;
  }

  /**
   * For every payload the encoder admits and every mask, the peer recovers
   * opcode, payload and the untouched rest of the stream, in all three length
   * forms, and the length uses the shortest form.
   */
  lemma ClientFrameRoundTrip(opcode: int, payload: Bytes, mask: Mask, rest: Bytes)
    requires 0 <= opcode < 16 && |payload| <= MAX_MESSAGE
    ensures DecodeMasked(ClientFrame(opcode, payload, mask) + rest) == Some(Decoded(true, opcode, payload, rest))
    ensures |ClientFrame(opcode, payload, mask)| == |payload| + 6 +
              (if |payload| < 126 then 0 else if |payload| <= 65535 then 2 else 8)
  {
    hide DecodeMasked, Masked, FromBigEndian, BigEndian;
    var size := |payload|;
    LengthFits(size);
    MaskedTwice(payload, mask);
    var code := if size < 126 then size else if size <= 65535 then 126 else 127;
    var extended: Bytes := if size < 126 then [] else BigEndian(size, ExtendedBytes(code));
    var body := Masked(payload, mask);
    DecodeParts(opcode, code, extended, mask, body, rest);
    assert ClientFrame(opcode, payload, mask) + rest
        == [(128 + opcode) as Byte, (128 + code) as Byte] + extended + mask + body + rest;
  }

  // --------------------------------------------------------------- decoding

  /**
   * What JSON.parse and the dispatch on its result make of a message: it
   * throws, the message is ignored (a notification, a server request, or a
   * response without result or error), or it answers request id.
   */
  datatype Reply = Malformed | Ignored | Answer(id: int, rejected: bool)

  datatype Settlement = Resolved(message: Bytes) | Rejected(error: Bytes) | Disconnected | Aborted | TooLong

  datatype Status = Open | Failed | Closed

  /** One connection: buffered input, a message under assembly, and the effects so far. */
  datatype Conn = Conn(
    status: Status,
    buffer: Bytes,
    fragments: seq<Bytes>,
    messages: seq<Bytes>,
    pongs: seq<Bytes>,
    next: int,
    pending: set<int>,
    settled: map<int, Settlement>)

  /** fail(): drop all input and reject every pending request. */
  function Fail(c: Conn, status: Status): (d: Conn)
    requires status != Open
    ensures d.status == status && d.pending == {} && d.buffer == []
  {
    c.(status := status, buffer := [], fragments := [], pending := {},
       settled := map id | id in c.settled.Keys + c.pending ::
         if id in c.pending then Disconnected else c.settled[id])
  }

  function Settle(c: Conn, reply: Reply, message: Bytes): Conn {
    if reply.Answer? && reply.id in c.pending
    then c.(pending := c.pending - {reply.id},
            settled := c.settled[reply.id := if reply.rejected then Rejected(message) else Resolved(message)])
    else c
  }

  datatype Head = Head(final: bool, opcode: int, size: nat, length: nat)
  datatype Scanned = Short | Bad | Header(head: Head)

  predicate FlagsOk(s: Bytes)
    requires |s| >= 2
  {
    (s[0] / 16) % 8 == 0 && s[1] < 128
  }

  function MakeHead(s: Bytes, size: nat, length: nat): Head
    requires |s| >= 1
  {
    Head(s[0] >= 128, s[0] as int % 16, size, length)
  }

  /** The 64-bit length form, as the code enters it. */
  function ScanWide(s: Bytes): (r: Scanned)
    requires |s| >= 2
    ensures r.Header? ==> r.head.length == 10 <= |s|
  {
    if |s| < 10 then Short
    else if FromBigEndian(s[2..10]) > MAX_MESSAGE then Bad
    else Header(MakeHead(s, FromBigEndian(s[2..10]), 10))
  }

  /**
   * The header at the front of the buffer, as the code reads it: the test for
   * the 64-bit form looks at the size read so far, not at the length code, so
   * a 16-bit length of 127 is taken for that form.
   */
  function Scan(s: Bytes): (r: Scanned)
    ensures r.Header? ==> 2 <= r.head.length <= |s|
  {
    if |s| < 2 then Short
    else if !FlagsOk(s) then Bad
    else if s[1] == 126 then
      if |s| < 4 then Short
      else if FromBigEndian(s[2..4]) == 127 then ScanWide(s)
      else Header(MakeHead(s, FromBigEndian(s[2..4]), 4))
    else if s[1] == 127 then ScanWide(s)
    else Header(MakeHead(s, s[1] as nat, 2))
  }

  predicate Admissible(assembled: nat, final: bool, opcode: int, size: nat) {
    && size <= MAX_MESSAGE && assembled + size <= MAX_MESSAGE
    && (opcode >= 8 ==> final && size <= 125)
  }

  /** The effect of one complete frame. */
  function Accept(c: Conn, final: bool, opcode: int, payload: Bytes, parse: Bytes -> Reply): (next: Conn)
    ensures |next.buffer| <= |c.buffer|
  {
    if opcode == 8 then Fail(c, Closed)
    else if opcode == 9 then c.(pongs := c.pongs + [payload])
    else if opcode == 10 then c
    else if opcode != 0 && opcode != 1 then Fail(c, Failed)
    else if (opcode == 0) == (c.fragments == []) then Fail(c, Failed)
    else
      var fragments := c.fragments + [payload];
      if !final then c.(fragments := fragments)
      else
        var message := Concat(fragments);
        if parse(message) == Malformed then Fail(c, Failed)
        else Settle(c.(fragments := [], messages := c.messages + [message]), parse(message), message)
  }

  /** One turn of the decoding loop; None while more input is needed. */
  function Advance(c: Conn, parse: Bytes -> Reply): (r: Option<Conn>)
    ensures r.Some? ==> |r.value.buffer| < |c.buffer|
  {
    if c.status != Open then None else
    match Scan(c.buffer)
    case Short => None
    case Bad => Some(Fail(c, Failed))
    case Header(h) =>
      if !Admissible(|Concat(c.fragments)|, h.final, h.opcode, h.size) then Some(Fail(c, Failed))
      else if |c.buffer| < h.length + h.size then None
      else Some(Accept(c.(buffer := c.buffer[h.length + h.size..]), h.final, h.opcode,
                       c.buffer[h.length..h.length + h.size], parse))
  }

  function Pump(c: Conn, parse: Bytes -> Reply): Conn
    decreases |c.buffer|
  {
    match Advance(c, parse)
    case None => c
    case Some(next) => Pump(next, parse)
  }

  function Feed(c: Conn, chunk: Bytes, parse: Bytes -> Reply): Conn {
    if c.status == Open then Pump(c.(buffer := c.buffer + chunk), parse) else c
  }

  function FeedAll(c: Conn, chunks: seq<Bytes>, parse: Bytes -> Reply): Conn
    decreases |chunks|
  {
    if chunks == [] then c else FeedAll(Feed(c, chunks[0], parse), chunks[1..], parse)
  }

  /** The client's fields and its decoding loop, updated in place. */
  class CodexSocketClient {
    var status: Status
    var buffer: Bytes
    var fragments: seq<Bytes>
    var fragmentBytes: nat
    var messages: seq<Bytes>
    var pongs: seq<Bytes>
    var next: int
    var pending: set<int>
    var settled: map<int, Settlement>
    const parse: Bytes -> Reply

    ghost predicate Valid()
      reads this
    {
      fragmentBytes == |Concat(fragments)|
    }

    function State(): Conn
      reads this
    {
      Conn(status, buffer, fragments, messages, pongs, next, pending, settled)
    }

    constructor (parse: Bytes -> Reply)
      ensures Valid() && this.parse == parse
      ensures State() == Conn(Open, [], [], [], [], 1, {}, map[])
    {
      this.parse := parse;
      status, buffer, fragments, fragmentBytes := Open, [], [], 0;
      messages, pongs, next, pending, settled := [], [], 1, {}, map[];
    }

    method FailWith(outcome: Status)
      requires outcome != Open
      modifies this
      ensures Valid() && State() == Fail(old(State()), outcome)
    {
      status, buffer, fragments, fragmentBytes := outcome, [], [], 0;
      settled := map id | id in settled.Keys + pending :: if id in pending then Disconnected else settled[id];
      pending := {};
    }

    /** The header bytes: flags, opcode, then one of three length forms. */
    method ReadHeader() returns (scanned: Scanned)
      ensures scanned == Scan(buffer)
    {
      if |buffer| < 2 { return Short; }
      var first, second := buffer[0], buffer[1];
      if (first / 16) % 8 != 0 || second >= 128 { return Bad; }
      var size: nat, header := second as nat, 2;
      if second == 126 {
        if |buffer| < 4 { return Short; }
        size, header := FromBigEndian(buffer[2..4]), 4;
      }
      if size == 127 {
        if |buffer| < 10 { return Short; }
        size, header := FromBigEndian(buffer[2..10]), 10;
        if size > MAX_MESSAGE { return Bad; }
      }
      return Header(Head(first >= 128, first as int % 16, size, header));
    }

    /** read(): consumes every complete frame; threw means an exception left it. */
    method Read(chunk: Bytes) returns (threw: bool)
      requires Valid() && status == Open
      modifies this
      ensures Valid()
      ensures var fed := Feed(old(State()), chunk, parse);
              if threw then Fail(State(), Failed) == fed else State() == fed
    {
      hide Scan, Accept, Settle, Concat;
      buffer := buffer + chunk;
      ghost var fed := Pump(State(), parse);
      while true
        invariant Valid() && status == Open && Pump(State(), parse) == fed
        decreases |buffer|
      {
        var scanned := ReadHeader();
        if scanned == Short { return false; }
        if scanned == Bad { return true; }
        var h := scanned.head;
        if h.size > MAX_MESSAGE || fragmentBytes + h.size > MAX_MESSAGE { return true; }
        if h.opcode >= 8 && (!h.final || h.size > 125) { return true; }
        if |buffer| < h.length + h.size { return false; }
        var payload := buffer[h.length..h.length + h.size];
        buffer := buffer[h.length + h.size..];
        threw := Handle(h.final, h.opcode, payload);
        if threw || status != Open { return; }
      }
    }

    /** The loop body after a complete frame has been cut off the buffer. */
    method Handle(final: bool, opcode: int, payload: Bytes) returns (threw: bool)
      requires Valid() && status == Open
      modifies this
      ensures Valid() && |buffer| <= |old(buffer)|
      ensures var next := Accept(old(State()), final, opcode, payload, parse);
              if threw then Fail(State(), Failed) == next else State() == next
    {
      if opcode == 8 { FailWith(Closed); return false; }
      if opcode == 9 { pongs := pongs + [payload]; return false; }
      if opcode == 10 { return false; }
      if opcode != 0 && opcode != 1 { return true; }
      if (opcode == 0 && |fragments| == 0) || (opcode == 1 && |fragments| != 0) { return true; }
      ConcatAppend(fragments, [payload]);
      fragments := fragments + [payload];
      fragmentBytes := fragmentBytes + |payload|;
      if !final { return false; }
      var message := Concat(fragments);
      var reply := parse(message);
      if reply == Malformed { return true; }
      fragments, fragmentBytes, messages := [], 0, messages + [message];
      if reply.Answer? && reply.id in pending {
        pending := pending - {reply.id};
        settled := settled[reply.id := if reply.rejected then Rejected(message) else Resolved(message)];
      }
      return false;
    }

    /** The socket's data handler: an exception in read fails the connection. */
    method OnData(chunk: Bytes)
      requires Valid()
      modifies this
      ensures Valid() && State() == Feed(old(State()), chunk, parse)
    {
      if status == Open {
        var threw := Read(chunk);
        if threw { FailWith(Failed); }
      }
    }

    /** sendRequest(): issue the next id; a dead socket, or a request too long to frame, rejects it at once. */
    method SendRequest(request: Bytes, mask: Mask) returns (id: int, frame: Option<Bytes>)
      modifies this
      ensures State() == Send(old(State()), |request|) && id == old(next)
      ensures Valid() <==> old(Valid())
      ensures frame.Some? <==> status == Open && |request| <= MAX_MESSAGE
      ensures frame.Some? ==> id in pending && frame.value == ClientFrame(1, request, mask)
    {
      id, frame := next, None;
      next := next + 1;
      if status != Open {
        settled := settled[id := Disconnected];
        return;
      }
      frame := Frame(request, 1, mask);
      if frame.Some? {
        pending := pending + {id};
      } else {
        pending, settled := pending - {id}, settled[id := TooLong];
      }
    }

    /** Timeout or abort of one request. */
    method Abort(id: int)
      modifies this
      ensures State() == AbortRequest(old(State()), id)
      ensures Valid() <==> old(Valid())
    {
      if id in pending {
        pending := pending - {id};
        settled := settled[id := Aborted];
      }
    }
  }

  function Send(c: Conn, size: nat): Conn {
    if c.status != Open then c.(next := c.next + 1, settled := c.settled[c.next := Disconnected])
    else if size > MAX_MESSAGE then
      c.(next := c.next + 1, pending := c.pending - {c.next}, settled := c.settled[c.next := TooLong])
    else c.(next := c.next + 1, pending := c.pending + {c.next})
  }

  function AbortRequest(c: Conn, id: int): Conn {
    if id in c.pending then c.(pending := c.pending - {id}, settled := c.settled[id := Aborted]) else c
  }

  // ------------------------------------------ decoding is independent of chunking

  function Extend(c: Conn, x: Bytes): Conn {
    if c.status == Open then c.(buffer := c.buffer + x) else c
  }

  lemma ScanExtend(s: Bytes, x: Bytes)
    requires Scan(s) != Short
    ensures Scan(s + x) == Scan(s)
  {
    if |s| >= 4 { assert (s + x)[2..4] == s[2..4]; }
    if |s| >= 10 { assert (s + x)[2..10] == s[2..10]; }
  }

  lemma AcceptExtend(c: Conn, final: bool, opcode: int, payload: Bytes, x: Bytes, parse: Bytes -> Reply)
    requires c.status == Open
    ensures Accept(Extend(c, x), final, opcode, payload, parse)
            == Extend(Accept(c, final, opcode, payload, parse), x)
  {
    hide Concat;
  }

  /** More input never changes a turn that could already be taken. */
  lemma AdvanceExtend(c: Conn, x: Bytes, parse: Bytes -> Reply)
    requires Advance(c, parse).Some?
    ensures Advance(Extend(c, x), parse) == Some(Extend(Advance(c, parse).value, x))
  {
    hide Accept, Scan, Concat;
    ScanExtend(c.buffer, x);
    if Scan(c.buffer).Header? {
      var h := Scan(c.buffer).head;
      var end := h.length + h.size;
      if |c.buffer| >= end {
        assert (c.buffer + x)[end..] == c.buffer[end..] + x;
        assert (c.buffer + x)[h.length..end] == c.buffer[h.length..end];
        AcceptExtend(c.(buffer := c.buffer[end..]), h.final, h.opcode, c.buffer[h.length..end], x, parse);
      }
    }
  }

  lemma {:induction false} PumpExtend(c: Conn, x: Bytes, parse: Bytes -> Reply)
    ensures Pump(Extend(c, x), parse) == Feed(Pump(c, parse), x, parse)
    decreases |c.buffer|
  {
    if Advance(c, parse).Some? {
      AdvanceExtend(c, x, parse);
      PumpExtend(Advance(c, parse).value, x, parse);
    }
  }

  /** The decoder waits for input: nothing in the buffer can be consumed yet. */
  predicate Quiescent(c: Conn, parse: Bytes -> Reply) {
    Advance(c, parse) == None
  }

  lemma {:induction false} PumpQuiescent(c: Conn, parse: Bytes -> Reply)
    ensures Quiescent(Pump(c, parse), parse)
    decreases |c.buffer|
  {
    if Advance(c, parse).Some? { PumpQuiescent(Advance(c, parse).value, parse); }
  }

  lemma FeedTwice(c: Conn, a: Bytes, b: Bytes, parse: Bytes -> Reply)
    ensures Feed(Feed(c, a, parse), b, parse) == Feed(c, a + b, parse)
  {
    if c.status == Open {
      var d := c.(buffer := c.buffer + a);
      PumpExtend(d, b, parse);
      assert c.buffer + a + b == c.buffer + (a + b);
    }
  }

  /** Any split of a stream into chunks has the effect of feeding it at once. */
  lemma {:induction false} ChunkingIsIrrelevant(c: Conn, chunks: seq<Bytes>, parse: Bytes -> Reply)
    requires Quiescent(c, parse)
    ensures FeedAll(c, chunks, parse) == Feed(c, Concat(chunks), parse)
    decreases |chunks|
  {
    if chunks == [] {
      if c.status == Open { assert c.(buffer := c.buffer + []) == c; }
    } else {
      var d := Feed(c, chunks[0], parse);
      if c.status == Open { PumpQuiescent(c.(buffer := c.buffer + chunks[0]), parse); }
      ChunkingIsIrrelevant(d, chunks[1..], parse);
      FeedTwice(c, chunks[0], Concat(chunks[1..]), parse);
    }
  }

  // ------------------------------------- a one-shot decoder of the whole stream

  /** A stream cut into frames, with at most one incomplete or bad one at its end. */
  datatype Token =
    | Whole(final: bool, opcode: int, payload: Bytes)
    | Partial(final: bool, opcode: int, size: nat)
    | Garbage

  function Lex(s: Bytes): seq<Token>
    decreases |s|
  {
    match Scan(s)
    case Short => []
    case Bad => [Garbage]
    case Header(h) =>
      if |s| < h.length + h.size then [Partial(h.final, h.opcode, h.size)]
      else [Whole(h.final, h.opcode, s[h.length..h.length + h.size])] + Lex(s[h.length + h.size..])
  }

  /** Frame by frame, without any buffer. */
  function Interpret(c: Conn, tokens: seq<Token>, parse: Bytes -> Reply): Conn
    decreases |tokens|
  {
    if tokens == [] || c.status != Open then c else
    var assembled := |Concat(c.fragments)|;
    match tokens[0]
    case Garbage => Fail(c, Failed)
    case Partial(final, opcode, size) =>
      if Admissible(assembled, final, opcode, size) then c else Fail(c, Failed)
    case Whole(final, opcode, payload) =>
      if Admissible(assembled, final, opcode, |payload|)
      then Interpret(Accept(c, final, opcode, payload, parse), tokens[1..], parse)
      else Fail(c, Failed)
  }

  function Unbuffered(c: Conn): Conn {
    c.(buffer := [])
  }

  lemma AcceptUnbuffered(c: Conn, final: bool, opcode: int, payload: Bytes, parse: Bytes -> Reply)
    requires c.status == Open
    ensures var next := Accept(c, final, opcode, payload, parse);
            && Accept(Unbuffered(c), final, opcode, payload, parse) == Unbuffered(next)
            && (next.buffer == c.buffer || next.status != Open)
  {
    hide Concat;
  }

  lemma {:induction false} PumpIsInterpretation(c: Conn, parse: Bytes -> Reply)
    ensures Unbuffered(Pump(c, parse)) == Interpret(Unbuffered(c), Lex(c.buffer), parse)
    decreases |c.buffer|
  {
    hide Accept, Scan, Concat;
    if c.status == Open && Scan(c.buffer).Header? {
      var h := Scan(c.buffer).head;
      var end := h.length + h.size;
      if |c.buffer| >= end && Advance(c, parse).Some? {
        var next := Advance(c, parse).value;
        var payload := c.buffer[h.length..end];
        InterpretWhole(Unbuffered(c), h.final, h.opcode, payload, Lex(c.buffer[end..]), parse);
        AcceptUnbuffered(c.(buffer := c.buffer[end..]), h.final, h.opcode, payload, parse);
        PumpIsInterpretation(next, parse);
      }
    }
  }

  /** The incremental reader, under any chunking, is the one-shot decoder. */
  lemma ReaderIsOneShotDecoder(c: Conn, chunks: seq<Bytes>, parse: Bytes -> Reply)
    requires Quiescent(c, parse) && c.buffer == []
    ensures Unbuffered(FeedAll(c, chunks, parse)) == Interpret(c, Lex(Concat(chunks)), parse)
  {
    ChunkingIsIrrelevant(c, chunks, parse);
    var s := Concat(chunks);
    if c.status == Open {
      assert c.buffer + s == s;
      PumpIsInterpretation(c.(buffer := s), parse);
    }
  }

  // -------------------------------------- what one frame, and one answer, does

  lemma FourBitsUp(n: nat, j: nat)
    ensures Bit(n, j + 4) == Bit(n / 16, j)
  {
    assert n / 2 / 2 / 2 / 2 == n / 16;
    assert Bit(n, j + 4) == Bit(n / 2, j + 3);
    assert Bit(n / 2, j + 3) == Bit(n / 2 / 2, j + 2);
    assert Bit(n / 2 / 2, j + 2) == Bit(n / 2 / 2 / 2, j + 1);
  }

  lemma TwoBits(h: nat)
    ensures Bit(h, 0) <==> h % 2 == 1
    ensures Bit(h, 1) <==> h / 2 % 2 == 1
  {
  }

  lemma Nibble(h: nat, x: nat, y: nat, z: nat, w: nat)
    requires x < 2 && y < 2 && z < 2 && w < 2 && h == x + 2 * y + 4 * z + 8 * w
    ensures h % 8 == 0 <==> x == 0 && y == 0 && z == 0
    ensures h >= 8 <==> w == 1
  {
    assert h % 8 == x + 2 * y + 4 * z;
  }

  lemma LowNibble(h: nat)
    requires h < 16
    ensures h % 8 == 0 <==> !Bit(h, 0) && !Bit(h, 1) && !Bit(h, 2)
    ensures h >= 8 <==> Bit(h, 3)
  {
    var p, q := h / 2, h / 2 / 2;
    TwoBits(h);
    TwoBits(q);
    assert Bit(h, 2) == Bit(p, 1) == Bit(q, 0);
    assert Bit(h, 3) == Bit(p, 2) == Bit(q, 1);
    hide Bit;
    assert h == 2 * p + h % 2 && p == 2 * q + p % 2 && q == 2 * (q / 2) + q % 2 && q / 2 < 2;
    Nibble(h, h % 2, p % 2, q % 2, q / 2);
  }

  lemma BitsOfByte(b: nat)
    requires b < 256
    ensures (b / 16) % 8 == 0 <==> !Bit(b, 4) && !Bit(b, 5) && !Bit(b, 6)
    ensures b >= 128 <==> Bit(b, 7)
  {
    FourBitsUp(b, 0);
    FourBitsUp(b, 1);
    FourBitsUp(b, 2);
    FourBitsUp(b, 3);
    hide Bit;
    LowNibble(b / 16);
  }

  /** A header is refused exactly for a reserved bit, a mask, or a 64-bit length beyond the bound; otherwise it says what its bits say. */
  lemma HeaderIsRefusedIff(s: Bytes)
    requires |s| >= 2
    ensures var flags, code := s[0] as nat, s[1] as nat;
            var wide := code == 127 || (code == 126 && |s| >= 4 && FromBigEndian(s[2..4]) == 127);
            && (Scan(s) == Bad <==>
                  Bit(flags, 4) || Bit(flags, 5) || Bit(flags, 6) || Bit(code, 7) ||
                  (wide && |s| >= 10 && FromBigEndian(s[2..10]) > MAX_MESSAGE))
            && (Scan(s).Header? ==>
                  var h := Scan(s).head;
                  && (h.final <==> Bit(flags, 7)) && h.opcode == flags % 16
                  && (code < 126 ==> h.size == code && h.length == 2)
                  && (code == 126 && !wide ==> h.size == FromBigEndian(s[2..4]) && h.length == 4)
                  && (wide ==> h.size == FromBigEndian(s[2..10]) && h.length == 10))
  {
    BitsOfByte(s[0] as nat);
    BitsOfByte(s[1] as nat);
    hide Bit, FromBigEndian;
  }

  /** Why an open connection refuses a whole frame: bounds, control frames in parts, unknown opcodes, a wrong continuation, no JSON. */
  predicate Refuses(c: Conn, final: bool, opcode: int, payload: Bytes, parse: Bytes -> Reply) {
    || |Concat(c.fragments)| + |payload| > MAX_MESSAGE
    || opcode !in {0, 1, 8, 9, 10}
    || (opcode in {8, 9, 10} && (!final || |payload| > 125))
    || (opcode == 0 && c.fragments == []) || (opcode == 1 && c.fragments != [])
    || (opcode in {0, 1} && final && parse(Concat(c.fragments) + payload) == Malformed)
  }

  /** The request that a message answers is settled by it; anything else settles nothing. */
  predicate SettledBy(c: Conn, d: Conn, reply: Reply, message: Bytes) {
    if reply.Answer? && reply.id in c.pending
    then d.pending == c.pending - {reply.id} &&
         d.settled == c.settled[reply.id := if reply.rejected then Rejected(message) else Resolved(message)]
    else d.pending == c.pending && d.settled == c.settled
  }

  /**
   * What one whole frame does to an open connection: it fails it exactly if
   * refused, closes it exactly if it is a close frame, and leaves it open
   * otherwise: a ping is answered, a pong ignored, a part kept, and the last
   * part delivers the message and settles the request that it answers.
   */
  lemma FrameOutcome(c: Conn, final: bool, opcode: int, payload: Bytes, parse: Bytes -> Reply)
    requires c.status == Open
    ensures var d := Interpret(c, [Whole(final, opcode, payload)], parse);
            var message := Concat(c.fragments) + payload;
            && (d.status == Failed <==> Refuses(c, final, opcode, payload, parse))
            && (d.status == Closed <==> !Refuses(c, final, opcode, payload, parse) && opcode == 8)
            && (d.status != Open ==>
                  && d.pending == {} && d.fragments == [] && d.messages == c.messages && d.pongs == c.pongs
                  && d.settled.Keys == c.settled.Keys + c.pending
                  && forall id :: id in d.settled ==> d.settled[id] == if id in c.pending then Disconnected else c.settled[id])
            && (d.status == Open ==>
                  && d.pongs == (if opcode == 9 then c.pongs + [payload] else c.pongs) && d.next == c.next
                  && d.fragments == (if opcode >= 8 then c.fragments else if final then [] else c.fragments + [payload])
                  && d.messages == (if opcode < 8 && final then c.messages + [message] else c.messages)
                  && SettledBy(c, d, if opcode < 8 && final then parse(message) else Ignored, message))
  {
    InterpretWhole(c, final, opcode, payload, [], parse);
    assert [Whole(final, opcode, payload)] + [] == [Whole(final, opcode, payload)];
    AppendPart(c.fragments, payload);
    hide Concat;
  }

  /** An id is issued once: pending on an open connection that can frame the request, and settled at once otherwise. */
  lemma RequestIsIssued(c: Conn, size: nat)
    ensures var d := Send(c, size);
            && d == c.(next := c.next + 1, pending := d.pending, settled := d.settled)
            && (c.status == Open && size <= MAX_MESSAGE ==> d.pending == c.pending + {c.next} && d.settled == c.settled)
            && (c.status == Open && size > MAX_MESSAGE ==> d.pending == c.pending - {c.next} && d.settled == c.settled[c.next := TooLong])
            && (c.status != Open ==> d.pending == c.pending && d.settled == c.settled[c.next := Disconnected])
  {
  }

  /** A cancellation settles its own request if that is pending, and nothing else. */
  lemma RequestIsAborted(c: Conn, id: int)
    ensures var d := AbortRequest(c, id);
            && d == c.(pending := d.pending, settled := d.settled) && d.pending == c.pending - {id}
            && d.settled == if id in c.pending then c.settled[id := Aborted] else c.settled
  {
  }

  // --------------------------------------- where the reader leaves RFC 6455

  /** The header by section 5.2 of RFC 6455 alone: the length code decides the form. */
  function RfcScan(s: Bytes): (r: Scanned)
    ensures r.Header? ==> 2 <= r.head.length <= |s|
  {
    if |s| < 2 then Short
    else if !FlagsOk(s) then Bad
    else
      var length := 2 + ExtendedBytes(s[1] as int);
      if |s| < length then Short
      else
        var size := if length == 2 then s[1] as nat else FromBigEndian(s[2..length]);
        if s[1] == 127 && size > MAX_MESSAGE then Bad else Header(MakeHead(s, size, length))
  }

  function RfcLex(s: Bytes): seq<Token>
    decreases |s|
  {
    match RfcScan(s)
    case Short => []
    case Bad => [Garbage]
    case Header(h) =>
      if |s| < h.length + h.size then [Partial(h.final, h.opcode, h.size)]
      else [Whole(h.final, h.opcode, s[h.length..h.length + h.size])] + RfcLex(s[h.length + h.size..])
  }

  /** The next header carries a 16-bit length of exactly 127. */
  predicate OddLength(s: Bytes) {
    |s| >= 4 && FlagsOk(s) && s[1] == 126 && FromBigEndian(s[2..4]) == 127
  }

  lemma BigEndianGrows(b: Bytes)
    requires b != []
    ensures FromBigEndian(b) >= 256 * FromBigEndian(b[..|b| - 1])
  {
  }

  /** Read as a 64-bit length, a 16-bit length of 127 is beyond every bound. */
  lemma OddLengthIsTooLong(s: Bytes)
    requires |s| >= 10 && FromBigEndian(s[2..4]) == 127
    ensures FromBigEndian(s[2..10]) > MAX_MESSAGE
  {
    hide FromBigEndian;
    var b := s[2..10];
    assert b[..7][..6] == b[..6] && b[..6][..5] == b[..5] && b[..5][..4] == b[..4]
        && b[..4][..3] == b[..3] && b[..3][..2] == b[..2] == s[2..4];
    BigEndianGrows(b);
    BigEndianGrows(b[..7]);
    BigEndianGrows(b[..6]);
    BigEndianGrows(b[..5]);
    BigEndianGrows(b[..4]);
    BigEndianGrows(b[..3]);
  }

  /** The reader's header scan is the standard's, but at a 16-bit length of 127, where it waits and then throws. */
  lemma ScanIsRfcIff(s: Bytes)
    ensures Scan(s) == RfcScan(s) <==> !OddLength(s)
    ensures OddLength(s) ==>
              Scan(s) == (if |s| < 10 then Short else Bad) && RfcScan(s) == Header(MakeHead(s, 127, 4))
  {
    if OddLength(s) && |s| >= 10 { OddLengthIsTooLong(s); }
  }

  /** What the connection has come to after the stream, by the reader and by the standard. */
  function Reads(c: Conn, s: Bytes, parse: Bytes -> Reply): Conn {
    Interpret(c, Lex(s), parse)
  }

  function Should(c: Conn, s: Bytes, parse: Bytes -> Reply): Conn {
    Interpret(c, RfcLex(s), parse)
  }

  /**
   * The connection, still open, comes to a header with a 16-bit length of 127:
   * one the standard admits, ten bytes of whose frame are there, or one it
   * refuses at once.
   */
  predicate Trips(c: Conn, s: Bytes, parse: Bytes -> Reply)
    decreases |s|
  {
    c.status == Open &&
    if OddLength(s) then
      |s| >= 10 || !Admissible(|Concat(c.fragments)|, s[0] >= 128, s[0] as int % 16, 127)
    else match RfcScan(s)
      case Header(h) =>
        var end := h.length + h.size;
        |s| >= end && Admissible(|Concat(c.fragments)|, h.final, h.opcode, h.size) &&
        Trips(Accept(c, h.final, h.opcode, s[h.length..end], parse), s[end..], parse)
      case _ => false
  }

  lemma RfcScanExtend(s: Bytes, x: Bytes)
    requires RfcScan(s) != Short
    ensures RfcScan(s + x) == RfcScan(s)
  {
    if |s| >= 4 { assert (s + x)[2..4] == s[2..4]; }
    if |s| >= 10 { assert (s + x)[2..10] == s[2..10]; }
  }

  /** The first frame of a stream, read by both, leaves the rest to both. */
  lemma FirstFrame(c: Conn, s: Bytes, parse: Bytes -> Reply)
    requires c.status == Open && !OddLength(s) && RfcScan(s).Header?
    ensures var h := RfcScan(s).head;
            var end := h.length + h.size;
            && end > 0
            && (|s| >= end ==>
                  if Admissible(|Concat(c.fragments)|, h.final, h.opcode, h.size)
                  then var d := Accept(c, h.final, h.opcode, s[h.length..end], parse);
                       Reads(c, s, parse) == Reads(d, s[end..], parse) && Should(c, s, parse) == Should(d, s[end..], parse)
                  else Reads(c, s, parse) == Fail(c, Failed) == Should(c, s, parse))
            && (|s| < end ==> Reads(c, s, parse) == Should(c, s, parse))
  {
    ScanIsRfcIff(s);
    var h := RfcScan(s).head;
    var end := h.length + h.size;
    hide Scan, RfcScan, OddLength, Accept, Admissible, Concat;
    if |s| >= end {
      InterpretWhole(c, h.final, h.opcode, s[h.length..end], Lex(s[end..]), parse);
      InterpretWhole(c, h.final, h.opcode, s[h.length..end], RfcLex(s[end..]), parse);
    }
  }

  lemma AtOddLength(c: Conn, s: Bytes, parse: Bytes -> Reply)
    requires c.status == Open && OddLength(s)
    ensures var fits := Admissible(|Concat(c.fragments)|, s[0] >= 128, s[0] as int % 16, 127);
            && Reads(c, s, parse) == (if |s| < 10 then c else Fail(c, Failed))
            && (!fits ==> Should(c, s, parse) == Fail(c, Failed))
            && (fits && |s| < 131 ==> Should(c, s, parse) == c)
  {
    ScanIsRfcIff(s);
    hide Scan, RfcScan, OddLength, Accept, Admissible, Concat;
    if |s| >= 131 {
      InterpretWhole(c, s[0] >= 128, s[0] as int % 16, s[4..131], RfcLex(s[131..]), parse);
    }
  }

  /** Where it does not trip, the reader has the effect the standard gives the stream. */
  lemma {:induction false} UntrippedIsRfc(c: Conn, s: Bytes, parse: Bytes -> Reply)
    requires !Trips(c, s, parse)
    ensures Reads(c, s, parse) == Should(c, s, parse)
    decreases |s|
  {
    if c.status == Open {
      if OddLength(s) {
        AtOddLength(c, s, parse);
      } else if RfcScan(s).Header? {
        FirstFrame(c, s, parse);
        var h := RfcScan(s).head;
        var end := h.length + h.size;
        if |s| >= end && Admissible(|Concat(c.fragments)|, h.final, h.opcode, h.size) {
          hide Scan, RfcScan, OddLength, Admissible, Concat, Reads, Should, Accept;
          UntrippedIsRfc(Accept(c, h.final, h.opcode, s[h.length..end], parse), s[end..], parse);
        }
      } else {
        ScanIsRfcIff(s);
      }
    }
  }

  lemma OddLengthPrefix(s: Bytes, k: nat)
    requires k <= |s|
    ensures OddLength(s[..k]) <==> k >= 4 && OddLength(s)
  {
    if k >= 4 { assert s[..k][2..4] == s[2..4]; }
  }

  /** A stream cut inside what follows its first frame. */
  lemma AfterFirstFrame(c: Conn, s: Bytes, j: nat, parse: Bytes -> Reply)
    requires c.status == Open && !OddLength(s) && RfcScan(s).Header?
    requires var h := RfcScan(s).head;
             var end := h.length + h.size;
             && end + j <= |s| && Admissible(|Concat(c.fragments)|, h.final, h.opcode, h.size)
             && var d := Accept(c, h.final, h.opcode, s[h.length..end], parse);
                Reads(d, s[end..][..j], parse) != Should(d, s[end..][..j], parse)
    ensures var k := RfcScan(s).head.length + RfcScan(s).head.size + j;
            Reads(c, s[..k], parse) != Should(c, s[..k], parse)
  {
    hide Accept, Concat, Admissible, Scan, RfcScan, OddLength, Reads, Should, Feed;
    var h := RfcScan(s).head;
    var end := h.length + h.size;
    var k := end + j;
    var t := s[..k];
    OddLengthPrefix(s, k);
    HeaderOfPrefix(s, k);
    FirstFrame(c, t, parse);
    assert t[end..] == s[end..][..j] && t[h.length..end] == s[h.length..end];
  }

  /** Where it trips, some prefix of the stream has another effect than the standard gives it. */
  lemma {:induction false} TrippedDiffers(c: Conn, s: Bytes, parse: Bytes -> Reply) returns (k: nat)
    requires Trips(c, s, parse)
    ensures k <= |s| && Reads(c, s[..k], parse) != Should(c, s[..k], parse)
    decreases |s|
  {
    if OddLength(s) {
      k := if Admissible(|Concat(c.fragments)|, s[0] >= 128, s[0] as int % 16, 127) then 10 else 4;
      OddLengthPrefix(s, k);
      AtOddLength(c, s[..k], parse);
    } else {
      hide Accept, RfcScan, Reads, Should, OddLength, Admissible, Concat;
      var h := RfcScan(s).head;
      var end := h.length + h.size;
      var j := TrippedDiffers(Accept(c, h.final, h.opcode, s[h.length..end], parse), s[end..], parse);
      AfterFirstFrame(c, s, j, parse);
      k := end + j;
    }
  }

  lemma HeaderOfPrefix(s: Bytes, k: nat)
    requires k <= |s| && RfcScan(s).Header? && k >= RfcScan(s).head.length
    ensures RfcScan(s[..k]) == RfcScan(s)
  {
    if k >= 4 { assert s[..k][2..4] == s[2..4]; }
    if k >= 10 { assert s[..k][2..10] == s[2..10]; }
  }

  lemma SameFirstFrame(s: Bytes, k: nat)
    requires k <= |s| && !OddLength(s[..k]) && RfcScan(s[..k]).Header?
    ensures RfcScan(s) == RfcScan(s[..k])
    ensures var h := RfcScan(s).head;
            var end := h.length + h.size;
            k >= end ==> !OddLength(s) && s[..k][h.length..end] == s[h.length..end] && s[..k][end..] == s[end..][..k - end]
  {
    RfcScanExtend(s[..k], s[k..]);
    assert s[..k] + s[k..] == s;
    OddLengthPrefix(s, k);
    if OddLength(s) { ScanIsRfcIff(s); }
  }

  lemma {:induction false} PrefixTripsLess(c: Conn, s: Bytes, k: nat, parse: Bytes -> Reply)
    requires k <= |s| && Trips(c, s[..k], parse)
    ensures Trips(c, s, parse)
    decreases |s|
  {
    if OddLength(s[..k]) {
      OddLengthPrefix(s, k);
    } else {
      SameFirstFrame(s, k);
      hide Accept, RfcScan, OddLength, Admissible, Concat;
      var h := RfcScan(s).head;
      var end := h.length + h.size;
      PrefixTripsLess(Accept(c, h.final, h.opcode, s[h.length..end], parse), s[end..], k - end, parse);
    }
  }

  /**
   * At every moment of a stream, in any chunks, the reader has exactly the
   * effect that the standard gives the bytes so far, if and only if the open
   * connection never comes to a 16-bit length of 127 (Trips).
   */
  lemma ReaderIsRfcDecoderIff(c: Conn, s: Bytes, parse: Bytes -> Reply)
    requires Quiescent(c, parse) && c.buffer == []
    ensures (forall chunks :: Concat(chunks) <= s ==>
               Unbuffered(FeedAll(c, chunks, parse)) == Should(c, Concat(chunks), parse))
            <==> !Trips(c, s, parse)
  {
    hide Interpret, Trips, FeedAll, Concat, RfcLex, Lex;
    if Trips(c, s, parse) {
      var k := TrippedDiffers(c, s, parse);
      OneChunk(s[..k]);
      ReaderIsOneShotDecoder(c, [s[..k]], parse);
      assert Concat([s[..k]]) <= s;
    } else {
      forall chunks | Concat(chunks) <= s
        ensures Unbuffered(FeedAll(c, chunks, parse)) == Should(c, Concat(chunks), parse)
      {
        ReaderIsOneShotDecoder(c, chunks, parse);
        var k := |Concat(chunks)|;
        assert s[..k] == Concat(chunks);
        if Trips(c, s[..k], parse) { PrefixTripsLess(c, s, k, parse); }
        UntrippedIsRfc(c, s[..k], parse);
      }
    }
  }

  // ------------------------------------------------ fragmented messages reassemble

  lemma ScanServerFrame(final: bool, opcode: int, payload: Bytes, rest: Bytes)
    requires 0 <= opcode < 16 && |payload| <= MAX_MESSAGE
    ensures var length := 1 + |LengthBytes(0, |payload|)|;
            Scan(ServerFrame(final, opcode, payload) + rest)
            == if |payload| == 127 then Bad else Header(Head(final, opcode, |payload|, length))
  {
    var size := |payload|;
    LengthFits(size);
    var length := 1 + |LengthBytes(0, size)|;
    var s := ServerFrame(final, opcode, payload) + rest;
    assert s[0] as int == (if final then 128 else 0) + opcode;
    assert s[1..length] == LengthBytes(0, size);
    assert s[1] == s[1..length][0];
    if size >= 126 { assert s[2..length] == s[1..length][1..] == BigEndian(size, length - 2); }
    assert FlagsOk(s);
    if size == 127 { OddLengthIsTooLong(s); }
    hide FromBigEndian, BigEndian;
  }

  lemma LexServerFrame(final: bool, opcode: int, payload: Bytes, rest: Bytes)
    requires 0 <= opcode < 16 && |payload| <= MAX_MESSAGE
    ensures Lex(ServerFrame(final, opcode, payload) + rest) ==
            if |payload| == 127 then [Garbage] else [Whole(final, opcode, payload)] + Lex(rest)
  {
    ScanServerFrame(final, opcode, payload, rest);
    var length := 1 + |LengthBytes(0, |payload|)|;
    var s := ServerFrame(final, opcode, payload) + rest;
    assert s[length..length + |payload|] == payload;
    assert s[length + |payload|..] == rest;
  }

  /** Each part of a message, with the pings sent just before it. */
  datatype Part = Part(pings: seq<Bytes>, data: Bytes)

  function PingFrames(pings: seq<Bytes>): Bytes {
    if pings == [] then [] else ServerFrame(true, 9, pings[0]) + PingFrames(pings[1..])
  }

  /** Text then continuation frames, the last one final; begun tells whether a part went before. */
  function MessageFrames(parts: seq<Part>, begun: bool): Bytes {
    if parts == [] then []
    else PingFrames(parts[0].pings)
         + (ServerFrame(|parts| == 1, if begun then 0 else 1, parts[0].data) + MessageFrames(parts[1..], true))
  }

  function DataOf(parts: seq<Part>): Bytes {
    if parts == [] then [] else parts[0].data + DataOf(parts[1..])
  }

  function PingsOf(parts: seq<Part>): seq<Bytes> {
    if parts == [] then [] else parts[0].pings + PingsOf(parts[1..])
  }

  predicate PingsFit(assembled: nat, pings: seq<Bytes>) {
    pings == [] || (|pings[0]| <= 125 && assembled + |pings[0]| <= MAX_MESSAGE && PingsFit(assembled, pings[1..]))
  }

  /**
   * What the reader demands of a fragmented message. Control frames count
   * against the message bound as well: a ping is refused when it and the parts
   * already assembled exceed MAX_MESSAGE together.
   */
  predicate Fits(assembled: nat, parts: seq<Part>)
    decreases |parts|
  {
    parts == []
    || (&& PingsFit(assembled, parts[0].pings)
        && assembled + |parts[0].data| <= MAX_MESSAGE
        && Fits(assembled + |parts[0].data|, parts[1..]))
  }

  /** Every frame of the message can be encoded at all. */
  predicate Encodable(parts: seq<Part>) {
    forall i :: 0 <= i < |parts| ==>
      && |parts[i].data| <= MAX_MESSAGE
      && forall j :: 0 <= j < |parts[i].pings| ==> |parts[i].pings[j]| <= MAX_MESSAGE
  }

  /** As the reader cuts them: at a frame of 127 bytes it throws, whatever follows. */
  function PingTokens(pings: seq<Bytes>, rest: seq<Token>): seq<Token> {
    if pings == [] then rest
    else if |pings[0]| == 127 then [Garbage] else [Whole(true, 9, pings[0])] + PingTokens(pings[1..], rest)
  }

  function MessageTokens(parts: seq<Part>, begun: bool): seq<Token>
    decreases |parts|, 1
  {
    if parts == [] then [] else PingTokens(parts[0].pings, PartTokens(parts, begun))
  }

  function PartTokens(parts: seq<Part>, begun: bool): seq<Token>
    requires parts != []
    decreases |parts|, 0
  {
    if |parts[0].data| == 127 then [Garbage]
    else [Whole(|parts| == 1, if begun then 0 else 1, parts[0].data)] + MessageTokens(parts[1..], true)
  }

  lemma {:induction false} LexPings(pings: seq<Bytes>, rest: Bytes)
    requires forall j :: 0 <= j < |pings| ==> |pings[j]| <= MAX_MESSAGE
    ensures Lex(PingFrames(pings) + rest) == PingTokens(pings, Lex(rest))
    decreases |pings|
  {
    hide Lex, ServerFrame;
    if pings == [] {
      assert PingFrames(pings) + rest == rest;
    } else {
      var more := PingFrames(pings[1..]) + rest;
      assert PingFrames(pings) + rest == ServerFrame(true, 9, pings[0]) + more;
      LexServerFrame(true, 9, pings[0], more);
      LexPings(pings[1..], rest);
    }
  }

  lemma {:induction false} LexMessage(parts: seq<Part>, begun: bool)
    requires Encodable(parts)
    ensures Lex(MessageFrames(parts, begun)) == MessageTokens(parts, begun)
    decreases |parts|
  {
    if parts != [] {
      var opcode := if begun then 0 else 1;
      var more := MessageFrames(parts[1..], true);
      LexPings(parts[0].pings, ServerFrame(|parts| == 1, opcode, parts[0].data) + more);
      LexServerFrame(|parts| == 1, opcode, parts[0].data, more);
      LexMessage(parts[1..], true);
    }
  }

  lemma InterpretWhole(c: Conn, final: bool, opcode: int, payload: Bytes, rest: seq<Token>, parse: Bytes -> Reply)
    requires c.status == Open
    ensures Interpret(c, [Whole(final, opcode, payload)] + rest, parse) ==
            if Admissible(|Concat(c.fragments)|, final, opcode, |payload|)
            then Interpret(Accept(c, final, opcode, payload, parse), rest, parse)
            else Fail(c, Failed)
  {
    assert ([Whole(final, opcode, payload)] + rest)[1..] == rest;
  }

  lemma InterpretPing(c: Conn, ping: Bytes, rest: seq<Token>, parse: Bytes -> Reply)
    requires c.status == Open
    ensures Interpret(c, [Whole(true, 9, ping)] + rest, parse) ==
            if |ping| <= 125 && |Concat(c.fragments)| + |ping| <= MAX_MESSAGE
            then Interpret(c.(pongs := c.pongs + [ping]), rest, parse)
            else Fail(c, Failed)
  {
    InterpretWhole(c, true, 9, ping, rest, parse);
  }

  lemma {:induction false} InterpretPings(c: Conn, pings: seq<Bytes>, rest: seq<Token>, parse: Bytes -> Reply)
    requires c.status == Open
    ensures var end := Interpret(c, PingTokens(pings, rest), parse);
            if PingsFit(|Concat(c.fragments)|, pings)
            then end == Interpret(c.(pongs := c.pongs + pings), rest, parse)
            else end.status == Failed
    decreases |pings|
  {
    hide Interpret, Accept, Settle, Concat, Fail, Admissible;
    if pings == [] {
      assert c.pongs + pings == c.pongs;
    } else if |pings[0]| == 127 {
      InterpretGarbage(c, parse);
    } else {
      var later := PingTokens(pings[1..], rest);
      InterpretPing(c, pings[0], later, parse);
      var next := c.(pongs := c.pongs + [pings[0]]);
      InterpretPings(next, pings[1..], rest, parse);
      assert next.pongs + pings[1..] == c.pongs + pings by { assert pings == [pings[0]] + pings[1..]; }
    }
  }

  lemma InterpretGarbage(c: Conn, parse: Bytes -> Reply)
    requires c.status == Open
    ensures Interpret(c, [Garbage], parse).status == Failed
  {
  }

  /** The state after the whole message, when it is accepted. */
  function Delivered(c: Conn, message: Bytes, pings: seq<Bytes>, parse: Bytes -> Reply): Conn {
    Settle(c.(fragments := [], messages := c.messages + [message], pongs := c.pongs + pings), parse(message), message)
  }

  /** A frame that continues the message under assembly, or begins one. */
  lemma InterpretMiddle(c: Conn, data: Bytes, rest: seq<Token>, parse: Bytes -> Reply)
    requires c.status == Open
    ensures Interpret(c, [Whole(false, if c.fragments != [] then 0 else 1, data)] + rest, parse) ==
            if |Concat(c.fragments)| + |data| <= MAX_MESSAGE
            then Interpret(c.(fragments := c.fragments + [data]), rest, parse)
            else Fail(c, Failed)
  {
    InterpretWhole(c, false, if c.fragments != [] then 0 else 1, data, rest, parse);
  }

  lemma InterpretLast(c: Conn, data: Bytes, parse: Bytes -> Reply)
    requires c.status == Open
    ensures var message := Concat(c.fragments) + data;
            Interpret(c, [Whole(true, if c.fragments != [] then 0 else 1, data)] + [], parse) ==
            if |message| <= MAX_MESSAGE && parse(message) != Malformed
            then Delivered(c, message, [], parse)
            else Fail(c, Failed)
  {
    InterpretWhole(c, true, if c.fragments != [] then 0 else 1, data, [], parse);
    AppendPart(c.fragments, data);
    assert c.pongs + [] == c.pongs;
  }

  lemma DeliveredLater(c: Conn, d: Conn, message: Bytes, before: seq<Bytes>, after: seq<Bytes>, parse: Bytes -> Reply)
    requires d == c.(fragments := d.fragments, pongs := c.pongs + before)
    ensures Delivered(d, message, after, parse) == Delivered(c, message, before + after, parse)
  {
    assert d.pongs + after == c.pongs + (before + after);
  }

  /** No part is of exactly 127 bytes. */
  predicate NoOddPart(parts: seq<Part>) {
    parts == [] || (|parts[0].data| != 127 && NoOddPart(parts[1..]))
  }

  lemma {:induction false} InterpretParts(c: Conn, parts: seq<Part>, parse: Bytes -> Reply)
    requires c.status == Open && parts != []
    ensures var end := Interpret(c, MessageTokens(parts, c.fragments != []), parse);
            var message := Concat(c.fragments) + DataOf(parts);
            if Fits(|Concat(c.fragments)|, parts) && NoOddPart(parts) && parse(message) != Malformed
            then end == Delivered(c, message, PingsOf(parts), parse)
            else end.status == Failed
    decreases |parts|
  {
    hide Interpret, Accept, Delivered, Fail, Concat;
    var opcode := if c.fragments != [] then 0 else 1;
    var last, data, rest := |parts| == 1, parts[0].data, parts[1..];
    var more := MessageTokens(rest, true);
    InterpretPings(c, parts[0].pings, PartTokens(parts, c.fragments != []), parse);
    var d := c.(pongs := c.pongs + parts[0].pings);
    if |data| == 127 {
      InterpretGarbage(d, parse);
    } else if last {
      LastPart(|Concat(c.fragments)|, parts);
      InterpretLast(d, data, parse);
      DeliveredLater(c, d, Concat(d.fragments) + data, parts[0].pings, [], parse);
    } else {
      InterpretMiddle(d, data, more, parse);
      AppendPart(c.fragments, data);
      assert Concat(c.fragments) + DataOf(parts) == Concat(c.fragments) + data + DataOf(rest);
      var next := d.(fragments := d.fragments + [data]);
      InterpretParts(next, rest, parse);
      DeliveredLater(c, next, Concat(next.fragments) + DataOf(rest), parts[0].pings, PingsOf(rest), parse);
    }
  }

  lemma AppendPart(fragments: seq<Bytes>, data: Bytes)
    ensures Concat(fragments + [data]) == Concat(fragments) + data
  {
    ConcatAppend(fragments, [data]);
    assert Concat([data]) == data + Concat([]) == data;
  }

  lemma LastPart(assembled: nat, parts: seq<Part>)
    requires |parts| == 1
    ensures DataOf(parts) == parts[0].data && PingsOf(parts) == parts[0].pings == parts[0].pings + []
    ensures MessageTokens(parts[1..], true) == [] && (NoOddPart(parts) <==> |parts[0].data| != 127)
    ensures Fits(assembled, parts) <==>
            PingsFit(assembled, parts[0].pings) && assembled + |parts[0].data| <= MAX_MESSAGE
  {
    assert parts[1..] == [];
    assert PingsOf(parts) == parts[0].pings + [] && DataOf(parts) == parts[0].data + [];
  }

  /**
   * A message split into any text and continuation frames, with pings between
   * them and the bytes arriving in any chunks, is delivered once and whole and
   * every ping is answered in order, exactly when the reader's bounds allow it,
   * no part is of 127 bytes, and the message parses; otherwise the connection
   * fails.
   */
  lemma FragmentedMessageReassembles(c: Conn, parts: seq<Part>, chunks: seq<Bytes>, parse: Bytes -> Reply)
    requires c.status == Open && c.buffer == [] && c.fragments == []
    requires parts != [] && Encodable(parts) && Concat(chunks) == MessageFrames(parts, false)
    ensures var end := FeedAll(c, chunks, parse);
            if Fits(0, parts) && NoOddPart(parts) && parse(DataOf(parts)) != Malformed
            then Unbuffered(end) == Delivered(c, DataOf(parts), PingsOf(parts), parse)
            else end.status == Failed
  {
    ReaderIsOneShotDecoder(c, chunks, parse);
    LexMessage(parts, false);
    InterpretParts(c, parts, parse);
    assert Concat(c.fragments) + DataOf(parts) == DataOf(parts);
  }

  /** The input: any message of 127 bytes in one frame fails the connection that RFC 6455 lets it pass. */
  lemma MessageOf127BytesFails(c: Conn, data: Bytes, parse: Bytes -> Reply)
    requires c.status == Open && c.buffer == [] && c.fragments == []
    requires |data| == 127 && parse(data) != Malformed
    ensures var s := ServerFrame(true, 1, data);
            Feed(c, s, parse).status == Failed && Should(c, s, parse).status == Open
  {
    var s := ServerFrame(true, 1, data);
    var parts := [Part([], data)];
    assert parts[1..] == [] && DataOf(parts) == data + DataOf([]) == data;
    assert MessageFrames(parts, false) == [] + (s + []) == s;
    OneChunk(s);
    assert [s][1..] == [];
    assert FeedAll(c, [s], parse) == FeedAll(Feed(c, s, parse), [], parse) == Feed(c, s, parse);
    FragmentedMessageReassembles(c, parts, [s], parse);
    RfcReadsServerFrame(c, data, parse);
  }

  lemma RfcReadsServerFrame(c: Conn, data: Bytes, parse: Bytes -> Reply)
    requires c.status == Open && c.fragments == [] && |data| == 127 && parse(data) != Malformed
    ensures Should(c, ServerFrame(true, 1, data), parse).status == Open
  {
    var s := ServerFrame(true, 1, data);
    LengthFits(127);
    assert s[1..4] == LengthBytes(0, 127) && s[1] == s[1..4][0];
    assert s[2..4] == s[1..4][1..] == BigEndian(127, 2);
    assert RfcScan(s) == Header(Head(true, 1, 127, 4));
    assert s[4..131] == data && s[131..] == [];
    assert RfcLex(s[131..]) == [];
    InterpretWhole(c, true, 1, data, [], parse);
    OneChunk(data);
    assert c.fragments + [data] == [data];
  }

  // -------------------------------------------------- requests settle at most once

  datatype Event = Sent(size: nat) | Received(chunk: Bytes) | Cancelled(id: int)

  function Step(c: Conn, e: Event, parse: Bytes -> Reply): Conn {
    match e
    case Sent(size) => Send(c, size)
    case Received(chunk) => Feed(c, chunk, parse)
    case Cancelled(id) => AbortRequest(c, id)
  }

  function Run(c: Conn, es: seq<Event>, parse: Bytes -> Reply): Conn
    decreases |es|
  {
    if es == [] then c else Run(Step(c, es[0], parse), es[1..], parse)
  }

  /** Issued ids are split between pending and settled; a dead connection keeps nothing pending. */
  ghost predicate RequestInv(c: Conn, parse: Bytes -> Reply) {
    && c.next >= 1
    && c.pending !! c.settled.Keys
    && (forall id :: 1 <= id < c.next <==> id in c.pending || id in c.settled)
    && (c.status != Open ==> c.pending == {})
    && (forall id :: id in c.settled ==> Justified(c, id, parse))
  }

  /** A response settles a request only when a delivered message answers its id. */
  ghost predicate Justified(c: Conn, id: int, parse: Bytes -> Reply)
    requires id in c.settled
  {
    match c.settled[id]
    case Resolved(m) => m in c.messages && parse(m) == Answer(id, false)
    case Rejected(m) => m in c.messages && parse(m) == Answer(id, true)
    case Disconnected => c.status != Open
    case Aborted => true
    case TooLong => true
  }

  ghost predicate Grew(c: Conn, d: Conn) {
    && (forall id :: id in c.settled ==> id in d.settled && d.settled[id] == c.settled[id])
    && c.messages <= d.messages && c.pongs <= d.pongs && c.next <= d.next
    && (c.status != Open ==> d.status == c.status)
  }

  lemma AcceptKeepsRequests(c: Conn, final: bool, opcode: int, payload: Bytes, parse: Bytes -> Reply)
    requires RequestInv(c, parse) && c.status == Open
    ensures var d := Accept(c, final, opcode, payload, parse);
            RequestInv(d, parse) && Grew(c, d)
  {
    var d := Accept(c, final, opcode, payload, parse);
    assert forall m :: m in c.messages ==> m in d.messages;
    if |d.messages| > |c.messages| {
      assert d.messages[|c.messages|] in d.messages;
    }
  }

  lemma {:induction false} PumpKeepsRequests(c: Conn, parse: Bytes -> Reply)
    requires RequestInv(c, parse)
    ensures RequestInv(Pump(c, parse), parse) && Grew(c, Pump(c, parse))
    decreases |c.buffer|
  {
    hide Accept, Concat;
    if Advance(c, parse).Some? {
      var next := Advance(c, parse).value;
      if Scan(c.buffer).Header? {
        var h := Scan(c.buffer).head;
        var end := h.length + h.size;
        if |c.buffer| >= end {
          AcceptKeepsRequests(c.(buffer := c.buffer[end..]), h.final, h.opcode, c.buffer[h.length..end], parse);
        }
      }
      assert RequestInv(next, parse) && Grew(c, next);
      PumpKeepsRequests(next, parse);
    }
  }

  /**
   * Over any interleaving of requests, input and cancellations, every issued
   * id is pending or settled but never both, a settlement is final and is
   * justified by a message that answers that id, and effects only grow.
   */
  lemma {:induction false} RequestsSettleAtMostOnce(c: Conn, es: seq<Event>, parse: Bytes -> Reply)
    requires RequestInv(c, parse)
    ensures RequestInv(Run(c, es, parse), parse) && Grew(c, Run(c, es, parse))
    decreases |es|
  {
    if es != [] {
      var d := Step(c, es[0], parse);
      match es[0] {
        case Received(chunk) =>
          if c.status == Open { PumpKeepsRequests(c.(buffer := c.buffer + chunk), parse); }
        case Sent(size) =>
        case Cancelled(id) =>
      }
      RequestsSettleAtMostOnce(d, es[1..], parse);
    }
  }
}
