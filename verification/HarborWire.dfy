/**
 The wire format between harbors (service_harbor.c): a four byte big-endian length, the payload, and
 a cookie of three big-endian words that follows the payload.
 */
module HarborWire {

  import opened Prelude

  type Word = n: int | 0 <= n < 0x1_0000_0000
  type Session = n: int | -0x8000_0000 <= n < 0x8000_0000

  const HEADER_COOKIE_LENGTH := 12

  /** struct remote_message_header. */
  datatype Header = Header(source: Word, destination: Word, session: Word)

  /** A message as skynet_send sees it. */
  datatype Message = Message(source: Word, destination: Word, kind: Byte, session: Session, payload: seq<Byte>)

  /** A message on its way: its header and its payload. */
  datatype Packed = Packed(header: Header, payload: seq<Byte>)

  function ToBigEndian(n: Word): (b: seq<Byte>)
    ensures |b| == 4
  {
    [n / 0x100_0000, n / 0x1_0000 % 0x100, n / 0x100 % 0x100, n % 0x100]
  }

  function FromBigEndian(b: seq<Byte>): Word
    requires |b| == 4
  {
    b[0] as int * 0x100_0000 + b[1] as int * 0x1_0000 + b[2] as int * 0x100 + b[3]
  }

  lemma BigEndianRoundTrip(n: Word)
    ensures FromBigEndian(ToBigEndian(n)) == n
  {
    var a := n / 0x100;
    var b := a / 0x100;
    assert n == a * 0x100 + n % 0x100;
    assert a == b * 0x100 + a % 0x100;
    assert b == (b / 0x100) * 0x100 + b % 0x100;
    assert n / 0x1_0000 == b && n / 0x100_0000 == b / 0x100;
  }

  /** A cast of int to uint32_t and back. */
  function Unsigned(n: Session): Word { if n < 0 then n + 0x1_0000_0000 else n }

  function Signed(n: Word): Session { if n < 0x8000_0000 then n else n - 0x1_0000_0000 }

  /** The destination word: the type above the low 24 bits of the handle. */
  function PackHandle(handle: Word, kind: Byte): Word {
    kind * HANDLE_RANGE + handle % HANDLE_RANGE
  }

  function Pack(m: Message): Packed {
    Packed(Header(m.source, PackHandle(m.destination, m.kind), Unsigned(m.session)), m.payload)
  }

  function Cookie(h: Header): (b: seq<Byte>)
    ensures |b| == HEADER_COOKIE_LENGTH
  {
    ToBigEndian(h.source) + ToBigEndian(h.destination) + ToBigEndian(h.session)
  }

  /** What follows the length on the wire. */
  function Body(p: Packed): (b: seq<Byte>)
    ensures |b| == |p.payload| + HEADER_COOKIE_LENGTH
  {
    p.payload + Cookie(p.header)
  }

  /** send_remote; a body that a word cannot measure is not sent. */
  function Frame(p: Packed): seq<Byte> {
    if |p.payload| + HEADER_COOKIE_LENGTH > 0xffff_ffff then []
    else ToBigEndian(|p.payload| + HEADER_COOKIE_LENGTH) + Body(p)
  }

  function Encode(ps: seq<Packed>): seq<Byte> {
    if ps == [] then [] else Encode(ps[..|ps| - 1]) + Frame(ps[|ps| - 1])
  }

  /** forward_local_message in harbor 'id'. */
  function Forward(id: Byte, body: seq<Byte>): Message
    requires |body| >= HEADER_COOKIE_LENGTH
  {
    var n := |body| - HEADER_COOKIE_LENGTH;
    var destination := FromBigEndian(body[n + 4..n + 8]);
    Message(FromBigEndian(body[n..n + 4]), destination % HANDLE_RANGE + id * HANDLE_RANGE,
            destination / HANDLE_RANGE, Signed(FromBigEndian(body[n + 8..n + 12])), body[..n])
  }

  /** A message as it arrives in harbor 'id': only the high byte of the destination is new. */
  function Arrives(id: Byte, m: Message): Message {
    m.(destination := m.destination % HANDLE_RANGE + id * HANDLE_RANGE)
  }

  /** The most significant byte comes first: the bytes are ordered as the numbers are. */
  lemma BigEndianOrder(a: seq<Byte>, b: seq<Byte>)
    requires |a| == |b| == 4
    ensures FromBigEndian(a) < FromBigEndian(b) <==> Below(a, b)
  {
    BelowFour(a, b);
  }

  lemma PackHandleRoundTrip(handle: Word, kind: Byte)
    ensures PackHandle(handle, kind) / HANDLE_RANGE == kind
    ensures PackHandle(handle, kind) % HANDLE_RANGE == handle % HANDLE_RANGE
  {
  }

  lemma CookieParts(p: Packed)
    ensures var b := Body(p); var n := |p.payload|;
            && b[..n] == p.payload
            && b[n..n + 4] == ToBigEndian(p.header.source)
            && b[n + 4..n + 8] == ToBigEndian(p.header.destination)
            && b[n + 8..n + 12] == ToBigEndian(p.header.session)
  {
    hide ToBigEndian;
  }

  /** A message on the wire: length, payload, source, type with the low bits of the destination, session. */
  lemma FrameLayout(m: Message)
    requires |m.payload| + HEADER_COOKIE_LENGTH <= 0xffff_ffff
    ensures var f := Frame(Pack(m)); var n := |m.payload|;
            && |f| == 4 + n + HEADER_COOKIE_LENGTH && FromBigEndian(f[..4]) == n + HEADER_COOKIE_LENGTH
            && f[4..4 + n] == m.payload
            && FromBigEndian(f[4 + n..8 + n]) == m.source
            && f[8 + n] == m.kind
            && FromBigEndian(f[8 + n..12 + n]) % HANDLE_RANGE == m.destination % HANDLE_RANGE
            && Signed(FromBigEndian(f[12 + n..16 + n])) == m.session
  {
    var p := Pack(m);
    var f, b, n := Frame(p), Body(p), |m.payload|;
    CookieParts(p);
    BigEndianRoundTrip(n + HEADER_COOKIE_LENGTH);
    BigEndianRoundTrip(p.header.source);
    BigEndianRoundTrip(p.header.destination);
    BigEndianRoundTrip(p.header.session);
    PackHandleRoundTrip(m.destination, m.kind);
    KindFirst(p.header.destination);
    hide FromBigEndian, Body, PackHandle, ToBigEndian;
    assert f == ToBigEndian(n + HEADER_COOKIE_LENGTH) + b && f[4..] == b;
    assert f[4..4 + n] == b[..n] && f[4 + n..8 + n] == b[n..n + 4];
    assert f[8 + n..12 + n] == b[n + 4..n + 8] && f[12 + n..16 + n] == b[n + 8..n + 12];
    assert f[8 + n] == f[8 + n..12 + n][0];
  }

  lemma KindFirst(w: Word)
    ensures ToBigEndian(w)[0] == w / HANDLE_RANGE
  {
  }

  /** Source, type, session and payload come back; so do the low 24 bits of the destination. */
  lemma ForwardRoundTrip(id: Byte, m: Message)
    ensures Forward(id, Body(Pack(m))) == Arrives(id, m)
  {
    var p := Pack(m);
    CookieParts(p);
    BigEndianRoundTrip(p.header.source);
    BigEndianRoundTrip(p.header.destination);
    BigEndianRoundTrip(p.header.session);
    PackHandleRoundTrip(m.destination, m.kind);
    hide ToBigEndian, FromBigEndian, Body, PackHandle;
  }

  // ---- The stream

  datatype End = Good | TooLong | Short

  /**
   The complete bodies at the front of a stream and what is left. A length of 2^24 or more ends the
   connection as soon as it is read; a body too short for the cookie is noticed by nobody, and when it
   is complete (an empty one with the byte after it) the cookie is read from in front of the buffer.
   */
  datatype Parsed = Parsed(bodies: seq<seq<Byte>>, rest: seq<Byte>, end: End)

  function LengthOf(b: seq<Byte>): nat
    requires |b| >= 4
  {
    b[1] as int * 0x1_0000 + b[2] as int * 0x100 + b[3]
  }

  function Parse(b: seq<Byte>): Parsed
    decreases |b|
  {
    if |b| < 4 then Parsed([], b, Good)
    else if b[0] != 0 then Parsed([], b, TooLong)
    else if |b| < 4 + LengthOf(b) || |b| == 4 then Parsed([], b, Good)
    else if LengthOf(b) < HEADER_COOKIE_LENGTH then Parsed([], b, Short)
    else
      var p := Parse(b[4 + LengthOf(b)..]);
      Parsed([b[4..4 + LengthOf(b)]] + p.bodies, p.rest, p.end)
  }

  /** A complete frame stands at the front. */
  predicate Whole(b: seq<Byte>) {
    |b| >= 4 && b[0] == 0 && LengthOf(b) >= HEADER_COOKIE_LENGTH && |b| >= 4 + LengthOf(b)
  }

  lemma ParseWhole(b: seq<Byte>)
    requires Whole(b)
    ensures var p := Parse(b[4 + LengthOf(b)..]);
            Parse(b) == Parsed([b[4..4 + LengthOf(b)]] + p.bodies, p.rest, p.end)
  {
  }

  lemma ParseStops(b: seq<Byte>)
    requires !Whole(b)
    ensures Parse(b).bodies == [] && Parse(b).rest == b
  {
  }

  lemma WholeAppend(a: seq<Byte>, b: seq<Byte>)
    requires Whole(a)
    ensures Whole(a + b) && LengthOf(a + b) == LengthOf(a)
    ensures (a + b)[4 + LengthOf(a)..] == a[4 + LengthOf(a)..] + b
    ensures (a + b)[4..4 + LengthOf(a)] == a[4..4 + LengthOf(a)]
  {
  }

  /** Parsing may stop anywhere and go on from what was left. */
  lemma {:induction false} ParseAppend(a: seq<Byte>, b: seq<Byte>)
    requires Parse(a).end == Good
    ensures var q := Parse(Parse(a).rest + b);
            Parse(a + b) == Parsed(Parse(a).bodies + q.bodies, q.rest, q.end)
    decreases |a|
  {
    hide Parse, LengthOf;
    if Whole(a) {
      var tail := a[4 + LengthOf(a)..];
      var body := a[4..4 + LengthOf(a)];
      ParseWhole(a);
      WholeAppend(a, b);
      ParseWhole(a + b);
      ParseAppend(tail, b);
      var q := Parse(Parse(tail).rest + b);
      assert [body] + (Parse(tail).bodies + q.bodies) == ([body] + Parse(tail).bodies) + q.bodies;
    } else {
      ParseStops(a);
    }
  }

  lemma {:induction false} ParsePrefixGood(a: seq<Byte>, b: seq<Byte>)
    requires Parse(a + b).end == Good
    ensures Parse(a).end == Good
    decreases |a|
  {
    hide Parse, LengthOf;
    if Whole(a) {
      ParseWhole(a);
      WholeAppend(a, b);
      ParseWhole(a + b);
      ParsePrefixGood(a[4 + LengthOf(a)..], b);
    } else {
      FirstGood(a, b);
    }
  }

  lemma FirstGood(a: seq<Byte>, b: seq<Byte>)
    requires !Whole(a) && Parse(a + b).end == Good
    ensures Parse(a).end == Good
  {
  }

  predicate Fits(p: Packed) {
    |p.payload| + HEADER_COOKIE_LENGTH < HANDLE_RANGE
  }

  lemma FrameLength(p: Packed)
    requires Fits(p)
    ensures Frame(p)[0] == 0 && LengthOf(Frame(p)) == |p.payload| + HEADER_COOKIE_LENGTH
  {
    var n := |p.payload| + HEADER_COOKIE_LENGTH;
    BigEndianRoundTrip(n);
    assert n / 0x100_0000 == 0;
    assert Frame(p)[..4] == ToBigEndian(n);
  }

  lemma ParseFrame(p: Packed)
    requires Fits(p)
    ensures Parse(Frame(p)) == Parsed([Body(p)], [], Good)
  {
    FrameLength(p);
    var f := Frame(p);
    var n := |p.payload| + HEADER_COOKIE_LENGTH;
    assert f[4..4 + n] == Body(p) && f[4 + n..] == [];
    ParseEmpty();
  }

  lemma ParseEmpty()
    ensures Parse([]) == Parsed([], [], Good)
  {
  }

  function Bodies(ps: seq<Packed>): seq<seq<Byte>> {
    seq(|ps|, i requires 0 <= i < |ps| => Body(ps[i]))
  }

  /** What was encoded is what is parsed. */
  lemma {:induction false} ParseEncode(ps: seq<Packed>)
    requires forall p :: p in ps ==> Fits(p)
    ensures Parse(Encode(ps)) == Parsed(Bodies(ps), [], Good)
  {
    hide Parse, Frame;
    ParseEmpty();
    if ps != [] {
      var front, last := ps[..|ps| - 1], ps[|ps| - 1];
      ParseEncode(front);
      ParseAppend(Encode(front), Frame(last));
      ParseFrame(last);
      assert [] + Frame(last) == Frame(last);
      assert Bodies(ps) == Bodies(front) + [Body(last)];
    }
  }

  /** A part of the stream parses to a part of the bodies. */
  lemma ParsePart(ps: seq<Packed>, a: seq<Byte>, b: seq<Byte>)
    requires forall p :: p in ps ==> Fits(p)
    requires Encode(ps) == a + b
    ensures Parse(a).end == Good && Parse(a).bodies <= Bodies(ps)
    ensures b == [] ==> Parse(a).bodies == Bodies(ps) && Parse(a).rest == []
  {
    ParseEncode(ps);
    ParsePrefixGood(a, b);
    ParseAppend(a, b);
    if b == [] {
      assert a + b == a;
    }
  }

  /** A body of 2^24 bytes or more is refused by the receiver, whatever comes after it. */
  lemma OversizeRefused(p: Packed, more: seq<Byte>)
    requires HANDLE_RANGE <= |p.payload| + HEADER_COOKIE_LENGTH <= 0xffff_ffff
    ensures Parse(Frame(p) + more).end == TooLong && Parse(Frame(p) + more).bodies == []
  {
    var n := |p.payload| + HEADER_COOKIE_LENGTH;
    assert (Frame(p) + more)[0] == n / 0x100_0000;
    assert n / 0x100_0000 > 0;
  }
}
