/**
 service_gate.c: cutting the stream of one client into messages by a two or four byte big-endian
 length, and passing them on.
 */
module Gate {

  import opened Prelude
  import opened DataBuffer

  const LIMIT := 0x100_0000

  /** The length in a header, as a signed int. */
  function Value(h: seq<Byte>): int
    requires |h| == 2 || |h| == 4
  {
    if |h| == 2 then h[0] as int * 0x100 + h[1]
    else
      var n := h[0] as int * 0x100_0000 + h[1] as int * 0x1_0000 + h[2] as int * 0x100 + h[3];
      if n < 0x8000_0000 then n else n - 0x1_0000_0000
  }

  /** The most significant byte comes first; the top bit of four bytes is the sign. */
  lemma ValueOrder(a: seq<Byte>, b: seq<Byte>)
    requires |a| == |b| && (|a| == 2 || (|a| == 4 && (a[0] < 0x80 <==> b[0] < 0x80)))
    ensures Value(a) < Value(b) <==> Below(a, b)
  {
    if |a| == 2 {
      BelowTwo(a, b);
    } else {
      BelowFour(a, b);
    }
  }

  lemma ValueSign(a: seq<Byte>)
    requires |a| == 2 || |a| == 4
    ensures Value(a) < 0 <==> |a| == 4 && a[0] >= 0x80
    ensures Value(a) == -1 <==> a == [255, 255, 255, 255]
  {
  }

  /** The complete non-empty frames at the front of a stream, and what is left. */
  datatype Parsed = Parsed(frames: seq<seq<Byte>>, rest: seq<Byte>, tooLong: bool)

  type HeaderSize = h: int | h == 2 || h == 4 witness 2

  /** A complete frame of acceptable length stands at the front. */
  predicate Whole(hs: HeaderSize, b: seq<Byte>) {
    |b| >= hs && 0 <= Value(b[..hs]) < LIMIT && |b| >= hs + Value(b[..hs])
  }

  predicate Excessive(hs: HeaderSize, b: seq<Byte>) {
    |b| >= hs && Value(b[..hs]) >= LIMIT && |b| >= hs + Value(b[..hs])
  }

  function Frame(body: seq<Byte>): seq<seq<Byte>> {
    if body == [] then [] else [body]
  }

  function Parse(hs: HeaderSize, b: seq<Byte>): Parsed
    decreases |b|
  {
    if Whole(hs, b) then
      var n := Value(b[..hs]);
      var p := Parse(hs, b[hs + n..]);
      Parsed(Frame(b[hs..hs + n]) + p.frames, p.rest, p.tooLong)
    else Parsed([], b, Excessive(hs, b))
  }

  lemma WholeAppend(hs: HeaderSize, a: seq<Byte>, b: seq<Byte>)
    requires Whole(hs, a)
    ensures Whole(hs, a + b) && (a + b)[..hs] == a[..hs]
    ensures var n := Value(a[..hs]); (a + b)[hs..hs + n] == a[hs..hs + n] && (a + b)[hs + n..] == a[hs + n..] + b
  {
    hide Value;
    assert (a + b)[..hs] == a[..hs];
  }

  lemma ParseWhole(hs: HeaderSize, b: seq<Byte>)
    requires Whole(hs, b)
    ensures var n := Value(b[..hs]); var p := Parse(hs, b[hs + n..]);
            Parse(hs, b) == Parsed(Frame(b[hs..hs + n]) + p.frames, p.rest, p.tooLong)
  {
  }

  lemma ParseStops(hs: HeaderSize, b: seq<Byte>)
    requires !Whole(hs, b)
    ensures Parse(hs, b) == Parsed([], b, Excessive(hs, b))
  {
  }

  /** Parsing may stop anywhere and go on from what was left. */
  lemma {:induction false} ParseAppend(hs: HeaderSize, a: seq<Byte>, b: seq<Byte>)
    requires !Parse(hs, a).tooLong
    ensures var q := Parse(hs, Parse(hs, a).rest + b);
            Parse(hs, a + b) == Parsed(Parse(hs, a).frames + q.frames, q.rest, q.tooLong)
    decreases |a|
  {
    hide Parse, Value, Frame;
    if Whole(hs, a) {
      var n := Value(a[..hs]);
      var tail, f := a[hs + n..], Frame(a[hs..hs + n]);
      ParseWhole(hs, a);
      WholeAppend(hs, a, b);
      ParseWhole(hs, a + b);
      ParseAppend(hs, tail, b);
      var q := Parse(hs, Parse(hs, tail).rest + b);
      assert f + (Parse(hs, tail).frames + q.frames) == (f + Parse(hs, tail).frames) + q.frames;
    } else {
      ParseStops(hs, a);
    }
  }

  // ---- The client's side

  function Length(hs: HeaderSize, n: nat): seq<Byte>
    requires n < (if hs == 2 then 0x1_0000 else LIMIT)
  {
    if hs == 2 then [n / 0x100, n % 0x100] else [0, n / 0x1_0000, n / 0x100 % 0x100, n % 0x100]
  }

  predicate Fits(hs: HeaderSize, body: seq<Byte>) {
    |body| < if hs == 2 then 0x1_0000 else LIMIT
  }

  function Encode(hs: HeaderSize, bodies: seq<seq<Byte>>): seq<Byte>
    requires forall i :: 0 <= i < |bodies| ==> Fits(hs, bodies[i])
  {
    if bodies == [] then []
    else
      assert Fits(hs, bodies[0]);
      Length(hs, |bodies[0]|) + bodies[0] + Encode(hs, bodies[1..])
  }

  function NonEmpty(bodies: seq<seq<Byte>>): seq<seq<Byte>> {
    if bodies == [] then [] else Frame(bodies[0]) + NonEmpty(bodies[1..])
  }

  lemma LengthValue(hs: HeaderSize, n: nat)
    requires n < (if hs == 2 then 0x1_0000 else LIMIT)
    ensures |Length(hs, n)| == hs && Value(Length(hs, n)) == n
  {
    var a := n / 0x100;
    assert n == a * 0x100 + n % 0x100;
    assert a == a / 0x100 * 0x100 + a % 0x100;
    assert n / 0x1_0000 == a / 0x100;
  }

  /** The frames found are the non-empty ones that were sent. */
  lemma {:induction false} ParseEncode(hs: HeaderSize, bodies: seq<seq<Byte>>)
    requires forall i :: 0 <= i < |bodies| ==> Fits(hs, bodies[i])
    ensures Parse(hs, Encode(hs, bodies)) == Parsed(NonEmpty(bodies), [], false)
  {
    if bodies == [] {
      ParseStops(hs, []);
    } else {
      var body, tail := bodies[0], Encode(hs, bodies[1..]);
      var h := Length(hs, |body|);
      LengthValue(hs, |body|);
      FirstFrame(hs, h, body, tail);
      ParseEncode(hs, bodies[1..]);
    }
  }

  lemma FirstFrame(hs: HeaderSize, h: seq<Byte>, body: seq<Byte>, tail: seq<Byte>)
    requires |h| == hs && Value(h) == |body| < LIMIT
    ensures var p := Parse(hs, tail);
            Parse(hs, h + body + tail) == Parsed(Frame(body) + p.frames, p.rest, p.tooLong)
  {
    hide Parse, Value, Frame;
    var b := h + body + tail;
    assert b[..hs] == h && b[hs..hs + |body|] == body && b[hs + |body|..] == tail;
    ParseWhole(hs, b);
  }

  // ---- The gate's side

  /** Who gets the messages of a connection. */
  datatype Receiver = Broker | Agent | Watchdog | Nobody

  /** A message handed to the service 'dest', with the client's socket as session. */
  datatype Forwarded = Forwarded(to: Receiver, dest: nat, session: int, payload: seq<Byte>)

  /** The broker comes before the agent of the connection, and that before the watchdog. */
  predicate Addressed(f: Forwarded, id: int, broker: nat, agent: nat, watchdog: nat) {
    && f.session == id && f.dest != 0 && f.to != Nobody
    && (f.to == Broker <==> broker != 0) && (f.to == Agent <==> broker == 0 && agent != 0)
    && (f.to == Broker ==> f.dest == broker) && (f.to == Agent ==> f.dest == agent)
    && (f.to == Watchdog ==> f.dest == watchdog)
  }

  ghost predicate AllAddressed(fs: seq<Forwarded>, id: int, broker: nat, agent: nat, watchdog: nat) {
    forall i :: 0 <= i < |fs| ==> Addressed(fs[i], id, broker, agent, watchdog)
  }

  function Payloads(fs: seq<Forwarded>): seq<seq<Byte>> {
    seq(|fs|, i requires 0 <= i < |fs| => fs[i].payload)
  }

  lemma AddOne(fs: seq<Forwarded>, f: Forwarded, id: int, broker: nat, agent: nat, watchdog: nat)
    requires Addressed(f, id, broker, agent, watchdog)
    ensures fs <= fs + [f] && AllAddressed((fs + [f])[|fs|..], id, broker, agent, watchdog)
  {
    assert (fs + [f])[|fs|..] == [f];
  }

  lemma AddNone(fs: seq<Forwarded>, id: int, broker: nat, agent: nat, watchdog: nat)
    ensures fs <= fs && AllAddressed(fs[|fs|..], id, broker, agent, watchdog)
  {
  }

  class Connection {
    const hs: HeaderSize
    const id: int
    const broker: nat
    const agent: nat
    const watchdog: nat
    const buffer: Buffer
    const mp: Pool
    var closed: bool
    var forwarded: seq<Forwarded>
    ghost var headerBytes: seq<Byte>
    ghost var got: seq<Byte>

    /** The socket is alive and somebody is there to receive. */
    predicate Configured() {
      id > 0 && (broker != 0 || agent != 0 || watchdog != 0)
    }

    ghost predicate HeaderOk()
      reads this, buffer
    {
      buffer.header != 0 ==> |headerBytes| == hs && Value(headerBytes) == buffer.header
    }

    /** The bytes not yet accounted for: a header that was read, and what is buffered. */
    ghost function Rest(): seq<Byte>
      reads this, buffer
    {
      if buffer.header == 0 then buffer.Contents() else headerBytes + buffer.Contents()
    }

    /** What was forwarded, then what the rest still yields, is what the whole stream yields. */
    ghost predicate Tracks()
      reads this, buffer
    {
      var p := Parse(hs, Rest());
      Parse(hs, got) == Parsed(Payloads(forwarded) + p.frames, p.rest, p.tooLong)
    }

    /** Nothing complete is left in the buffer. */
    ghost predicate Idle()
      reads this, buffer
    {
      !Whole(hs, Rest()) && !Excessive(hs, Rest())
    }

    ghost function Repr(): set<object>
      reads this, buffer, mp
    {
      {this, buffer, mp} + Nodes(buffer.list) + Nodes(mp.free)
    }

    constructor (hs: HeaderSize, id: int, broker: nat, agent: nat, watchdog: nat)
      ensures this.hs == hs && this.id == id && this.broker == broker && this.agent == agent
      ensures this.watchdog == watchdog
      ensures fresh(Repr()) && buffer.Valid(mp) && HeaderOk() && Tracks() && Idle()
      ensures got == [] && forwarded == [] && !closed
    {
      this.hs, this.id, this.broker, this.agent, this.watchdog := hs, id, broker, agent, watchdog;
      buffer := new Buffer();
      mp := new Pool();
      closed, forwarded, headerBytes, got := false, [], [], [];
    }

    /** databuffer_readheader. */
    method ReadHeader() returns (r: int)
      requires buffer.Valid(mp) && HeaderOk()
      modifies Repr()
      ensures got == old(got) && forwarded == old(forwarded) && closed == old(closed)
      ensures buffer.Valid(mp) && HeaderOk()
      ensures Repr() == old(Repr())
      ensures r < 0 ==> Rest() == old(Rest()) && Idle()
      ensures r == 0 ==> Whole(hs, old(Rest())) && Value(old(Rest())[..hs]) == 0
      ensures r == 0 ==> buffer.header == 0 && buffer.Contents() == old(Rest())[hs..]
      ensures r > 0 ==> r == buffer.header <= |buffer.Contents()| && Rest() == old(Rest())
    {
      hide Value, Unread, Parse, Buffer.Linked;
      if buffer.header == 0 {
        if buffer.size < hs {
          return -1;
        }
        headerBytes := buffer.Contents()[..hs];
        var plen := buffer.Read(mp, hs);
        buffer.SetHeader(mp, Value(plen));
      }
      if buffer.size < buffer.header {
        return -1;
      }
      return buffer.header;
    }

    /** _forward: without a receiver the bytes stay in the buffer. */
    method Forward(size: nat)
      requires buffer.Valid(mp) && 0 < size <= |buffer.Contents()|
      modifies Repr()
      ensures got == old(got) && headerBytes == old(headerBytes) && closed == old(closed)
      ensures buffer.Valid(mp) && buffer.header == old(buffer.header)
      ensures Repr() == old(Repr())
      ensures !Configured() ==> forwarded == old(forwarded) && buffer.Contents() == old(buffer.Contents())
      ensures Configured() ==> buffer.Contents() == old(buffer.Contents())[size..]
      ensures Configured() ==> Payloads(forwarded) == old(Payloads(forwarded)) + [old(buffer.Contents())[..size]]
      ensures old(forwarded) <= forwarded && AllAddressed(forwarded[|old(forwarded)|..], id, broker, agent, watchdog)
    {
      hide Unread, AllAddressed, Buffer.Linked;
      if id <= 0 {
        AddNone(forwarded, id, broker, agent, watchdog);
        return;
      }
      var to := if broker != 0 then Broker else if agent != 0 then Agent else if watchdog != 0 then Watchdog
        else Nobody;
      if to != Nobody {
        var temp := buffer.Read(mp, size);
        var dest := if to == Broker then broker else if to == Agent then agent else watchdog;
        AddOne(forwarded, Forwarded(to, dest, id, temp), id, broker, agent, watchdog);
        forwarded := forwarded + [Forwarded(to, dest, id, temp)];
      } else {
        AddNone(forwarded, id, broker, agent, watchdog);
      }
    }

    /** One round of the loop in dispatch_message; false when it returns. */
    method Round() returns (more: bool)
      requires buffer.Valid(mp) && HeaderOk() && !closed
      requires Configured() ==> Tracks()
      modifies Repr()
      ensures got == old(got)
      ensures buffer.Valid(mp) && HeaderOk()
      ensures Repr() == old(Repr())
      ensures Configured() && !closed ==> Tracks()
      ensures !Configured() ==> forwarded == old(forwarded)
      ensures old(forwarded) <= forwarded && AllAddressed(forwarded[|old(forwarded)|..], id, broker, agent, watchdog)
      ensures more ==> !closed && |Rest()| < old(|Rest()|)
      ensures !more ==> (Idle() && !closed) || closed
      ensures closed && Configured() ==> Parse(hs, got).tooLong && Payloads(forwarded) == Parse(hs, got).frames
    {
      hide Value, Unread, Parse, Frame, Excessive, Buffer.Linked;
      ghost var rest, before := Rest(), Payloads(forwarded);
      var size := ReadHeader();
      assert Repr() == old(Repr());
      if size < 0 {
        return false;
      }
      if size == 0 {
        EmptyRound(hs, rest);
        return true;
      }
      assert rest[..hs] == headerBytes && rest[hs..] == buffer.Contents();
      if size >= LIMIT {
        TooLongRound(hs, rest, size);
        buffer.Clear(mp);
        closed := true;
        return false;
      }
      FullRound(hs, rest, size, before);
      Forward(size);
      buffer.SetHeader(mp, 0);
      return true;
    }

    /** dispatch_message for one piece of the stream. */
    method Dispatch(data: seq<Byte>)
      requires buffer.Valid(mp) && HeaderOk() && Idle() && !closed
      requires Configured() ==> Tracks()
      modifies Repr()
      ensures buffer.Valid(mp) && HeaderOk() && fresh(Repr() - old(Repr()))
      ensures got == old(got) + data
      ensures !closed ==> Idle() && (Configured() ==> Tracks())
      ensures old(forwarded) <= forwarded && AllAddressed(forwarded[|old(forwarded)|..], id, broker, agent, watchdog)
      ensures !Configured() ==> forwarded == old(forwarded)
      ensures closed && Configured() ==> Parse(hs, got).tooLong && Payloads(forwarded) == Parse(hs, got).frames
    {
      hide Value, Unread, Parse, Excessive, Buffer.Linked, Whole;
      PushRound(hs, got, Rest(), data, Payloads(forwarded));
      buffer.Push(mp, data);
      got := got + data;
      assert Rest() == old(Rest()) + data;
      var more := true;
      while more
        invariant buffer.Valid(mp) && HeaderOk() && got == old(got) + data
        invariant fresh(Repr() - old(Repr()))
        invariant Configured() && !closed ==> Tracks()
        invariant old(forwarded) <= forwarded
        invariant AllAddressed(forwarded[|old(forwarded)|..], id, broker, agent, watchdog)
        invariant !Configured() ==> forwarded == old(forwarded)
        invariant more ==> !closed
        invariant !more && !closed ==> Idle()
        invariant closed && Configured() ==> Parse(hs, got).tooLong && Payloads(forwarded) == Parse(hs, got).frames
        decreases more, |Rest()|
      {
        more := Round();
      }
    }
  }

  /** More bytes arrive when nothing complete was left. */
  lemma PushRound(hs: HeaderSize, got: seq<Byte>, rest: seq<Byte>, data: seq<Byte>, before: seq<seq<Byte>>)
    requires !Whole(hs, rest) && !Excessive(hs, rest)
    ensures var p := Parse(hs, rest); var q := Parse(hs, rest + data);
            Parse(hs, got) == Parsed(before + p.frames, p.rest, p.tooLong) ==>
            Parse(hs, got + data) == Parsed(before + q.frames, q.rest, q.tooLong)
  {
    hide Parse, Whole, Excessive;
    ParseStops(hs, rest);
    if Parse(hs, got) == Parsed(before + [], rest, false) {
      ParseAppend(hs, got, data);
    }
  }

  lemma EmptyRound(hs: HeaderSize, rest: seq<Byte>)
    requires Whole(hs, rest) && Value(rest[..hs]) == 0
    ensures Parse(hs, rest) == Parse(hs, rest[hs..])
  {
    assert rest[hs..hs + 0] == [];
    ParseWhole(hs, rest);
  }

  lemma TooLongRound(hs: HeaderSize, rest: seq<Byte>, size: nat)
    requires |rest| >= hs && Value(rest[..hs]) == size >= LIMIT && |rest| >= hs + size
    ensures Parse(hs, rest) == Parsed([], rest, true)
  {
    ParseStops(hs, rest);
  }

  lemma FullRound(hs: HeaderSize, rest: seq<Byte>, size: nat, before: seq<seq<Byte>>)
    requires |rest| >= hs && 0 < Value(rest[..hs]) == size < LIMIT && |rest| >= hs + size
    ensures var p := Parse(hs, rest); var q := Parse(hs, rest[hs..][size..]);
            p.rest == q.rest && p.tooLong == q.tooLong
            && before + p.frames == (before + [rest[hs..][..size]]) + q.frames
  {
    hide Value, Parse;
    ParseWhole(hs, rest);
    assert rest[hs..][size..] == rest[hs + size..] && rest[hs..][..size] == rest[hs..hs + size];
    assert Frame(rest[hs..hs + size]) == [rest[hs..hs + size]];
  }

  // ---- Whole connections

  function Flatten(pieces: seq<seq<Byte>>): seq<Byte> {
    if pieces == [] then [] else Flatten(pieces[..|pieces| - 1]) + pieces[|pieces| - 1]
  }

  /**
   A connection receives its stream in pieces. With a receiver it forwards exactly the frames of the
   stream read so far, however it was cut; without one it forwards nothing.
   */
  method Serve(hs: HeaderSize, id: int, broker: nat, agent: nat, watchdog: nat, pieces: seq<seq<Byte>>)
    returns (forwarded: seq<Forwarded>, read: nat)
    ensures read <= |pieces|
    ensures read < |pieces| ==>
              Parse(hs, Flatten(pieces[..read])).tooLong || (id <= 0 || (broker == 0 && agent == 0 && watchdog == 0))
    ensures if id > 0 && (broker != 0 || agent != 0 || watchdog != 0)
            then Payloads(forwarded) == Parse(hs, Flatten(pieces[..read])).frames
            else forwarded == []
    ensures AllAddressed(forwarded, id, broker, agent, watchdog)
    ensures Payloads(forwarded) == Parse(hs, Flatten(pieces[..read])).frames <==>
              (id > 0 && (broker != 0 || agent != 0 || watchdog != 0))
                || Parse(hs, Flatten(pieces[..read])).frames == []
  {
    hide Value, Parse, Excessive, Whole, Buffer.Linked, Unread;
    var c := new Connection(hs, id, broker, agent, watchdog);
    read := 0;
    while read < |pieces| && !c.closed
      invariant 0 <= read <= |pieces|
      invariant fresh(c) && fresh(c.Repr()) && c.hs == hs
      invariant c.id == id && c.broker == broker && c.agent == agent && c.watchdog == watchdog
      invariant AllAddressed(c.forwarded, id, broker, agent, watchdog)
      invariant c.Configured() == (id > 0 && (broker != 0 || agent != 0 || watchdog != 0))
      invariant c.buffer.Valid(c.mp) && c.HeaderOk() && c.got == Flatten(pieces[..read])
      invariant !c.closed ==> c.Idle() && (c.Configured() ==> c.Tracks())
      invariant !c.Configured() ==> c.forwarded == []
      invariant c.closed && c.Configured() ==>
                  Parse(hs, c.got).tooLong && Payloads(c.forwarded) == Parse(hs, c.got).frames
    {
      assert pieces[..read + 1][..read] == pieces[..read];
      c.Dispatch(pieces[read]);
      read := read + 1;
    }
    forwarded := c.forwarded;
    if !c.closed {
      ParseStops(hs, c.Rest());
      assert Payloads(forwarded) + [] == Payloads(forwarded);
    }
  }

  /** The messages a client framed come out, except empty ones, for every cutting of its stream. */
  method Relay(hs: HeaderSize, id: int, broker: nat, agent: nat, watchdog: nat, bodies: seq<seq<Byte>>,
      pieces: seq<seq<Byte>>)
    returns (forwarded: seq<Forwarded>)
    requires forall i :: 0 <= i < |bodies| ==> Fits(hs, bodies[i])
    requires Flatten(pieces) == Encode(hs, bodies)
    requires id > 0 && (broker != 0 || agent != 0 || watchdog != 0)
    ensures Payloads(forwarded) == NonEmpty(bodies) && AllAddressed(forwarded, id, broker, agent, watchdog)
  {
    hide Parse, Encode, Fits;
    var read: nat;
    forwarded, read := Serve(hs, id, broker, agent, watchdog, pieces);
    ParseEncode(hs, bodies);
    FlattenPrefix(pieces, read);
    NeverTooLong(hs, Flatten(pieces[..read]), FlattenRest(pieces, read));
    assert pieces[..|pieces|] == pieces;
  }

  function FlattenRest(pieces: seq<seq<Byte>>, n: nat): seq<Byte>
    requires n <= |pieces|
    decreases |pieces|
  {
    if n == |pieces| then [] else FlattenRest(pieces[..|pieces| - 1], n) + pieces[|pieces| - 1]
  }

  lemma {:induction false} FlattenPrefix(pieces: seq<seq<Byte>>, n: nat)
    requires n <= |pieces|
    ensures Flatten(pieces) == Flatten(pieces[..n]) + FlattenRest(pieces, n)
    decreases |pieces|
  {
    if n == |pieces| {
      assert pieces[..n] == pieces;
    } else {
      var front := pieces[..|pieces| - 1];
      FlattenPrefix(front, n);
      assert front[..n] == pieces[..n];
      Regroup(Flatten(pieces[..n]), FlattenRest(front, n), pieces[|pieces| - 1]);
    }
  }

  lemma {:induction false} NeverTooLong(hs: HeaderSize, a: seq<Byte>, b: seq<Byte>)
    requires !Parse(hs, a + b).tooLong
    ensures !Parse(hs, a).tooLong
    decreases |a|
  {
    hide Parse, Value;
    if Whole(hs, a) {
      ParseWhole(hs, a);
      WholeAppend(hs, a, b);
      ParseWhole(hs, a + b);
      NeverTooLong(hs, a[hs + Value(a[..hs])..], b);
    } else {
      ParseStops(hs, a);
      if Excessive(hs, a) {
        assert (a + b)[..hs] == a[..hs];
        ParseStops(hs, a + b);
      }
    }
  }
}
