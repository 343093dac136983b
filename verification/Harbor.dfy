/**
 One connection of a harbor service (service_harbor.c): messages queue up until the connection is
 there, then go out as frames; incoming bytes are cut into frames whatever pieces they come in.
 */
module HarborService {

  import opened Prelude
  import opened Rings
  import opened HarborWire

  const DEFAULT_QUEUE_SIZE := 1024

  const Nothing := Packed(Header(0, 0, 0), [])

  /** harbor_msg_queue: a ring that always keeps one place free. */
  class Queue {
    var size: nat
    var head: nat
    var tail: nat
    var data: array<Packed>

    ghost predicate Valid()
      reads this, data
    {
      size >= 2 && data.Length == size && head < size && tail < size
    }

    ghost function Contents(): seq<Packed>
      reads this, data
      requires Valid()
    {
      Ring(data[..], head, tail)
    }

    constructor ()
      ensures Valid() && fresh(data) && Contents() == []
    {
      size := DEFAULT_QUEUE_SIZE;
      head, tail := 0, 0;
      data := new Packed[DEFAULT_QUEUE_SIZE](_ => Nothing);
    }

    /** The expansion in push_queue_msg. */
    method Expand()
      requires Valid() && (tail + 1) % size == head
      modifies this
      ensures Valid() && fresh(data) && Contents() == old(Contents())
      ensures (tail + 1) % size != head
    {
      hide Ring;
      ghost var before := Contents();
      Full(data[..], head, tail);
      var bigger := new Packed[size * 2](_ => Nothing);
      var i := 0;
      while i < size - 1
        invariant 0 <= i <= size - 1
        invariant forall k :: 0 <= k < i ==> bigger[k] == before[k]
        modifies bigger
      {
        RingAt(data[..], head, tail, i);
        bigger[i] := data[(i + head) % size];
        i := i + 1;
      }
      assert bigger[..size - 1] == before;
      RingFlat(bigger[..], size - 1);
      data := bigger;
      head := 0;
      tail := size - 1;
      size := size * 2;
      Next(tail, size);
    }

    method Push(m: Packed)
      requires Valid()
      modifies this, data
      ensures Valid() && (data == old(data) || fresh(data))
      ensures Contents() == old(Contents()) + [m]
    {
      hide Ring;
      if (tail + 1) % size == head {
        Expand();
      }
      Next(tail, size);
      RingPush(data[..], head, tail, m);
      ghost var after := data[..][tail := m];
      data[tail] := m;
      assert data[..] == after;
      tail := (tail + 1) % size;
    }

    method Pop() returns (m: Option<Packed>)
      requires Valid()
      modifies this`head
      ensures Valid()
      ensures old(Contents()) == Head(m) + Contents()
      ensures m == None ==> Contents() == []
    {
      if head == tail {
        return None;
      }
      m := Some(data[head]);
      Next(head, size);
      RingPop(data[..], head, tail);
      head := (head + 1) % size;
    }
  }

  lemma Next(i: nat, size: nat)
    requires i < size
    ensures (i + 1) % size == if i + 1 >= size then 0 else i + 1
  {
  }

  lemma RingFlat<T>(a: seq<T>, tail: nat)
    requires tail < |a|
    ensures Ring(a, 0, tail) == a[..tail]
  {
  }

  lemma Full<T>(a: seq<T>, head: nat, tail: nat)
    requires head < |a| && tail < |a| && (tail + 1) % |a| == head
    ensures |Ring(a, head, tail)| == |a| - 1
  {
    Next(tail, |a|);
  }

  /** memcpy(buf + at, bytes, |bytes|). */
  function Patch(buf: seq<Byte>, at: nat, bytes: seq<Byte>): (r: seq<Byte>)
    requires at + |bytes| <= |buf|
    ensures |r| == |buf| && r[..at + |bytes|] == buf[..at] + bytes
  {
    buf[..at] + bytes + buf[at + |bytes|..]
  }

  function ForwardAll(id: Byte, bodies: seq<seq<Byte>>): seq<Message>
    requires forall b :: b in bodies ==> |b| >= HEADER_COOKIE_LENGTH
  {
    seq(|bodies|, i requires 0 <= i < |bodies| => Forward(id, bodies[i]))
  }

  lemma {:induction false} BodiesLongEnough(b: seq<Byte>)
    ensures forall x :: x in Parse(b).bodies ==> |x| >= HEADER_COOKIE_LENGTH
    decreases |b|
  {
    hide Parse, LengthOf;
    if Whole(b) {
      ParseWhole(b);
      BodiesLongEnough(b[4 + LengthOf(b)..]);
    } else {
      ParseStops(b);
    }
  }

  /** What harbor 'id' hands to its services after receiving the bytes b. */
  function Deliveries(id: Byte, b: seq<Byte>): seq<Message> {
    BodiesLongEnough(b);
    ForwardAll(id, Parse(b).bodies)
  }

  lemma {:induction false} EncodeAppend(x: seq<Packed>, y: seq<Packed>)
    ensures Encode(x + y) == Encode(x) + Encode(y)
  {
    hide Frame;
    if y == [] {
      assert x + y == x;
    } else {
      var front, last := y[..|y| - 1], y[|y| - 1];
      EncodeAppend(x, front);
      assert (x + y)[..|x + y| - 1] == x + front;
      assert (Encode(x) + Encode(front)) + Frame(last) == Encode(x) + (Encode(front) + Frame(last));
    }
  }

  function Head(p: Option<Packed>): seq<Packed> {
    if p.Some? then [p.value] else []
  }

  lemma EncodeNone()
    ensures Encode([]) == []
  {
  }

  lemma EncodeOne(p: Packed)
    ensures Encode([p]) == Frame(p)
  {
    assert [p][..0] == [];
  }

  lemma EncodeSnoc(before: seq<Byte>, ps: seq<Packed>, p: Packed)
    ensures before + Encode(ps) + Frame(p) == before + Encode(ps + [p])
  {
    hide Encode, Frame;
    EncodeAppend(ps, [p]);
    EncodeOne(p);
  }

  // ---- Parsing in pieces

  /** A protocol error stays one. */
  lemma {:induction false} ParseStuck(a: seq<Byte>, b: seq<Byte>)
    requires Parse(a).end != Good
    ensures Parse(a + b).end == Parse(a).end && Parse(a + b).bodies == Parse(a).bodies
    decreases |a|
  {
    hide Parse, LengthOf;
    if Whole(a) {
      ParseWhole(a);
      WholeAppend(a, b);
      ParseWhole(a + b);
      ParseStuck(a[4 + LengthOf(a)..], b);
    } else {
      StuckNow(a, b);
    }
  }

  lemma StuckNow(a: seq<Byte>, b: seq<Byte>)
    requires !Whole(a) && Parse(a).end != Good
    ensures Parse(a + b).end == Parse(a).end && Parse(a + b).bodies == Parse(a).bodies
  {
  }

  /** Fewer than four bytes of a header. */
  lemma ParsePiece(got: seq<Byte>, rest: seq<Byte>, x: seq<Byte>)
    requires Parse(got).end == Good && Parse(got).rest == rest && |rest + x| < 4
    ensures Parse(got + x) == Parsed(Parse(got).bodies, rest + x, Good)
  {
    ParseAppend(got, x);
  }

  /** The fourth byte of a header. */
  lemma ParseHeader(got: seq<Byte>, rest: seq<Byte>, x: seq<Byte>)
    requires Parse(got).end == Good && Parse(got).rest == rest && |rest + x| == 4
    ensures var h := rest + x;
            Parse(got + x) == Parsed(Parse(got).bodies, h, if h[0] != 0 then TooLong else Good)
  {
    ParseAppend(got, x);
  }

  /** Content that does not complete the body. */
  lemma ParseContent(got: seq<Byte>, head: seq<Byte>, part: seq<Byte>, x: seq<Byte>)
    requires Parse(got).end == Good && Parse(got).rest == head + part && |head| == 4 && head[0] == 0
    requires |part| + |x| < LengthOf(head)
    ensures Parse(got + x) == Parsed(Parse(got).bodies, head + (part + x), Good)
  {
    hide Parse, LengthOf;
    ParseAppend(got, x);
    var b := head + (part + x);
    assert head + part + x == b;
    SameLength(head, part + x);
    ParseIncomplete(b);
  }

  lemma SameLength(head: seq<Byte>, x: seq<Byte>)
    requires |head| >= 4
    ensures LengthOf(head + x) == LengthOf(head)
  {
  }

  lemma ParseIncomplete(b: seq<Byte>)
    requires |b| >= 4 && b[0] == 0 && |b| < 4 + LengthOf(b)
    ensures Parse(b) == Parsed([], b, Good)
  {
  }

  /** Content that completes the body. */
  lemma ParseComplete(got: seq<Byte>, head: seq<Byte>, part: seq<Byte>, x: seq<Byte>)
    requires Parse(got).end == Good && Parse(got).rest == head + part && |head| == 4 && head[0] == 0
    requires LengthOf(head) >= HEADER_COOKIE_LENGTH && |part| + |x| == LengthOf(head)
    ensures Parse(got + x) == Parsed(Parse(got).bodies + [part + x], [], Good)
  {
    hide Parse, LengthOf;
    ParseAppend(got, x);
    var b := head + (part + x);
    assert head + part + x == b;
    SameLength(head, part + x);
    ParseWhole(b);
    ParseEmpty();
    assert b[4..4 + LengthOf(b)] == part + x;
    assert b[4 + LengthOf(b)..] == [];
  }

  /** Content that completes a body shorter than the cookie. */
  lemma ParseFault(got: seq<Byte>, head: seq<Byte>, part: seq<Byte>, x: seq<Byte>)
    requires Parse(got).end == Good && Parse(got).rest == head + part && |head| == 4 && head[0] == 0
    requires LengthOf(head) < HEADER_COOKIE_LENGTH && |part| + |x| >= LengthOf(head) && x != []
    ensures Parse(got + x).bodies == Parse(got).bodies && Parse(got + x).end == Short
  {
    hide Parse, LengthOf;
    ParseAppend(got, x);
    assert head + part + x == head + (part + x);
    SameLength(head, part + x);
    ParseTooShort(head + (part + x));
  }

  lemma ParseTooShort(b: seq<Byte>)
    requires |b| > 4 && b[0] == 0 && LengthOf(b) < HEADER_COOKIE_LENGTH && |b| >= 4 + LengthOf(b)
    ensures Parse(b) == Parsed([], b, Short)
  {
  }

  lemma DeliverOne(id: Byte, a: seq<Byte>, b: seq<Byte>, body: seq<Byte>)
    requires |body| >= HEADER_COOKIE_LENGTH && Parse(b).bodies == Parse(a).bodies + [body]
    ensures Deliveries(id, b) == Deliveries(id, a) + [Forward(id, body)]
  {
    hide Forward, Parse;
    BodiesLongEnough(a);
    BodiesLongEnough(b);
  }

  // ---- The connection

  /** Fault: the cookie was read from in front of the buffer. */
  datatype Status = Wait | Handshake | ReadHeader | ReadContent | Down | Fault

  predicate Up(s: Status) {
    s == ReadHeader || s == ReadContent
  }

  class Harbor {
    const id: Byte                 // this harbor
    const peer: Byte               // the harbor at the other end
    var fd: int
    var status: Status
    var queue: Queue?
    var length: nat
    var read: nat
    var size: seq<Byte>
    var recvBuffer: seq<Byte>
    var out: seq<Byte>             // bytes given to the socket
    var delivered: seq<Message>    // messages from the peer, given to local services
    var local: seq<Message>        // messages that never leave
    var bounced: seq<Message>      // messages answered by PTYPE_ERROR
    ghost var sent: seq<Packed>    // messages accepted for the peer
    ghost var got: seq<Byte>       // bytes of frames received

    ghost predicate QueueValid()
      reads this, queue, if queue == null then {} else {queue.data}
    {
      queue != null ==> queue.Valid()
    }

    ghost function Repr(): set<object?>
      reads this, queue
    {
      if queue == null then {this} else {this, queue, queue.data}
    }

    ghost function Waiting(): seq<Packed>
      reads this, queue, if queue == null then {} else {queue.data}
      requires QueueValid()
    {
      if queue == null then [] else queue.Contents()
    }

    /** What is on the wire and what waits for the connection is all that was accepted, in order. */
    ghost predicate Outgoing()
      reads this, queue, if queue == null then {} else {queue.data}
    {
      && QueueValid()
      && (fd == 0 <==> status == Wait || status == Down)
      && match status
         case Wait => out == [] && Waiting() == sent
         case Handshake => out == [id] && Waiting() == sent
         case ReadHeader | ReadContent | Fault => out == [id] + Encode(sent) && queue == null
         case Down => queue == null
    }

    /** The decoder holds exactly the bytes that do not make a complete body yet. */
    ghost predicate Incoming()
      reads this
    {
      && |size| == 4
      && delivered == Deliveries(id, got)
      && match status
         case Wait | Handshake => got == [] && read == 0
         case ReadHeader => read < 4 && Parse(got).end == Good && Parse(got).rest == size[..read]
         case ReadContent =>
           && Parse(got).end == Good
           && size[0] == 0 && length == LengthOf(size)
           && |recvBuffer| == length && (read < length || read == 0)
           && Parse(got).rest == size + recvBuffer[..read]
         case Down => got != [] ==> Parse(got).end == TooLong
         case Fault => Parse(got).end == Short
    }

    ghost predicate Valid()
      reads this, queue, if queue == null then {} else {queue.data}
    {
      Outgoing() && Incoming()
    }

    constructor (id: Byte, peer: Byte)
      ensures Valid() && fresh(Repr()) && fd == 0 && status == Wait
      ensures this.id == id && this.peer == peer && out == [] && sent == [] && got == [] && delivered == []
    {
      this.id, this.peer := id, peer;
      fd, status, queue, length, read := 0, Wait, null, 0, 0;
      size, recvBuffer := [0, 0, 0, 0], [];
      out, delivered, local, bounced := [], [], [], [];
      sent, got := [], [];
      new;
      ParseEmpty();
    }

    method CloseHarbor()
      modifies this`status, this`fd, this`queue
      ensures status == Down && fd == 0 && queue == null
    {
      status := Down;
      fd := 0;
      queue := null;
    }

    method SendRemote(p: Packed)
      modifies this`out
      ensures out == old(out) + Frame(p)
    {
      if |p.payload| + HEADER_COOKIE_LENGTH <= 0xffff_ffff {
        out := out + ToBigEndian(|p.payload| + HEADER_COOKIE_LENGTH) + p.payload + Cookie(p.header);
      }
    }

    /** dispatch_queue. */
    method DispatchQueue()
      requires QueueValid()
      modifies this`out, this`queue, queue
      ensures queue == null && out == old(out) + Encode(old(Waiting()))
    {
      hide Ring, Frame;
      if queue == null {
        return;
      }
      hide Encode;
      var q := queue;
      ghost var waiting := q.Contents();
      var p := q.Pop();
      ghost var popped := [];
      EncodeNone();
      while p.Some?
        invariant q.Valid() && q == old(queue) == queue
        invariant out == old(out) + Encode(popped)
        invariant waiting == popped + (Head(p) + q.Contents())
        invariant p == None ==> q.Contents() == []
        decreases |q.Contents()|, p.Some?
      {
        SendRemote(p.value);
        EncodeSnoc(old(out), popped, p.value);
        Regroup(popped, [p.value], q.Contents());
        popped := popped + [p.value];
        p := q.Pop();
      }
      queue := null;
      assert waiting == popped;
    }

    /** remote_send_handle. */
    method SendHandle(m: Message)
      requires Valid()
      requires m.destination / HANDLE_RANGE in {id as int, peer as int}
      modifies Repr()
      ensures Valid() && fresh(Repr() - old(Repr()))
      ensures got == old(got) && status == old(status) && delivered == old(delivered) && old(out) <= out
      ensures if m.destination / HANDLE_RANGE == id
              then local == old(local) + [m] && sent == old(sent) && bounced == old(bounced)
              else if status == Down then bounced == old(bounced) + [m] && sent == old(sent) && local == old(local)
              else sent == old(sent) + [Pack(m)] && local == old(local) && bounced == old(bounced)
    {
      hide Ring, Encode, Frame, Parse, Deliveries;
      if m.destination / HANDLE_RANGE == id {
        local := local + [m];
        return;
      }
      if fd == 0 || status == Handshake {
        if status == Down {
          bounced := bounced + [m];
        } else {
          if queue == null {
            queue := new Queue();
          }
          queue.Push(Pack(m));
          sent := sent + [Pack(m)];
        }
      } else {
        SendRemote(Pack(m));
        EncodeSnoc([id], sent, Pack(m));
        sent := sent + [Pack(m)];
      }
    }

    /** The commands S ('connecting') and A of harbor_command, with a valid descriptor. */
    method Command(connecting: bool, newFd: int)
      requires Valid() && newFd != 0 && status != Down
      modifies Repr()
      ensures Valid() && fresh(Repr() - old(Repr())) && got == old(got) && sent == old(sent)
      ensures delivered == old(delivered)
      ensures fd == if old(fd) != 0 then old(fd) else newFd
      ensures status == if old(fd) != 0 then old(status) else if connecting then Handshake else ReadHeader
      ensures old(out) <= out && (old(fd) != 0 ==> out == old(out))
    {
      hide Ring, Encode, Frame, Parse;
      if fd != 0 {
        return;
      }
      fd := newFd;
      out := out + [id];
      if connecting {
        status := Handshake;
      } else {
        status := ReadHeader;
        DispatchQueue();
        GoodStart();
      }
    }

    /** STATUS_HEADER. 'done' says that push_socket_data returns. */
    method TakeHeader(buf: seq<Byte>) returns (rest: seq<Byte>, done: bool)
      requires Outgoing() && Incoming() && status == ReadHeader
      modifies this`status, this`fd, this`queue, this`length, this`read, this`size, this`recvBuffer, this`got
      ensures Outgoing() && Incoming() && (queue == null || queue == old(queue))
      ensures got + rest == old(got) + buf
      ensures done ==> rest == [] || status == Down
      ensures !done ==> status == ReadContent && rest != [] && |rest| < |buf|
      ensures status in {ReadHeader, ReadContent, Down}
      ensures status == Down ==> Parse(got).end == TooLong
      ensures done && status == ReadHeader ==> got == old(got) + buf
    {
      hide Ring, Encode, Parse, LengthOf, Deliveries, Patch, Forward;
      var need := 4 - read;
      if |buf| < need {
        ParsePiece(got, size[..read], buf);
        SameDeliveries(id, got, got + buf);
        size := Patch(size, read, buf);
        read := read + |buf|;
        got := got + buf;
        return [], true;
      }
      var x := buf[..need];
      rest := buf[need..];
      assert got + x + rest == got + buf;
      ParseHeader(got, size[..read], x);
      SameDeliveries(id, got, got + x);
      size := Patch(size, read, x);
      got := got + x;
      assert size == size[..4];
      if size[0] != 0 {
        CloseHarbor();
        return rest, true;
      }
      length := LengthOf(size);
      read := 0;
      recvBuffer := seq(length, _ => 0);
      status := ReadContent;
      assert size + recvBuffer[..0] == size;
      done := rest == [];
    }

    /** STATUS_CONTENT. A complete body is forwarded, unless it is shorter than the cookie. */
    method TakeContent(buf: seq<Byte>) returns (rest: seq<Byte>, done: bool)
      requires Outgoing() && Incoming() && status == ReadContent && buf != []
      modifies this`status, this`length, this`read, this`recvBuffer, this`got, this`delivered
      ensures Outgoing() && Incoming()
      ensures got + rest == old(got) + buf
      ensures done ==> rest == []
      ensures !done ==> status == ReadHeader && rest != [] && |rest| < |buf|
      ensures status in {ReadHeader, ReadContent, Fault}
    {
      hide Ring, Encode, Parse, LengthOf, Deliveries, Patch, Forward;
      var need := length - read;
      if |buf| < need {
        ParseContent(got, size, recvBuffer[..read], buf);
        SameDeliveries(id, got, got + buf);
        recvBuffer := Patch(recvBuffer, read, buf);
        read := read + |buf|;
        got := got + buf;
        return [], true;
      }
      if length < HEADER_COOKIE_LENGTH {
        ParseFault(got, size, recvBuffer[..read], buf);
        SameDeliveries(id, got, got + buf);
        status, got := Fault, got + buf;
        return [], true;
      }
      var x := buf[..need];
      rest := buf[need..];
      ParseComplete(got, size, recvBuffer[..read], x);
      recvBuffer := Patch(recvBuffer, read, x);
      assert recvBuffer == recvBuffer[..length];
      DeliverOne(id, got, got + x, recvBuffer);
      delivered := delivered + [Forward(id, recvBuffer)];
      got := got + x;
      length, read, recvBuffer := 0, 0, [];
      status := ReadHeader;
      done := rest == [];
    }

    /** push_socket_data for one piece of the stream. */
    method PushSocketData(buffer: seq<Byte>)
      requires Valid() && buffer != [] && fd != 0
      modifies Repr()
      ensures Valid() && fresh(Repr() - old(Repr())) && sent == old(sent)
      ensures old(out) <= out && (old(status) != Handshake ==> out == old(out))
      ensures old(status) == Handshake && buffer[0] != peer ==> status == Down && got == []
      ensures !(old(status) == Handshake && buffer[0] != peer) ==>
                var all := old(got) + if old(status) == Handshake then buffer[1..] else buffer;
                && delivered == Deliveries(id, all)
                && (status == Down <==> Parse(all).end == TooLong)
                && (status == Fault <==> Parse(all).end == Short)
                && (Up(status) <==> Parse(all).end == Good) && (Up(status) ==> got == all)
    {
      hide Ring, Encode, Parse, LengthOf, Deliveries, Patch, Forward;
      var buf := buffer;
      if status == Fault {
        StillStuck(id, got, buf);
        return;
      }
      if status == Handshake {
        if buf[0] != peer {
          CloseHarbor();
          return;
        }
        buf := buf[1..];
        status := ReadHeader;
        DispatchQueue();
        GoodStart();
      }
      ghost var all := got + buf;
      if status == ReadHeader {
        var done;
        buf, done := TakeHeader(buf);
        if done {
          Stopped(all, buf);
          return;
        }
      }
      while true
        invariant Outgoing() && Incoming() && status == ReadContent && buf != []
        invariant got + buf == all
        invariant queue == null && sent == old(sent) && old(out) <= out
        invariant old(status) != Handshake ==> out == old(out)
        decreases |buf|
        modifies this
      {
        var done;
        buf, done := TakeContent(buf);
        if done {
          Stopped(all, buf);
          return;
        }
        buf, done := TakeHeader(buf);
        if done {
          Stopped(all, buf);
          return;
        }
      }
    }

    /** Where push_socket_data returns, the state says how the whole stream parses. */
    lemma Stopped(all: seq<Byte>, rest: seq<Byte>)
      requires Incoming() && got + rest == all && (rest == [] || status == Down)
      requires Up(status) || status == Fault || (status == Down && Parse(got).end == TooLong)
      ensures delivered == Deliveries(id, all)
      ensures (status == Down <==> Parse(all).end == TooLong) && (status == Fault <==> Parse(all).end == Short)
      ensures (Up(status) <==> Parse(all).end == Good) && (Up(status) ==> got == all)
    {
      hide Parse, Deliveries;
      if status == Down {
        StillStuck(id, got, rest);
      } else {
        assert got + [] == got;
      }
    }
  }

  lemma GoodStart()
    ensures Parse([]).end == Good && Parse([]).rest == []
  {
  }

  lemma SameDeliveries(id: Byte, a: seq<Byte>, b: seq<Byte>)
    requires Parse(b).bodies == Parse(a).bodies
    ensures Deliveries(id, b) == Deliveries(id, a)
  {
  }

  lemma StillStuck(id: Byte, a: seq<Byte>, b: seq<Byte>)
    requires Parse(a).end != Good
    ensures Parse(a + b).end == Parse(a).end && Deliveries(id, a + b) == Deliveries(id, a)
  {
    hide Parse, Deliveries;
    ParseStuck(a, b);
    SameDeliveries(id, a, a + b);
  }
}
