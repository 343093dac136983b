/**
 Two harbors and the stream between them: 'a' connects (command S), 'b' accepts (command A). The
 first byte 'a' writes, its id, is read by b's slave service before it issues the command.
 */
module HarborLink {

  import opened Prelude
  import opened HarborWire
  import opened HarborService

  /** What may happen, in any order; deliveries cut the stream anywhere. */
  datatype Event =
    | SendFromA(m: Message)
    | SendFromB(m: Message)
    | Connect
    | Accept
    | DeliverToB(n: nat)
    | DeliverToA(n: nat)

  function PackAll(ms: seq<Message>): seq<Packed> {
    seq(|ms|, i requires 0 <= i < |ms| => Pack(ms[i]))
  }

  function ArriveAll(id: Byte, ms: seq<Message>): seq<Message> {
    seq(|ms|, i requires 0 <= i < |ms| => Arrives(id, ms[i]))
  }

  /** A message small enough for the receiver and addressed to harbor 'to'. */
  predicate Sendable(m: Message, to: Byte) {
    Fits(Pack(m)) && m.destination / HANDLE_RANGE == to
  }

  ghost predicate AllFit(ms: seq<Message>) {
    forall i :: 0 <= i < |ms| ==> Fits(Pack(ms[i]))
  }

  lemma PartGood(ms: seq<Message>, got: seq<Byte>, more: seq<Byte>)
    requires AllFit(ms) && Encode(PackAll(ms)) == got + more
    ensures Parse(got).end == Good
  {
    hide Parse, Encode, Fits;
    ParsePart(PackAll(ms), got, more);
  }

  /** Whatever part of the stream has arrived, the deliveries are a part of what was sent. */
  lemma DeliveredInOrder(id: Byte, ms: seq<Message>, got: seq<Byte>, more: seq<Byte>)
    requires AllFit(ms) && Encode(PackAll(ms)) == got + more
    ensures Deliveries(id, got) <= ArriveAll(id, ms)
    ensures more == [] ==> Deliveries(id, got) == ArriveAll(id, ms)
  {
    hide Parse, Encode, Fits, Forward, Arrives, Body, Pack;
    ParsePart(PackAll(ms), got, more);
    BodiesLongEnough(got);
    var bodies := Parse(got).bodies;
    forall i | 0 <= i < |bodies|
      ensures Forward(id, bodies[i]) == Arrives(id, ms[i])
    {
      assert bodies[i] == Bodies(PackAll(ms))[i] == Body(Pack(ms[i]));
      ForwardRoundTrip(id, ms[i]);
    }
  }

  class Link {
    const a: Harbor
    const b: Harbor
    var toB: nat                   // bytes of a.out that have been read at b's end
    var toA: nat
    ghost var fromA: seq<Message>  // what a was given to send
    ghost var fromB: seq<Message>

    ghost predicate Valid()
      reads this, a, b, a.Repr(), b.Repr()
    {
      && a.Valid() && b.Valid() && this !in a.Repr() && this !in b.Repr() && a.Repr() !! b.Repr()
      && a.peer == b.id && b.peer == a.id && a.id != b.id
      && a.status != Down && b.status != Down && b.status != Handshake && a.status != Fault && b.status != Fault
      && a.sent == PackAll(fromA) && b.sent == PackAll(fromB) && AllFit(fromA) && AllFit(fromB)
      && toB <= |a.out| && toA <= |b.out|
      && (if b.status == Wait then toB == 0 else toB == 1 + |b.got| && a.out[1..toB] == b.got)
      && (if a.status == Wait || a.status == Handshake then toA == 0 else toA == 1 + |a.got| && b.out[1..toA] == a.got)
    }

    constructor (idA: Byte, idB: Byte)
      requires idA != idB
      ensures Valid() && fresh(this) && fresh(a.Repr()) && fresh(b.Repr())
      ensures a.id == idA && b.id == idB && fromA == [] && fromB == []
    {
      hide Harbor.Outgoing, Harbor.Incoming;
      a := new Harbor(idA, idB);
      b := new Harbor(idB, idA);
      toB, toA, fromA, fromB := 0, 0, [], [];
    }

    method Send(m: Message, byA: bool)
      requires Valid() && Sendable(m, if byA then b.id else a.id)
      modifies this, a.Repr(), b.Repr()
      ensures Valid() && fresh(a.Repr() - old(a.Repr())) && fresh(b.Repr() - old(b.Repr()))
      ensures fromA == if byA then old(fromA) + [m] else old(fromA)
      ensures fromB == if byA then old(fromB) else old(fromB) + [m]
    {
      hide Harbor.Outgoing, Harbor.Incoming, Pack, Fits;
      if byA {
        a.SendHandle(m);
        fromA := fromA + [m];
        assert a.sent == PackAll(fromA);
      } else {
        b.SendHandle(m);
        fromB := fromB + [m];
        assert b.sent == PackAll(fromB);
      }
    }

    method Connect()
      requires Valid()
      modifies this, a.Repr(), b.Repr()
      ensures Valid() && fresh(a.Repr() - old(a.Repr())) && fresh(b.Repr() - old(b.Repr()))
      ensures fromA == old(fromA) && fromB == old(fromB)
      ensures a.status != Wait
    {
      hide Harbor.Outgoing, Harbor.Incoming;
      Facts(a);
      a.Command(true, 1);
    }

    /** The slave service has read a's id; now the harbor gets the descriptor. */
    method Accept()
      requires Valid()
      modifies this, a.Repr(), b.Repr()
      ensures Valid() && fresh(a.Repr() - old(a.Repr())) && fresh(b.Repr() - old(b.Repr()))
      ensures fromA == old(fromA) && fromB == old(fromB)
      ensures a.status == old(a.status) && (a.status != Wait ==> b.status != Wait)
    {
      hide Harbor.Outgoing, Harbor.Incoming, Parse, Encode, Fits, Pack, Deliveries, PackAll;
      Facts(a);
      Facts(b);
      if a.out != [] && b.status == Wait {
        b.Command(false, 1);
        toB := 1;
      }
    }

    method DeliverToB(n: nat)
      requires Valid()
      modifies this, a.Repr(), b.Repr()
      ensures Valid() && fresh(a.Repr() - old(a.Repr())) && fresh(b.Repr() - old(b.Repr()))
      ensures fromA == old(fromA) && fromB == old(fromB)
      ensures a.status == old(a.status) && a.out == old(a.out) && b.out == old(b.out) && toA == old(toA)
      ensures Up(b.status) <==> Up(old(b.status))
      ensures n >= |a.out| && b.status != Wait ==> toB == |a.out|
    {
      hide Harbor.Outgoing, Harbor.Incoming, Parse, Encode, Fits;
      Facts(a);
      Facts(b);
      var end := if toB + n > |a.out| then |a.out| else toB + n;
      if b.fd != 0 && toB < end {
        var piece := a.out[toB..end];
        NextPiece(a.out, toB, end, b.got);
        PartGood(fromA, b.got + piece, a.out[end..]);
        b.PushSocketData(piece);
        toB := end;
      }
    }

    method DeliverToA(n: nat)
      requires Valid()
      modifies this, a.Repr(), b.Repr()
      ensures Valid() && fresh(a.Repr() - old(a.Repr())) && fresh(b.Repr() - old(b.Repr()))
      ensures fromA == old(fromA) && fromB == old(fromB)
      ensures b.status == old(b.status) && b.out == old(b.out)
      ensures n >= |b.out| && old(a.status) != Wait && b.status != Wait ==> Up(a.status) && toA == |b.out|
    {
      hide Harbor.Outgoing, Harbor.Incoming, Parse, Encode, Fits, Pack, Deliveries, PackAll;
      Facts(a);
      Facts(b);
      var end := if toA + n > |b.out| then |b.out| else toA + n;
      if a.fd != 0 && toA < end {
        var piece := b.out[toA..end];
        PieceToA(end, piece);
        a.PushSocketData(piece);
        toA := end;
      }
    }

    /** The next piece for a: the first byte of the stream is b's id, and the rest parses. */
    lemma PieceToA(end: nat, piece: seq<Byte>)
      requires Valid() && a.fd != 0 && toA < end <= |b.out| && piece == b.out[toA..end]
      ensures a.status == Handshake ==> piece[0] == b.id
      ensures var all := a.got + if a.status == Handshake then piece[1..] else piece;
              Parse(all).end == Good && all == b.out[1..end]
    {
      hide Harbor.Outgoing, Harbor.Incoming, Parse, Encode, Fits, Pack, Deliveries, PackAll;
      Facts(a);
      Facts(b);
      NextPiece(b.out, toA, end, a.got);
      PartGood(fromB, b.out[1..end], b.out[end..]);
    }

    method Step(e: Event)
      requires Valid()
      modifies this, a.Repr(), b.Repr()
      ensures Valid() && fresh(a.Repr() - old(a.Repr())) && fresh(b.Repr() - old(b.Repr()))
      ensures fromA == old(fromA) + if e.SendFromA? && Sendable(e.m, b.id) then [e.m] else []
      ensures fromB == old(fromB) + if e.SendFromB? && Sendable(e.m, a.id) then [e.m] else []
    {
      hide Link.Valid;
      match e
      case SendFromA(m) => if Sendable(m, b.id) { Send(m, true); }
      case SendFromB(m) => if Sendable(m, a.id) { Send(m, false); }
      case Connect => Connect();
      case Accept => Accept();
      case DeliverToB(k) => DeliverToB(k);
      case DeliverToA(k) => DeliverToA(k);
    }

    /** Both ends get their connection. */
    method Establish()
      requires Valid()
      modifies this, a.Repr(), b.Repr()
      ensures Valid() && fresh(a.Repr() - old(a.Repr())) && fresh(b.Repr() - old(b.Repr()))
      ensures fromA == old(fromA) && fromB == old(fromB)
      ensures a.status != Wait && b.status != Wait
    {
      hide Link.Valid;
      Connect();
      Accept();
    }

    /** Everything under way is read. */
    method ReadAll()
      requires Valid() && a.status != Wait && b.status != Wait
      modifies this, a.Repr(), b.Repr()
      ensures Valid() && fresh(a.Repr() - old(a.Repr())) && fresh(b.Repr() - old(b.Repr()))
      ensures fromA == old(fromA) && fromB == old(fromB)
      ensures Up(a.status) && Up(b.status) && toB == |a.out| && toA == |b.out|
    {
      hide Link.Valid;
      Live();
      DeliverToA(|b.out|);
      DeliverToB(|a.out|);
    }

    lemma Live()
      requires Valid()
      ensures b.status != Wait ==> Up(b.status)
    {
    }

    lemma Outcome()
      requires Valid()
      ensures b.delivered <= ArriveAll(b.id, fromA) && a.delivered <= ArriveAll(a.id, fromB)
      ensures Up(a.status) && Up(b.status) && toB == |a.out| ==> b.delivered == ArriveAll(b.id, fromA)
      ensures Up(a.status) && Up(b.status) && toA == |b.out| ==> a.delivered == ArriveAll(a.id, fromB)
    {
      hide Harbor.Outgoing, Harbor.Incoming;
      DeliveredBy(a, b, toA, fromB);
      DeliveredBy(b, a, toB, fromA);
    }
  }

  /** What the state of a harbor says about its stream. */
  lemma Facts(h: Harbor)
    requires h.Valid()
    ensures h.status == Wait ==> h.out == [] && h.fd == 0
    ensures h.status != Wait && h.status != Down ==> h.fd != 0
    ensures h.status == Handshake ==> h.out == [h.id]
    ensures Up(h.status) ==> h.out == [h.id] + Encode(h.sent)
    ensures h.status == Wait || h.status == Handshake ==> h.got == []
    ensures h.delivered == Deliveries(h.id, h.got)
  {
  }

  /** The stream after its first byte, split before and after the next piece. */
  lemma NextPiece(out: seq<Byte>, read: nat, end: nat, got: seq<Byte>)
    requires read < end <= |out|
    requires if read == 0 then got == [] else got == out[1..read]
    ensures var now := got + if read == 0 then out[read..end][1..] else out[read..end];
            now == out[1..end] && out[1..] == now + out[end..]
  {
  }

  /** The messages of the run that each harbor was given for the other. */
  function Sent(run: seq<Event>, byA: bool, to: Byte): seq<Message> {
    if run == [] then []
    else
      var e := run[|run| - 1];
      Sent(run[..|run| - 1], byA, to) +
      if (if byA then e.SendFromA? else e.SendFromB?) && Sendable(e.m, to) then [e.m] else []
  }

  method Play(idA: Byte, idB: Byte, run: seq<Event>) returns (l: Link)
    requires idA != idB
    ensures l.Valid() && fresh(l) && fresh(l.a.Repr()) && fresh(l.b.Repr()) && l.a.id == idA && l.b.id == idB
    ensures l.fromA == Sent(run, true, idB) && l.fromB == Sent(run, false, idA)
  {
    hide Link.Valid;
    l := new Link(idA, idB);
    var n := 0;
    while n < |run|
      invariant 0 <= n <= |run|
      invariant l.Valid() && fresh(l) && fresh(l.a.Repr()) && fresh(l.b.Repr())
      invariant l.a.id == idA && l.b.id == idB
      invariant l.fromA == Sent(run[..n], true, idB) && l.fromB == Sent(run[..n], false, idA)
    {
      assert run[..n + 1][..n] == run[..n];
      l.Step(run[n]);
      n := n + 1;
    }
    assert run[..n] == run;
  }

  /**
   After every run each harbor has delivered, in order, the first of the messages the other was
   given, with only the high byte of the destination changed.
   */
  method Exchange(idA: Byte, idB: Byte, run: seq<Event>) returns (atA: seq<Message>, atB: seq<Message>)
    requires idA != idB
    ensures atB <= ArriveAll(idB, Sent(run, true, idB))
    ensures atA <= ArriveAll(idA, Sent(run, false, idA))
  {
    hide Link.Valid;
    var l := Play(idA, idB, run);
    l.Outcome();
    return l.a.delivered, l.b.delivered;
  }

  /** And all of them once both ends are connected and every byte has been read. */
  method ExchangeAll(idA: Byte, idB: Byte, run: seq<Event>) returns (atA: seq<Message>, atB: seq<Message>)
    requires idA != idB
    ensures atB == ArriveAll(idB, Sent(run, true, idB))
    ensures atA == ArriveAll(idA, Sent(run, false, idA))
  {
    hide Link.Valid;
    var l := Play(idA, idB, run);
    l.Establish();
    l.ReadAll();
    l.Outcome();
    return l.a.delivered, l.b.delivered;
  }

  lemma DeliveredBy(h: Harbor, from: Harbor, read: nat, ms: seq<Message>)
    requires h.Valid() && from.Valid() && AllFit(ms) && from.sent == PackAll(ms)
    requires h.status !in {Down, Fault} && from.status !in {Down, Fault} && read <= |from.out|
    requires Up(h.status) ==> read == 1 + |h.got| && from.out[1..read] == h.got
    ensures h.delivered <= ArriveAll(h.id, ms)
    ensures Up(h.status) && Up(from.status) && read == |from.out| ==> h.delivered == ArriveAll(h.id, ms)
  {
    hide Harbor.Outgoing, Harbor.Incoming, Parse, Encode, Fits, Deliveries;
    Facts(h);
    Facts(from);
    if Up(from.status) && Up(h.status) {
      assert Encode(PackAll(ms)) == from.out[1..] == h.got + from.out[read..];
      DeliveredInOrder(h.id, ms, h.got, from.out[read..]);
    } else {
      assert h.got == [];
      NothingDelivered(h.id);
    }
  }

  lemma NothingDelivered(id: Byte)
    ensures Deliveries(id, []) == []
  {
    ParseEmpty();
  }
}
