/**
 Sending makes progress: when the poller reports a socket on which something waits, the next bytes are
 written; and from every state that the sending threads and the socket thread can get into, they can go
 on, without a new package, until everything handed in has been written.
 */
module SocketProgress {

  import opened Prelude
  import opened SocketSend

  // ---- Continuations in which no package is handed in

  ghost predicate Path(s: State, moves: seq<Choice>, e: State)
    decreases |moves|
  {
    if moves == [] then s == e
    else Enabled(s, moves[0]) && !moves[0].Begin? && Path(Next(s, moves[0]), moves[1..], e)
  }

  ghost predicate Leads(s: State, e: State) {
    exists moves :: Path(s, moves, e)
  }

  lemma {:induction false} PathAppend(s: State, a: seq<Choice>, m: State, b: seq<Choice>, e: State)
    requires Path(s, a, m) && Path(m, b, e)
    ensures Path(s, a + b, e)
    decreases |a|
  {
    hide Next, Enabled;
    if a == [] {
      assert a + b == b;
    } else {
      assert (a + b)[1..] == a[1..] + b && (a + b)[0] == a[0];
      PathAppend(Next(s, a[0]), a[1..], m, b, e);
    }
  }

  lemma LeadsOn(s: State, m: State, e: State)
    requires Leads(s, m) && Leads(m, e)
    ensures Leads(s, e)
  {
    hide Path;
    var a :| Path(s, a, m);
    var b :| Path(m, b, e);
    PathAppend(s, a, m, b, e);
  }

  lemma LeadsNowhere(s: State)
    ensures Leads(s, s)
  {
    assert Path(s, [], s);
  }

  lemma PathStep(s: State, c: Choice, moves: seq<Choice>, e: State)
    requires Enabled(s, c) && !c.Begin? && Path(Next(s, c), moves, e)
    ensures Path(s, [c] + moves, e)
  {
    hide Next, Enabled;
    assert ([c] + moves)[1..] == moves;
  }

  lemma PathNone(s: State)
    ensures Path(s, [], s)
  {
  }

  lemma LeadsStep(s: State, c: Choice)
    requires Enabled(s, c) && !c.Begin?
    ensures Leads(s, Next(s, c))
  {
    hide Next, Enabled, Path;
    PathNone(Next(s, c));
    PathStep(s, c, [], Next(s, c));
  }

  ghost predicate Good(s: State) {
    Inv(s) && Watched(s)
  }

  lemma GoodStep(s: State, c: Choice)
    requires Good(s) && Enabled(s, c)
    ensures Good(Next(s, c))
  {
    hide Next, Inv, Watched, Enabled;
    StepOk(s, c);
    WatchedStep(s, c);
  }

  lemma {:induction false} PathGood(s: State, moves: seq<Choice>, e: State)
    requires Good(s) && Path(s, moves, e)
    ensures Good(e) && e.begun == s.begun
    decreases |moves|
  {
    hide Next, Good, Enabled;
    if moves != [] {
      GoodStep(s, moves[0]);
      SameBegun(s, moves[0]);
      PathGood(Next(s, moves[0]), moves[1..], e);
    }
  }

  lemma SameBegun(s: State, c: Choice)
    requires Enabled(s, c) && !c.Begin?
    ensures Next(s, c).begun == s.begun
  {
    hide ReadsNothing, Rest, Written;
  }

  lemma LeadsGood(s: State, e: State)
    requires Good(s) && Leads(s, e)
    ensures Good(e) && e.begun == s.begun
  {
    hide Path, Good;
    var moves :| Path(s, moves, e);
    PathGood(s, moves, e);
  }

  lemma RunGood(ids: set<nat>, run: seq<Choice>)
    ensures Good(Run(Init(ids), run))
  {
    hide Run, Init, Inv, Watched;
    InitOk(ids);
    RunOk(Init(ids), run);
    WatchedRun(ids, run);
  }

  /** A step that is taken. */
  lemma Take(s: State, c: Choice)
    requires Good(s) && Enabled(s, c) && !c.Begin?
    ensures Good(Next(s, c)) && Leads(s, Next(s, c))
  {
    hide Next, Good, Leads, Enabled;
    GoodStep(s, c);
    LeadsStep(s, c);
  }

  // ---- The next bytes of the line

  /** What the socket thread does: take the lock, and go on to the low list when the high one is empty. */
  function Moves(s: State, k: nat): seq<Choice> {
    if s.dw == None && s.high == [] then [Writable, Write(false, 0), Write(false, k)] else [Writable, Write(false, k)]
  }

  /** The socket thread may look at the socket. */
  predicate Reported(s: State) {
    s.phase == Idle && !s.counted && s.lock == NoOne && s.writing
  }

  /**
   When something waits and the poller reports the socket, the socket thread takes the steps of
   send_buffer, and a write of k bytes appends exactly the next k bytes of the first buffer in line.
   */
  lemma WritesNext(ids: set<nat>, run: seq<Choice>, k: nat)
    requires var s := Run(Init(ids), run); Reported(s) && Line(s) != [] && k <= Rest(Line(s)[0])
    ensures var s := Run(Init(ids), run); var b := Line(s)[0];
            && b.off + k <= |b.pkg.data|
            && exists e :: Path(s, Moves(s, k), e) && e.wire == s.wire + b.pkg.data[b.off..b.off + k]
  {
    hide Run, Init, Inv, Watched, Path, Next;
    var s := Run(Init(ids), run);
    RunGood(ids, run);
    LineNow(s);
    var u := Next(s, Writable);
    Locked(s);
    GoodStep(s, Writable);
    if s.dw == None && s.high == [] {
      ToLow(u);
      var v := Next(u, Write(false, 0));
      GoodStep(u, Write(false, 0));
      LowWrite(v, k);
      var e := Next(v, Write(false, k));
      PathNone(e);
      assert [Write(false, k)] + [] == [Write(false, k)];
      PathStep(v, Write(false, k), [], e);
      PathStep(u, Write(false, 0), [Write(false, k)], e);
      PathStep(s, Writable, [Write(false, 0)] + [Write(false, k)], e);
      assert [Writable] + ([Write(false, 0)] + [Write(false, k)]) == Moves(s, k);
    } else {
      HighWrite(u, k);
      var e := Next(u, Write(false, k));
      PathNone(e);
      assert [Write(false, k)] + [] == [Write(false, k)];
      PathStep(u, Write(false, k), [], e);
      PathStep(s, Writable, [Write(false, k)], e);
      assert [Writable] + [Write(false, k)] == Moves(s, k);
    }
  }

  lemma LineNow(s: State)
    requires Good(s) && s.lock == NoOne && Line(s) != []
    ensures Line(s) == Dw(s) + (s.high + s.low)
    ensures Line(s)[0].off <= |Line(s)[0].pkg.data|
  {
    hide CounterOk, DirectsOk, FlowOk, WireOk, ThreadsOk, Watched;
    assert Hand(s) == [];
    assert [] + (Dw(s) + (s.high + s.low)) == Dw(s) + (s.high + s.low);
    assert ListsOk(s);
    if s.dw.Some? {
      assert Line(s)[0] == s.dw.value;
    } else if s.high != [] {
      assert Line(s)[0] == s.high[0];
    } else {
      assert Line(s)[0] == s.low[0];
    }
  }

  lemma Locked(s: State)
    requires Reported(s)
    ensures Enabled(s, Writable)
    ensures var u := Next(s, Writable);
            && u.phase == SendingHigh && u.lock == SocketThread && u.low == s.low && u.wire == s.wire && u.dw == None
            && u.high == Dw(s) + s.high
            && u.pipe == s.pipe && u.counted == s.counted && u.pushing == s.pushing && u.senders == s.senders
  {
  }

  lemma ToLow(u: State)
    requires u.phase == SendingHigh && u.high == [] && u.low != []
    ensures Enabled(u, Write(false, 0))
    ensures var v := Next(u, Write(false, 0)); v == u.(phase := SendingLow)
  {
  }

  lemma HighWrite(u: State, k: nat)
    requires u.phase == SendingHigh && u.high != [] && k <= Rest(u.high[0]) && u.high[0].off <= |u.high[0].pkg.data|
    ensures Enabled(u, Write(false, k))
    ensures var b := u.high[0]; Next(u, Write(false, k)).wire == u.wire + b.pkg.data[b.off..b.off + k]
  {
  }

  lemma LowWrite(u: State, k: nat)
    requires u.phase == SendingLow && u.low != [] && k <= Rest(u.low[0]) && u.low[0].off <= |u.low[0].pkg.data|
    ensures Enabled(u, Write(false, k))
    ensures var b := u.low[0]; Next(u, Write(false, k)).wire == u.wire + b.pkg.data[b.off..b.off + k]
  {
  }

  // ---- The socket thread empties the lists

  /** All but the lists, the wire and the poller is as before. */
  predicate SameThreadsAndPipe(s: State, e: State) {
    e.senders == s.senders && e.pipe == s.pipe && e.counted == s.counted && e.pushing == s.pushing
  }

  predicate Emptied(e: State) {
    e.phase == Idle && e.lock == NoOne && e.high == [] && e.low == [] && e.dw == None
  }

  /** A write of all that is left of the first buffer. */
  function WriteAll(s: State): Choice {
    Write(false, if s.phase == SendingHigh then (if s.high == [] then 0 else Rest(s.high[0]))
                 else if s.low == [] then 0 else Rest(s.low[0]))
  }

  lemma DrainStep(s: State)
    requires s.phase != Idle && (s.phase == SendingLow ==> s.high == []) && s.dw == None
    ensures Enabled(s, WriteAll(s)) && !WriteAll(s).Begin?
    ensures var m := Next(s, WriteAll(s));
            && SameThreadsAndPipe(s, m)
            && (|| Emptied(m)
                || (m.phase != Idle && m.dw == None &&
                    2 * |m.high| + 2 * |m.low| + (if m.phase == SendingHigh then 1 else 0)
                      < 2 * |s.high| + 2 * |s.low| + (if s.phase == SendingHigh then 1 else 0)))
  {
  }

  lemma {:induction false} Drain(s: State)
    requires Good(s) && s.phase != Idle
    ensures exists e :: Leads(s, e) && Emptied(e) && SameThreadsAndPipe(s, e)
    decreases 2 * |s.high| + 2 * |s.low| + (if s.phase == SendingHigh then 1 else 0)
  {
    hide Inv, Watched, Leads, Next, Enabled, WriteAll;
    SendingFacts(s);
    DrainStep(s);
    Take(s, WriteAll(s));
    var m := Next(s, WriteAll(s));
    if !Emptied(m) {
      Drain(m);
      var e :| Leads(m, e) && Emptied(e) && SameThreadsAndPipe(m, e);
      LeadsOn(s, m, e);
    }
  }

  lemma SendingFacts(s: State)
    requires Good(s) && s.phase != Idle
    ensures (s.phase == SendingLow ==> s.high == []) && s.dw == None
  {
    hide CounterOk, DirectsOk, FlowOk, WireOk, ThreadsOk, Watched;
    assert ListsOk(s);
  }

  // ---- Everybody who is about to push does so

  lemma {:induction false} PushAll(s: State)
    requires Good(s) && s.phase == Idle
    ensures exists e :: Leads(s, e) && e.phase == Idle && e.pushing == {}
    decreases |s.pushing|
  {
    hide Good, Leads, Next, Enabled;
    if s.pushing == {} {
      LeadsNowhere(s);
    } else {
      var a :| a in s.pushing;
      PushOne(s, a);
      Take(s, PushPipe(a));
      var m := Next(s, PushPipe(a));
      PushAll(m);
      var e :| Leads(m, e) && e.phase == Idle && e.pushing == {};
      LeadsOn(s, m, e);
    }
  }

  lemma PushOne(s: State, a: nat)
    requires Good(s) && a in s.pushing
    ensures Enabled(s, PushPipe(a))
    ensures var m := Next(s, PushPipe(a)); m.pushing == s.pushing - {a} && m.phase == s.phase
  {
    hide ListsOk, DirectsOk, FlowOk, WireOk, ThreadsOk, Watched;
    assert CounterOk(s);
  }

  // ---- The socket thread reads the pipe to its end

  lemma {:induction false} ReadPipe(s: State)
    requires Good(s) && s.phase == Idle && s.pushing == {}
    ensures exists e :: Leads(s, e) && e.phase == Idle && e.pushing == {} && e.pipe == [] && !e.counted
    decreases |s.pipe|, s.counted
  {
    hide Good, Leads, Next, Enabled;
    if s.counted || s.pipe != [] {
      var c := if s.counted then DecSending else Command;
      ReadOne(s, c);
      Take(s, c);
      var m := Next(s, c);
      ReadPipe(m);
      var e :| Leads(m, e) && e.phase == Idle && e.pushing == {} && e.pipe == [] && !e.counted;
      LeadsOn(s, m, e);
    } else {
      LeadsNowhere(s);
    }
  }

  lemma ReadOne(s: State, c: Choice)
    requires s.phase == Idle && c == (if s.counted then DecSending else Command) && (s.counted || s.pipe != [])
    ensures Enabled(s, c)
    ensures var m := Next(s, c);
            && m.phase == Idle && m.pushing == s.pushing && m.senders == s.senders && m.lock == s.lock
            && if s.counted then m.pipe == s.pipe && !m.counted else m.pipe == s.pipe[1..]
  {
  }

  // ---- One sender after the other finishes

  /** Nothing moves but thread a; the pipe is empty. */
  predicate Alone(s: State, a: nat) {
    && s.phase == Idle && s.pipe == [] && !s.counted && s.pushing == {}
    && a in s.senders && s.lock in {NoOne, Thread(a)}
  }

  function Rank(pc: Pc): nat {
    match pc
    case Check1(k) => if k < 4 then 30 - k else 0
    case Locking => 20
    case Check2(k) => if k < 4 then 15 - k else 0
    case Writing => 9
    case Storing(_) => 8
    case Counting => 5
    case Waking => 5
    case _ => 0
  }

  predicate Finished(s: State, e: State, a: nat) {
    && e.phase == Idle && e.pipe == [] && !e.counted && e.pushing == {} && e.lock == NoOne
    && a in e.senders && e.senders == s.senders[a := e.senders[a]] && e.senders[a].pc == Ready
  }

  lemma {:induction false} Finish(s: State, a: nat)
    requires Good(s) && Alone(s, a)
    ensures exists e :: Leads(s, e) && Finished(s, e, a)
    decreases Rank(s.senders[a].pc)
  {
    hide Good, Leads, Next, Enabled, Rank;
    ThreadFacts(s, a);
    if s.senders[a].pc == Ready {
      LeadsNowhere(s);
      assert s.senders == s.senders[a := s.senders[a]];
    } else if s.senders[a].pc == Counting {
      ThroughPipe(s, a);
    } else if s.senders[a].pc == Waking {
      ThroughWake(s, a);
    } else {
      var c := OwnStep(s, a);
      Take(s, c);
      var m := Next(s, c);
      Finish(m, a);
      var e :| Leads(m, e) && Finished(m, e, a);
      LeadsOn(s, m, e);
      assert e.senders == s.senders[a := e.senders[a]];
    }
  }

  lemma ThreadFacts(s: State, a: nat)
    requires Good(s) && Alone(s, a)
    ensures var pc := s.senders[a].pc;
            && pc != Pushing && (pc.Check1? || pc.Check2? ==> pc.k <= 3)
            && (s.lock == Thread(a) <==> pc.Check2? || pc.Writing? || pc.Storing?)
            && s.sending == 0
  {
    hide ListsOk, DirectsOk, FlowOk, WireOk, Watched;
    assert ThreadOk(s, a) && CounterOk(s);
    assert PipePkgs([]) == [];
  }

  /** The next step of a sender that is not at the pipe. */
  lemma OwnStep(s: State, a: nat) returns (c: Choice)
    requires Alone(s, a)
    requires var pc := s.senders[a].pc;
             && (pc.Check1? || pc.Locking? || pc.Check2? || pc.Writing? || pc.Storing?)
             && (pc.Check1? || pc.Check2? ==> pc.k <= 3)
             && (s.lock == Thread(a) <==> pc.Check2? || pc.Writing? || pc.Storing?)
    ensures Enabled(s, c) && !c.Begin? && Alone(Next(s, c), a)
    ensures var m := Next(s, c);
            && m.senders == s.senders[a := m.senders[a]]
            && Rank(m.senders[a].pc) < Rank(s.senders[a].pc)
  {
    match s.senders[a].pc
    case Check1(_) => c := Check(a);
    case Locking => c := TryLock(a);
    case Check2(_) => c := Check(a);
    case Writing => c := DirectWrite(a, |s.senders[a].pkg.data|);
    case Storing(_) => c := StoreDw(a);
  }

  /** Count, push, be read, and be counted off. */
  lemma ThroughPipe(s: State, a: nat)
    requires Good(s) && Alone(s, a) && s.senders[a].pc == Counting && s.sending == 0 && s.lock == NoOne
    ensures exists e :: Leads(s, e) && Finished(s, e, a)
  {
    hide Good, Leads, Next, Enabled;
    PipeSteps1(s, a);
    Take(s, IncSending(a));
    var b := Next(s, IncSending(a));
    Take(b, PushPipe(a));
    var c := Next(b, PushPipe(a));
    PipeSteps2(s, c, a);
    Take(c, Command);
    var d := Next(c, Command);
    Take(d, DecSending);
    var e := Next(d, DecSending);
    LeadsOn(s, b, c);
    LeadsOn(s, c, d);
    LeadsOn(s, d, e);
  }

  lemma PipeSteps1(s: State, a: nat)
    requires Alone(s, a) && s.senders[a].pc == Counting && s.sending == 0 && s.lock == NoOne
    ensures Enabled(s, IncSending(a))
    ensures var b := Next(s, IncSending(a));
            && Enabled(b, PushPipe(a))
            && var c := Next(b, PushPipe(a));
               && c.pipe == [Send(s.senders[a].pkg)] && c.phase == Idle && !c.counted && c.pushing == {}
                  && c.lock == NoOne
               && a in c.senders && c.senders == s.senders[a := c.senders[a]] && c.senders[a].pc == Ready
  {
  }

  lemma PipeSteps2(s: State, c: State, a: nat)
    requires a in s.senders && c.pipe == [Send(s.senders[a].pkg)]
    requires c.phase == Idle && !c.counted && c.pushing == {} && c.lock == NoOne
    requires a in c.senders && c.senders == s.senders[a := c.senders[a]] && c.senders[a].pc == Ready
    ensures Enabled(c, Command)
    ensures var d := Next(c, Command); Enabled(d, DecSending) && Finished(s, Next(d, DecSending), a)
  {
  }

  lemma ThroughWake(s: State, a: nat)
    requires Good(s) && Alone(s, a) && s.senders[a].pc == Waking && s.lock == NoOne
    ensures exists e :: Leads(s, e) && Finished(s, e, a)
  {
    hide Good, Leads, Next, Enabled;
    WakeSteps(s, a);
    Take(s, SendWake(a));
    var b := Next(s, SendWake(a));
    Take(b, Command);
    LeadsOn(s, b, Next(b, Command));
  }

  lemma WakeSteps(s: State, a: nat)
    requires Alone(s, a) && s.senders[a].pc == Waking && s.lock == NoOne
    ensures Enabled(s, SendWake(a))
    ensures var b := Next(s, SendWake(a)); Enabled(b, Command) && Finished(s, Next(b, Command), a)
  {
  }

  // ---- All of it

  /** Nothing moves, and no lock is held. */
  predicate Calm(s: State) {
    s.phase == Idle && s.pipe == [] && !s.counted && s.pushing == {} && s.lock == NoOne
  }

  function Unready(s: State): set<nat> {
    set a | a in s.senders && s.senders[a].pc != Ready
  }

  lemma {:induction false} FinishAll(s: State)
    requires Good(s) && Calm(s)
    ensures exists e :: Leads(s, e) && Calm(e) && Unready(e) == {}
    decreases |Unready(s)|
  {
    hide Good, Leads;
    if Unready(s) == {} {
      LeadsNowhere(s);
    } else {
      var a :| a in Unready(s);
      Finish(s, a);
      var m :| Leads(s, m) && Finished(s, m, a);
      LeadsGood(s, m);
      assert Unready(m) == Unready(s) - {a};
      FinishAll(m);
      var e :| Leads(m, e) && Calm(e) && Unready(e) == {};
      LeadsOn(s, m, e);
    }
  }

  /** With all senders done, whatever is left is written. */
  lemma Flush(s: State)
    requires Good(s) && Calm(s) && Unready(s) == {}
    ensures exists e :: Leads(s, e) && Quiet(e)
  {
    hide Good, Inv, Leads, Next, Enabled;
    AllReady(s);
    if s.high == [] && s.low == [] && s.dw == None {
      LeadsNowhere(s);
    } else {
      MustWatch(s);
      Locked(s);
      Take(s, Writable);
      var m := Next(s, Writable);
      Drain(m);
      var e :| Leads(m, e) && Emptied(e) && SameThreadsAndPipe(m, e);
      LeadsOn(s, m, e);
      assert Quiet(e);
    }
  }

  lemma AllReady(s: State)
    requires Unready(s) == {}
    ensures forall a :: a in s.senders ==> s.senders[a].pc == Ready
  {
    forall a | a in s.senders ensures s.senders[a].pc == Ready {
      assert a !in Unready(s);
    }
  }

  lemma MustWatch(s: State)
    requires Good(s) && s.pipe == [] && forall a :: a in s.senders ==> s.senders[a].pc == Ready
    requires s.high != [] || s.low != [] || s.dw.Some?
    ensures s.writing
  {
    hide Inv;
  }

  /** With the socket thread idle and the pipe read, whoever holds the lock finishes first. */
  lemma FreeLock(s: State)
    requires Good(s) && s.phase == Idle && s.pushing == {} && s.pipe == [] && !s.counted
    ensures exists e :: Leads(s, e) && Calm(e)
  {
    hide Good, Leads;
    if s.lock == NoOne {
      LeadsNowhere(s);
    } else {
      var a := LockHolder(s);
      Finish(s, a);
      var e :| Leads(s, e) && Finished(s, e, a);
    }
  }

  lemma LockHolder(s: State) returns (a: nat)
    requires Good(s) && s.phase == Idle && s.lock != NoOne
    ensures s.lock == Thread(a) && a in s.senders
  {
    hide ListsOk, DirectsOk, FlowOk, WireOk, Watched, CounterOk;
    assert ThreadsOk(s);
    a := s.lock.id;
  }

  lemma SocketIdle(s: State)
    requires Good(s)
    ensures exists e :: Leads(s, e) && e.phase == Idle
  {
    hide Good, Leads;
    if s.phase == Idle {
      LeadsNowhere(s);
    } else {
      Drain(s);
    }
  }

  lemma CanFinish(s: State)
    requires Good(s)
    ensures exists e :: Leads(s, e) && Quiet(e)
  {
    hide Good, Leads, Quiet, Unready;
    SocketIdle(s);
    var a :| Leads(s, a) && a.phase == Idle;
    LeadsGood(s, a);
    PushAll(a);
    var b :| Leads(a, b) && b.phase == Idle && b.pushing == {};
    LeadsGood(a, b);
    ReadPipe(b);
    var c :| Leads(b, c) && c.phase == Idle && c.pushing == {} && c.pipe == [] && !c.counted;
    LeadsGood(b, c);
    FreeLock(c);
    var d :| Leads(c, d) && Calm(d);
    LeadsGood(c, d);
    FinishAll(d);
    var f :| Leads(d, f) && Calm(f) && Unready(f) == {};
    LeadsGood(d, f);
    Flush(f);
    var e :| Leads(f, e) && Quiet(e);
    LeadsOn(s, a, b);
    LeadsOn(s, b, c);
    LeadsOn(s, c, d);
    LeadsOn(s, d, f);
    LeadsOn(s, f, e);
  }

  /**
   From every reachable state, without a new package, the threads can go on until nothing is under way;
   then everything handed in so far is on the wire, completely, once, and in order.
   */
  lemma EverythingDelivered(ids: set<nat>, run: seq<Choice>)
    ensures var s := Run(Init(ids), run);
            exists e :: Leads(s, e) && Quiet(e) && e.wire == Concat(e.sent)
                        && forall a: nat, h: bool :: Of(e.sent, a, h) == Of(s.begun, a, h)
  {
    hide Run, Init, Leads, Quiet, Concat, Of, Inv, Watched;
    var s := Run(Init(ids), run);
    RunGood(ids, run);
    CanFinish(s);
    var e :| Leads(s, e) && Quiet(e);
    LeadsGood(s, e);
    QuietFacts(e);
  }

  // ---- What is handed in, and where it goes

  /** The packages handed in by the run, in order; a choice that is not enabled is skipped. */
  ghost function HandedIn(s: State, run: seq<Choice>): seq<Package>
    decreases |run|
  {
    if run == [] then []
    else
      var front, c := run[..|run| - 1], run[|run| - 1]; var before := Run(s, front);
      HandedIn(s, front)
      + if c.Begin? && Enabled(before, c) then [Package(c.a, before.senders[c.a].next, c.high, c.data)] else []
  }

  lemma {:induction false} BegunIsHandedIn(s: State, run: seq<Choice>)
    ensures Run(s, run).begun == s.begun + HandedIn(s, run)
    decreases |run|
  {
    hide Next, Enabled;
    if run != [] {
      var front, c := run[..|run| - 1], run[|run| - 1];
      BegunIsHandedIn(s, front);
      if Enabled(Run(s, front), c) {
        Begins(Run(s, front), c);
      }
    }
  }

  lemma Begins(s: State, c: Choice)
    requires Enabled(s, c)
    ensures if c.Begin? then
              c.a in s.senders && Next(s, c).begun == s.begun + [Package(c.a, s.senders[c.a].next, c.high, c.data)]
            else Next(s, c).begun == s.begun
  {
    if c.Begin? {
    } else {
      SameBegun(s, c);
    }
  }

  /** A package from the pipe goes behind the high ones, or, low and with others waiting, behind all. */
  lemma CommandPlaces(s: State)
    requires Enabled(s, Command) && s.pipe[0].Send?
    ensures var m := Next(s, Command); var b := Buf(s.pipe[0].pkg, 0);
            && m.pipe == s.pipe[1..] && m.dw == s.dw && m.counted && m.wbSize == s.wbSize + |b.pkg.data|
            && (s.high == [] && s.low == [] ==> m.high == [b] && m.low == [] && m.writing)
            && (b.pkg.high ==> m.high == s.high + [b] && m.low == s.low)
            && (!b.pkg.high && s.high + s.low != [] ==> m.high == s.high && m.low == s.low + [b])
  {
  }

  /** The steps of a sender that finds nothing in its way. */
  function DirectMoves(a: nat, data: seq<Byte>, n: nat): seq<Choice> {
    [Begin(a, true, data), Check(a), Check(a), Check(a), Check(a), TryLock(a),
     Check(a), Check(a), Check(a), Check(a), DirectWrite(a, n)]
  }

  /** When nothing waits and nobody is under way, a high-priority package is written by its sender. */
  lemma WritesDirectly(s: State, a: nat, data: seq<Byte>, n: nat)
    requires Quiet(s) && s.sending == 0 && s.lock == NoOne && a in s.senders && n <= |data|
    ensures Run(s, DirectMoves(a, data, n)).wire == s.wire + data[..n]
  {
    hide Run, Next, Enabled, Quiet;
    var r := DirectMoves(a, data, n);
    var p := Package(a, s.senders[a].next, true, data);
    var u := s.(begun := s.begun + [p]);
    GetsLock(s, u, a, p, r);
    QuietLists(s, a);
    FourReads(s, u, r, 6, a, p, 2);
    var w := At(u, a, p, Writing, Thread(a));
    WritesNow(w, a, n);
    RunMore(s, r[..10], r[10], w, Next(w, r[10]));
    assert r == r[..10] + [r[10]];
  }

  lemma QuietLists(s: State, a: nat)
    requires Quiet(s) && a in s.senders
    ensures s.high == [] && s.low == [] && s.dw == None && s.senders[a].pc == Ready
  {
  }

  /** The first check and the lock. */
  lemma GetsLock(s: State, u: State, a: nat, p: Package, r: seq<Choice>)
    requires Quiet(s) && s.sending == 0 && s.lock == NoOne && a in s.senders
    requires p == Package(a, s.senders[a].next, true, p.data) && u == s.(begun := s.begun + [p])
    requires |r| > 6 && r[0] == Begin(a, true, p.data) && r[5] == TryLock(a)
    requires forall i :: 1 <= i <= 4 ==> r[i] == Check(a)
    ensures Run(s, r[..6]) == At(u, a, p, Check2(0), Thread(a))
  {
    hide Run, Next, Enabled, Quiet, At;
    RunNone(s);
    QuietLists(s, a);
    BeginsHigh(s, a, p.data);
    assert r[..0] == [] && r[..1] == [] + [r[0]];
    RunMore(s, [], r[0], s, At(u, a, p, Check1(0), NoOne));
    FourReads(s, u, r, 1, a, p, 1);
    Locks(u, a, p);
    RunMore(s, r[..5], r[5], At(u, a, p, Locking, NoOne), At(u, a, p, Check2(0), Thread(a)));
    assert r[..6] == r[..5] + [r[5]];
  }

  /** Sender a is at pc with package p; the lock is as given, all else as in u. */
  function At(u: State, a: nat, p: Package, pc: Pc, lock: Owner): State {
    u.(lock := lock, senders := u.senders[a := Sender(pc, p.n + 1, p)])
  }

  lemma RunNone(s: State)
    ensures Run(s, []) == s
  {
  }

  lemma RunMore(s: State, run: seq<Choice>, c: Choice, m: State, e: State)
    requires Run(s, run) == m && Enabled(m, c) && Next(m, c) == e
    ensures Run(s, run + [c]) == e
  {
    hide Next, Enabled;
    assert (run + [c])[..|run|] == run;
  }

  lemma BeginsHigh(s: State, a: nat, data: seq<Byte>)
    requires a in s.senders && s.senders[a].pc == Ready
    ensures Enabled(s, Begin(a, true, data))
    ensures var p := Package(a, s.senders[a].next, true, data);
            s.lock == NoOne ==> Next(s, Begin(a, true, data)) == At(s.(begun := s.begun + [p]), a, p, Check1(0), NoOne)
  {
  }

  /** One of the four reads of the first or second check finds nothing. */
  lemma Reads(s: State, u: State, r: seq<Choice>, i: nat, a: nat, p: Package, k: nat, check: nat)
    requires i < |r| && r[i] == Check(a) && k <= 3 && check in {1, 2}
    requires u.high == [] && u.low == [] && u.dw == None && u.sending == 0
    requires Run(s, r[..i]) == At(u, a, p, if check == 1 then Check1(k) else Check2(k),
             if check == 1 then NoOne else Thread(a))
    ensures Run(s, r[..i + 1]) ==
            if check == 1 then At(u, a, p, if k < 3 then Check1(k + 1) else Locking, NoOne)
            else At(u, a, p, if k < 3 then Check2(k + 1) else Writing, Thread(a))
  {
    hide Run;
    var m := Run(s, r[..i]);
    assert r[..i + 1] == r[..i] + [r[i]];
    assert ReadsNothing(m, k);
    var next := if check == 1 then (if k < 3 then Check1(k + 1) else Locking) else if k < 3 then Check2(k + 1)
      else Writing;
    assert Next(m, r[i]) == At(u, a, p, next, m.lock) by {
      assert m.senders[a := Sender(next, p.n + 1, p)] == u.senders[a := Sender(next, p.n + 1, p)];
    }
    RunMore(s, r[..i], r[i], m, Next(m, r[i]));
  }

  lemma FourReads(s: State, u: State, r: seq<Choice>, i: nat, a: nat, p: Package, check: nat)
    requires i + 4 <= |r| && check in {1, 2}
    requires r[i] == Check(a) && r[i + 1] == Check(a) && r[i + 2] == Check(a) && r[i + 3] == Check(a)
    requires u.high == [] && u.low == [] && u.dw == None && u.sending == 0
    requires Run(s, r[..i]) == At(u, a, p, if check == 1 then Check1(0) else Check2(0),
             if check == 1 then NoOne else Thread(a))
    ensures Run(s, r[..i + 4]) == if check == 1 then At(u, a, p, Locking, NoOne) else At(u, a, p, Writing, Thread(a))
  {
    hide Run, At;
    Reads(s, u, r, i, a, p, 0, check);
    Reads(s, u, r, i + 1, a, p, 1, check);
    Reads(s, u, r, i + 2, a, p, 2, check);
    Reads(s, u, r, i + 3, a, p, 3, check);
  }

  lemma Locks(u: State, a: nat, p: Package)
    ensures var m := At(u, a, p, Locking, NoOne);
            Enabled(m, TryLock(a)) && Next(m, TryLock(a)) == At(u, a, p, Check2(0), Thread(a))
  {
  }

  lemma WritesNow(w: State, a: nat, n: nat)
    requires a in w.senders && w.senders[a].pc == Writing && n <= |w.senders[a].pkg.data|
    ensures Enabled(w, DirectWrite(a, n))
    ensures Next(w, DirectWrite(a, n)).wire == w.wire + w.senders[a].pkg.data[..n]
  {
    var data := w.senders[a].pkg.data;
    assert data[..|data|] == data;
  }
}
