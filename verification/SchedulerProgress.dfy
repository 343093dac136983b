/**
 Nothing in the scheduler is stuck: from every reachable state the threads can go on so that every
 message a queue has accepted is handed over or dropped. A continuation is built by letting one
 thread after the other take the steps of its own program, with a batch size of one.
 */
module SchedulerProgress {

  import opened Prelude
  import opened Scheduler

  /** How a busy thread goes on: a launch succeeds, a batch is one message. */
  const Do := Go(true, -1)

  // ---- Continuations

  ghost predicate Path(s: State, moves: seq<Move>, e: State)
    decreases |moves|
  {
    if moves == [] then s == e
    else Enabled(s, moves[0].t, moves[0].c) && Path(Next(s, moves[0].t, moves[0].c), moves[1..], e)
  }

  ghost predicate Leads(s: State, e: State) {
    exists moves :: Path(s, moves, e)
  }

  lemma {:induction false} PathAppend(s: State, a: seq<Move>, m: State, b: seq<Move>, e: State)
    requires Path(s, a, m) && Path(m, b, e)
    ensures Path(s, a + b, e)
    decreases |a|
  {
    hide Next, Enabled;
    if a == [] {
      assert a + b == b;
    } else {
      assert (a + b)[1..] == a[1..] + b && (a + b)[0] == a[0];
      PathAppend(Next(s, a[0].t, a[0].c), a[1..], m, b, e);
    }
  }

  lemma LeadsOn(s: State, m: State, e: State)
    requires Leads(s, m) && Leads(m, e)
    ensures Leads(s, e)
  {
    hide Path;
    var a :| Path(s, a, m);
    var b :| Path(m, b, e);
    PathAppend(s, a, m, b, e);
  }

  lemma LeadsNowhere(s: State)
    ensures Leads(s, s)
  {
    assert Path(s, [], s);
  }

  lemma LeadsStep(s: State, t: nat, c: Choice)
    requires Enabled(s, t, c)
    ensures Leads(s, Next(s, t, c))
  {
    hide Next, Enabled;
    var moves := [Move(t, c)];
    assert moves[1..] == [];
    assert Path(Next(s, t, c), [], Next(s, t, c));
    assert Path(s, moves, Next(s, t, c));
  }

  // ---- A context without references is being deleted

  ghost predicate Marked(s: State) {
    forall h :: h in s.svc && s.svc[h].ref == 0 && !s.svc[h].release ==> Deleted(s, h)
  }

  ghost predicate Deleted(s: State, h: Handle) {
    exists t :: t in s.threads && s.threads[t].Deleting? && s.threads[t].h == h
  }

  ghost predicate Good(s: State) {
    Inv(s) && Marked(s)
  }

  predicate DeletesIt(pc: Pc, h: Handle) {
    pc.Deleting? && pc.h == h
  }

  /** Only the last release makes ref 0, and goes on to delete the context. */
  ghost predicate StaysMarked(s: State, t: nat, c: Choice, h: Handle)
    requires Enabled(s, t, c) && h in s.svc
  {
    var s2 := Next(s, t, c);
    && h in s2.svc
    && (s2.svc[h].ref == 0 && !s2.svc[h].release ==>
          || DeletesIt(At(s2, t), h)
          || (s.svc[h].ref == 0 && !s.svc[h].release && !DeletesIt(At(s, t), h)))
  }

  lemma RefChange(s: State, t: nat, c: Choice, h: Handle)
    requires Enabled(s, t, c) && h in s.svc && s.svc[h].ref >= Bit(s.svc[h].registered)
    ensures StaysMarked(s, t, c, h)
  {
    hide StaysMarked;
    var pc := At(s, t);
    if pc == Idle {
      RefStart(s, t, c, h);
    } else if pc.Deleting? || pc.Pushing? {
      RefDelete(s, t, c, h);
    } else if pc.Ready? || pc.Replying? || pc.Running? || pc.Dropping? {
      RefMessage(s, t, c, h);
    } else {
      RefOther(s, t, c, h);
    }
  }

  lemma RefStart(s: State, t: nat, c: Choice, h: Handle)
    requires Enabled(s, t, c) && h in s.svc && s.svc[h].ref >= Bit(s.svc[h].registered) && At(s, t) == Idle
    ensures StaysMarked(s, t, c, h)
  {
  }

  lemma RefDelete(s: State, t: nat, c: Choice, h: Handle)
    requires Enabled(s, t, c) && h in s.svc && (At(s, t).Deleting? || At(s, t).Pushing?)
    ensures StaysMarked(s, t, c, h)
  {
  }

  lemma RefMessage(s: State, t: nat, c: Choice, h: Handle)
    requires Enabled(s, t, c) && h in s.svc
    requires At(s, t).Ready? || At(s, t).Replying? || At(s, t).Running? || At(s, t).Dropping?
    ensures StaysMarked(s, t, c, h)
  {
    hide MqPush, MarkRelease, Batch;
  }

  lemma RefOther(s: State, t: nat, c: Choice, h: Handle)
    requires Enabled(s, t, c) && h in s.svc && s.svc[h].ref >= Bit(s.svc[h].registered)
    requires var pc := At(s, t);
             !pc.Deleting? && !pc.Pushing? && !pc.Ready? && !pc.Replying? && !pc.Running? && !pc.Dropping?
    requires At(s, t) != Idle
    ensures StaysMarked(s, t, c, h)
  {
    hide MqPush, MarkRelease, Batch, HandOver, DropOne, Take, Start;
  }

  lemma MarkedStep(s: State, t: nat, c: Choice)
    requires Inv(s) && Marked(s) && Enabled(s, t, c)
    ensures Marked(Next(s, t, c))
  {
    hide Next, Inv, Enabled;
    var s2 := Next(s, t, c);
    NextMovesOnly(s, t, c);
    forall h | h in s2.svc && s2.svc[h].ref == 0 && !s2.svc[h].release ensures Deleted(s2, h) {
      LaunchedBy(s, t, c, h);
      if h in s.svc {
        RefAtLeast(s, h);
        RefChange(s, t, c, h);
        if DeletesIt(At(s2, t), h) {
          assert t in s2.threads && s2.threads[t].Deleting? && s2.threads[t].h == h;
        } else {
          var u :| u in s.threads && s.threads[u].Deleting? && s.threads[u].h == h;
          assert u != t;
          assert u in s2.threads && s2.threads[u] == s.threads[u];
        }
      } else {
        NewService(s, t, c, h);
      }
    }
  }

  lemma RefAtLeast(s: State, h: Handle)
    requires Inv(s) && h in s.svc
    ensures s.svc[h].ref >= Bit(s.svc[h].registered)
  {
  }

  lemma GoodStep(s: State, t: nat, c: Choice)
    requires Good(s) && Enabled(s, t, c)
    ensures Good(Next(s, t, c))
  {
    hide Next, Inv, Marked;
    StepOk(s, t, c);
    MarkedStep(s, t, c);
  }

  lemma {:induction false} PathGood(s: State, moves: seq<Move>, e: State)
    requires Good(s) && Path(s, moves, e)
    ensures Good(e)
    decreases |moves|
  {
    hide Next, Good, Enabled;
    if moves != [] {
      GoodStep(s, moves[0].t, moves[0].c);
      PathGood(Next(s, moves[0].t, moves[0].c), moves[1..], e);
    }
  }

  lemma LeadsGood(s: State, e: State)
    requires Good(s) && Leads(s, e)
    ensures Good(e)
  {
    hide Path, Good;
    var moves :| Path(s, moves, e);
    PathGood(s, moves, e);
  }

  lemma {:induction false} RunGood(moves: seq<Move>, states: seq<State>, i: nat)
    requires Run(moves, states) && i < |states|
    ensures Good(states[i])
  {
    hide Next, Inv, Enabled;
    RunOk(moves, states, i);
    if i > 0 {
      RunGood(moves, states, i - 1);
      MarkedStep(states[i - 1], moves[i - 1].t, moves[i - 1].c);
    }
  }

  // ---- One step of a busy thread

  predicate CanDo(s: State, t: nat) {
    Enabled(s, t, Do)
  }

  function Then(s: State, t: nat): State
    requires CanDo(s, t)
  {
    Next(s, t, Do)
  }

  lemma Busy(s: State, t: nat)
    requires Inv(s) && At(s, t) != Idle
    ensures CanDo(s, t)
  {
    if Subject(At(s, t)).Some? {
      OwnFacts(s, t);
    }
  }

  lemma ThenGood(s: State, t: nat)
    requires Good(s) && CanDo(s, t)
    ensures Good(Then(s, t)) && Leads(s, Then(s, t))
  {
    hide Good, Next, Leads;
    GoodStep(s, t, Do);
    LeadsStep(s, t, Do);
  }

  /** The messages of the queue are where they were. */
  predicate Kept(v: Service, w: Service) {
    w.msgs == v.msgs && w.hand == v.hand && w.done == v.done
  }

  // ---- A thread that carries a message

  /** The thread hands the message over or drops it. */
  lemma CarryDrive(s: State, t: nat, h: Handle)
    requires Good(s) && h in s.svc && Carries(At(s, t), h) && s.svc[h].hand != []
    ensures exists e :: Leads(s, e) && h in e.svc && |e.svc[h].done| > |s.svc[h].done|
    decreases At(s, t).Popped?
  {
    hide Good, Leads, Inv, Marked;
    assert Inv(s) by {
      GoodInv(s);
    }
    Busy(s, t);
    ThenGood(s, t);
    var m := Then(s, t);
    if At(s, t).Popped? {
      PoppedStep(s, t);
      CarryDrive(m, t, h);
      var e :| Leads(m, e) && h in e.svc && |e.svc[h].done| > |m.svc[h].done|;
      LeadsOn(s, m, e);
    } else {
      SettleStep(s, t, h);
    }
  }

  lemma GoodInv(s: State)
    requires Good(s)
    ensures Inv(s) && Marked(s)
  {
  }

  lemma PoppedStep(s: State, t: nat)
    requires CanDo(s, t) && At(s, t).Popped?
    ensures var m := Then(s, t); var pc := At(s, t);
            m.svc == s.svc && m.global == s.global && m.threads == s.threads[t := Ready(pc.h, pc.i, pc.n)]
  {
  }

  lemma SettleStep(s: State, t: nat, h: Handle)
    requires CanDo(s, t) && Settles(s, t, h)
    ensures h in Then(s, t).svc && |Then(s, t).svc[h].done| == |s.svc[h].done| + 1
  {
    hide Next, Settled;
    StepTouches(s, t, Do, h);
  }

  // ---- A thread that has the queue to itself

  /** How far a thread is from a message of 'h', or from putting its queue into the global list. */
  function Rank(pc: Pc, h: Handle): nat {
    match pc
    case Launching(_) => 41
    case Publishing(_) => 40
    case Releasing(_, k) => if k.ThenRetire? then 30 else 15
    case Deleting(_, k) => if k.ThenRetire? then 29 else 14
    case Retiring(_) => 28
    case Calling(_, _, _) => 20
    case Running(_, i, n) => if i < n then 9 else 19
    case Tail(_) => 18
    case PushBack(_, _) => 17
    case Holding(_) => 10
    case MqReleasing(_, _) => 8
    case Dropping(_, _) => 7
    case _ => 0
  }

  /** A queue with messages, none of them in anybody's hand. */
  predicate Waiting(s: State, h: Handle) {
    h in s.svc && s.svc[h].msgs != [] && s.svc[h].hand == []
  }

  /** After the step the queue is in the global list, nearer to a message, or a message is in hand. */
  ghost predicate Nearer(s: State, t: nat, h: Handle)
    requires CanDo(s, t) && h in s.svc
  {
    var m := Then(s, t);
    && h in m.svc && m.svc[h].done == s.svc[h].done
    && (|| (Kept(s.svc[h], m.svc[h]) && h in m.global)
        || (Kept(s.svc[h], m.svc[h]) && h in Held(At(m, t)) && Rank(At(m, t), h) < Rank(At(s, t), h))
        || (Carries(At(m, t), h) && m.svc[h].hand != []))
  }

  lemma HeldStep(s: State, t: nat, h: Handle)
    requires CanDo(s, t) && PcOk(s, At(s, t)) && Waiting(s, h) && h in Held(At(s, t))
    ensures Nearer(s, t, h)
  {
    hide Nearer, Next, PcOk;
    var pc := At(s, t);
    match pc
    case Launching(_) => NearerLaunch(s, t, h);
    case Publishing(_) => NearerLaunch(s, t, h);
    case Retiring(_) => NearerLaunch(s, t, h);
    case Releasing(_, _) => NearerRelease(s, t, h);
    case Deleting(_, _) => NearerDelete(s, t, h);
    case MqReleasing(_, _) => NearerDrop(s, t, h);
    case Dropping(_, _) => NearerDrop(s, t, h);
    case Replying(_, _) => NearerDrop(s, t, h);
    case Freeing(_, _) => NearerDrop(s, t, h);
    case _ => NearerWork(s, t, h);
  }

  lemma NearerLaunch(s: State, t: nat, h: Handle)
    requires CanDo(s, t) && PcOk(s, At(s, t)) && Waiting(s, h) && h in Held(At(s, t))
    requires At(s, t).Launching? || At(s, t).Publishing? || At(s, t).Retiring?
    ensures Nearer(s, t, h)
  {
    hide MqPush, MarkRelease, Batch, HandOver, DropOne, Take, Start;
  }

  lemma NearerRelease(s: State, t: nat, h: Handle)
    requires CanDo(s, t) && PcOk(s, At(s, t)) && Waiting(s, h) && h in Held(At(s, t)) && At(s, t).Releasing?
    ensures Nearer(s, t, h)
  {
    hide MqPush, MarkRelease, Batch, HandOver, DropOne, Take, Start;
  }

  lemma NearerDelete(s: State, t: nat, h: Handle)
    requires CanDo(s, t) && PcOk(s, At(s, t)) && Waiting(s, h) && h in Held(At(s, t)) && At(s, t).Deleting?
    ensures Nearer(s, t, h)
  {
    hide MqPush, Batch, HandOver, DropOne, Take, Start;
  }

  lemma NearerDrop(s: State, t: nat, h: Handle)
    requires CanDo(s, t) && PcOk(s, At(s, t)) && Waiting(s, h) && h in Held(At(s, t))
    requires At(s, t).MqReleasing? || At(s, t).Dropping? || At(s, t).Replying? || At(s, t).Freeing?
    ensures Nearer(s, t, h)
  {
    hide MqPush, MarkRelease, Batch, HandOver, DropOne, Start;
  }

  lemma NearerWork(s: State, t: nat, h: Handle)
    requires CanDo(s, t) && PcOk(s, At(s, t)) && Waiting(s, h) && h in Held(At(s, t))
    requires var pc := At(s, t);
             pc.Holding? || pc.Running? || pc.Popped? || pc.Ready? || pc.Calling? || pc.Tail? || pc.PushBack?
    ensures Nearer(s, t, h)
  {
    hide MqPush, MarkRelease, Batch, HandOver, DropOne, Start;
  }

  /** A message of 'h' is settled, or its queue waits in the global list as it was. */
  ghost predicate Ahead(s: State, e: State, h: Handle)
    requires h in s.svc
  {
    h in e.svc && (|e.svc[h].done| > |s.svc[h].done| || (Kept(s.svc[h], e.svc[h]) && h in e.global))
  }

  lemma {:induction false} HeldDrive(s: State, t: nat, h: Handle)
    requires Good(s) && Waiting(s, h) && h in Held(At(s, t))
    ensures exists e :: Leads(s, e) && Ahead(s, e, h)
    decreases Rank(At(s, t), h)
  {
    hide Good, Inv, Marked, Leads, Next, PcOk, Rank;
    GoodInv(s);
    OwnFactsOf(s, t);
    Busy(s, t);
    ThenGood(s, t);
    HeldStep(s, t, h);
    var m := Then(s, t);
    if Carries(At(m, t), h) && m.svc[h].hand != [] {
      CarryDrive(m, t, h);
      var e :| Leads(m, e) && h in e.svc && |e.svc[h].done| > |m.svc[h].done|;
      LeadsOn(s, m, e);
    } else if h !in m.global {
      HeldDrive(m, t, h);
      var e :| Leads(m, e) && Ahead(m, e, h);
      LeadsOn(s, m, e);
    }
  }

  lemma OwnFactsOf(s: State, t: nat)
    requires Inv(s) && At(s, t) != Idle
    ensures PcOk(s, At(s, t)) && t in s.threads
  {
  }

  // ---- The references to a context whose queue is in the global list

  /** The queue has not lost a message and none is done with. */
  predicate Grown(v: Service, w: Service) {
    v.msgs <= w.msgs && w.hand == v.hand && w.done == v.done
  }

  /** A thread with such a reference is about to push, to go on, or to give it up. */
  lemma RefHolder(s: State, t: nat, h: Handle)
    requires Inv(s) && t in Refs(s, h) && h in s.global
    ensures At(s, t).Pushing? || At(s, t).Using? || At(s, t).Releasing?
    ensures At(s, t).h == h
  {
    assert Apart(s);
    assert h !in Held(s.threads[t]);
  }

  /** Pushing or using it, the thread comes to give it up. */
  lemma ToRelease(s: State, t: nat, h: Handle)
    requires CanDo(s, t) && (At(s, t).Pushing? || At(s, t).Using?) && At(s, t).h == h && h in s.svc && s.svc[h].inGlobal
    ensures var m := Then(s, t);
            && At(m, t) == Releasing(h, Done) && m.global == s.global && m.threads == s.threads[t := Releasing(h, Done)]
            && h in m.svc && Grown(s.svc[h], m.svc[h]) && m.svc[h].registered == s.svc[h].registered
            && m.svc[h].inGlobal && m.svc[h].release == s.svc[h].release
  {
  }

  /** Giving it up. */
  lemma GiveUp(s: State, t: nat, h: Handle)
    requires CanDo(s, t) && At(s, t).Releasing? && At(s, t).h == h && h in s.svc
    ensures var m := Then(s, t);
            && m.global == s.global && h in m.svc && m.svc[h] == s.svc[h].(ref := s.svc[h].ref - 1)
            && m.threads == s.threads[t := At(m, t)] && !HasRef(At(m, t), h)
  {
  }

  lemma MarkIt(s: State, t: nat, h: Handle)
    requires CanDo(s, t) && At(s, t).Deleting? && At(s, t).h == h && h in s.svc && s.svc[h].inGlobal
    ensures var m := Then(s, t);
            m.global == s.global && h in m.svc && m.svc[h] == s.svc[h].(release := true)
  {
  }

  /** The context of a service that is retired loses its last reference, and its queue is released. */
  ghost predicate Released(s: State, e: State, h: Handle)
    requires h in s.svc
  {
    h in e.svc && h in e.global && e.svc[h].release && Grown(s.svc[h], e.svc[h])
  }

  lemma InGlobal(s: State, h: Handle)
    requires Inv(s) && h in s.global && h in s.svc
    ensures (s.svc[h].inGlobal || s.svc[h].release) && !s.svc[h].freed
  {
    assert Placed(s, h);
  }

  lemma {:induction false} RefsDrive(s: State, h: Handle)
    requires Good(s) && h in s.svc && h in s.global && !s.svc[h].registered
    ensures exists e :: Leads(s, e) && Released(s, e, h)
    decreases |Refs(s, h)|
  {
    hide Good, Inv, Marked, Leads, Next, Refs;
    GoodInv(s);
    InGlobal(s, h);
    if s.svc[h].release {
      LeadsNowhere(s);
    } else if |Refs(s, h)| == 0 {
      LastRef(s, h);
    } else {
      DropRef(s, h);
      var m :| Leads(s, m) && OneLess(s, m, h);
      LeadsGood(s, m);
      RefsDrive(m, h);
      var e :| Leads(m, e) && Released(m, e, h);
      LeadsOn(s, m, e);
    }
  }

  lemma LastRef(s: State, h: Handle)
    requires Good(s) && h in s.svc && h in s.global && !s.svc[h].registered && !s.svc[h].release && |Refs(s, h)| == 0
    ensures exists e :: Leads(s, e) && Released(s, e, h)
  {
    hide Good, Inv, Leads, Next, Refs;
    GoodInv(s);
    InGlobal(s, h);
    RefCount(s, h);
    assert Deleted(s, h);
    var t :| t in s.threads && s.threads[t].Deleting? && s.threads[t].h == h;
    Busy(s, t);
    ThenGood(s, t);
    MarkIt(s, t, h);
  }

  lemma RefCount(s: State, h: Handle)
    requires Inv(s) && h in s.svc
    ensures s.svc[h].ref == |Refs(s, h)| + Bit(s.svc[h].registered)
  {
  }

  ghost predicate OneLess(s: State, m: State, h: Handle)
    requires h in s.svc
  {
    && h in m.svc && h in m.global && !m.svc[h].registered && Grown(s.svc[h], m.svc[h])
    && |Refs(m, h)| < |Refs(s, h)|
  }

  lemma DropRef(s: State, h: Handle)
    requires Good(s) && h in s.svc && h in s.global && !s.svc[h].registered && |Refs(s, h)| > 0
    requires s.svc[h].inGlobal
    ensures exists m :: Leads(s, m) && OneLess(s, m, h)
  {
    hide Good, Inv, Marked, Leads, Next, Refs;
    GoodInv(s);
    var t :| t in Refs(s, h);
    RefHolder(s, t, h);
    Busy(s, t);
    ThenGood(s, t);
    var m := s;
    if At(s, t).Releasing? {
      LeadsNowhere(s);
    } else {
      ToRelease(s, t, h);
      m := Then(s, t);
      RefsMove(s, m, t, h);
    }
    GoodInv(m);
    Busy(m, t);
    ThenGood(m, t);
    GiveUp(m, t, h);
    var e := Then(m, t);
    RefsMove(m, e, t, h);
    HasRefFacts(s, t, h);
    LeadsOn(s, m, e);
    assert OneLess(s, e, h);
  }

  lemma HasRefFacts(s: State, t: nat, h: Handle)
    requires t in Refs(s, h)
    ensures HasRef(At(s, t), h)
  {
  }

  // ---- A worker goes along the global list

  predicate OnWay(k: After) {
    k.ThenHold? || k.ThenPop?
  }

  /** A worker that deals with some other queue than that of 'h', one message at a time. */
  predicate Visits(pc: Pc, h: Handle) {
    match pc
    case Popping => true
    case Holding(g) => g != h
    case Running(g, i, n) => g != h && n == 1 && i <= 1
    case Popped(g, i, n) => g != h && n == 1 && i == 0
    case Ready(g, i, n) => g != h && n == 1 && i == 0
    case Calling(g, i, n) => g != h && n == 1 && i == 0
    case Tail(g) => g != h
    case PushBack(g, _) => g != h
    case Releasing(g, k) => g != h && OnWay(k)
    case Deleting(g, k) => g != h && OnWay(k)
    case MqReleasing(g, k) => g != h && k == ThenPop
    case Dropping(g, k) => g != h && k == ThenPop
    case Replying(g, k) => g != h && k == ThenPop
    case Freeing(g, k) => g != h && k == ThenPop
    case _ => false
  }

  /** The queues the worker comes to, one after the other. */
  function Line(s: State, t: nat): seq<Handle> {
    match At(s, t)
    case PushBack(_, next) => [next] + s.global
    case Releasing(_, k) => if k.ThenHold? then [k.h] + s.global else s.global
    case Deleting(_, k) => if k.ThenHold? then [k.h] + s.global else s.global
    case _ => s.global
  }

  function VisitRank(pc: Pc): nat {
    match pc
    case Holding(_) => 50
    case Running(_, i, _) => if i == 0 then 49 else 45
    case Popped(_, _, _) => 48
    case Ready(_, _, _) => 47
    case Calling(_, _, _) => 46
    case Tail(_) => 44
    case PushBack(_, _) => 43
    case Releasing(_, _) => 42
    case Deleting(_, _) => 41
    case MqReleasing(_, _) => 40
    case Dropping(_, _) => 30
    case Replying(_, _) => 30
    case Freeing(_, _) => 20
    case Popping => 10
    case _ => 0
  }

  /** Messages still to be dropped on this visit. */
  function ToDrop(s: State, t: nat): nat {
    var pc := At(s, t);
    if (pc.Dropping? || pc.Replying?) && pc.h in s.svc then 2 * |s.svc[pc.h].msgs| + (if pc.Replying? then 1 else 0)
      else 0
  }

  /** After the step the worker has come to the next queue, or is nearer to it. */
  ghost predicate Passes(s: State, t: nat, h: Handle)
    requires CanDo(s, t) && h in s.svc && Line(s, t) != []
  {
    var m := Then(s, t);
    && h in m.svc && m.svc[h] == s.svc[h]
    && (|| (At(m, t) == Holding(Line(s, t)[0]) && Line(s, t)[1..] <= m.global)
        || (&& Visits(At(m, t), h) && Line(s, t) <= Line(m, t) && VisitRank(At(m, t)) <= VisitRank(At(s, t))
            && (VisitRank(At(m, t)) == VisitRank(At(s, t)) ==> ToDrop(m, t) < ToDrop(s, t))))
  }

  lemma PassStep(s: State, t: nat, h: Handle)
    requires CanDo(s, t) && h in s.svc && Visits(At(s, t), h) && Line(s, t) != []
    ensures Passes(s, t, h)
  {
    hide Passes, Next;
    var pc := At(s, t);
    if pc.Popping? || pc.Holding? || pc.Running? || pc.Popped? {
      PassTake(s, t, h);
    } else if pc.Ready? || pc.Calling? || pc.Tail? || pc.PushBack? {
      PassCall(s, t, h);
    } else if pc.Releasing? || pc.Deleting? {
      PassRelease(s, t, h);
    } else {
      PassDrop(s, t, h);
    }
  }

  lemma PassTake(s: State, t: nat, h: Handle)
    requires CanDo(s, t) && h in s.svc && Visits(At(s, t), h) && Line(s, t) != []
    requires At(s, t).Popping? || At(s, t).Holding? || At(s, t).Running? || At(s, t).Popped?
    ensures Passes(s, t, h)
  {
    hide MqPush, MarkRelease, HandOver, DropOne, Start;
  }

  lemma PassCall(s: State, t: nat, h: Handle)
    requires CanDo(s, t) && h in s.svc && Visits(At(s, t), h) && Line(s, t) != []
    requires At(s, t).Ready? || At(s, t).Calling? || At(s, t).Tail? || At(s, t).PushBack?
    ensures Passes(s, t, h)
  {
    hide MqPush, MarkRelease, Batch, HandOver, DropOne, Take, Start;
    if At(s, t).PushBack? {
      Regroup([At(s, t).next], s.global, [At(s, t).h]);
    }
  }

  lemma PassRelease(s: State, t: nat, h: Handle)
    requires CanDo(s, t) && h in s.svc && Visits(At(s, t), h) && Line(s, t) != []
    requires At(s, t).Releasing? || At(s, t).Deleting?
    ensures Passes(s, t, h)
  {
    hide MqPush, Batch, HandOver, DropOne, Take, Start;
  }

  lemma PassDrop(s: State, t: nat, h: Handle)
    requires CanDo(s, t) && h in s.svc && Visits(At(s, t), h) && Line(s, t) != []
    requires At(s, t).MqReleasing? || At(s, t).Dropping? || At(s, t).Replying? || At(s, t).Freeing?
    ensures Passes(s, t, h)
  {
    hide MqPush, MarkRelease, Batch, HandOver, Start;
  }

  ghost predicate Passed(s: State, e: State, t: nat, h: Handle)
    requires h in s.svc && Line(s, t) != []
  {
    At(e, t) == Holding(Line(s, t)[0]) && Line(s, t)[1..] <= e.global && h in e.svc && e.svc[h] == s.svc[h]
  }

  lemma {:induction false} Pass(s: State, t: nat, h: Handle)
    requires Good(s) && h in s.svc && Visits(At(s, t), h) && Line(s, t) != []
    ensures exists e :: Leads(s, e) && Passed(s, e, t, h)
    decreases VisitRank(At(s, t)), ToDrop(s, t)
  {
    hide Good, Inv, Marked, Leads, Next, Visits, VisitRank, ToDrop;
    GoodInv(s);
    NotIdle(s, t, h);
    Busy(s, t);
    ThenGood(s, t);
    PassStep(s, t, h);
    var m := Then(s, t);
    if !(At(m, t) == Holding(Line(s, t)[0]) && Line(s, t)[1..] <= m.global) {
      Pass(m, t, h);
      var e :| Leads(m, e) && Passed(m, e, t, h);
      LeadsOn(s, m, e);
      assert Passed(s, e, t, h);
    }
  }

  lemma NotIdle(s: State, t: nat, h: Handle)
    requires Visits(At(s, t), h)
    ensures At(s, t) != Idle
  {
  }

  /** The worker comes to the queue of 'h', which has p queues before it. */
  lemma {:induction false} ComesTo(s: State, t: nat, h: Handle, p: nat)
    requires Good(s) && h in s.svc && Visits(At(s, t), h) && p < |Line(s, t)| && Line(s, t)[p] == h
    ensures exists e :: Leads(s, e) && At(e, t) == Holding(h) && h in e.svc && e.svc[h] == s.svc[h]
    decreases p
  {
    hide Good, Inv, Marked, Leads;
    Pass(s, t, h);
    var m :| Leads(s, m) && Passed(s, m, t, h);
    LeadsGood(s, m);
    if Line(s, t)[0] != h {
      assert Line(s, t)[1..][p - 1] == h;
      assert m.global[p - 1] == h;
      ComesTo(m, t, h, p - 1);
      var e :| Leads(m, e) && At(e, t) == Holding(h) && h in e.svc && e.svc[h] == m.svc[h];
      LeadsOn(s, m, e);
    }
  }

  /** There is always a thread that has nothing to do. */
  lemma SomeIdle(s: State)
    ensures exists t :: At(s, t) == Idle
  {
    var t := Bound(s.threads.Keys);
    assert At(s, t) == Idle;
  }

  lemma {:induction false} Bound(keys: set<nat>) returns (b: nat)
    ensures forall k :: k in keys ==> k < b
  {
    if keys == {} {
      b := 0;
    } else {
      var k :| k in keys;
      var c := Bound(keys - {k});
      b := if c > k then c else k + 1;
      assert forall j :: j in keys ==> j == k || j in keys - {k};
    }
  }

  /** A worker at a queue it may serve or drop. */
  predicate AtFront(s: State, t: nat, h: Handle) {
    && h in s.svc && s.svc[h].msgs != [] && s.svc[h].hand == []
    && match At(s, t)
       case Holding(g) => g == h && (s.svc[h].registered || s.svc[h].release)
       case Running(g, i, n) => g == h && i < n
       case MqReleasing(g, _) => g == h && s.svc[h].release
       case Dropping(g, _) => g == h
       case _ => false
  }

  lemma FrontStep(s: State, t: nat, h: Handle)
    requires CanDo(s, t) && AtFront(s, t, h)
    ensures Fronts(s, t, h)
  {
    hide Fronts, Next;
    if At(s, t).Holding? || At(s, t).Running? {
      FrontWork(s, t, h);
    } else {
      FrontDrop(s, t, h);
    }
  }

  ghost predicate Fronts(s: State, t: nat, h: Handle)
    requires CanDo(s, t) && h in s.svc
  {
    var m := Then(s, t);
    && h in m.svc && m.svc[h].done == s.svc[h].done
    && (|| (Carries(At(m, t), h) && m.svc[h].hand != [])
        || (AtFront(m, t, h) && Rank(At(m, t), h) < Rank(At(s, t), h)))
  }

  lemma FrontWork(s: State, t: nat, h: Handle)
    requires CanDo(s, t) && AtFront(s, t, h) && (At(s, t).Holding? || At(s, t).Running?)
    ensures Fronts(s, t, h)
  {
    hide MqPush, MarkRelease, Batch, HandOver, DropOne, Start, PushGlobal;
  }

  lemma FrontDrop(s: State, t: nat, h: Handle)
    requires CanDo(s, t) && AtFront(s, t, h) && (At(s, t).MqReleasing? || At(s, t).Dropping?)
    ensures Fronts(s, t, h)
  {
    hide MqPush, MarkRelease, Batch, HandOver, DropOne, Start, PushGlobal;
  }

  lemma {:induction false} FrontDrive(s: State, t: nat, h: Handle)
    requires Good(s) && AtFront(s, t, h)
    ensures exists e :: Leads(s, e) && h in e.svc && |e.svc[h].done| > |s.svc[h].done|
    decreases Rank(At(s, t), h)
  {
    hide Good, Inv, Marked, Leads, Next, Rank;
    GoodInv(s);
    Busy(s, t);
    ThenGood(s, t);
    FrontStep(s, t, h);
    var m := Then(s, t);
    if Carries(At(m, t), h) && m.svc[h].hand != [] {
      CarryDrive(m, t, h);
    } else {
      FrontDrive(m, t, h);
    }
    var e :| Leads(m, e) && h in e.svc && |e.svc[h].done| > |m.svc[h].done|;
    LeadsOn(s, m, e);
  }

  /** A queue in the global list whose service is registered, or that is released, is served. */
  lemma ServedFromList(s: State, h: Handle)
    requires Good(s) && Waiting(s, h) && h in s.global && (s.svc[h].registered || s.svc[h].release)
    ensures exists e :: Leads(s, e) && h in e.svc && |e.svc[h].done| > |s.svc[h].done|
  {
    hide Good, Inv, Marked, Leads;
    SomeIdle(s);
    var t :| At(s, t) == Idle;
    BeginsWork(s, t);
    var m := Next(s, t, Work);
    GoodStep(s, t, Work);
    LeadsStep(s, t, Work);
    var p :| 0 <= p < |s.global| && s.global[p] == h;
    ComesTo(m, t, h, p);
    var f :| Leads(m, f) && At(f, t) == Holding(h) && h in f.svc && f.svc[h] == m.svc[h];
    LeadsGood(m, f);
    FrontDrive(f, t, h);
    var e :| Leads(f, e) && h in e.svc && |e.svc[h].done| > |f.svc[h].done|;
    LeadsOn(m, f, e);
    LeadsOn(s, m, e);
  }

  lemma BeginsWork(s: State, t: nat)
    requires At(s, t) == Idle
    ensures Enabled(s, t, Work)
    ensures var m := Next(s, t, Work); m.svc == s.svc && m.global == s.global && At(m, t) == Popping
  {
  }

  lemma FromList(s: State, h: Handle)
    requires Good(s) && Waiting(s, h) && h in s.global
    ensures exists e :: Leads(s, e) && h in e.svc && |e.svc[h].done| > |s.svc[h].done|
  {
    hide Good, Inv, Marked, Leads;
    if s.svc[h].registered {
      ServedFromList(s, h);
    } else {
      RefsDrive(s, h);
      var m :| Leads(s, m) && Released(s, m, h);
      LeadsGood(s, m);
      ServedFromList(m, h);
      var e :| Leads(m, e) && h in e.svc && |e.svc[h].done| > |m.svc[h].done|;
      LeadsOn(s, m, e);
    }
  }

  /** One more message of 'h' is settled, if any is left. */
  lemma SettleOne(s: State, h: Handle)
    requires Good(s) && h in s.svc && |s.svc[h].done| < |s.svc[h].accepted|
    ensures exists e :: Leads(s, e) && h in e.svc && |e.svc[h].done| > |s.svc[h].done|
  {
    hide Good, Inv, Marked, Leads;
    GoodInv(s);
    if s.svc[h].hand != [] {
      var t := Carrier(s, h);
      CarryDrive(s, t, h);
    } else {
      LeftOver(s, h);
      NonEmptyPlaced(s, h);
      if h in s.global {
        FromList(s, h);
      } else {
        var t :| t in s.threads && h in Held(s.threads[t]);
        HeldDrive(s, t, h);
        var m :| Leads(s, m) && Ahead(s, m, h);
        if |m.svc[h].done| == |s.svc[h].done| {
          LeadsGood(s, m);
          FromList(m, h);
          var e :| Leads(m, e) && h in e.svc && |e.svc[h].done| > |m.svc[h].done|;
          LeadsOn(s, m, e);
        }
      }
    }
  }

  lemma Carrier(s: State, h: Handle) returns (t: nat)
    requires Inv(s) && h in s.svc && s.svc[h].hand != []
    ensures Carries(At(s, t), h)
  {
    assert QueuesOk(s);
    t :| t in s.threads && Carries(s.threads[t], h);
  }

  lemma LeftOver(s: State, h: Handle)
    requires Inv(s) && h in s.svc && s.svc[h].hand == [] && |s.svc[h].done| < |s.svc[h].accepted|
    ensures s.svc[h].msgs != []
  {
    assert QueueOk(h, s.svc[h]);
  }

  /** All messages that a queue has accepted can be settled. */
  lemma {:induction false} SettleAll(s: State, h: Handle, n: nat)
    requires Good(s) && h in s.svc && n <= |s.svc[h].accepted|
    ensures exists e :: Leads(s, e) && h in e.svc && |e.svc[h].done| >= n
    decreases n - |s.svc[h].done|
  {
    hide Good, Inv, Marked, Leads;
    if |s.svc[h].done| >= n {
      LeadsNowhere(s);
    } else {
      SettleOne(s, h);
      var m :| Leads(s, m) && h in m.svc && |m.svc[h].done| > |s.svc[h].done|;
      LeadsGood(s, m);
      LeadsGrows(s, m, h);
      SettleAll(m, h, n);
      var e :| Leads(m, e) && h in e.svc && |e.svc[h].done| >= n;
      LeadsOn(s, m, e);
    }
  }

  lemma LeadsGrows(s: State, e: State, h: Handle)
    requires Leads(s, e) && h in s.svc
    ensures h in e.svc && s.svc[h].accepted <= e.svc[h].accepted
  {
    hide Path;
    var moves :| Path(s, moves, e);
    PathGrows(s, moves, e, h);
  }

  lemma {:induction false} PathGrows(s: State, moves: seq<Move>, e: State, h: Handle)
    requires Path(s, moves, e) && h in s.svc
    ensures h in e.svc && s.svc[h].accepted <= e.svc[h].accepted
    decreases |moves|
  {
    hide Next, Enabled, Settled, Settles;
    if moves != [] {
      StepTouches(s, moves[0].t, moves[0].c, h);
      PathGrows(Next(s, moves[0].t, moves[0].c), moves[1..], e, h);
    }
  }

  /**
   Nothing starves: from every reachable state, whatever the threads are doing, they can go on so that
   every message accepted by the queue of 'h' so far has been handed over or dropped with a reply (or was
   freed because no callback is set).
   */
  lemma NothingStarves(moves: seq<Move>, states: seq<State>, i: nat, h: Handle)
    requires Run(moves, states) && i < |states| && h in states[i].svc
    ensures exists e :: Leads(states[i], e) && h in e.svc && |e.svc[h].done| >= |states[i].svc[h].accepted|
  {
    hide Run, Good, Leads;
    RunGood(moves, states, i);
    SettleAll(states[i], h, |states[i].svc[h].accepted|);
  }

  // ---- A retired service is freed

  function Left(i: nat, n: nat): nat {
    if i < n then n - i else 0
  }

  /** How far a thread is from giving up its reference. */
  function RefRank(pc: Pc): nat {
    match pc
    case Running(_, i, n) => 100 + 10 * Left(i, n)
    case Popped(_, i, n) => 103 + 10 * Left(i + 1, n)
    case Ready(_, i, n) => 102 + 10 * Left(i + 1, n)
    case Calling(_, i, n) => 101 + 10 * Left(i + 1, n)
    case Launching(_) => 60
    case Publishing(_) => 59
    case Tail(_) => 20
    case PushBack(_, _) => 19
    case Pushing(_, _) => 6
    case Using(_) => 6
    case Releasing(_, _) => 5
    case _ => 0
  }

  lemma RefStep(s: State, t: nat, h: Handle)
    requires CanDo(s, t) && HasRef(At(s, t), h)
    ensures var m := Then(s, t); HasRef(At(m, t), h) ==> RefRank(At(m, t)) < RefRank(At(s, t))
  {
    hide MqPush, MarkRelease, HandOver, DropOne, Start, PushGlobal, Take;
  }

  /** A thread gives up its reference to a retired service, and nobody gets a new one. */
  lemma {:induction false} RefOut(s: State, t: nat, h: Handle)
    requires Good(s) && h in s.svc && !s.svc[h].registered && HasRef(At(s, t), h)
    ensures exists e :: Leads(s, e) && h in e.svc && !e.svc[h].registered && |Refs(e, h)| < |Refs(s, h)|
    decreases RefRank(At(s, t))
  {
    hide Good, Inv, Marked, Leads, Next, Refs, RefRank, HasRef, Settled, Settles;
    GoodInv(s);
    RefBusy(s, t, h);
    Busy(s, t);
    ThenGood(s, t);
    RefStep(s, t, h);
    NextMovesOnly(s, t, Do);
    StepTouches(s, t, Do, h);
    var m := Then(s, t);
    RefsMove(s, m, t, h);
    if HasRef(At(m, t), h) {
      RefOut(m, t, h);
      var e :| Leads(m, e) && h in e.svc && !e.svc[h].registered && |Refs(e, h)| < |Refs(m, h)|;
      LeadsOn(s, m, e);
    }
  }

  lemma RefBusy(s: State, t: nat, h: Handle)
    requires HasRef(At(s, t), h)
    ensures At(s, t) != Idle
  {
  }

  lemma {:induction false} AllRefsOut(s: State, h: Handle)
    requires Good(s) && h in s.svc && !s.svc[h].registered
    ensures exists e :: Leads(s, e) && h in e.svc && e.svc[h].release
    decreases |Refs(s, h)|
  {
    hide Good, Inv, Marked, Leads, Next, Refs;
    GoodInv(s);
    if |Refs(s, h)| == 0 {
      RefCount(s, h);
      if s.svc[h].release {
        LeadsNowhere(s);
      } else {
        assert Deleted(s, h) by {
          MarkedAt(s, h);
        }
        var t :| t in s.threads && s.threads[t].Deleting? && s.threads[t].h == h;
        Busy(s, t);
        ThenGood(s, t);
        DeletesMarks(s, t, h);
      }
    } else {
      var t :| t in Refs(s, h);
      HasRefFacts(s, t, h);
      RefOut(s, t, h);
      var m :| Leads(s, m) && h in m.svc && !m.svc[h].registered && |Refs(m, h)| < |Refs(s, h)|;
      LeadsGood(s, m);
      AllRefsOut(m, h);
      var e :| Leads(m, e) && h in e.svc && e.svc[h].release;
      LeadsOn(s, m, e);
    }
  }

  lemma MarkedAt(s: State, h: Handle)
    requires Marked(s) && h in s.svc && s.svc[h].ref == 0 && !s.svc[h].release
    ensures Deleted(s, h)
  {
  }

  lemma DeletesMarks(s: State, t: nat, h: Handle)
    requires CanDo(s, t) && At(s, t).Deleting? && At(s, t).h == h && h in s.svc
    ensures h in Then(s, t).svc && Then(s, t).svc[h].release
  {
  }

  /** How far a thread is from freeing the queue it has to itself. */
  function FreeRank(pc: Pc): nat {
    match pc
    case Releasing(_, k) => if k.ThenRetire? then 30 else 15
    case Deleting(_, k) => if k.ThenRetire? then 29 else 14
    case Retiring(_) => 28
    case PushBack(_, _) => 17
    case Holding(_) => 10
    case MqReleasing(_, _) => 8
    case Dropping(_, _) => 7
    case Replying(_, _) => 7
    case Freeing(_, _) => 5
    case _ => 0
  }

  /** The queue is released, and thread t has it to itself. */
  ghost predicate Frees(s: State, t: nat, h: Handle) {
    h in s.svc && s.svc[h].release && !s.svc[h].registered && h in Held(At(s, t)) && !HasRef(At(s, t), h)
  }

  ghost predicate FreesNext(s: State, t: nat, h: Handle)
    requires CanDo(s, t)
  {
    var m := Then(s, t);
    && h in m.svc
    && (|| m.svc[h].freed
        || (&& Frees(m, t, h) && FreeRank(At(m, t)) <= FreeRank(At(s, t))
            && (FreeRank(At(m, t)) == FreeRank(At(s, t)) ==> ToDrop(m, t) < ToDrop(s, t))))
  }

  lemma FreeStep(s: State, t: nat, h: Handle)
    requires CanDo(s, t) && Frees(s, t, h)
    ensures FreesNext(s, t, h)
  {
    hide FreesNext, Next;
    var pc := At(s, t);
    if pc.Releasing? || pc.Deleting? || pc.Retiring? {
      FreeRelease(s, t, h);
    } else if pc.PushBack? || pc.Holding? || pc.MqReleasing? {
      FreeHold(s, t, h);
    } else {
      FreeDrop(s, t, h);
    }
  }

  lemma FreeRelease(s: State, t: nat, h: Handle)
    requires CanDo(s, t) && Frees(s, t, h) && (At(s, t).Releasing? || At(s, t).Deleting? || At(s, t).Retiring?)
    ensures FreesNext(s, t, h)
  {
    hide MqPush, HandOver, DropOne, Take, Start, Batch;
  }

  lemma FreeHold(s: State, t: nat, h: Handle)
    requires CanDo(s, t) && Frees(s, t, h) && (At(s, t).PushBack? || At(s, t).Holding? || At(s, t).MqReleasing?)
    ensures FreesNext(s, t, h)
  {
    hide MqPush, MarkRelease, HandOver, DropOne, Take, Start, Batch;
  }

  lemma FreeDrop(s: State, t: nat, h: Handle)
    requires CanDo(s, t) && Frees(s, t, h) && (At(s, t).Dropping? || At(s, t).Replying? || At(s, t).Freeing?)
    ensures FreesNext(s, t, h)
  {
    hide MqPush, MarkRelease, HandOver, Start, Batch;
  }

  lemma {:induction false} FreeHeld(s: State, t: nat, h: Handle)
    requires Good(s) && Frees(s, t, h)
    ensures exists e :: Leads(s, e) && h in e.svc && e.svc[h].freed
    decreases FreeRank(At(s, t)), ToDrop(s, t)
  {
    hide Good, Inv, Marked, Leads, Next, FreeRank, ToDrop, Frees;
    GoodInv(s);
    HoldsBusy(s, t, h);
    Busy(s, t);
    ThenGood(s, t);
    FreeStep(s, t, h);
    var m := Then(s, t);
    if !m.svc[h].freed {
      FreeHeld(m, t, h);
      var e :| Leads(m, e) && h in e.svc && e.svc[h].freed;
      LeadsOn(s, m, e);
    }
  }

  lemma HoldsBusy(s: State, t: nat, h: Handle)
    requires Frees(s, t, h)
    ensures At(s, t) != Idle
  {
  }

  /** A released queue is somewhere, and comes to be freed. */
  lemma FreeReleased(s: State, h: Handle)
    requires Good(s) && h in s.svc && s.svc[h].release
    ensures exists e :: Leads(s, e) && h in e.svc && e.svc[h].freed
  {
    hide Good, Inv, Marked, Leads;
    if s.svc[h].freed {
      LeadsNowhere(s);
    } else {
      GoodInv(s);
      ReleasedPlaced(s, h);
      if h in s.global {
        SomeIdle(s);
        var t :| At(s, t) == Idle;
        BeginsWork(s, t);
        var m := Next(s, t, Work);
        GoodStep(s, t, Work);
        LeadsStep(s, t, Work);
        var p :| 0 <= p < |s.global| && s.global[p] == h;
        ComesTo(m, t, h, p);
        var f :| Leads(m, f) && At(f, t) == Holding(h) && h in f.svc && f.svc[h] == m.svc[h];
        LeadsGood(m, f);
        FreeHeld(f, t, h);
        var e :| Leads(f, e) && h in e.svc && e.svc[h].freed;
        LeadsOn(m, f, e);
        LeadsOn(s, m, e);
      } else {
        var t :| t in s.threads && h in Held(s.threads[t]);
        NoRefToReleased(s, t, h);
        FreeHeld(s, t, h);
      }
    }
  }

  lemma ReleasedPlaced(s: State, h: Handle)
    requires Inv(s) && h in s.svc && s.svc[h].release
    ensures !s.svc[h].registered && (s.svc[h].freed || Placed(s, h))
  {
    assert QueueOk(h, s.svc[h]);
  }

  lemma NoRefToReleased(s: State, t: nat, h: Handle)
    requires Inv(s) && h in s.svc && s.svc[h].release
    ensures !HasRef(At(s, t), h)
  {
    if HasRef(At(s, t), h) {
      OwnsRef(s, t, h);
    }
  }

  /**
   Nothing leaks: from every reachable state the threads can go on so that the queue of a retired service
   is freed, whoever still uses its context.
   */
  lemma NothingLeaks(moves: seq<Move>, states: seq<State>, i: nat, h: Handle)
    requires Run(moves, states) && i < |states| && h in states[i].svc && !states[i].svc[h].registered
    ensures exists e :: Leads(states[i], e) && h in e.svc && e.svc[h].freed
  {
    hide Run, Good, Leads;
    RunGood(moves, states, i);
    var s := states[i];
    AllRefsOut(s, h);
    var m :| Leads(s, m) && h in m.svc && m.svc[h].release;
    LeadsGood(s, m);
    FreeReleased(m, h);
    var e :| Leads(m, e) && h in e.svc && e.svc[h].freed;
    LeadsOn(s, m, e);
  }
}
