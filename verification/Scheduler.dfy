/**
 The actor scheduler of skynet_server.c and skynet_mq.c as the interleaving of any number of
 activities: launching, sending to, retiring and dispatching services. A region under one spinlock
 is one step, every atomic operation is one step. What a callback or a module does inside (sending,
 launching, killing) is an activity of its own. Handles are not reused, so a handle stands for the
 context and for its queue.
 */
module Scheduler {

  import opened Prelude

  type Handle = nat

  /** The PTYPE_ERROR message of drop_message. */
  datatype Reply = Reply(source: Handle, dest: nat, session: int)

  /** What became of a message: its callback was called, there was no callback, it was dropped. */
  datatype Fate = Handed(msg: Msg) | Unheard(msg: Msg) | Dropped(msg: Msg)

  /** A context and its message queue. The last four fields are history. */
  datatype Service = Service(
    registered: bool,   // in the handle table
    ref: int,
    init: bool,
    cb: bool,           // a callback is set
    msgs: seq<Msg>,
    inGlobal: bool,
    release: bool,
    freed: bool,
    hand: seq<Msg>,     // popped, not yet handed over
    accepted: seq<Msg>,
    done: seq<Fate>,
    replies: seq<Reply>
  )

  /** What follows skynet_context_release or skynet_mq_release. */
  datatype After = Done | ThenRetire(h: Handle) | ThenRelease(h: Handle) | ThenPop | ThenHold(h: Handle)

  datatype Pc =
    | Idle
    | Launching(h: Handle)                  // inside the module's init
    | Publishing(h: Handle)                 // before skynet_globalmq_push
    | Retiring(h: Handle)                   // failed launch, before skynet_handle_retire
    | Pushing(h: Handle, msg: Msg)
    | Using(h: Handle)                      // some other use of a grabbed context
    | Releasing(h: Handle, k: After)        // before the decrement of ref
    | Deleting(h: Handle, k: After)         // ref became 0, before skynet_mq_mark_release
    | MqReleasing(h: Handle, k: After)      // before skynet_mq_release
    | Dropping(h: Handle, k: After)         // in _drop_queue
    | Replying(h: Handle, k: After)         // in drop_message
    | Freeing(h: Handle, k: After)          // before _release
    | Popping                               // before skynet_globalmq_pop
    | Holding(h: Handle)                    // before skynet_handle_grab
    | Running(h: Handle, i: nat, n: nat)    // head of the dispatch loop
    | Popped(h: Handle, i: nat, n: nat)     // a message was popped
    | Ready(h: Handle, i: nat, n: nat)      // the batch size is known
    | Calling(h: Handle, i: nat, n: nat)    // inside the callback
    | Tail(h: Handle)                       // after the loop
    | PushBack(h: Handle, next: Handle)     // another queue was popped

  /** 'ok' becomes false when an assert() of the program fails. */
  datatype State = State(svc: map<Handle, Service>, global: seq<Handle>, threads: map<nat, Pc>, ok: bool)

  /** What an idle thread begins, or how a busy one goes on. */
  datatype Choice =
    | Launch(h: Handle)
    | Send(h: Handle, msg: Msg)
    | Use(h: Handle)
    | Retire(h: Handle)
    | Work
    | Go(fine: bool, weight: int)
    | SetCallback(cb: bool)                 // skynet_callback, from the module's init or from the callback

  function At(s: State, t: nat): Pc {
    if t in s.threads then s.threads[t] else Idle
  }

  function Enter(k: After): Pc {
    match k
    case Done => Idle
    case ThenRetire(h) => Retiring(h)
    case ThenRelease(h) => MqReleasing(h, Done)
    case ThenPop => Popping
    case ThenHold(h) => Holding(h)
  }

  /** The handle whose service record the step at 'pc' uses. */
  function Subject(pc: Pc): Option<Handle> {
    match pc
    case Idle | Popping => None
    case _ => Some(pc.h)
  }

  predicate Enabled(s: State, t: nat, c: Choice) {
    var pc := At(s, t);
    && (pc == Idle <==> !c.Go? && !c.SetCallback?)
    && (c.SetCallback? ==> pc.Launching? || pc.Calling?)
    && (c.Launch? ==> c.h !in s.svc)
    && (Subject(pc).Some? ==> Subject(pc).value in s.svc)
  }

  function Goto(s: State, t: nat, pc: Pc): State {
    s.(threads := s.threads[t := pc])
  }

  function Put(s: State, h: Handle, v: Service): State {
    s.(svc := s.svc[h := v])
  }

  /** skynet_globalmq_push with its assertion; a queue outside the list has next == NULL. */
  function PushGlobal(s: State, h: Handle): State {
    s.(global := s.global + [h], ok := s.ok && h !in s.global)
  }

  const Fresh := Service(true, 2, false, false, [], true, false, false, [], [], [], [])

  function Grab(v: Service): Service {
    v.(ref := v.ref + 1)
  }

  /** The size of the batch after the first pop: the length shifted right by the weight. */
  function Batch(n: nat, len: nat, weight: int): nat {
    if weight < 0 then n else Shift(len, weight)
  }

  function Shift(len: nat, w: nat): nat {
    if w == 0 then len else Shift(len / 2, w - 1)
  }

  function Start(s: State, t: nat, c: Choice): State
    requires Enabled(s, t, c) && At(s, t) == Idle
  {
    match c
    case Launch(h) => Goto(Put(s, h, Fresh), t, Launching(h))
    case Send(h, m) =>
      if h in s.svc && s.svc[h].registered then Goto(Put(s, h, Grab(s.svc[h])), t, Pushing(h, m)) else Goto(s, t, Idle)
    case Use(h) =>
      if h in s.svc && s.svc[h].registered then Goto(Put(s, h, Grab(s.svc[h])), t, Using(h)) else Goto(s, t, Idle)
    case Retire(h) =>
      if h in s.svc && s.svc[h].registered
      then Goto(Put(s, h, s.svc[h].(registered := false)), t, Releasing(h, Done)) else Goto(s, t, Idle)
    case Work => Goto(s, t, Popping)
    case _ => s
  }

  /** skynet_mq_push. */
  function MqPush(s: State, h: Handle, m: Msg): State
    requires h in s.svc
  {
    var v := s.svc[h].(msgs := s.svc[h].msgs + [m], accepted := s.svc[h].accepted + [m]);
    if v.inGlobal then Put(s, h, v) else PushGlobal(Put(s, h, v.(inGlobal := true)), h)
  }

  /** skynet_mq_pop of a non-empty queue, by the thread that holds it. */
  function Take(v: Service): Service
    requires v.msgs != []
  {
    v.(msgs := v.msgs[1..], hand := v.hand + [v.msgs[0]])
  }

  /** skynet_mq_mark_release. */
  function MarkRelease(s: State, h: Handle): State
    requires h in s.svc
  {
    var v := s.svc[h];
    var s1 := Put(s, h, v.(release := true)).(ok := s.ok && !v.release);
    if v.inGlobal then s1 else PushGlobal(s1, h)
  }

  /** The message in hand goes to the callback, or nowhere when there is none. */
  function HandOver(v: Service): Service {
    if v.hand == [] then v
    else v.(hand := v.hand[1..], done := v.done + [if v.cb then Handed(v.hand[0]) else Unheard(v.hand[0])])
  }

  function DropOne(h: Handle, v: Service): Service {
    if v.hand == [] then v
    else v.(hand := v.hand[1..], done := v.done + [Dropped(v.hand[0])],
            replies := v.replies + [Reply(h, v.hand[0].source, v.hand[0].session)])
  }

  function Next(s: State, t: nat, c: Choice): State
    requires Enabled(s, t, c)
  {
    var pc := At(s, t);
    if c.SetCallback? then Goto(Put(s, pc.h, s.svc[pc.h].(cb := c.cb)), t, pc)
    else
      match pc
      case Idle => Start(s, t, c)
      case Launching(h) =>
        if c.fine then Goto(Put(s, h, s.svc[h].(init := true)), t, Publishing(h))
        else Goto(s, t, Releasing(h, ThenRetire(h)))
      case Publishing(h) => Goto(PushGlobal(s, h), t, Releasing(h, Done))
      case Retiring(h) =>
        if s.svc[h].registered
        then Goto(Put(s, h, s.svc[h].(registered := false)), t, Releasing(h, ThenRelease(h)))
        else Goto(s, t, MqReleasing(h, Done))
      case Pushing(h, m) => Goto(MqPush(s, h, m), t, Releasing(h, Done))
      case Using(h) => Goto(s, t, Releasing(h, Done))
      case Releasing(h, k) =>
        Goto(Put(s, h, s.svc[h].(ref := s.svc[h].ref - 1)), t, if s.svc[h].ref == 1 then Deleting(h, k) else Enter(k))
      case Deleting(h, k) => Goto(MarkRelease(s, h), t, Enter(k))
      case MqReleasing(h, k) =>
        if s.svc[h].release then Goto(s, t, Dropping(h, k)) else Goto(PushGlobal(s, h), t, Enter(k))
      case Dropping(h, k) =>
        if s.svc[h].msgs != [] then Goto(Put(s, h, Take(s.svc[h])), t, Replying(h, k))
        else Goto(Put(s, h, s.svc[h].(inGlobal := false)), t, Freeing(h, k))
      case Replying(h, k) => Goto(Put(s, h, DropOne(h, s.svc[h])), t, Dropping(h, k))
      case Freeing(h, k) =>
        Goto(Put(s, h, s.svc[h].(freed := true)).(ok := s.ok && h !in s.global && !s.svc[h].freed), t, Enter(k))
      case Popping =>
        if s.global == [] then Goto(s, t, Idle) else Goto(s.(global := s.global[1..]), t, Holding(s.global[0]))
      case Holding(h) =>
        if s.svc[h].registered then Goto(Put(s, h, Grab(s.svc[h])), t, Running(h, 0, 1))
        else Goto(s, t, MqReleasing(h, ThenPop))
      case Running(h, i, n) =>
        if i >= n then Goto(s, t, Tail(h))
        else if s.svc[h].msgs != [] then Goto(Put(s, h, Take(s.svc[h])), t, Popped(h, i, n))
        else Goto(Put(s, h, s.svc[h].(inGlobal := false)), t, Releasing(h, ThenPop))
      case Popped(h, i, n) => Goto(s, t, Ready(h, i, if i == 0 then Batch(n, |s.svc[h].msgs|, c.weight) else n))
      case Ready(h, i, n) =>
        if s.svc[h].cb then Goto(Put(s, h, HandOver(s.svc[h])).(ok := s.ok && s.svc[h].init), t, Calling(h, i, n))
        else Goto(Put(s, h, HandOver(s.svc[h])), t, Running(h, i + 1, n))
      case Calling(h, i, n) => Goto(s, t, Running(h, i + 1, n))
      case Tail(h) =>
        if s.global == [] then Goto(s, t, Releasing(h, ThenHold(h)))
        else Goto(s.(global := s.global[1..]), t, PushBack(h, s.global[0]))
      case PushBack(h, next) => Goto(PushGlobal(s, h), t, Releasing(h, ThenHold(next)))
  }

  const Initial := State(map[], [], map[], true)

  /** A run: which thread moves, and how, at each step. */
  datatype Move = Move(t: nat, c: Choice)

  ghost predicate Run(moves: seq<Move>, states: seq<State>) {
    && |states| == |moves| + 1
    && states[0] == Initial
    && forall i :: 0 <= i < |moves| ==>
         Enabled(states[i], moves[i].t, moves[i].c) && states[i + 1] == Next(states[i], moves[i].t, moves[i].c)
  }

  // ---- Invariants

  function HeldBy(k: After): set<Handle> {
    match k
    case ThenRetire(h) => {h}
    case ThenRelease(h) => {h}
    case ThenHold(h) => {h}
    case Done | ThenPop => {}
  }

  /** The queues a thread has to itself. */
  function Held(pc: Pc): set<Handle> {
    match pc
    case Idle | Popping | Pushing(_, _) | Using(_) => {}
    case Releasing(_, k) => HeldBy(k)
    case Deleting(_, k) => HeldBy(k)
    case PushBack(h, next) => {h, next}
    case _ => {pc.h}
  }

  /** The context a thread owns a reference to. */
  function RefTo(pc: Pc): Option<Handle> {
    match pc
    case Launching(h) => Some(h)
    case Publishing(h) => Some(h)
    case Pushing(h, _) => Some(h)
    case Using(h) => Some(h)
    case Releasing(h, _) => Some(h)
    case Running(h, _, _) => Some(h)
    case Popped(h, _, _) => Some(h)
    case Ready(h, _, _) => Some(h)
    case Calling(h, _, _) => Some(h)
    case Tail(h) => Some(h)
    case PushBack(h, _) => Some(h)
    case _ => None
  }

  predicate HasRef(pc: Pc, h: Handle) {
    RefTo(pc) == Some(h)
  }

  function Refs(s: State, h: Handle): set<nat> {
    set t | t in s.threads && HasRef(s.threads[t], h)
  }

  /** The thread has popped a message of 'h' and not passed it on. */
  predicate Carries(pc: Pc, h: Handle) {
    (pc.Popped? || pc.Ready? || pc.Replying?) && pc.h == h
  }

  function Bit(b: bool): int { if b then 1 else 0 }

  ghost predicate RefOk(s: State) {
    forall h :: h in s.svc ==> s.svc[h].ref == |Refs(s, h)| + Bit(s.svc[h].registered)
  }

  /** Nothing is in two places. */
  ghost predicate Apart(s: State) {
    && (forall i, j :: 0 <= i < j < |s.global| ==> s.global[i] != s.global[j])
    && (forall t, h :: t in s.threads && h in Held(s.threads[t]) ==> h !in s.global)
    && (forall t, u, h :: t in s.threads && u in s.threads && t != u && h in Held(s.threads[t]) ==>
       h !in Held(s.threads[u]))
  }

  ghost predicate Placed(s: State, h: Handle) {
    h in s.global || exists t :: t in s.threads && h in Held(s.threads[t])
  }

  /** A queue has a place exactly when it is marked as scheduled or released. */
  ghost predicate PlaceOk(s: State) {
    && (forall h :: Placed(s, h) ==> h in s.svc)
    && (forall h :: h in s.svc ==> (Placed(s, h) <==> (s.svc[h].inGlobal || s.svc[h].release) && !s.svc[h].freed))
  }

  ghost predicate AfterOk(s: State, k: After) {
    match k
    case ThenRetire(h) => h in s.svc
    case ThenRelease(h) => h in s.svc && !s.svc[h].registered
    case ThenHold(h) => h in s.svc && (s.svc[h].init || !s.svc[h].registered)
    case _ => true
  }

  ghost predicate PcOk(s: State, pc: Pc) {
    && (Subject(pc).Some? ==> Subject(pc).value in s.svc)
    && match pc
       case Launching(h) => !s.svc[h].init
       case Publishing(h) => s.svc[h].init
       case Releasing(h, k) => AfterOk(s, k)
       case Deleting(h, k) => AfterOk(s, k) && s.svc[h].ref == 0 && !s.svc[h].release
       case MqReleasing(h, k) => !s.svc[h].registered && (k == Done || k == ThenPop)
       case Dropping(h, k) => s.svc[h].release && (k == Done || k == ThenPop)
       case Replying(h, k) => s.svc[h].release && (k == Done || k == ThenPop) && |s.svc[h].hand| == 1
       case Freeing(h, k) => s.svc[h].release && s.svc[h].msgs == [] && (k == Done || k == ThenPop)
       case Holding(h) => s.svc[h].init || !s.svc[h].registered
       case Running(h, _, _) => s.svc[h].init
       case Popped(h, _, _) => s.svc[h].init && |s.svc[h].hand| == 1
       case Ready(h, _, _) => s.svc[h].init && |s.svc[h].hand| == 1
       case Calling(h, _, _) => s.svc[h].init
       case Tail(h) => s.svc[h].init
       case PushBack(h, n) => h != n && s.svc[h].init && n in s.svc && (s.svc[n].init || !s.svc[n].registered)
       case _ => true
  }

  ghost predicate ThreadsOk(s: State) {
    && (forall t :: t in s.threads ==> PcOk(s, s.threads[t]))
    && (forall t, u :: t in s.threads && u in s.threads && t != u && s.threads[t].Deleting? && s.threads[u].Deleting?
          ==> s.threads[t].h != s.threads[u].h)
    && (forall h :: h in s.global ==> h in s.svc && (s.svc[h].init || !s.svc[h].registered))
  }

  function Messages(done: seq<Fate>): seq<Msg> {
    seq(|done|, i requires 0 <= i < |done| => done[i].msg)
  }

  function Replies(h: Handle, done: seq<Fate>): seq<Reply> {
    if done == [] then []
    else
      var f := done[|done| - 1];
      Replies(h, done[..|done| - 1]) + if f.Dropped? then [Reply(h, f.msg.source, f.msg.session)] else []
  }

  /** Every accepted message is done with, in hand or queued, in the order of acceptance. */
  ghost predicate QueueOk(h: Handle, v: Service) {
    && v.accepted == Messages(v.done) + v.hand + v.msgs
    && v.replies == Replies(h, v.done)
    && (forall i :: 0 <= i < |v.done| && v.done[i].Dropped? ==> v.release)
    && (forall i, j :: 0 <= i < j < |v.done| && v.done[i].Dropped? ==> v.done[j].Dropped?)
    && (v.release ==> v.ref == 0)
    && (!v.inGlobal && !v.release ==> v.msgs == [] && v.init)
    && (v.freed ==> v.release && v.msgs == [] && v.hand == [])
  }

  ghost predicate QueuesOk(s: State) {
    && (forall h :: h in s.svc ==> QueueOk(h, s.svc[h]))
    && (forall h :: h in s.svc && s.svc[h].hand != [] ==> exists t :: t in s.threads && Carries(s.threads[t], h))
  }

  ghost predicate Inv(s: State) {
    s.ok && RefOk(s) && Apart(s) && PlaceOk(s) && ThreadsOk(s) && QueuesOk(s)
  }

  // ---- One thread moves

  /** 'h' is in the global list or held by thread t. */
  predicate Here(s: State, t: nat, h: Handle) {
    h in s.global || h in Held(At(s, t))
  }

  predicate MovesOnly(s: State, s2: State, t: nat) {
    s2.threads == s.threads[t := At(s2, t)]
  }

  lemma RefsMove(s: State, s2: State, t: nat, h: Handle)
    requires MovesOnly(s, s2, t)
    ensures |Refs(s2, h)| == |Refs(s, h)| - Bit(HasRef(At(s, t), h)) + Bit(HasRef(At(s2, t), h))
  {
    var rest := Refs(s, h) - {t};
    assert Refs(s, h) == if HasRef(At(s, t), h) then rest + {t} else rest;
    assert Refs(s2, h) == if HasRef(At(s2, t), h) then rest + {t} else rest;
  }

  lemma PlacesMove(s: State, s2: State, t: nat, h: Handle)
    requires MovesOnly(s, s2, t) && Apart(s)
    ensures Placed(s2, h) <==> Here(s2, t, h) || (Placed(s, h) && !Here(s, t, h))
  {
    if u :| u in s2.threads && u != t && h in Held(s2.threads[u]) {
      assert h in Held(s.threads[u]);
    }
    if Placed(s, h) && !Here(s, t, h) {
      var u :| u in s.threads && h in Held(s.threads[u]);
      assert u in s2.threads && h in Held(s2.threads[u]);
    }
  }

  /** What thread t now has came from what it had, or had no place. */
  ghost predicate TakesOwn(s: State, s2: State, t: nat) {
    && (forall i, j :: 0 <= i < j < |s2.global| ==> s2.global[i] != s2.global[j])
    && (forall h :: h in Held(At(s2, t)) ==> h !in s2.global)
    && (forall h :: Here(s2, t, h) ==> Here(s, t, h) || !Placed(s, h))
  }

  lemma Elsewhere(s: State, t: nat, u: nat, h: Handle)
    requires Apart(s) && u in s.threads && u != t && h in Held(s.threads[u])
    ensures Placed(s, h) && !Here(s, t, h)
  {
  }

  lemma ApartMove(s: State, s2: State, t: nat)
    requires MovesOnly(s, s2, t) && Apart(s) && TakesOwn(s, s2, t)
    ensures Apart(s2)
  {
    hide Held;
    hide Placed;
    forall u, h | u in s2.threads && u != t && h in Held(s2.threads[u])
      ensures !Here(s2, t, h)
    {
      Elsewhere(s, t, u, h);
    }
    forall u, h | u in s2.threads && h in Held(s2.threads[u])
      ensures h !in s2.global
    {
      assert u != t ==> !Here(s2, t, h);
    }
    forall u, w, h | u in s2.threads && w in s2.threads && u != w && h in Held(s2.threads[u])
      ensures h !in Held(s2.threads[w])
    {
      if u == t || w == t {
        assert u != t ==> !Here(s2, t, h);
        assert w != t && h in Held(s2.threads[w]) ==> !Here(s2, t, h);
      } else {
        assert h in Held(s.threads[u]);
      }
    }
  }

  predicate Scheduled(v: Service) {
    (v.inGlobal || v.release) && !v.freed
  }

  ghost predicate SchedulesOwn(s: State, s2: State, t: nat) {
    && (forall h :: Here(s2, t, h) ==> h in s2.svc)
    && (forall h :: h in s.svc ==> h in s2.svc)
    && (forall h :: h in s.svc ==> (Scheduled(s2.svc[h]) <==>
       Here(s2, t, h) || (Scheduled(s.svc[h]) && !Here(s, t, h))))
    && (forall h :: h in s2.svc && h !in s.svc ==> (Scheduled(s2.svc[h]) <==> Here(s2, t, h)))
  }

  lemma PlaceMove(s: State, s2: State, t: nat)
    requires MovesOnly(s, s2, t) && Apart(s) && PlaceOk(s) && SchedulesOwn(s, s2, t)
    ensures PlaceOk(s2)
  {
    forall h
      ensures Placed(s2, h) ==> h in s2.svc
      ensures h in s2.svc ==> (Placed(s2, h) <==> Scheduled(s2.svc[h]))
    {
      PlacesMove(s, s2, t, h);
      assert h !in s.svc ==> !Placed(s, h);
      assert h in s.svc ==> (Placed(s, h) <==> Scheduled(s.svc[h]));
    }
  }

  /** No other thread's knowledge of a service is broken. */
  predicate StableAt(v: Service, w: Service, pc: Pc, h: Handle) {
    && (w.registered ==> v.registered) && (v.init ==> w.init) && (v.release ==> w.release)
    && (v.ref == 0 ==> w.ref == 0)
    && (v.release && v.msgs == [] ==> w.msgs == [])
    && ((w.hand == v.hand && w.init == v.init) || h in Held(pc))
    && (w.release == v.release || (pc.Deleting? && pc.h == h))
  }

  ghost predicate Stable(s: State, s2: State, t: nat) {
    forall h :: h in s.svc ==> h in s2.svc && StableAt(s.svc[h], s2.svc[h], At(s, t), h)
  }

  lemma AfterStays(s: State, s2: State, t: nat, k: After)
    requires AfterOk(s, k) && Stable(s, s2, t)
    ensures AfterOk(s2, k)
  {
  }

  lemma OtherStays(s: State, s2: State, t: nat, u: nat)
    requires MovesOnly(s, s2, t) && Apart(s) && ThreadsOk(s) && Stable(s, s2, t)
    requires u in s.threads && u != t
    ensures PcOk(s2, s.threads[u])
  {
    var pc := s.threads[u];
    assert PcOk(s, pc);
    if pc.Releasing? || pc.Deleting? {
      AfterStays(s, s2, t, pc.k);
    }
    if pc.Deleting? {
      assert StableAt(s.svc[pc.h], s2.svc[pc.h], At(s, t), pc.h);
    } else if pc.Launching? || (Subject(pc).Some? && Carries(pc, pc.h)) {
      assert pc.h in Held(pc) && pc.h !in Held(At(s, t));
      assert StableAt(s.svc[pc.h], s2.svc[pc.h], At(s, t), pc.h);
    }
  }

  ghost predicate KnowsOwn(s: State, s2: State, t: nat) {
    && Stable(s, s2, t)
    && PcOk(s2, At(s2, t))
    && (At(s2, t).Deleting? ==> var h := At(s2, t).h; h in s.svc && s.svc[h].ref != 0)
    && (forall h :: h in s2.global ==> h in s2.svc && (s2.svc[h].init || !s2.svc[h].registered))
  }

  lemma ThreadsMove(s: State, s2: State, t: nat)
    requires MovesOnly(s, s2, t) && Apart(s) && ThreadsOk(s) && KnowsOwn(s, s2, t)
    ensures ThreadsOk(s2)
  {
    forall u | u in s2.threads
      ensures PcOk(s2, s2.threads[u])
    {
      if u != t {
        OtherStays(s, s2, t, u);
      }
    }
    forall u, w | u in s2.threads && w in s2.threads && u != w && s2.threads[u].Deleting? && s2.threads[w].Deleting?
      ensures s2.threads[u].h != s2.threads[w].h
    {
      if u != t {
        assert PcOk(s, s.threads[u]);
      }
      if w != t {
        assert PcOk(s, s.threads[w]);
      }
    }
  }

  ghost predicate QueuesOwn(s: State, s2: State, t: nat) {
    forall h :: h in s2.svc ==>
      && QueueOk(h, s2.svc[h])
      && (s2.svc[h].hand != [] ==>
            Carries(At(s2, t), h) || (h in s.svc && s2.svc[h].hand == s.svc[h].hand && !Carries(At(s, t), h)))
  }

  lemma QueuesMove(s: State, s2: State, t: nat)
    requires MovesOnly(s, s2, t) && QueuesOk(s) && QueuesOwn(s, s2, t)
    ensures QueuesOk(s2)
  {
    forall h | h in s2.svc && s2.svc[h].hand != []
      ensures exists u :: u in s2.threads && Carries(s2.threads[u], h)
    {
      if Carries(At(s2, t), h) {
        assert t in s2.threads && Carries(s2.threads[t], h);
      } else {
        var u :| u in s.threads && Carries(s.threads[u], h);
        assert u in s2.threads && Carries(s2.threads[u], h);
      }
    }
  }

  ghost predicate CountsOwn(s: State, s2: State, t: nat) {
    && (forall h :: h in s.svc && h in s2.svc ==>
          s2.svc[h].ref - Bit(s2.svc[h].registered) - Bit(HasRef(At(s2, t), h))
          == s.svc[h].ref - Bit(s.svc[h].registered) - Bit(HasRef(At(s, t), h)))
    && (forall h :: h in s2.svc && h !in s.svc ==>
          s2.svc[h].ref == Bit(s2.svc[h].registered) + Bit(HasRef(At(s2, t), h)))
  }

  lemma RefMove(s: State, s2: State, t: nat)
    requires MovesOnly(s, s2, t) && ThreadsOk(s) && RefOk(s) && CountsOwn(s, s2, t)
    ensures RefOk(s2)
  {
    forall h | h in s2.svc
      ensures s2.svc[h].ref == |Refs(s2, h)| + Bit(s2.svc[h].registered)
    {
      RefsMove(s, s2, t, h);
      if h !in s.svc {
        forall u | u in s.threads ensures !HasRef(s.threads[u], h) {
          assert PcOk(s, s.threads[u]);
        }
        assert Refs(s, h) == {};
      }
    }
  }

  ghost predicate Fits(s: State, s2: State, t: nat) {
    && s2.ok && MovesOnly(s, s2, t) && CountsOwn(s, s2, t) && TakesOwn(s, s2, t) && SchedulesOwn(s, s2, t)
    && KnowsOwn(s, s2, t) && QueuesOwn(s, s2, t)
  }

  lemma FitsKeeps(s: State, s2: State, t: nat)
    requires Inv(s) && Fits(s, s2, t)
    ensures Inv(s2)
  {
    RefMove(s, s2, t);
    ApartMove(s, s2, t);
    PlaceMove(s, s2, t);
    ThreadsMove(s, s2, t);
    QueuesMove(s, s2, t);
  }

  // ---- The steps

  /** Thread t goes to pc and the record of 'h' becomes w. */
  predicate Shape(s: State, s2: State, t: nat, pc: Pc, h: Handle, w: Service) {
    h in s.svc && s2.svc == s.svc[h := w] && s2.threads == s.threads[t := pc] && s2.ok
  }

  lemma CountsLocal(s: State, s2: State, t: nat, pc: Pc, h: Handle, w: Service)
    requires Shape(s, s2, t, pc, h, w)
    requires RefTo(At(s, t)) in {None, Some(h)} && RefTo(pc) in {None, Some(h)}
    requires w.ref - Bit(w.registered) - Bit(HasRef(pc, h))
             == s.svc[h].ref - Bit(s.svc[h].registered) - Bit(HasRef(At(s, t), h))
    ensures CountsOwn(s, s2, t)
  {
  }

  lemma QueuesLocal(s: State, s2: State, t: nat, pc: Pc, h: Handle, w: Service)
    requires QueuesOk(s) && Shape(s, s2, t, pc, h, w) && QueueOk(h, w)
    requires forall g :: Carries(At(s, t), g) ==> g == h
    requires w.hand != [] ==> Carries(pc, h) || (w.hand == s.svc[h].hand && !Carries(At(s, t), h))
    ensures QueuesOwn(s, s2, t)
  {
    hide QueueOk;
    hide Carries;
  }

  lemma KnowsLocal(s: State, s2: State, t: nat, pc: Pc, h: Handle, w: Service)
    requires Shape(s, s2, t, pc, h, w) && ThreadsOk(s)
    requires StableAt(s.svc[h], w, At(s, t), h)
    requires PcOk(s2, pc)
    requires pc.Deleting? ==> pc.h == h && s.svc[h].ref != 0
    requires forall g :: g in s2.global ==> g in s.global || (g == h && (w.init || !w.registered))
    ensures KnowsOwn(s, s2, t)
  {
    hide PcOk;
    hide Held;
  }

  ghost predicate Places(s: State, s2: State, t: nat) {
    TakesOwn(s, s2, t) && SchedulesOwn(s, s2, t)
  }

  /** Nothing changes place. */
  lemma PlaceSame(s: State, s2: State, t: nat, pc: Pc, h: Handle, w: Service)
    requires Shape(s, s2, t, pc, h, w) && Apart(s) && PlaceOk(s)
    requires s2.global == s.global && Held(pc) == Held(At(s, t)) && Scheduled(w) == Scheduled(s.svc[h])
    ensures Places(s, s2, t)
  {
    hide Held;
    forall g | Here(s, t, g) ensures g in s.svc && Scheduled(s.svc[g]) {
      HereScheduled(s, t, g);
    }
    EmptyIdle();
  }

  lemma EmptyIdle()
    ensures Held(Idle) == {}
  {
  }

  lemma HereScheduled(s: State, t: nat, h: Handle)
    requires PlaceOk(s) && Here(s, t, h)
    ensures h in s.svc && Scheduled(s.svc[h]) && Placed(s, h)
  {
    assert Placed(s, h);
  }

  /** 'h' leaves the hands of thread t and is no longer scheduled. */
  lemma PlaceDrop(s: State, s2: State, t: nat, pc: Pc, h: Handle, w: Service)
    requires Shape(s, s2, t, pc, h, w) && Apart(s) && PlaceOk(s)
    requires s2.global == s.global && h in Held(At(s, t)) && Held(pc) == Held(At(s, t)) - {h} && !Scheduled(w)
    ensures Places(s, s2, t)
  {
    hide Held;
    forall g | Here(s, t, g) ensures g in s.svc && Scheduled(s.svc[g]) {
      HereScheduled(s, t, g);
    }
    EmptyIdle();
  }

  /** 'h', held by thread t or not scheduled, enters the global list. */
  lemma PlacePush(s: State, s2: State, t: nat, pc: Pc, h: Handle, w: Service)
    requires Shape(s, s2, t, pc, h, w) && Apart(s) && PlaceOk(s)
    requires h in Held(At(s, t)) || !Scheduled(s.svc[h])
    requires s2.global == s.global + [h] && Held(pc) == Held(At(s, t)) - {h} && Scheduled(w)
    ensures Places(s, s2, t)
  {
    hide Held;
    forall g | Here(s, t, g) ensures g in s.svc && Scheduled(s.svc[g]) {
      HereScheduled(s, t, g);
    }
    EmptyIdle();
    assert !Scheduled(s.svc[h]) ==> !Placed(s, h);
    assert h !in s.global;
  }

  /** The head of the global list comes into the hands of thread t. */
  lemma PlacePop(s: State, s2: State, t: nat, pc: Pc)
    requires s2.svc == s.svc && s2.threads == s.threads[t := pc] && Apart(s) && PlaceOk(s)
    requires s.global != [] && s2.global == s.global[1..] && Held(pc) == Held(At(s, t)) + {s.global[0]}
    ensures Places(s, s2, t)
  {
    hide Held;
    forall g | Here(s, t, g) ensures g in s.svc && Scheduled(s.svc[g]) {
      HereScheduled(s, t, g);
    }
    EmptyIdle();
    var g := s.global[0];
    assert s.global == [g] + s2.global;
    assert g !in s2.global;
    assert At(s2, t) == pc;
    forall i, j | 0 <= i < j < |s2.global| ensures s2.global[i] != s2.global[j] {
      assert s2.global[i] == s.global[i + 1] && s2.global[j] == s.global[j + 1];
    }
    forall h | h in Held(pc) ensures h !in s2.global {
      assert h in s2.global ==> h in s.global;
    }
    forall h ensures Here(s2, t, h) <==> Here(s, t, h) {
      assert h in s.global <==> h == g || h in s2.global;
    }
  }

  ghost predicate PlaceLocal(s: State, s2: State, t: nat, pc: Pc, h: Handle, w: Service)
    requires h in s.svc
  {
    || (s2.global == s.global && Held(pc) == Held(At(s, t)) && Scheduled(w) == Scheduled(s.svc[h]))
    || (s2.global == s.global && h in Held(At(s, t)) && Held(pc) == Held(At(s, t)) - {h} && !Scheduled(w))
    || (s2.global == s.global + [h] && (h in Held(At(s, t)) || !Scheduled(s.svc[h])) && Held(pc) == Held(At(s, t)) - {h}
       && Scheduled(w))
    || (w == s.svc[h] && s.global != [] && s2.global == s.global[1..] && Held(pc) == Held(At(s, t)) + {s.global[0]})
  }

  lemma PlacesLocal(s: State, s2: State, t: nat, pc: Pc, h: Handle, w: Service)
    requires Shape(s, s2, t, pc, h, w) && Apart(s) && PlaceOk(s) && PlaceLocal(s, s2, t, pc, h, w)
    ensures Places(s, s2, t)
  {
    hide Held, Apart, PlaceOk, TakesOwn, SchedulesOwn, Scheduled;
    if s2.global == s.global && Held(pc) == Held(At(s, t)) && Scheduled(w) == Scheduled(s.svc[h]) {
      PlaceSame(s, s2, t, pc, h, w);
    } else if s2.global == s.global {
      PlaceDrop(s, s2, t, pc, h, w);
    } else if s2.global == s.global + [h] {
      PlacePush(s, s2, t, pc, h, w);
    } else {
      assert s2.svc == s.svc;
      PlacePop(s, s2, t, pc);
    }
  }

  /** What one step has to establish about the one service it works on. */
  lemma LocalOk(s: State, s2: State, t: nat, pc: Pc, h: Handle, w: Service)
    requires Inv(s) && h in s.svc && s2.svc == s.svc[h := w] && s2.threads == s.threads[t := pc] && s2.ok
    requires RefTo(At(s, t)) in {None, Some(h)} && RefTo(pc) in {None, Some(h)}
    requires w.ref - Bit(w.registered) - Bit(HasRef(pc, h))
             == s.svc[h].ref - Bit(s.svc[h].registered) - Bit(HasRef(At(s, t), h))
    requires PlaceLocal(s, s2, t, pc, h, w)
    requires QueueOk(h, w)
    requires forall g :: Carries(At(s, t), g) ==> g == h
    requires w.hand != [] ==> Carries(pc, h) || (w.hand == s.svc[h].hand && !Carries(At(s, t), h))
    requires StableAt(s.svc[h], w, At(s, t), h)
    requires PcOk(s2, pc)
    requires pc.Deleting? ==> pc.h == h && s.svc[h].ref != 0
    requires forall g :: g in s2.global ==> g in s.global || (g == h && (w.init || !w.registered))
    ensures Inv(s2)
  {
    hide PlaceLocal, QueueOk, PcOk, StableAt, Held, RefTo, Carries;
    hide Apart, PlaceOk, RefOk, ThreadsOk, QueuesOk, CountsOwn, TakesOwn, SchedulesOwn, KnowsOwn, QueuesOwn;
    CountsLocal(s, s2, t, pc, h, w);
    PlacesLocal(s, s2, t, pc, h, w);
    QueuesLocal(s, s2, t, pc, h, w);
    KnowsLocal(s, s2, t, pc, h, w);
    FitsKeeps(s, s2, t);
  }

  lemma OwnsRef(s: State, t: nat, h: Handle)
    requires Inv(s) && h in s.svc && HasRef(At(s, t), h)
    ensures s.svc[h].ref >= 1 + Bit(s.svc[h].registered) && !s.svc[h].release && !s.svc[h].freed
  {
    assert t in Refs(s, h);
    assert QueueOk(h, s.svc[h]);
  }

  lemma Registered(s: State, h: Handle)
    requires Inv(s) && h in s.svc && s.svc[h].registered
    ensures s.svc[h].ref >= 1 && !s.svc[h].release && !s.svc[h].freed
  {
    assert QueueOk(h, s.svc[h]);
  }

  /** A thread that holds 'h' and carries nothing finds nothing of 'h' in any hand. */
  lemma EmptyHand(s: State, t: nat, h: Handle)
    requires Inv(s) && h in s.svc && t in s.threads
    requires h in Held(At(s, t)) && !Carries(At(s, t), h)
    ensures s.svc[h].hand == []
  {
    hide PlaceOk, ThreadsOk, RefOk, QueueOk;
    forall u | u in s.threads
      ensures !Carries(s.threads[u], h)
    {
      assert Carries(s.threads[u], h) ==> h in Held(s.threads[u]);
    }
  }

  lemma HeldScheduled(s: State, t: nat, h: Handle)
    requires Inv(s) && t in s.threads && h in Held(At(s, t))
    ensures h in s.svc && Scheduled(s.svc[h]) && h !in s.global
  {
    assert Placed(s, h);
  }

  lemma NotListed(s: State, h: Handle)
    requires Inv(s) && h in s.svc && !Scheduled(s.svc[h])
    ensures h !in s.global && !Placed(s, h)
  {
    assert !Placed(s, h);
  }

  lemma ReplyOne(h: Handle, done: seq<Fate>, f: Fate)
    ensures Replies(h, done + [f]) == Replies(h, done) + if f.Dropped? then [Reply(h, f.msg.source, f.msg.session)]
            else []
    ensures Messages(done + [f]) == Messages(done) + [f.msg]
  {
    assert (done + [f])[..|done + [f]| - 1] == done;
  }

  lemma NotHeld(s: State, t: nat, h: Handle)
    requires !Placed(s, h)
    ensures h !in Held(At(s, t))
  {
  }

  lemma QueueFacts(s: State, h: Handle)
    requires Inv(s) && h in s.svc
    ensures s.ok && QueueOk(h, s.svc[h])
  {
  }

  lemma HeadOk(s: State)
    requires Inv(s) && s.global != []
    ensures s.global[0] in s.svc && (s.svc[s.global[0]].init || !s.svc[s.global[0]].registered)
  {
  }

  lemma OwnFacts(s: State, t: nat)
    requires Inv(s) && Subject(At(s, t)).Some?
    ensures s.ok && PcOk(s, At(s, t)) && t in s.threads && At(s, t).h in s.svc && QueueOk(At(s, t).h, s.svc[At(s, t).h])
    ensures RefTo(At(s, t)) in {None, Some(At(s, t).h)}
  {
    assert PcOk(s, s.threads[t]);
  }

  lemma LaunchedOk(s: State, t: nat, c: Choice)
    requires Inv(s) && Enabled(s, t, c) && At(s, t).Launching? && c.Go? && c.fine
    ensures Inv(Next(s, t, c))
  {
    hide Inv, Messages, Replies;
    var h := At(s, t).h;
    var v := s.svc[h];
    OwnFacts(s, t);
    LocalOk(s, Next(s, t, c), t, Publishing(h), h, v.(init := true));
  }

  lemma NotLaunchedOk(s: State, t: nat, c: Choice)
    requires Inv(s) && Enabled(s, t, c) && At(s, t).Launching? && c.Go? && !c.fine
    ensures Inv(Next(s, t, c))
  {
    hide Inv, Messages, Replies;
    var h := At(s, t).h;
    OwnFacts(s, t);
    LocalOk(s, Next(s, t, c), t, Releasing(h, ThenRetire(h)), h, s.svc[h]);
  }

  lemma PublishingOk(s: State, t: nat, c: Choice)
    requires Inv(s) && Enabled(s, t, c) && At(s, t).Publishing?
    ensures Inv(Next(s, t, c))
  {
    hide Inv, Messages, Replies;
    var h := At(s, t).h;
    OwnFacts(s, t);
    OwnsRef(s, t, h);
    HeldScheduled(s, t, h);
    LocalOk(s, Next(s, t, c), t, Releasing(h, Done), h, s.svc[h]);
  }

  lemma SendOk(s: State, t: nat, c: Choice)
    requires Inv(s) && Enabled(s, t, c) && c.Send? && At(s, t) == Idle && c.h in s.svc && s.svc[c.h].registered
    ensures Inv(Next(s, t, c))
  {
    hide Inv, Messages, Replies;
    var h := c.h;
    var v := s.svc[h];
    QueueFacts(s, h);
    Registered(s, h);
    LocalOk(s, Next(s, t, c), t, Pushing(h, c.msg), h, Grab(v));
  }

  lemma UseOk(s: State, t: nat, c: Choice)
    requires Inv(s) && Enabled(s, t, c) && c.Use? && At(s, t) == Idle && c.h in s.svc && s.svc[c.h].registered
    ensures Inv(Next(s, t, c))
  {
    hide Inv, Messages, Replies;
    var h := c.h;
    var v := s.svc[h];
    QueueFacts(s, h);
    Registered(s, h);
    LocalOk(s, Next(s, t, c), t, Using(h), h, Grab(v));
  }

  lemma UsingOk(s: State, t: nat, c: Choice)
    requires Inv(s) && Enabled(s, t, c) && At(s, t).Using?
    ensures Inv(Next(s, t, c))
  {
    hide Inv, Messages, Replies;
    var h := At(s, t).h;
    OwnFacts(s, t);
    LocalOk(s, Next(s, t, c), t, Releasing(h, Done), h, s.svc[h]);
  }

  lemma RetireOk(s: State, t: nat, c: Choice)
    requires Inv(s) && Enabled(s, t, c) && c.Retire? && At(s, t) == Idle && c.h in s.svc && s.svc[c.h].registered
    ensures Inv(Next(s, t, c))
  {
    hide Inv, Messages, Replies;
    var h := c.h;
    var v := s.svc[h];
    QueueFacts(s, h);
    Registered(s, h);
    LocalOk(s, Next(s, t, c), t, Releasing(h, Done), h, v.(registered := false));
  }

  lemma RetiringOk(s: State, t: nat, c: Choice)
    requires Inv(s) && Enabled(s, t, c) && At(s, t).Retiring? && s.svc[At(s, t).h].registered
    ensures Inv(Next(s, t, c))
  {
    hide Inv, Messages, Replies;
    var h := At(s, t).h;
    var v := s.svc[h];
    OwnFacts(s, t);
    Registered(s, h);
    LocalOk(s, Next(s, t, c), t, Releasing(h, ThenRelease(h)), h, v.(registered := false));
  }

  lemma RetiredOk(s: State, t: nat, c: Choice)
    requires Inv(s) && Enabled(s, t, c) && At(s, t).Retiring? && !s.svc[At(s, t).h].registered
    ensures Inv(Next(s, t, c))
  {
    hide Inv, Messages, Replies;
    var h := At(s, t).h;
    OwnFacts(s, t);
    LocalOk(s, Next(s, t, c), t, MqReleasing(h, Done), h, s.svc[h]);
  }

  lemma PushingOk(s: State, t: nat, c: Choice)
    requires Inv(s) && Enabled(s, t, c) && At(s, t).Pushing? && s.svc[At(s, t).h].inGlobal
    ensures Inv(Next(s, t, c))
  {
    hide Inv, Messages, Replies;
    var h := At(s, t).h;
    var v := s.svc[h];
    OwnFacts(s, t);
    OwnsRef(s, t, h);
    LocalOk(s, Next(s, t, c), t, Releasing(h, Done), h,
      v.(msgs := v.msgs + [At(s, t).msg], accepted := v.accepted + [At(s, t).msg]));
  }

  lemma PushingFirstOk(s: State, t: nat, c: Choice)
    requires Inv(s) && Enabled(s, t, c) && At(s, t).Pushing? && !s.svc[At(s, t).h].inGlobal
    ensures Inv(Next(s, t, c))
  {
    hide Inv, Messages, Replies;
    var h := At(s, t).h;
    var v := s.svc[h];
    OwnFacts(s, t);
    OwnsRef(s, t, h);
    NotListed(s, h);
    LocalOk(s, Next(s, t, c), t, Releasing(h, Done), h,
      v.(msgs := v.msgs + [At(s, t).msg], accepted := v.accepted + [At(s, t).msg], inGlobal := true));
  }

  lemma ReleasingOk(s: State, t: nat, c: Choice)
    requires Inv(s) && Enabled(s, t, c) && At(s, t).Releasing? && s.svc[At(s, t).h].ref != 1
    ensures Inv(Next(s, t, c))
  {
    hide Inv, Messages, Replies;
    var h := At(s, t).h;
    var v := s.svc[h];
    OwnFacts(s, t);
    OwnsRef(s, t, h);
    LocalOk(s, Next(s, t, c), t, Enter(At(s, t).k), h, v.(ref := v.ref - 1));
  }

  lemma ReleasingLastOk(s: State, t: nat, c: Choice)
    requires Inv(s) && Enabled(s, t, c) && At(s, t).Releasing? && s.svc[At(s, t).h].ref == 1
    ensures Inv(Next(s, t, c))
  {
    hide Inv, Messages, Replies;
    var h := At(s, t).h;
    var v := s.svc[h];
    OwnFacts(s, t);
    OwnsRef(s, t, h);
    LocalOk(s, Next(s, t, c), t, Deleting(h, At(s, t).k), h, v.(ref := v.ref - 1));
  }

  lemma DeletingOk(s: State, t: nat, c: Choice)
    requires Inv(s) && Enabled(s, t, c) && At(s, t).Deleting? && s.svc[At(s, t).h].inGlobal
    ensures Inv(Next(s, t, c))
  {
    hide Inv, Messages, Replies;
    var h := At(s, t).h;
    var v := s.svc[h];
    OwnFacts(s, t);
    LocalOk(s, Next(s, t, c), t, Enter(At(s, t).k), h, v.(release := true));
  }

  lemma DeletingFirstOk(s: State, t: nat, c: Choice)
    requires Inv(s) && Enabled(s, t, c) && At(s, t).Deleting? && !s.svc[At(s, t).h].inGlobal
    ensures Inv(Next(s, t, c))
  {
    hide Inv, Messages, Replies;
    var h := At(s, t).h;
    var v := s.svc[h];
    OwnFacts(s, t);
    NotListed(s, h);
    NotHeld(s, t, h);
    LocalOk(s, Next(s, t, c), t, Enter(At(s, t).k), h, v.(release := true));
  }

  lemma MqReleasingOk(s: State, t: nat, c: Choice)
    requires Inv(s) && Enabled(s, t, c) && At(s, t).MqReleasing? && s.svc[At(s, t).h].release
    ensures Inv(Next(s, t, c))
  {
    hide Inv, Messages, Replies;
    var h := At(s, t).h;
    OwnFacts(s, t);
    HeldScheduled(s, t, h);
    LocalOk(s, Next(s, t, c), t, Dropping(h, At(s, t).k), h, s.svc[h]);
  }

  lemma MqNotReleasingOk(s: State, t: nat, c: Choice)
    requires Inv(s) && Enabled(s, t, c) && At(s, t).MqReleasing? && !s.svc[At(s, t).h].release
    ensures Inv(Next(s, t, c))
  {
    hide Inv, Messages, Replies;
    var h := At(s, t).h;
    OwnFacts(s, t);
    HeldScheduled(s, t, h);
    LocalOk(s, Next(s, t, c), t, Enter(At(s, t).k), h, s.svc[h]);
  }

  lemma DroppingOk(s: State, t: nat, c: Choice)
    requires Inv(s) && Enabled(s, t, c) && At(s, t).Dropping? && s.svc[At(s, t).h].msgs != []
    ensures Inv(Next(s, t, c))
  {
    hide Inv, Messages, Replies;
    var h := At(s, t).h;
    var v := s.svc[h];
    OwnFacts(s, t);
    HeldScheduled(s, t, h);
    EmptyHand(s, t, h);
    LocalOk(s, Next(s, t, c), t, Replying(h, At(s, t).k), h, Take(v));
  }

  lemma DroppedOk(s: State, t: nat, c: Choice)
    requires Inv(s) && Enabled(s, t, c) && At(s, t).Dropping? && s.svc[At(s, t).h].msgs == []
    ensures Inv(Next(s, t, c))
  {
    hide Inv, Messages, Replies;
    var h := At(s, t).h;
    var v := s.svc[h];
    OwnFacts(s, t);
    HeldScheduled(s, t, h);
    EmptyHand(s, t, h);
    LocalOk(s, Next(s, t, c), t, Freeing(h, At(s, t).k), h, v.(inGlobal := false));
  }

  lemma ReplyingOk(s: State, t: nat, c: Choice)
    requires Inv(s) && Enabled(s, t, c) && At(s, t).Replying?
    ensures Inv(Next(s, t, c))
  {
    hide Inv, Messages, Replies;
    var h := At(s, t).h;
    var v := s.svc[h];
    OwnFacts(s, t);
    HeldScheduled(s, t, h);
    ReplyOne(h, v.done, Dropped(v.hand[0]));
    LocalOk(s, Next(s, t, c), t, Dropping(h, At(s, t).k), h, DropOne(h, v));
  }

  lemma FreeingOk(s: State, t: nat, c: Choice)
    requires Inv(s) && Enabled(s, t, c) && At(s, t).Freeing?
    ensures Inv(Next(s, t, c))
  {
    hide Inv, Messages, Replies;
    var h := At(s, t).h;
    var v := s.svc[h];
    OwnFacts(s, t);
    HeldScheduled(s, t, h);
    EmptyHand(s, t, h);
    LocalOk(s, Next(s, t, c), t, Enter(At(s, t).k), h, v.(freed := true));
  }

  lemma HoldingOk(s: State, t: nat, c: Choice)
    requires Inv(s) && Enabled(s, t, c) && At(s, t).Holding? && s.svc[At(s, t).h].registered
    ensures Inv(Next(s, t, c))
  {
    hide Inv, Messages, Replies;
    var h := At(s, t).h;
    var v := s.svc[h];
    OwnFacts(s, t);
    Registered(s, h);
    LocalOk(s, Next(s, t, c), t, Running(h, 0, 1), h, Grab(v));
  }

  lemma NotHoldingOk(s: State, t: nat, c: Choice)
    requires Inv(s) && Enabled(s, t, c) && At(s, t).Holding? && !s.svc[At(s, t).h].registered
    ensures Inv(Next(s, t, c))
  {
    hide Inv, Messages, Replies;
    var h := At(s, t).h;
    OwnFacts(s, t);
    LocalOk(s, Next(s, t, c), t, MqReleasing(h, ThenPop), h, s.svc[h]);
  }

  lemma BatchDoneOk(s: State, t: nat, c: Choice)
    requires Inv(s) && Enabled(s, t, c) && At(s, t).Running? && At(s, t).i >= At(s, t).n
    ensures Inv(Next(s, t, c))
  {
    hide Inv, Messages, Replies;
    var h := At(s, t).h;
    OwnFacts(s, t);
    LocalOk(s, Next(s, t, c), t, Tail(h), h, s.svc[h]);
  }

  lemma TakeOk(s: State, t: nat, c: Choice)
    requires Inv(s) && Enabled(s, t, c) && At(s, t).Running? && At(s, t).i < At(s, t).n && s.svc[At(s, t).h].msgs != []
    ensures Inv(Next(s, t, c))
  {
    hide Inv, Messages, Replies;
    var h := At(s, t).h;
    var v := s.svc[h];
    OwnFacts(s, t);
    OwnsRef(s, t, h);
    HeldScheduled(s, t, h);
    EmptyHand(s, t, h);
    LocalOk(s, Next(s, t, c), t, Popped(h, At(s, t).i, At(s, t).n), h, Take(v));
  }

  lemma EmptiedOk(s: State, t: nat, c: Choice)
    requires Inv(s) && Enabled(s, t, c) && At(s, t).Running? && At(s, t).i < At(s, t).n && s.svc[At(s, t).h].msgs == []
    ensures Inv(Next(s, t, c))
  {
    hide Inv, Messages, Replies;
    var h := At(s, t).h;
    var v := s.svc[h];
    OwnFacts(s, t);
    OwnsRef(s, t, h);
    HeldScheduled(s, t, h);
    EmptyHand(s, t, h);
    LocalOk(s, Next(s, t, c), t, Releasing(h, ThenPop), h, v.(inGlobal := false));
  }

  lemma PoppedOk(s: State, t: nat, c: Choice)
    requires Inv(s) && Enabled(s, t, c) && At(s, t).Popped?
    ensures Inv(Next(s, t, c))
  {
    hide Inv, Messages, Replies;
    var h := At(s, t).h;
    OwnFacts(s, t);
    LocalOk(s, Next(s, t, c), t, At(Next(s, t, c), t), h, s.svc[h]);
  }

  lemma ReadyOk(s: State, t: nat, c: Choice)
    requires Inv(s) && Enabled(s, t, c) && At(s, t).Ready?
    ensures Inv(Next(s, t, c))
  {
    hide Inv, Messages, Replies;
    var h := At(s, t).h;
    var v := s.svc[h];
    OwnFacts(s, t);
    OwnsRef(s, t, h);
    ReplyOne(h, v.done, if v.cb then Handed(v.hand[0]) else Unheard(v.hand[0]));
    LocalOk(s, Next(s, t, c), t, At(Next(s, t, c), t), h, HandOver(v));
  }

  lemma CallingOk(s: State, t: nat, c: Choice)
    requires Inv(s) && Enabled(s, t, c) && At(s, t).Calling? && c.Go?
    ensures Inv(Next(s, t, c))
  {
    hide Inv, Messages, Replies;
    var h := At(s, t).h;
    OwnFacts(s, t);
    LocalOk(s, Next(s, t, c), t, Running(h, At(s, t).i + 1, At(s, t).n), h, s.svc[h]);
  }

  lemma SetCallbackOk(s: State, t: nat, c: Choice)
    requires Inv(s) && Enabled(s, t, c) && c.SetCallback?
    ensures Inv(Next(s, t, c))
  {
    hide Inv, Messages, Replies;
    var h := At(s, t).h;
    OwnFacts(s, t);
    LocalOk(s, Next(s, t, c), t, At(s, t), h, s.svc[h].(cb := c.cb));
  }

  lemma KeepOk(s: State, t: nat, c: Choice)
    requires Inv(s) && Enabled(s, t, c) && At(s, t).Tail? && s.global == []
    ensures Inv(Next(s, t, c))
  {
    hide Inv, Messages, Replies;
    var h := At(s, t).h;
    OwnFacts(s, t);
    LocalOk(s, Next(s, t, c), t, Releasing(h, ThenHold(h)), h, s.svc[h]);
  }

  lemma TailOk(s: State, t: nat, c: Choice)
    requires Inv(s) && Enabled(s, t, c) && At(s, t).Tail? && s.global != []
    ensures Inv(Next(s, t, c))
  {
    hide Inv, Messages, Replies;
    var h := At(s, t).h;
    OwnFacts(s, t);
    HeldScheduled(s, t, h);
    HeadOk(s);
    LocalOk(s, Next(s, t, c), t, PushBack(h, s.global[0]), h, s.svc[h]);
  }

  lemma PushBackOk(s: State, t: nat, c: Choice)
    requires Inv(s) && Enabled(s, t, c) && At(s, t).PushBack?
    ensures Inv(Next(s, t, c))
  {
    hide Inv, Messages, Replies;
    var h := At(s, t).h;
    OwnFacts(s, t);
    OwnsRef(s, t, h);
    HeldScheduled(s, t, h);
    LocalOk(s, Next(s, t, c), t, Releasing(h, ThenHold(At(s, t).next)), h, s.svc[h]);
  }

  lemma PoppingOk(s: State, t: nat, c: Choice)
    requires Inv(s) && Enabled(s, t, c) && At(s, t).Popping? && s.global != []
    ensures Inv(Next(s, t, c))
  {
    hide Inv, Messages, Replies;
    HeadOk(s);
    var h := s.global[0];
    QueueFacts(s, h);
    LocalOk(s, Next(s, t, c), t, Holding(h), h, s.svc[h]);
  }

  lemma StillFits(s: State, s2: State, t: nat)
    requires Inv(s) && At(s, t) in {Idle, Popping}
    requires s2 == Goto(s, t, Idle) || s2 == Goto(s, t, Popping)
    ensures Fits(s, s2, t)
  {
    hide QueueOk, PcOk, RefOk, ThreadsOk, QueuesOk, PlaceOk, Apart, Placed, TakesOwn, SchedulesOwn, KnowsOwn;
    StillPlaces(s, s2, t);
    StillKnows(s, s2, t);
    StillQueues(s, s2, t);
  }

  lemma StillPlaces(s: State, s2: State, t: nat)
    requires Apart(s) && PlaceOk(s) && At(s, t) in {Idle, Popping} && At(s2, t) in {Idle, Popping}
    requires s2.svc == s.svc && s2.global == s.global
    ensures Places(s, s2, t)
  {
    forall h ensures Here(s2, t, h) <==> Here(s, t, h) {
    }
    forall h | Here(s, t, h) ensures h in s.svc && Scheduled(s.svc[h]) {
      HereScheduled(s, t, h);
    }
  }

  lemma StillKnows(s: State, s2: State, t: nat)
    requires ThreadsOk(s) && At(s2, t) in {Idle, Popping} && s2.svc == s.svc && s2.global == s.global
    ensures KnowsOwn(s, s2, t)
  {
  }

  lemma StillQueues(s: State, s2: State, t: nat)
    requires QueuesOk(s) && At(s, t) in {Idle, Popping} && s2.svc == s.svc
    ensures QueuesOwn(s, s2, t)
  {
    hide QueueOk;
  }

  lemma LaunchFits(s: State, t: nat, c: Choice)
    requires Inv(s) && Enabled(s, t, c) && c.Launch?
    ensures Fits(s, Next(s, t, c), t)
  {
    hide QueueOk, PcOk, RefOk, ThreadsOk, QueuesOk, PlaceOk, Apart, Placed, TakesOwn, SchedulesOwn, KnowsOwn;
    var s2 := Next(s, t, c);
    LaunchPlaces(s, s2, t, c.h);
    LaunchKnows(s, s2, t, c.h);
    FreshOk(c.h);
    LaunchQueues(s, s2, t, c.h);
  }

  lemma LaunchPlaces(s: State, s2: State, t: nat, h: Handle)
    requires Apart(s) && PlaceOk(s) && At(s, t) == Idle && At(s2, t) == Launching(h) && h !in s.svc
    requires s2.svc == s.svc[h := Fresh] && s2.global == s.global
    ensures Places(s, s2, t)
  {
    assert !Placed(s, h);
    forall g ensures Here(s2, t, g) <==> g == h || Here(s, t, g) {
    }
    forall g | Here(s, t, g) ensures g in s.svc && Scheduled(s.svc[g]) {
      HereScheduled(s, t, g);
    }
  }

  lemma LaunchKnows(s: State, s2: State, t: nat, h: Handle)
    requires ThreadsOk(s) && At(s2, t) == Launching(h) && h !in s.svc
    requires s2.svc == s.svc[h := Fresh] && s2.global == s.global
    ensures KnowsOwn(s, s2, t)
  {
  }

  lemma FreshOk(h: Handle)
    ensures QueueOk(h, Fresh)
  {
  }

  lemma LaunchQueues(s: State, s2: State, t: nat, h: Handle)
    requires QueuesOk(s) && At(s, t) == Idle && QueueOk(h, Fresh) && s2.svc == s.svc[h := Fresh] && h !in s.svc
    ensures QueuesOwn(s, s2, t)
  {
    hide QueueOk;
  }

  // ---- Whole runs

  lemma BusyOk(s: State, t: nat, c: Choice)
    requires Inv(s) && Enabled(s, t, c) && c.Go?
    ensures Inv(Next(s, t, c))
  {
    hide Inv, Next;
    match At(s, t)
    case Launching(h) => if c.fine { LaunchedOk(s, t, c); } else { NotLaunchedOk(s, t, c); }
    case Publishing(h) => PublishingOk(s, t, c);
    case Retiring(h) => if s.svc[h].registered { RetiringOk(s, t, c); } else { RetiredOk(s, t, c); }
    case Using(_) => UsingOk(s, t, c);
    case Pushing(h, _) => if s.svc[h].inGlobal { PushingOk(s, t, c); } else { PushingFirstOk(s, t, c); }
    case Releasing(h, _) => if s.svc[h].ref != 1 { ReleasingOk(s, t, c); } else { ReleasingLastOk(s, t, c); }
    case Deleting(h, _) => if s.svc[h].inGlobal { DeletingOk(s, t, c); } else { DeletingFirstOk(s, t, c); }
    case MqReleasing(h, _) => if s.svc[h].release { MqReleasingOk(s, t, c); } else { MqNotReleasingOk(s, t, c); }
    case Dropping(h, _) => if s.svc[h].msgs != [] { DroppingOk(s, t, c); } else { DroppedOk(s, t, c); }
    case Replying(_, _) => ReplyingOk(s, t, c);
    case Freeing(_, _) => FreeingOk(s, t, c);
    case Popping => if s.global != [] { PoppingOk(s, t, c); } else { IdleAgain(s, t, c); }
    case Holding(h) => if s.svc[h].registered { HoldingOk(s, t, c); } else { NotHoldingOk(s, t, c); }
    case Running(h, i, n) =>
      if i >= n { BatchDoneOk(s, t, c); } else if s.svc[h].msgs != [] { TakeOk(s, t, c); } else { EmptiedOk(s, t, c); }
    case Popped(_, _, _) => PoppedOk(s, t, c);
    case Ready(_, _, _) => ReadyOk(s, t, c);
    case Calling(_, _, _) => CallingOk(s, t, c);
    case Tail(_) => if s.global == [] { KeepOk(s, t, c); } else { TailOk(s, t, c); }
    case PushBack(_, _) => PushBackOk(s, t, c);
  }

  lemma IdleAgain(s: State, t: nat, c: Choice)
    requires Inv(s) && Enabled(s, t, c) && At(s, t) == Popping && s.global == []
    ensures Inv(Next(s, t, c))
  {
    hide Fits, Inv;
    StillFits(s, Next(s, t, c), t);
    FitsKeeps(s, Next(s, t, c), t);
  }

  lemma IdleOk(s: State, t: nat, c: Choice)
    requires Inv(s) && Enabled(s, t, c) && At(s, t) == Idle
    ensures Inv(Next(s, t, c))
  {
    hide Fits, Inv;
    if c.Launch? {
      LaunchFits(s, t, c);
      FitsKeeps(s, Next(s, t, c), t);
    } else if c.Send? && c.h in s.svc && s.svc[c.h].registered {
      SendOk(s, t, c);
    } else if c.Use? && c.h in s.svc && s.svc[c.h].registered {
      UseOk(s, t, c);
    } else if c.Retire? && c.h in s.svc && s.svc[c.h].registered {
      RetireOk(s, t, c);
    } else {
      StillFits(s, Next(s, t, c), t);
      FitsKeeps(s, Next(s, t, c), t);
    }
  }

  /** Every step keeps the invariant. */
  lemma StepOk(s: State, t: nat, c: Choice)
    requires Inv(s) && Enabled(s, t, c)
    ensures Inv(Next(s, t, c))
  {
    hide Inv, Next;
    if At(s, t) == Idle {
      IdleOk(s, t, c);
    } else if c.SetCallback? {
      SetCallbackOk(s, t, c);
    } else {
      BusyOk(s, t, c);
    }
  }

  lemma {:induction false} RunOk(moves: seq<Move>, states: seq<State>, i: nat)
    requires Run(moves, states) && i < |states|
    ensures Inv(states[i])
  {
    if i > 0 {
      RunOk(moves, states, i - 1);
      StepOk(states[i - 1], moves[i - 1].t, moves[i - 1].c);
    }
  }

  /** A service's message handling is never under way on two threads. */
  ghost predicate OneCallback(s: State) {
    forall t, u :: t in s.threads && u in s.threads && s.threads[t].Calling? && s.threads[u].Calling? && t != u
      ==> s.threads[t].h != s.threads[u].h
  }

  /** The thread is about to use queue 'h', or will when it comes back to it. */
  predicate Uses(pc: Pc, h: Handle) {
    h in Held(pc) || ((pc.Pushing? || pc.Deleting?) && pc.h == h)
  }

  /**
   In every reachable state no assertion has failed; each queue is in at most one place: once in the
   global list, or with one thread; a queue that holds messages has such a place; no two threads run
   callbacks of one service; nothing refers to a queue that was freed or a context that was deleted.
   */
  lemma SchedulerSafe(moves: seq<Move>, states: seq<State>, i: nat)
    requires Run(moves, states) && i < |states|
    ensures states[i].ok
    ensures Apart(states[i]) && OneCallback(states[i])
    ensures forall h :: h in states[i].svc && states[i].svc[h].msgs != [] ==> Placed(states[i], h)
    ensures forall h, t :: t in states[i].threads && Uses(states[i].threads[t], h) ==>
              h in states[i].svc && !states[i].svc[h].freed
    ensures forall h, t :: t in states[i].threads && HasRef(states[i].threads[t], h) ==>
              h in states[i].svc && states[i].svc[h].ref > 0 && !states[i].svc[h].release
    ensures forall h :: h in states[i].global ==> h in states[i].svc && !states[i].svc[h].freed
  {
    hide Run, Messages, Replies;
    var s := states[i];
    RunOk(moves, states, i);
    CallbackOnce(s);
    forall h | h in s.svc && s.svc[h].msgs != [] ensures Placed(s, h) {
      NonEmptyPlaced(s, h);
    }
    forall h, t | t in s.threads && Uses(s.threads[t], h) ensures h in s.svc && !s.svc[h].freed {
      UsedAlive(s, t, h);
    }
    forall h, t | t in s.threads && HasRef(s.threads[t], h) ensures h in s.svc && s.svc[h].ref > 0
      && !s.svc[h].release {
      RefAlive(s, t, h);
    }
    forall h | h in s.global ensures h in s.svc && !s.svc[h].freed {
      assert Placed(s, h);
    }
  }

  lemma CallbackOnce(s: State)
    requires Apart(s)
    ensures OneCallback(s)
  {
    forall t, u | t in s.threads && u in s.threads && s.threads[t].Calling? && s.threads[u].Calling? && t != u
      ensures s.threads[t].h != s.threads[u].h
    {
      assert s.threads[t].h in Held(s.threads[t]);
    }
  }

  lemma NonEmptyPlaced(s: State, h: Handle)
    requires Inv(s) && h in s.svc && s.svc[h].msgs != []
    ensures Placed(s, h)
  {
    hide Messages, Replies, Held;
    assert QueueOk(h, s.svc[h]);
  }

  lemma UsedAlive(s: State, t: nat, h: Handle)
    requires Inv(s) && t in s.threads && Uses(s.threads[t], h)
    ensures h in s.svc && !s.svc[h].freed
  {
    hide Messages, Replies;
    if h in Held(s.threads[t]) {
      assert Placed(s, h);
    } else {
      assert PcOk(s, s.threads[t]);
      assert QueueOk(h, s.svc[h]);
      if s.threads[t].Pushing? {
        OwnsRef(s, t, h);
      }
    }
  }

  lemma RefAlive(s: State, t: nat, h: Handle)
    requires Inv(s) && t in s.threads && HasRef(s.threads[t], h)
    ensures h in s.svc && s.svc[h].ref > 0 && !s.svc[h].release
  {
    hide Messages, Replies;
    assert PcOk(s, s.threads[t]);
    OwnsRef(s, t, h);
  }

  /**
   In every reachable state the messages a queue accepted are, in order, those that were handed to
   the service (or met no callback), then those that were dropped, then the one in a worker's hand,
   then those still queued; each dropped message was answered by one PTYPE_ERROR; and when the queue
   is freed none is left over.
   */
  lemma MessagesOnce(moves: seq<Move>, states: seq<State>, i: nat, h: Handle)
    requires Run(moves, states) && i < |states| && h in states[i].svc
    ensures var v := states[i].svc[h];
            && v.accepted == Messages(v.done) + v.hand + v.msgs
            && (forall a, b :: 0 <= a < b < |v.done| && v.done[a].Dropped? ==> v.done[b].Dropped?)
            && v.replies == Replies(h, v.done)
            && (v.freed ==> v.accepted == Messages(v.done))
    ensures var v := states[i].svc[h];
            && |v.accepted| == |v.done| + |v.hand| + |v.msgs|
            && (forall k :: 0 <= k < |v.done| ==> v.accepted[k] == v.done[k].msg)
            && exists n :: Answered(h, v, n)
  {
    RunOk(moves, states, i);
    assert QueueOk(h, states[i].svc[h]);
    RepliesAre(h, states[i].svc[h]);
  }

  /** The first n fates are not drops, all others are, and the replies answer these one by one. */
  ghost predicate Answered(h: Handle, v: Service, n: nat) {
    && n <= |v.done| && |v.replies| == |v.done| - n
    && (forall k :: 0 <= k < n ==> !v.done[k].Dropped?)
    && forall k :: n <= k < |v.done| ==>
         v.done[k].Dropped? && v.replies[k - n] == Reply(h, v.done[k].msg.source, v.done[k].msg.session)
  }

  lemma RepliesAre(h: Handle, v: Service)
    requires v.replies == Replies(h, v.done)
    requires forall a, b :: 0 <= a < b < |v.done| && v.done[a].Dropped? ==> v.done[b].Dropped?
    ensures exists n :: Answered(h, v, n)
  {
    hide Replies;
    var n := FirstDropped(h, v.done);
    assert Answered(h, v, n);
  }

  lemma {:induction false} FirstDropped(h: Handle, done: seq<Fate>) returns (n: nat)
    requires forall a, b :: 0 <= a < b < |done| && done[a].Dropped? ==> done[b].Dropped?
    ensures n <= |done| && |Replies(h, done)| == |done| - n
    ensures forall k :: 0 <= k < |done| ==> (done[k].Dropped? <==> n <= k)
    ensures forall k :: n <= k < |done| ==> Replies(h, done)[k - n] == Reply(h, done[k].msg.source, done[k].msg.session)
  {
    if done == [] {
      n := 0;
    } else {
      var front, f := done[..|done| - 1], done[|done| - 1];
      n := FirstDropped(h, front);
      RepliesLast(h, front, f);
      assert front + [f] == done;
      hide Replies;
      if !f.Dropped? {
        n := n + 1;
      }
    }
  }

  lemma RepliesLast(h: Handle, front: seq<Fate>, f: Fate)
    ensures Replies(h, front + [f]) ==
            Replies(h, front) + if f.Dropped? then [Reply(h, f.msg.source, f.msg.session)] else []
  {
    ReplyOne(h, front, f);
  }

  function Pow(w: nat): nat {
    if w == 0 then 1 else 2 * Pow(w - 1)
  }

  lemma {:induction false} ShiftIs(len: nat, w: nat)
    ensures Shift(len, w) * Pow(w) <= len < (Shift(len, w) + 1) * Pow(w)
  {
    if w > 0 {
      ShiftIs(len / 2, w - 1);
      Twice(Shift(len / 2, w - 1), Pow(w - 1));
      Twice(Shift(len / 2, w - 1) + 1, Pow(w - 1));
    }
  }

  lemma Twice(q: nat, p: nat)
    ensures q * (2 * p) == 2 * (q * p)
  {
  }

  /** After the first pop the batch is the length that is left, divided by 2^weight; a negative weight keeps it. */
  lemma BatchSize(s: State, t: nat, c: Choice)
    requires Enabled(s, t, c) && At(s, t).Popped?
    ensures var pc, next := At(s, t), At(Next(s, t, c), t); var len := |s.svc[pc.h].msgs|;
            && next.Ready? && next.h == pc.h && next.i == pc.i
            && (pc.i != 0 || c.weight < 0 ==> next.n == pc.n)
            && (pc.i == 0 && c.weight >= 0 ==> next.n * Pow(c.weight) <= len < (next.n + 1) * Pow(c.weight))
  {
    if c.weight >= 0 {
      ShiftIs(|s.svc[At(s, t).h].msgs|, c.weight);
    }
  }

  // ---- What a step does to one service

  predicate Untouched(s: State, s2: State, h: Handle)
    requires h in s.svc
  {
    && h in s2.svc && s2.svc[h].accepted == s.svc[h].accepted && s2.svc[h].done == s.svc[h].done
    && s2.svc[h].cb == s.svc[h].cb && s2.svc[h].init == s.svc[h].init && s2.svc[h].registered == s.svc[h].registered
  }

  /** The message that thread t is about to push onto the queue of 'h'. */
  function Pushes(s: State, t: nat, h: Handle): seq<Msg> {
    if At(s, t).Pushing? && At(s, t).h == h then [At(s, t).msg] else []
  }

  /** The step takes 'h' out of the handle table, if it is there. */
  predicate Retires(s: State, t: nat, c: Choice, h: Handle) {
    c == Retire(h) || At(s, t) == Retiring(h)
  }

  /** Thread t is about to pass on or drop the message of 'h' in its hand. */
  predicate Settles(s: State, t: nat, h: Handle) {
    h in s.svc && s.svc[h].hand != [] && (At(s, t).Ready? || At(s, t).Replying?) && At(s, t).h == h
  }

  /** 'f' is what becomes of that message: there is a callback, there is none, or the queue is released. */
  predicate Settled(s: State, t: nat, h: Handle, f: Fate) {
    && Settles(s, t, h) && f.msg == s.svc[h].hand[0]
    && (f.Dropped? <==> At(s, t).Replying?)
    && (f.Handed? <==> At(s, t).Ready? && s.svc[h].cb)
    && (f.Unheard? <==> At(s, t).Ready? && !s.svc[h].cb)
  }

  /** The step is skynet_callback, called by the module's init or by the callback of 'h'. */
  predicate SetsCallback(s: State, t: nat, c: Choice, h: Handle) {
    c.SetCallback? && (At(s, t).Launching? || At(s, t).Calling?) && At(s, t).h == h
  }

  /**
   The step accepts the message pushed, if any, settles at most one, and may retire the service or set its
   callback or 'init'.
   */
  ghost predicate Touches(s: State, s2: State, t: nat, c: Choice, h: Handle)
    requires h in s.svc
  {
    && h in s2.svc && s2.svc[h].accepted == s.svc[h].accepted + Pushes(s, t, h)
    && s2.svc[h].registered == (s.svc[h].registered && !Retires(s, t, c, h))
    && (if Settles(s, t, h) then exists f :: s2.svc[h].done == s.svc[h].done + [f] && Settled(s, t, h, f)
        else s2.svc[h].done == s.svc[h].done)
    && s2.svc[h].cb == (if SetsCallback(s, t, c, h) then c.cb else s.svc[h].cb)
    && s2.svc[h].init == (s.svc[h].init || (At(s, t) == Launching(h) && c.Go? && c.fine))
  }

  lemma StepTouches(s: State, t: nat, c: Choice, h: Handle)
    requires Enabled(s, t, c) && h in s.svc
    ensures Touches(s, Next(s, t, c), t, c, h)
  {
    hide Next, Settled;
    match At(s, t)
    case Idle => StartTouches(s, t, c, h);
    case Launching(_) => CallTouches(s, t, c, h);
    case Calling(_, _, _) => CallTouches(s, t, c, h);
    case Pushing(_, _) => PushTouches(s, t, c, h);
    case Deleting(_, _) => MarkTouches(s, t, c, h);
    case Ready(_, _, _) => ReadyTouches(s, t, c, h);
    case Replying(_, _) => ReplyingTouches(s, t, c, h);
    case Dropping(_, _) => DropTouches(s, t, c, h);
    case Freeing(_, _) => DropTouches(s, t, c, h);
    case Holding(_) => WorkTouches(s, t, c, h);
    case Running(_, _, _) => WorkTouches(s, t, c, h);
    case Retiring(_) => EndTouches(s, t, c, h);
    case Releasing(_, _) => EndTouches(s, t, c, h);
    case _ => LeavesAll(s, t, c, h);
  }

  lemma StartTouches(s: State, t: nat, c: Choice, h: Handle)
    requires Enabled(s, t, c) && h in s.svc && At(s, t) == Idle
    ensures Touches(s, Next(s, t, c), t, c, h)
  {
  }

  lemma MarkTouches(s: State, t: nat, c: Choice, h: Handle)
    requires Enabled(s, t, c) && h in s.svc && At(s, t).Deleting?
    ensures Untouched(s, Next(s, t, c), h)
  {
  }

  lemma PushTouches(s: State, t: nat, c: Choice, h: Handle)
    requires Enabled(s, t, c) && h in s.svc && At(s, t).Pushing?
    ensures Touches(s, Next(s, t, c), t, c, h)
  {
  }

  lemma CallTouches(s: State, t: nat, c: Choice, h: Handle)
    requires Enabled(s, t, c) && h in s.svc && (At(s, t).Launching? || At(s, t).Calling?)
    ensures Touches(s, Next(s, t, c), t, c, h)
  {
  }

  lemma ReadyTouches(s: State, t: nat, c: Choice, h: Handle)
    requires Enabled(s, t, c) && h in s.svc && At(s, t).Ready?
    ensures Touches(s, Next(s, t, c), t, c, h)
  {
    if Settles(s, t, h) {
      var m := s.svc[h].hand[0];
      var f := if s.svc[h].cb then Handed(m) else Unheard(m);
      assert Next(s, t, c).svc[h].done == s.svc[h].done + [f] && Settled(s, t, h, f);
    }
  }

  lemma ReplyingTouches(s: State, t: nat, c: Choice, h: Handle)
    requires Enabled(s, t, c) && h in s.svc && At(s, t).Replying?
    ensures Touches(s, Next(s, t, c), t, c, h)
  {
    if Settles(s, t, h) {
      var m := s.svc[h].hand[0];
      var f := Dropped(m);
      assert Next(s, t, c).svc[h].done == s.svc[h].done + [f] && Settled(s, t, h, f);
    }
  }

  /** The step changes no service. */
  predicate Leaves(pc: Pc) {
    pc.Publishing? || pc.Using? || pc.MqReleasing? || pc.Popping? || pc.Popped? || pc.Tail? || pc.PushBack?
  }

  lemma LeavesAll(s: State, t: nat, c: Choice, h: Handle)
    requires Enabled(s, t, c) && h in s.svc && Leaves(At(s, t))
    ensures Untouched(s, Next(s, t, c), h)
  {
    hide Batch, Start, MqPush, MarkRelease, HandOver, DropOne;
    assert Next(s, t, c).svc == s.svc;
  }

  lemma DropTouches(s: State, t: nat, c: Choice, h: Handle)
    requires Enabled(s, t, c) && h in s.svc && (At(s, t).Dropping? || At(s, t).Freeing?)
    ensures Untouched(s, Next(s, t, c), h)
  {
    hide Next, Untouched;
    if At(s, t).Dropping? {
      DroppingTouches(s, t, c, h);
    } else {
      FreeingTouches(s, t, c, h);
    }
  }

  lemma TakeKeeps(v: Service)
    requires v.msgs != []
    ensures var w := Take(v);
            && w.accepted == v.accepted && w.done == v.done && w.cb == v.cb && w.init == v.init
            && w.registered == v.registered
  {
  }

  lemma DroppingTouches(s: State, t: nat, c: Choice, h: Handle)
    requires Enabled(s, t, c) && h in s.svc && At(s, t).Dropping?
    ensures Untouched(s, Next(s, t, c), h)
  {
    hide Batch, Start, MqPush, MarkRelease, HandOver, DropOne, PushGlobal, Take;
    var v := s.svc[At(s, t).h];
    if v.msgs != [] {
      TakeKeeps(v);
    }
  }

  lemma FreeingTouches(s: State, t: nat, c: Choice, h: Handle)
    requires Enabled(s, t, c) && h in s.svc && At(s, t).Freeing?
    ensures Untouched(s, Next(s, t, c), h)
  {
    hide Batch, Start, MqPush, MarkRelease, HandOver, DropOne, PushGlobal, Take;
  }

  lemma WorkTouches(s: State, t: nat, c: Choice, h: Handle)
    requires Enabled(s, t, c) && h in s.svc && (At(s, t).Holding? || At(s, t).Running?)
    ensures Untouched(s, Next(s, t, c), h)
  {
    hide Next, Untouched;
    if At(s, t).Holding? {
      HoldingTouches(s, t, c, h);
    } else {
      RunningTouches(s, t, c, h);
    }
  }

  lemma HoldingTouches(s: State, t: nat, c: Choice, h: Handle)
    requires Enabled(s, t, c) && h in s.svc && At(s, t).Holding?
    ensures Untouched(s, Next(s, t, c), h)
  {
    hide Batch, Start, MqPush, MarkRelease, HandOver, DropOne, PushGlobal, Take;
  }

  lemma RunningTouches(s: State, t: nat, c: Choice, h: Handle)
    requires Enabled(s, t, c) && h in s.svc && At(s, t).Running?
    ensures Untouched(s, Next(s, t, c), h)
  {
    hide Batch, Start, MqPush, MarkRelease, HandOver, DropOne, PushGlobal, Take;
    var v := s.svc[At(s, t).h];
    if v.msgs != [] {
      TakeKeeps(v);
    }
  }

  lemma EndTouches(s: State, t: nat, c: Choice, h: Handle)
    requires Enabled(s, t, c) && h in s.svc && (At(s, t).Retiring? || At(s, t).Releasing?)
    ensures Touches(s, Next(s, t, c), t, c, h)
  {
    hide Batch, Start, MqPush, MarkRelease, HandOver, DropOne;
  }

  /** What was accepted and what was done with it is never taken back. */
  lemma {:induction false} RunGrows(moves: seq<Move>, states: seq<State>, i: nat, j: nat, h: Handle)
    requires Run(moves, states) && i <= j < |states| && h in states[i].svc
    ensures h in states[j].svc
    ensures states[i].svc[h].accepted <= states[j].svc[h].accepted && states[i].svc[h].done <= states[j].svc[h].done
  {
    hide Next, Settled, Settles;
    if i < j {
      RunGrows(moves, states, i, j - 1, h);
      StepTouches(states[j - 1], moves[j - 1].t, moves[j - 1].c, h);
    }
  }

  // ---- What is accepted is what was sent

  /** The messages pushed onto the queue of 'h' in the first n steps. */
  ghost function Pushed(moves: seq<Move>, states: seq<State>, n: nat, h: Handle): seq<Msg>
    requires n <= |moves| && |states| == |moves| + 1
  {
    if n == 0 then [] else Pushed(moves, states, n - 1, h) + Pushes(states[n - 1], moves[n - 1].t, h)
  }

  /** A service exists from its launch on, and is registered until the first step that retires it. */
  lemma {:induction false} RegisteredExactly(moves: seq<Move>, states: seq<State>, n: nat, h: Handle)
    requires Run(moves, states) && n < |states|
    ensures h in states[n].svc <==> exists j :: 0 <= j < n && moves[j].c == Launch(h)
    ensures h in states[n].svc ==>
              (states[n].svc[h].registered <==>
                 forall j :: 0 <= j < n && h in states[j].svc ==> !Retires(states[j], moves[j].t, moves[j].c, h))
  {
    hide Next, Settled, Settles, Pushes;
    if n > 0 {
      var s, t, c := states[n - 1], moves[n - 1].t, moves[n - 1].c;
      RegisteredExactly(moves, states, n - 1, h);
      LaunchedBy(s, t, c, h);
      if h in s.svc {
        StepTouches(s, t, c, h);
      } else if h in states[n].svc {
        NewService(s, t, c, h);
        NeverBefore(moves, states, n, h);
      }
    }
  }

  lemma NeverBefore(moves: seq<Move>, states: seq<State>, n: nat, h: Handle)
    requires Run(moves, states) && 0 < n < |states| && h !in states[n - 1].svc
    ensures forall j :: 0 <= j < n ==> h !in states[j].svc
  {
    hide Next;
    forall j | 0 <= j < n ensures h !in states[j].svc {
      if h in states[j].svc {
        RunGrows(moves, states, j, n - 1, h);
      }
    }
  }

  lemma LaunchedBy(s: State, t: nat, c: Choice, h: Handle)
    requires Enabled(s, t, c)
    ensures h in Next(s, t, c).svc <==> h in s.svc || c == Launch(h)
  {
    hide Next, Settled, Settles, Pushes;
    if h in s.svc {
      StepTouches(s, t, c, h);
    } else if c == Launch(h) {
      LaunchAdds(s, t, c);
    } else {
      NotLaunched(s, t, c, h);
    }
  }

  lemma LaunchAdds(s: State, t: nat, c: Choice)
    requires Enabled(s, t, c) && c.Launch?
    ensures c.h in Next(s, t, c).svc
  {
  }

  lemma NotLaunched(s: State, t: nat, c: Choice, h: Handle)
    requires Enabled(s, t, c) && h !in s.svc && c != Launch(h)
    ensures h !in Next(s, t, c).svc
  {
    hide Batch, MqPush, MarkRelease, HandOver, DropOne;
    var pc := At(s, t);
    match pc
    case Pushing(_, _) => PushNew(s, pc.h, pc.msg, h);
    case Deleting(_, _) => MarkNew(s, pc.h, h);
    case _ =>
  }

  /** What a queue accepted is exactly what was pushed onto it, in the order of the pushes. */
  lemma {:induction false} AcceptedIsPushed(moves: seq<Move>, states: seq<State>, n: nat, h: Handle)
    requires Run(moves, states) && n < |states|
    ensures h in states[n].svc ==> states[n].svc[h].accepted == Pushed(moves, states, n, h)
    ensures h !in states[n].svc ==> Pushed(moves, states, n, h) == []
  {
    hide Next, Settled, Settles, Inv;
    if n > 0 {
      var s, t, c := states[n - 1], moves[n - 1].t, moves[n - 1].c;
      AcceptedIsPushed(moves, states, n - 1, h);
      LaunchedBy(s, t, c, h);
      if h in s.svc {
        StepTouches(s, t, c, h);
      } else {
        RunOk(moves, states, n - 1);
        if At(s, t).Pushing? {
          OwnFacts(s, t);
        }
        if h in states[n].svc {
          NewService(s, t, c, h);
        }
      }
    }
  }

  /** 'm' is sent to 'h' and finds it in the handle table. */
  predicate Sends(s: State, c: Choice, h: Handle, m: Msg) {
    c == Send(h, m) && h in s.svc && s.svc[h].registered
  }

  /** How often that happens in the first n steps. */
  ghost function Sent(moves: seq<Move>, states: seq<State>, n: nat, h: Handle, m: Msg): nat
    requires n <= |moves| && |states| == |moves| + 1
  {
    if n == 0 then 0
    else Sent(moves, states, n - 1, h, m) + if Sends(states[n - 1], moves[n - 1].c, h, m) then 1 else 0
  }

  /** The threads that are about to push m onto the queue of h. */
  function Senders(s: State, h: Handle, m: Msg): set<nat> {
    set t | t in s.threads && s.threads[t] == Pushing(h, m)
  }

  lemma StepSenders(s: State, t: nat, c: Choice, h: Handle, m: Msg)
    requires Enabled(s, t, c)
    ensures var s2 := Next(s, t, c);
            |Senders(s2, h, m)| == |Senders(s, h, m)| + (if Sends(s, c, h, m) then 1 else 0)
                                   - if At(s, t) == Pushing(h, m) then 1 else 0
  {
    hide Next, Sends, Senders;
    NextMovesOnly(s, t, c);
    NextPushing(s, t, c, h, m);
    SendersMove(s, Next(s, t, c), t, h, m);
  }

  lemma SendersMove(s: State, s2: State, t: nat, h: Handle, m: Msg)
    requires MovesOnly(s, s2, t)
    ensures |Senders(s2, h, m)| == |Senders(s, h, m)| + (if At(s2, t) == Pushing(h, m) then 1 else 0)
                                   - if At(s, t) == Pushing(h, m) then 1 else 0
  {
    var rest := Senders(s, h, m) - {t};
    assert Senders(s, h, m) == if At(s, t) == Pushing(h, m) then rest + {t} else rest;
    assert Senders(s2, h, m) == if At(s2, t) == Pushing(h, m) then rest + {t} else rest;
  }

  lemma NextMovesOnly(s: State, t: nat, c: Choice)
    requires Enabled(s, t, c)
    ensures MovesOnly(s, Next(s, t, c), t)
  {
    hide Batch, HandOver, DropOne, Take;
  }

  /** Only a send makes a thread push. */
  lemma NextPushing(s: State, t: nat, c: Choice, h: Handle, m: Msg)
    requires Enabled(s, t, c)
    ensures At(Next(s, t, c), t) == Pushing(h, m) <==> Sends(s, c, h, m)
  {
    hide Batch, HandOver, DropOne, Take, MqPush, MarkRelease;
  }

  /**
   Nothing that was sent to a registered service is lost: every message sent is accepted by its queue, or a
   thread is about to push it; and nothing else is accepted.
   */
  lemma {:induction false} SentIsAccepted(moves: seq<Move>, states: seq<State>, n: nat, h: Handle, m: Msg)
    requires Run(moves, states) && n < |states|
    ensures var s := states[n];
            Sent(moves, states, n, h, m)
            == (if h in s.svc then multiset(s.svc[h].accepted)[m] else 0) + |Senders(s, h, m)|
  {
    hide Next, Settled, Settles, Inv, Senders, Sends;
    if n == 0 {
      NoSenders(h, m);
    } else {
      var s, t, c := states[n - 1], moves[n - 1].t, moves[n - 1].c;
      SentIsAccepted(moves, states, n - 1, h, m);
      StepSenders(s, t, c, h, m);
      LaunchedBy(s, t, c, h);
      if h in s.svc {
        StepTouches(s, t, c, h);
      } else {
        RunOk(moves, states, n - 1);
        if At(s, t).Pushing? {
          OwnFacts(s, t);
        }
        if h in states[n].svc {
          NewService(s, t, c, h);
        }
      }
    }
  }

  lemma NoSenders(h: Handle, m: Msg)
    ensures Senders(Initial, h, m) == {}
  {
  }

  // ---- Callbacks

  /** The step j of the run settles the k-th message of 'h', with fate f. */
  ghost predicate SettledAt(moves: seq<Move>, states: seq<State>, j: nat, h: Handle, k: nat, f: Fate)
    requires j < |moves| && |states| == |moves| + 1
  {
    Settled(states[j], moves[j].t, h, f) && |states[j].svc[h].done| == k
  }

  lemma NewService(s: State, t: nat, c: Choice, h: Handle)
    requires Enabled(s, t, c) && h !in s.svc && h in Next(s, t, c).svc
    ensures Next(s, t, c).svc[h] == Fresh
  {
    hide Batch, MqPush, MarkRelease, HandOver, DropOne;
    var pc := At(s, t);
    match pc
    case Pushing(_, _) => PushNew(s, pc.h, pc.msg, h);
    case Deleting(_, _) => MarkNew(s, pc.h, h);
    case _ =>
  }

  lemma PushNew(s: State, g: Handle, m: Msg, h: Handle)
    requires g in s.svc && h !in s.svc
    ensures h !in MqPush(s, g, m).svc
  {
  }

  lemma MarkNew(s: State, g: Handle, h: Handle)
    requires g in s.svc && h !in s.svc
    ensures h !in MarkRelease(s, g).svc
  {
  }

  /**
   A message goes unheard exactly when no callback is set at the moment it is handed over: for every
   message that is done with there is the step that settled it, and its fate is the one of that step.
   */
  lemma {:induction false} FateExactly(moves: seq<Move>, states: seq<State>, i: nat, h: Handle, k: nat)
    requires Run(moves, states) && i < |states| && h in states[i].svc && k < |states[i].svc[h].done|
    ensures exists j :: 0 <= j < i && SettledAt(moves, states, j, h, k, states[i].svc[h].done[k])
  {
    hide Next, Settled, Settles;
    var s, t, c := states[i - 1], moves[i - 1].t, moves[i - 1].c;
    if h in s.svc {
      StepTouches(s, t, c, h);
      if k < |s.svc[h].done| {
        FateExactly(moves, states, i - 1, h, k);
        var j :| 0 <= j < i - 1 && SettledAt(moves, states, j, h, k, s.svc[h].done[k]);
        assert SettledAt(moves, states, j, h, k, states[i].svc[h].done[k]);
      } else {
        assert SettledAt(moves, states, i - 1, h, k, states[i].svc[h].done[k]);
      }
    } else {
      NewService(s, t, c, h);
    }
  }

  /** And what a step settles stays so for the rest of the run. */
  lemma FateStays(moves: seq<Move>, states: seq<State>, j: nat, i: nat, h: Handle)
    requires Run(moves, states) && j < i < |states| && Settles(states[j], moves[j].t, h)
    ensures h in states[i].svc && |states[j].svc[h].done| < |states[i].svc[h].done|
    ensures Settled(states[j], moves[j].t, h, states[i].svc[h].done[|states[j].svc[h].done|])
  {
    hide Next, Settled;
    StepTouches(states[j], moves[j].t, moves[j].c, h);
    RunGrows(moves, states, j + 1, i, h);
  }

  /** What skynet_callback was last called with, if it was called at all. */
  ghost function LastCallback(moves: seq<Move>, states: seq<State>, n: nat, h: Handle): bool
    requires n <= |moves| && |states| == |moves| + 1
  {
    if n == 0 then false
    else if SetsCallback(states[n - 1], moves[n - 1].t, moves[n - 1].c, h) then moves[n - 1].c.cb
    else LastCallback(moves, states, n - 1, h)
  }

  /** A service has a callback exactly when the last call of skynet_callback set one. */
  lemma {:induction false} CallbackExactly(moves: seq<Move>, states: seq<State>, n: nat, h: Handle)
    requires Run(moves, states) && n < |states|
    ensures h in states[n].svc ==> states[n].svc[h].cb == LastCallback(moves, states, n, h)
    ensures h !in states[n].svc ==> !LastCallback(moves, states, n, h)
  {
    hide Next, Settled, Settles, Inv;
    if n > 0 {
      var s, t, c := states[n - 1], moves[n - 1].t, moves[n - 1].c;
      CallbackExactly(moves, states, n - 1, h);
      LaunchedBy(s, t, c, h);
      if h in s.svc {
        StepTouches(s, t, c, h);
      } else {
        RunOk(moves, states, n - 1);
        if SetsCallback(s, t, c, h) {
          OwnFacts(s, t);
        }
        if h in states[n].svc {
          NewService(s, t, c, h);
        }
      }
    }
  }

  /** The service is launched with its callback set and never clears it. */
  ghost predicate KeepsCallback(moves: seq<Move>, states: seq<State>, h: Handle)
    requires Run(moves, states)
  {
    forall j :: 0 <= j < |moves| ==> KeepsCallbackIn(states[j], moves[j].t, moves[j].c, h)
  }

  predicate KeepsCallbackIn(s: State, t: nat, c: Choice, h: Handle) {
    && (At(s, t) == Launching(h) && c.Go? && c.fine && h in s.svc ==> s.svc[h].cb)
    && (At(s, t).Calling? && At(s, t).h == h ==> c != SetCallback(false))
  }

  lemma StepKeepsCallback(s: State, t: nat, c: Choice, h: Handle)
    requires Enabled(s, t, c) && h in s.svc && KeepsCallbackIn(s, t, c, h)
    requires (s.svc[h].init ==> s.svc[h].cb) && (At(s, t) == Launching(h) ==> !s.svc[h].init)
    ensures h in Next(s, t, c).svc && (Next(s, t, c).svc[h].init ==> Next(s, t, c).svc[h].cb)
  {
    hide Next, Settled, Settles;
    StepTouches(s, t, c, h);
  }

  /** Every message of such a service is handed to its callback or dropped with an error reply. */
  lemma AlwaysHeard(moves: seq<Move>, states: seq<State>, i: nat, h: Handle, k: nat)
    requires Run(moves, states) && i < |states| && h in states[i].svc && k < |states[i].svc[h].done|
    requires KeepsCallback(moves, states, h)
    ensures states[i].svc[h].done[k].Handed? || states[i].svc[h].done[k].Dropped?
  {
    hide Next;
    FateExactly(moves, states, i, h, k);
    var j :| 0 <= j < i && SettledAt(moves, states, j, h, k, states[i].svc[h].done[k]);
    RunOk(moves, states, j);
    CallbackKept(moves, states, j, h);
    OwnFacts(states[j], moves[j].t);
  }

  lemma {:induction false} CallbackKept(moves: seq<Move>, states: seq<State>, i: nat, h: Handle)
    requires Run(moves, states) && i < |states| && h in states[i].svc && KeepsCallback(moves, states, h)
    ensures states[i].svc[h].init ==> states[i].svc[h].cb
  {
    hide Next, Inv, PcOk;
    if i > 0 {
      var s, t, c := states[i - 1], moves[i - 1].t, moves[i - 1].c;
      if h in s.svc {
        CallbackKept(moves, states, i - 1, h);
        RunOk(moves, states, i - 1);
        if Subject(At(s, t)).Some? {
          OwnFacts(s, t);
        }
        assert KeepsCallbackIn(s, t, c, h);
        StepKeepsCallback(s, t, c, h);
      } else {
        NewService(s, t, c, h);
      }
    }
  }

  // ---- A service without a callback

  ghost predicate Reachable(s: State) {
    exists moves, states :: Run(moves, states) && states[|moves|] == s
  }

  lemma Reach(s: State, t: nat, c: Choice, s2: State)
    requires Reachable(s) && Enabled(s, t, c) && Next(s, t, c) == s2
    ensures Reachable(s2)
  {
    hide Next, Enabled;
    var moves, states :| Run(moves, states) && states[|moves|] == s;
    var moves2, states2 := moves + [Move(t, c)], states + [s2];
    forall i | 0 <= i < |moves2|
      ensures Enabled(states2[i], moves2[i].t, moves2[i].c)
      ensures states2[i + 1] == Next(states2[i], moves2[i].t, moves2[i].c)
    {
      assert i < |moves| ==> states2[i] == states[i] && states2[i + 1] == states[i + 1] && moves2[i] == moves[i];
    }
    assert Run(moves2, states2) && states2[|moves2|] == s2;
  }

  /** One service and one thread. */
  function Alone(v: Service, global: seq<Handle>, pc: Pc): State {
    State(map[1 := v], global, map[0 := pc], true)
  }

  lemma AloneNext(v: Service, global: seq<Handle>, pc: Pc, c: Choice, w: Service, global2: seq<Handle>, pc2: Pc)
    requires Reachable(Alone(v, global, pc)) && Enabled(Alone(v, global, pc), 0, c)
    requires var s := Next(Alone(v, global, pc), 0, c);
             && s.ok && s.global == global2 && s.svc == map[1 := w]
             && s.threads == map[0 := pc2]
    ensures Reachable(Alone(w, global2, pc2))
  {
    hide Reachable, Next;
    Reach(Alone(v, global, pc), 0, c, Alone(w, global2, pc2));
  }

  const Launched := Fresh.(init := true)

  lemma InitialReachable()
    ensures Reachable(Initial)
  {
    assert Run([], [Initial]);
  }

  lemma ToLaunching()
    ensures Reachable(Alone(Fresh, [], Launching(1)))
  {
    hide Reachable;
    InitialReachable();
    assert Next(Initial, 0, Launch(1)) == Alone(Fresh, [], Launching(1));
    Reach(Initial, 0, Launch(1), Alone(Fresh, [], Launching(1)));
  }

  lemma ToLaunched()
    ensures Reachable(Alone(Launched.(ref := 1), [1], Idle))
  {
    hide Reachable;
    ToLaunching();
    AloneNext(Fresh, [], Launching(1), Go(true, 0), Launched, [], Publishing(1));
    AloneNext(Launched, [], Publishing(1), Go(true, 0), Launched, [1], Releasing(1, Done));
    AloneNext(Launched, [1], Releasing(1, Done), Go(true, 0), Launched.(ref := 1), [1], Idle);
  }

  lemma ToSent(m: Msg)
    ensures Reachable(Alone(Launched.(ref := 1, msgs := [m], accepted := [m]), [1], Idle))
  {
    hide Reachable;
    ToLaunched();
    var v := Launched.(msgs := [m], accepted := [m]);
    assert [] + [m] == [m];
    AloneNext(Launched.(ref := 1), [1], Idle, Send(1, m), Launched, [1], Pushing(1, m));
    AloneNext(Launched, [1], Pushing(1, m), Go(true, 0), v, [1], Releasing(1, Done));
    AloneNext(v, [1], Releasing(1, Done), Go(true, 0), v.(ref := 1), [1], Idle);
  }

  lemma ToRunning(m: Msg)
    ensures Reachable(Alone(Launched.(msgs := [m], accepted := [m]), [], Running(1, 0, 1)))
  {
    hide Reachable;
    ToSent(m);
    var v := Launched.(msgs := [m], accepted := [m]);
    AloneNext(v.(ref := 1), [1], Idle, Work, v.(ref := 1), [1], Popping);
    AloneNext(v.(ref := 1), [1], Popping, Go(true, 0), v.(ref := 1), [], Holding(1));
    AloneNext(v.(ref := 1), [], Holding(1), Go(true, 0), v, [], Running(1, 0, 1));
  }

  lemma ToReady(m: Msg)
    ensures Reachable(Alone(Launched.(hand := [m], accepted := [m]), [], Ready(1, 0, 1)))
  {
    hide Reachable;
    ToRunning(m);
    var v := Launched.(msgs := [m], accepted := [m]);
    assert [m][1..] == [] && [] + [m] == [m];
    AloneNext(v, [], Running(1, 0, 1), Go(true, 0), v.(msgs := [], hand := [m]), [], Popped(1, 0, 1));
    AloneNext(v.(msgs := [], hand := [m]), [], Popped(1, 0, 1), Go(true, -1), v.(msgs := [], hand := [m]), [],
      Ready(1, 0, 1));
  }

  /** A service whose module sets no callback: any message sent to it vanishes without a reply. */
  lemma SomeUnheard(m: Msg)
    ensures exists s :: Reachable(s) && 1 in s.svc && s.svc[1].accepted == [m]
                        && s.svc[1].done == [Unheard(m)] && s.svc[1].replies == []
  {
    hide Reachable;
    ToReady(m);
    var v := Launched.(hand := [m], accepted := [m]);
    var w := Launched.(accepted := [m], done := [Unheard(m)]);
    assert [m][1..] == [] && [] + [Unheard(m)] == [Unheard(m)];
    AloneNext(v, [], Ready(1, 0, 1), Go(true, 0), w, [], Running(1, 1, 1));
    assert Alone(w, [], Running(1, 1, 1)).svc[1] == w;
  }
}
