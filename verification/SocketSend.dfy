/**
 Sending on one open TCP socket of socket_server.c, as the interleaving of any number of sending
 threads (socket_server_send, socket_server_send_lowpriority) with the socket thread (ctrl_cmd,
 send_buffer). Steps of their own are: each read of can_direct_write, each lock operation together with
 the accesses it guards, each change of the counter, each pipe operation and each write(). What the
 socket thread does to its lists between two of these is part of the step before.
 */
module SocketSend {

  import opened Prelude

  /** The n-th package of a sender; 'high' is its priority. */
  datatype Package = Package(sender: nat, n: nat, high: bool, data: seq<Byte>)

  /** A write_buffer: 'off' bytes of the package have been written. */
  datatype Buf = Buf(pkg: Package, off: nat)

  /** Commands in the pipe: 'D' or 'P' with a package, or 'W'. */
  datatype Cmd = Send(pkg: Package) | Wake

  datatype Owner = NoOne | Thread(id: nat) | SocketThread

  /** Where the socket thread is inside send_buffer; it holds dw_lock unless Idle. */
  datatype Phase = Idle | SendingHigh | SendingLow

  /**
   Where a sending thread is. Check1 and Check2 are the two evaluations of can_direct_write; their
   argument counts the reads done (high list, low list, dw_buffer, sending).
   */
  datatype Pc =
    | Ready
    | Check1(k: nat)
    | Locking
    | Check2(k: nat)
    | Writing
    | Storing(n: nat)
    | Waking
    | Counting
    | Pushing

  datatype Sender = Sender(pc: Pc, next: nat, pkg: Package)

  datatype State = State(
    high: seq<Buf>, low: seq<Buf>, wbSize: int,
    dw: Option<Buf>, lock: Owner, sending: nat, pipe: seq<Cmd>,
    phase: Phase, counted: bool,
    senders: map<nat, Sender>,
    wire: seq<Byte>,
    sent: seq<Package>,    // packages completely written, in order
    begun: seq<Package>,   // packages handed in, in order
    pushing: set<nat>,     // senders between inc_sending_ref and the pipe
    writing: bool          // the poller watches for writability
  )

  const MAX_SENDING := 0xffff

  /** What the scheduler and the operating system decide in one step. */
  datatype Choice =
    | Begin(a: nat, high: bool, data: seq<Byte>)
    | Check(a: nat)
    | TryLock(a: nat)
    | DirectWrite(a: nat, n: nat)
    | StoreDw(a: nat)
    | SendWake(a: nat)
    | IncSending(a: nat)
    | PushPipe(a: nat)
    | Command
    | DecSending
    | Writable
    | Write(again: bool, n: nat)

  function Rest(b: Buf): nat {
    if b.off <= |b.pkg.data| then |b.pkg.data| - b.off else 0
  }

  function Init(ids: set<nat>): State {
    State([], [], 0, None, NoOne, 0, [], Idle, false,
          map a | a in ids :: Sender(Ready, 0, Package(a, 0, true, [])), [], [], [], {}, false)
  }

  function SetPc(s: State, a: nat, pc: Pc): State
    requires a in s.senders
  {
    s.(senders := s.senders[a := s.senders[a].(pc := pc)])
  }

  /** The k-th read of nomore_sending_data finds nothing. */
  predicate ReadsNothing(s: State, k: nat) {
    match k
    case 0 => s.high == []
    case 1 => s.low == []
    case 2 => s.dw == None
    case _ => s.sending == 0
  }

  predicate Enabled(s: State, c: Choice) {
    match c
    case Begin(a, _, _) => a in s.senders && s.senders[a].pc == Ready
    case Check(a) => a in s.senders && (s.senders[a].pc.Check1? || s.senders[a].pc.Check2?)
    case TryLock(a) => a in s.senders && s.senders[a].pc == Locking
    case DirectWrite(a, n) => a in s.senders && s.senders[a].pc == Writing && n <= |s.senders[a].pkg.data|
    case StoreDw(a) => a in s.senders && s.senders[a].pc.Storing?
    case SendWake(a) => a in s.senders && s.senders[a].pc == Waking
    case IncSending(a) => a in s.senders && s.senders[a].pc == Counting && s.sending < MAX_SENDING
    case PushPipe(a) => a in s.senders && s.senders[a].pc == Pushing
    case Command => s.phase == Idle && !s.counted && s.pipe != []
    case DecSending => s.phase == Idle && s.counted
    case Writable => s.phase == Idle && !s.counted && s.lock == NoOne && s.writing
    case Write(_, n) =>
      (s.phase == SendingHigh && (s.high == [] || n <= Rest(s.high[0]))) ||
      (s.phase == SendingLow && (s.low == [] || n <= Rest(s.low[0])))
  }

  function Next(s: State, c: Choice): State
    requires Enabled(s, c)
  {
    match c
    case Begin(a, high, data) => DoBegin(s, a, high, data)
    case Check(a) => DoCheck(s, a)
    case TryLock(a) =>
      if s.lock == NoOne then SetPc(s.(lock := Thread(a)), a, Check2(0)) else SetPc(s, a, Counting)
    case DirectWrite(a, n) => DoDirectWrite(s, a, n)
    case StoreDw(a) =>
      var b := Buf(s.senders[a].pkg, s.senders[a].pc.n);
      SetPc(s.(dw := Some(b), lock := NoOne), a, Waking)
    case SendWake(a) => SetPc(s.(pipe := s.pipe + [Wake]), a, Ready)
    case IncSending(a) => SetPc(s.(sending := s.sending + 1, pushing := s.pushing + {a}), a, Pushing)
    case PushPipe(a) =>
      SetPc(s.(pipe := s.pipe + [Send(s.senders[a].pkg)], pushing := s.pushing - {a}), a, Ready)
    case Command => DoCommand(s)
    case DecSending => s.(sending := if s.sending > 0 then s.sending - 1 else 0, counted := false)
    case Writable => DoWritable(s)
    case Write(again, n) => if s.phase == SendingHigh then DoWriteHigh(s, again, n) else DoWriteLow(s, again, n)
  }

  /** A sender takes the next package; a low-priority one goes straight to the pipe. */
  function DoBegin(s: State, a: nat, high: bool, data: seq<Byte>): State
    requires a in s.senders
  {
    var t := s.senders[a];
    var pkg := Package(a, t.next, high, data);
    s.(senders := s.senders[a := Sender(if high then Check1(0) else Counting, t.next + 1, pkg)],
       begun := s.begun + [pkg])
  }

  /** One read of can_direct_write; the second evaluation holds the lock. */
  function DoCheck(s: State, a: nat): State
    requires a in s.senders && (s.senders[a].pc.Check1? || s.senders[a].pc.Check2?)
  {
    var pc := s.senders[a].pc;
    if pc.Check1? then
      if !ReadsNothing(s, pc.k) then SetPc(s, a, Counting)
      else SetPc(s, a, if pc.k < 3 then Check1(pc.k + 1) else Locking)
    else
      if !ReadsNothing(s, pc.k) then SetPc(s.(lock := NoOne), a, Counting)
      else SetPc(s, a, if pc.k < 3 then Check2(pc.k + 1) else Writing)
  }

  /** write() on the descriptor from the sending thread takes n bytes. */
  function DoDirectWrite(s: State, a: nat, n: nat): State
    requires a in s.senders && n <= |s.senders[a].pkg.data|
  {
    var pkg := s.senders[a].pkg;
    if n == |pkg.data| then
      SetPc(s.(wire := s.wire + pkg.data, sent := s.sent + [pkg], lock := NoOne), a, Ready)
    else
      SetPc(s.(wire := s.wire + pkg.data[..n]), a, Storing(n))
  }

  /** ctrl_cmd: send_socket appends the package to a list. */
  function DoCommand(s: State): State
    requires s.pipe != []
  {
    var rest := s.(pipe := s.pipe[1..]);
    match s.pipe[0]
    case Wake => rest.(writing := true)
    case Send(pkg) =>
      var b := Buf(pkg, 0);
      var grown := rest.(wbSize := s.wbSize + |pkg.data|, counted := true,
                         writing := s.writing || (s.high == [] && s.low == []));
      if (s.high == [] && s.low == []) || pkg.high then grown.(high := s.high + [b])
      else grown.(low := s.low + [b])
  }

  /** send_buffer takes the lock and puts the direct-write buffer before the high list. */
  function DoWritable(s: State): State {
    var locked := s.(lock := SocketThread, phase := SendingHigh);
    match s.dw
    case None => locked
    case Some(b) => locked.(high := [b] + s.high, wbSize := s.wbSize + Rest(b), dw := None)
  }

  function Unlock(s: State): State {
    s.(lock := NoOne, phase := Idle)
  }

  /** The bytes of a buffer that a write of n bytes puts on the wire. */
  function Written(b: Buf, n: nat): seq<Byte>
    requires n <= Rest(b)
  {
    if b.off <= |b.pkg.data| then b.pkg.data[b.off..b.off + n] else []
  }

  /** One round of send_list_tcp on the high list. */
  function DoWriteHigh(s: State, again: bool, n: nat): State
    requires s.high == [] || n <= Rest(s.high[0])
  {
    if s.high == [] then
      (if s.low == [] then Unlock(s.(writing := false)) else s.(phase := SendingLow))
    else if again then Unlock(s)
    else
      var b := s.high[0];
      var t := s.(wire := s.wire + Written(b, n), wbSize := s.wbSize - n);
      if n < Rest(b) then Unlock(t.(high := [Buf(b.pkg, b.off + n)] + s.high[1..]))
      else t.(high := s.high[1..], sent := s.sent + [b.pkg])
  }

  /** One round of send_list_tcp on the low list, with raise_uncomplete. */
  function DoWriteLow(s: State, again: bool, n: nat): State
    requires s.low == [] || n <= Rest(s.low[0])
  {
    if s.low == [] then Unlock(s.(writing := false))
    else if again then Unlock(s)
    else
      var b := s.low[0];
      var t := s.(wire := s.wire + Written(b, n), wbSize := s.wbSize - n);
      if n == Rest(b) then t.(low := s.low[1..], sent := s.sent + [b.pkg])
      else if n == 0 then Unlock(t)
      else Unlock(t.(low := s.low[1..], high := [Buf(b.pkg, b.off + n)] + s.high))
  }

  // ----- runs -----

  /** The state after a run; a choice that is not enabled is skipped. */
  function Run(s: State, run: seq<Choice>): State
    decreases |run|
  {
    if run == [] then s
    else
      var before := Run(s, run[..|run| - 1]);
      if Enabled(before, run[|run| - 1]) then Next(before, run[|run| - 1]) else before
  }

  // ----- what is where -----

  function Pkgs(bs: seq<Buf>): (r: seq<Package>)
    ensures |r| == |bs| && forall i :: 0 <= i < |bs| ==> r[i] == bs[i].pkg
  {
    if bs == [] then [] else [bs[0].pkg] + Pkgs(bs[1..])
  }

  function PipePkgs(cs: seq<Cmd>): seq<Package> {
    if cs == [] then [] else (if cs[0].Send? then [cs[0].pkg] else []) + PipePkgs(cs[1..])
  }

  /** The packages of one sender and one priority, in order. */
  function Of(ps: seq<Package>, a: nat, h: bool): seq<Package> {
    if ps == [] then []
    else (if ps[0].sender == a && ps[0].high == h then [ps[0]] else []) + Of(ps[1..], a, h)
  }

  /** The package that a direct write has started but not stored yet. */
  function Hand(s: State): seq<Buf> {
    if s.lock.Thread? && s.lock.id in s.senders && s.senders[s.lock.id].pc.Storing?
    then [Buf(s.senders[s.lock.id].pkg, s.senders[s.lock.id].pc.n)] else []
  }

  function Dw(s: State): seq<Buf> {
    if s.dw.Some? then [s.dw.value] else []
  }

  /** Everything between the pipe and the wire, in the order in which it will be written. */
  function Line(s: State): seq<Buf> {
    Hand(s) + (Dw(s) + (s.high + s.low))
  }

  /** Everything between the senders and the peer. */
  function Flow(s: State): seq<Package> {
    s.sent + (Pkgs(Line(s)) + PipePkgs(s.pipe))
  }

  /** The sender holds a package that is in none of the shared places. */
  predicate Holds(pc: Pc) {
    pc.Check1? || pc.Locking? || pc.Check2? || pc.Writing? || pc.Counting? || pc.Pushing?
  }

  function InHand(s: State, a: nat): seq<Package> {
    if a in s.senders && Holds(s.senders[a].pc) then [s.senders[a].pkg] else []
  }

  function Concat(ps: seq<Package>): seq<Byte> {
    if ps == [] then [] else Concat(ps[..|ps| - 1]) + ps[|ps| - 1].data
  }

  function Unsent(bs: seq<Buf>): nat {
    if bs == [] then 0 else Rest(bs[0]) + Unsent(bs[1..])
  }

  /** None of the buffers has been written from. */
  predicate Untouched(bs: seq<Buf>) {
    forall i :: 0 <= i < |bs| ==> bs[i].off == 0
  }

  /** The part of the first package that is already on the wire. */
  function Partial(line: seq<Buf>): seq<Byte> {
    if line == [] || line[0].off > |line[0].pkg.data| then [] else line[0].pkg.data[..line[0].off]
  }

  // ----- the invariant -----

  /** Thread a and the lock. */
  ghost predicate ThreadOk(s: State, a: nat)
    requires a in s.senders
  {
    var t := s.senders[a];
    && (s.lock == Thread(a) <==> t.pc.Check2? || t.pc.Writing? || t.pc.Storing?)
    && (t.pc.Check1? || t.pc.Check2? ==> t.pc.k <= 3)
    && (t.pc.Storing? ==> t.pc.n < |t.pkg.data|)
    && (Holds(t.pc) || t.pc.Storing? ==> t.pkg.sender == a)
    && (t.pc.Check1? || t.pc.Locking? || t.pc.Check2? || t.pc.Writing? || t.pc.Storing? ==> t.pkg.high)
  }

  ghost predicate ThreadsOk(s: State) {
    && (forall a :: a in s.senders ==> ThreadOk(s, a))
    && (s.lock.Thread? ==> s.lock.id in s.senders)
    && (s.lock == SocketThread <==> s.phase != Idle)
  }

  /** The in-flight counter counts exactly the packages between inc_sending_ref and dec_sending_ref. */
  ghost predicate CounterOk(s: State) {
    && (forall a :: a in s.pushing <==> a in s.senders && s.senders[a].pc == Pushing)
    && s.sending == |PipePkgs(s.pipe)| + |s.pushing| + (if s.counted then 1 else 0)
  }

  /** What a sender that is about to write directly knows. */
  ghost predicate DirectOk(s: State, a: nat)
    requires a in s.senders
  {
    var pc := s.senders[a].pc;
    && (pc.Locking? || pc.Check2? || pc.Writing? ==> Of(PipePkgs(s.pipe), a, true) == [])
    && ((pc.Check2? && pc.k >= 1) || pc.Writing? ==> Of(Pkgs(s.high), a, true) == [])
    && ((pc.Check2? && pc.k >= 1) || pc.Writing? || pc.Storing? ==> Untouched(s.high))
    && ((pc.Check2? && pc.k >= 3) || pc.Writing? || pc.Storing? ==> s.dw == None)
  }

  ghost predicate DirectsOk(s: State) {
    forall a :: a in s.senders ==> DirectOk(s, a)
  }

  /** The two lists and the direct-write buffer. */
  ghost predicate ListsOk(s: State) {
    && Untouched(s.low) && (forall i :: 0 <= i < |s.low| ==> !s.low[i].pkg.high)
    && (s.high != [] ==> Untouched(s.high[1..]) && (s.high[0].off == 0 || s.high[0].off < |s.high[0].pkg.data|))
    && (s.dw.Some? ==> Untouched(s.high) && s.dw.value.off < |s.dw.value.pkg.data|)
    && (s.phase != Idle ==> s.dw == None)
    && (s.phase == SendingLow ==> s.high == [])
    && s.wbSize == Unsent(s.high) + Unsent(s.low)
  }

  /** Nothing is lost, duplicated or overtaken by the same sender at the same priority. */
  ghost predicate FlowOk(s: State) {
    forall a: nat, h: bool :: Of(s.begun, a, h) == Of(Flow(s), a, h) + Of(InHand(s, a), a, h)
  }

  /** The wire holds whole packages and at most a prefix of one more. */
  ghost predicate WireOk(s: State) {
    s.wire == Concat(s.sent) + Partial(Line(s))
  }

  ghost predicate Inv(s: State) {
    ThreadsOk(s) && CounterOk(s) && DirectsOk(s) && ListsOk(s) && FlowOk(s) && WireOk(s)
  }

  // ----- sequences -----

  lemma {:induction false} OfAppend(x: seq<Package>, y: seq<Package>, a: nat, h: bool)
    ensures Of(x + y, a, h) == Of(x, a, h) + Of(y, a, h)
  {
    if x == [] {
      assert x + y == y;
    } else {
      OfAppend(x[1..], y, a, h);
      var z := x + y;
      assert z[0] == x[0] && z[1..] == x[1..] + y;
      var f := if x[0].sender == a && x[0].high == h then [x[0]] else [];
      assert f + (Of(x[1..], a, h) + Of(y, a, h)) == (f + Of(x[1..], a, h)) + Of(y, a, h);
    }
  }

  lemma OfOne(p: Package, a: nat, h: bool)
    ensures Of([p], a, h) == if p.sender == a && p.high == h then [p] else []
  {
    assert Of([p][1..], a, h) == [];
  }

  lemma PkgsAppend(x: seq<Buf>, y: seq<Buf>)
    ensures Pkgs(x + y) == Pkgs(x) + Pkgs(y)
  {
    hide Pkgs;
    var l, r := Pkgs(x + y), Pkgs(x) + Pkgs(y);
    assert |l| == |r|;
    assert forall i :: 0 <= i < |l| ==> l[i] == (x + y)[i].pkg && r[i] == (x + y)[i].pkg;
  }

  lemma {:induction false} PipeAppend(x: seq<Cmd>, c: Cmd)
    ensures PipePkgs(x + [c]) == PipePkgs(x) + if c.Send? then [c.pkg] else []
  {
    if x == [] {
      assert x + [c] == [c] && PipePkgs([c][1..]) == [];
    } else {
      PipeAppend(x[1..], c);
      assert (x + [c])[1..] == x[1..] + [c];
    }
  }

  lemma ConcatSnoc(ps: seq<Package>, p: Package)
    ensures Concat(ps + [p]) == Concat(ps) + p.data
  {
    assert (ps + [p])[..|ps|] == ps;
  }

  lemma {:induction false} UnsentAppend(x: seq<Buf>, y: seq<Buf>)
    ensures Unsent(x + y) == Unsent(x) + Unsent(y)
  {
    if x == [] {
      assert x + y == y;
    } else {
      UnsentAppend(x[1..], y);
      assert (x + y)[1..] == x[1..] + y;
    }
  }

  /** Low-priority buffers hold no high-priority package. */
  lemma {:induction false} LowHasNoHigh(bs: seq<Buf>, a: nat)
    requires forall i :: 0 <= i < |bs| ==> !bs[i].pkg.high
    ensures Of(Pkgs(bs), a, true) == []
  {
    if bs != [] {
      LowHasNoHigh(bs[1..], a);
      assert Pkgs(bs)[1..] == Pkgs(bs[1..]);
    }
  }

  lemma {:induction false} InitOk(ids: set<nat>)
    ensures Inv(Init(ids))
  {
  }

  // ----- steps of one sender: threads and lock -----

  /** t differs from s in thread a only, which may have taken or released the lock. */
  predicate OneThread(s: State, t: State, a: nat) {
    && a in s.senders && a in t.senders && t.senders == s.senders[a := t.senders[a]]
    && t.phase == s.phase
    && (t.lock == s.lock || ((s.lock == NoOne || s.lock == Thread(a)) && (t.lock == NoOne || t.lock == Thread(a))))
  }

  lemma OneThreadOk(s: State, t: State, a: nat)
    requires ThreadsOk(s) && OneThread(s, t, a) && ThreadOk(t, a)
    ensures ThreadsOk(t)
  {
    forall b | b in t.senders
      ensures ThreadOk(t, b)
    {
      if b != a {
        assert ThreadOk(s, b);
      }
    }
  }

  /** The counter does not care about steps that neither enter nor leave Pushing. */
  lemma OneThreadCounter(s: State, t: State, a: nat)
    requires CounterOk(s) && OneThread(s, t, a)
    requires s.senders[a].pc != Pushing && t.senders[a].pc != Pushing
    requires t.pushing == s.pushing && t.sending == s.sending && t.counted == s.counted
    requires PipePkgs(t.pipe) == PipePkgs(s.pipe)
    ensures CounterOk(t)
  {
    hide PipePkgs;
  }

  /** The other senders' knowledge is untouched when lists, pipe and dw_buffer are. */
  lemma OneThreadDirect(s: State, t: State, a: nat)
    requires DirectsOk(s) && OneThread(s, t, a) && DirectOk(t, a)
    requires t.high == s.high && t.dw == s.dw && PipePkgs(t.pipe) == PipePkgs(s.pipe)
    ensures DirectsOk(t)
  {
    hide PipePkgs; hide Of; hide Pkgs; hide Untouched;
    forall b | b in t.senders
      ensures DirectOk(t, b)
    {
      if b != a {
        assert DirectOk(s, b);
      }
    }
  }

  lemma SameLists(s: State, t: State)
    requires ListsOk(s) && t.high == s.high && t.low == s.low && t.wbSize == s.wbSize && t.dw == s.dw
    requires t.phase == s.phase
    ensures ListsOk(t)
  {
  }

  /** A step that moves no package keeps the flow and the wire. */
  lemma SameFlow(s: State, t: State)
    requires FlowOk(s) && WireOk(s)
    requires t.begun == s.begun && t.wire == s.wire && t.sent == s.sent && Line(t) == Line(s)
    requires PipePkgs(t.pipe) == PipePkgs(s.pipe)
    requires forall a: nat :: InHand(t, a) == InHand(s, a)
    ensures FlowOk(t) && WireOk(t)
  {
    hide Of; hide InHand; hide Line; hide Concat; hide PipePkgs; hide Pkgs;
    forall a: nat, h: bool
      ensures Of(t.begun, a, h) == Of(Flow(t), a, h) + Of(InHand(t, a), a, h)
    {
      assert Of(s.begun, a, h) == Of(Flow(s), a, h) + Of(InHand(s, a), a, h);
    }
  }

  /** A sender moves on while it keeps its package and changes nothing shared but the lock. */
  lemma MovesOn(s: State, t: State, a: nat)
    requires Inv(s) && OneThread(s, t, a) && ThreadOk(t, a) && DirectOk(t, a)
    requires t == s.(senders := t.senders, lock := t.lock)
    requires t.senders[a].pkg == s.senders[a].pkg && Holds(s.senders[a].pc) && Holds(t.senders[a].pc)
    requires s.senders[a].pc != Pushing && t.senders[a].pc != Pushing
    ensures Inv(t)
  {
    hide ThreadsOk, CounterOk, DirectsOk, ListsOk, FlowOk, WireOk, ThreadOk, DirectOk;
    OneThreadOk(s, t, a);
    OneThreadCounter(s, t, a);
    OneThreadDirect(s, t, a);
    SameLists(s, t);
    HandUnchanged(s, t, a);
    SameFlow(s, t);
  }

  lemma HandUnchanged(s: State, t: State, a: nat)
    requires ThreadsOk(s) && ThreadsOk(t) && OneThread(s, t, a)
    requires !s.senders[a].pc.Storing? && !t.senders[a].pc.Storing?
    ensures Hand(t) == Hand(s)
  {
    if t.lock == Thread(a) {
      assert ThreadOk(t, a);
    }
    if s.lock == Thread(a) {
      assert ThreadOk(s, a);
    }
  }

  lemma CheckOk(s: State, a: nat)
    requires Inv(s) && Enabled(s, Check(a))
    ensures Inv(DoCheck(s, a))
  {
    hide Inv;
    CheckFacts(s, a);
    MovesOn(s, DoCheck(s, a), a);
  }

  lemma CheckFacts(s: State, a: nat)
    requires Inv(s) && Enabled(s, Check(a))
    ensures var t := DoCheck(s, a); OneThread(s, t, a) && ThreadOk(t, a) && DirectOk(t, a)
  {
    hide CounterOk; hide ListsOk; hide FlowOk; hide WireOk; hide ThreadsOk; hide DirectsOk;
    NotLocked(s, a);
    DirectNow(s, a);
    if s.sending == 0 {
      ZeroSending(s, a);
    }
    if s.senders[a].pc.Check1? {
      Check1Facts(s, a);
    } else {
      Check2Facts(s, a);
    }
  }

  lemma Check1Facts(s: State, a: nat)
    requires a in s.senders && s.senders[a].pc.Check1? && ThreadOk(s, a)
    requires s.sending == 0 ==> Of(PipePkgs(s.pipe), a, true) == []
    ensures var t := DoCheck(s, a); OneThread(s, t, a) && ThreadOk(t, a) && DirectOk(t, a)
  {
    hide Of; hide PipePkgs; hide Pkgs; hide Untouched; hide ReadsNothing;
    if s.senders[a].pc.k == 3 && ReadsNothing(s, 3) {
      LastRead(s);
    }
  }

  lemma LastRead(s: State)
    requires ReadsNothing(s, 3)
    ensures s.sending == 0
  {
  }

  lemma Check2Facts(s: State, a: nat)
    requires a in s.senders && s.senders[a].pc.Check2? && ThreadOk(s, a) && DirectOk(s, a)
    ensures var t := DoCheck(s, a); OneThread(s, t, a) && ThreadOk(t, a) && DirectOk(t, a)
  {
    hide Of; hide PipePkgs; hide Pkgs;
    EmptyList(a);
  }

  lemma DirectNow(s: State, a: nat)
    requires DirectsOk(s) && a in s.senders
    ensures DirectOk(s, a)
  {
    hide DirectOk;
  }

  lemma NotLocked(s: State, a: nat)
    requires ThreadsOk(s) && a in s.senders
    ensures ThreadOk(s, a)
  {
    hide ThreadOk;
  }

  /** With a zero counter nothing is in the pipe. */
  lemma ZeroSending(s: State, a: nat)
    requires CounterOk(s) && s.sending == 0
    ensures Of(PipePkgs(s.pipe), a, true) == []
  {
    assert PipePkgs(s.pipe) == [];
  }

  lemma EmptyList(a: nat)
    ensures Of(Pkgs([]), a, true) == []
  {
  }

  lemma TryLockOk(s: State, a: nat)
    requires Inv(s) && Enabled(s, TryLock(a))
    ensures Inv(Next(s, TryLock(a)))
  {
    hide Inv;
    TryLockFacts(s, a);
    MovesOn(s, Next(s, TryLock(a)), a);
  }

  lemma TryLockFacts(s: State, a: nat)
    requires Inv(s) && Enabled(s, TryLock(a))
    ensures var t := Next(s, TryLock(a)); OneThread(s, t, a) && ThreadOk(t, a) && DirectOk(t, a)
  {
    hide CounterOk; hide ListsOk; hide FlowOk; hide WireOk;
    assert ThreadOk(s, a) && DirectOk(s, a);
  }

  /** The flow of one sender and priority. */
  predicate FlowAt(s: State, a: nat, h: bool) {
    Of(s.begun, a, h) == Of(Flow(s), a, h) + Of(InHand(s, a), a, h)
  }

  lemma FlowFrom(s: State)
    requires forall a: nat, h: bool :: FlowAt(s, a, h)
    ensures FlowOk(s)
  {
    hide Of; hide Flow; hide InHand;
    forall a: nat, h: bool
      ensures Of(s.begun, a, h) == Of(Flow(s), a, h) + Of(InHand(s, a), a, h)
    {
      assert FlowAt(s, a, h);
    }
  }

  lemma FlowTo(s: State, a: nat, h: bool)
    requires FlowOk(s)
    ensures FlowAt(s, a, h)
  {
    hide Of; hide Flow; hide InHand;
  }

  lemma BeginOk(s: State, a: nat, high: bool, data: seq<Byte>)
    requires Inv(s) && Enabled(s, Begin(a, high, data))
    ensures Inv(DoBegin(s, a, high, data))
  {
    hide ThreadsOk; hide CounterOk; hide DirectsOk; hide ListsOk; hide FlowOk; hide WireOk;
    var t := DoBegin(s, a, high, data);
    assert OneThread(s, t, a);
    assert ThreadOk(t, a) by { NotLocked(s, a); }
    OneThreadOk(s, t, a);
    OneThreadCounter(s, t, a);
    OneThreadDirect(s, t, a);
    SameLists(s, t);
    HandUnchanged(s, t, a);
    BeginFlow(s, t, a);
    SameWire(s, t);
  }

  lemma SameWire(s: State, t: State)
    requires WireOk(s) && t.wire == s.wire && t.sent == s.sent && Line(t) == Line(s)
    ensures WireOk(t)
  {
  }

  lemma BeginFlow(s: State, t: State, a: nat)
    requires FlowOk(s) && a in s.senders && !Holds(s.senders[a].pc) && a in t.senders && Holds(t.senders[a].pc)
    requires t.senders == s.senders[a := t.senders[a]] && t.senders[a].pkg.sender == a
    requires t.begun == s.begun + [t.senders[a].pkg] && Flow(t) == Flow(s)
    ensures FlowOk(t)
  {
    hide FlowOk; hide Flow;
    var pkg := t.senders[a].pkg;
    forall b: nat, h: bool
      ensures FlowAt(t, b, h)
    {
      FlowTo(s, b, h);
      OfAppend(s.begun, [pkg], b, h);
      OfOne(pkg, b, h);
    }
    FlowFrom(t);
  }

  lemma IncOk(s: State, a: nat)
    requires Inv(s) && Enabled(s, IncSending(a))
    ensures Inv(Next(s, IncSending(a)))
  {
    hide ThreadsOk; hide CounterOk; hide DirectsOk; hide ListsOk; hide FlowOk; hide WireOk;
    var t := Next(s, IncSending(a));
    assert OneThread(s, t, a);
    NotLocked(s, a);
    assert ThreadOk(t, a);
    OneThreadOk(s, t, a);
    assert DirectOk(t, a);
    OneThreadDirect(s, t, a);
    assert CounterOk(t) by { IncCounter(s, t, a); }
    SameLists(s, t);
    HandUnchanged(s, t, a);
    SameFlow(s, t);
  }

  lemma IncCounter(s: State, t: State, a: nat)
    requires CounterOk(s) && Enabled(s, IncSending(a)) && t == Next(s, IncSending(a))
    ensures CounterOk(t)
  {
    hide PipePkgs;
    assert a !in s.pushing;
    assert |s.pushing + {a}| == |s.pushing| + 1;
  }

  lemma PushOk(s: State, a: nat)
    requires Inv(s) && Enabled(s, PushPipe(a))
    ensures Inv(Next(s, PushPipe(a)))
  {
    hide ThreadsOk; hide CounterOk; hide DirectsOk; hide ListsOk; hide FlowOk; hide WireOk;
    var t := Next(s, PushPipe(a));
    assert OneThread(s, t, a);
    NotLocked(s, a);
    assert ThreadOk(t, a);
    OneThreadOk(s, t, a);
    PipeAppend(s.pipe, Send(s.senders[a].pkg));
    PushDirects(s, t, a);
    assert CounterOk(t) by { PushCounter(s, t, a); }
    SameLists(s, t);
    HandUnchanged(s, t, a);
    PushFlow(s, t, a);
    SameWire(s, t);
  }

  lemma PushCounter(s: State, t: State, a: nat)
    requires CounterOk(s) && Enabled(s, PushPipe(a)) && t == Next(s, PushPipe(a))
    ensures CounterOk(t)
  {
    hide PipePkgs;
    PipeAppend(s.pipe, Send(s.senders[a].pkg));
    assert a in s.pushing;
    assert s.pushing == (s.pushing - {a}) + {a};
  }

  /** A package pushed by a says nothing about the packages of other senders. */
  lemma PushDirects(s: State, t: State, a: nat)
    requires DirectsOk(s) && OneThread(s, t, a) && t.senders[a].pc == Ready && s.senders[a].pkg.sender == a
    requires t.high == s.high && t.dw == s.dw && PipePkgs(t.pipe) == PipePkgs(s.pipe) + [s.senders[a].pkg]
    ensures DirectsOk(t)
  {
    hide PipePkgs; hide Pkgs; hide Untouched; hide Of;
    forall b | b in t.senders
      ensures DirectOk(t, b)
    {
      if b != a {
        assert DirectOk(s, b);
        OfAppend(PipePkgs(s.pipe), [s.senders[a].pkg], b, true);
        OfOne(s.senders[a].pkg, b, true);
      }
    }
  }

  /** The package leaves the sender's hand and becomes the last of the flow. */
  lemma PushFlow(s: State, t: State, a: nat)
    requires FlowOk(s) && a in s.senders && Holds(s.senders[a].pc) && a in t.senders && !Holds(t.senders[a].pc)
    requires t.senders == s.senders[a := t.senders[a]] && s.senders[a].pkg.sender == a
    requires t.begun == s.begun && t.sent == s.sent && Line(t) == Line(s)
    requires PipePkgs(t.pipe) == PipePkgs(s.pipe) + [s.senders[a].pkg]
    ensures FlowOk(t)
  {
    hide FlowOk; hide Line; hide PipePkgs; hide Pkgs; hide Of;
    var pkg := s.senders[a].pkg;
    assert Flow(t) == Flow(s) + [pkg];
    forall b: nat, h: bool
      ensures FlowAt(t, b, h)
    {
      FlowTo(s, b, h);
      OfAppend(Flow(s), [pkg], b, h);
      OfOne(pkg, b, h);
      OfNone(b, h);
    }
    FlowFrom(t);
  }

  lemma OfNone(a: nat, h: bool)
    ensures Of([], a, h) == []
  {
  }

  lemma WakeOk(s: State, a: nat)
    requires Inv(s) && Enabled(s, SendWake(a))
    ensures Inv(Next(s, SendWake(a)))
  {
    hide ThreadsOk; hide CounterOk; hide DirectsOk; hide ListsOk; hide FlowOk; hide WireOk; hide PipePkgs;
    var t := Next(s, SendWake(a));
    PipeAppend(s.pipe, Wake);
    assert PipePkgs(t.pipe) == PipePkgs(s.pipe);
    assert OneThread(s, t, a);
    NotLocked(s, a);
    assert ThreadOk(t, a);
    OneThreadOk(s, t, a);
    OneThreadCounter(s, t, a);
    OneThreadDirect(s, t, a);
    SameLists(s, t);
    HandUnchanged(s, t, a);
    SameFlow(s, t);
  }

  lemma StoreOk(s: State, a: nat)
    requires Inv(s) && Enabled(s, StoreDw(a))
    ensures Inv(Next(s, StoreDw(a)))
  {
    hide ThreadsOk; hide CounterOk; hide DirectsOk; hide ListsOk; hide FlowOk; hide WireOk;
    var t := Next(s, StoreDw(a));
    NotLocked(s, a);
    assert OneThread(s, t, a);
    assert ThreadOk(t, a);
    OneThreadOk(s, t, a);
    OneThreadCounter(s, t, a);
    StoreLists(s, t, a);
    assert Line(t) == Line(s);
    SameFlow(s, t);
  }

  /** Nobody else is past the check of dw_buffer, because that takes the lock. */
  lemma StoreLists(s: State, t: State, a: nat)
    requires ThreadsOk(s) && DirectsOk(s) && ListsOk(s) && Enabled(s, StoreDw(a)) && t == Next(s, StoreDw(a))
    ensures DirectsOk(t) && ListsOk(t) && s.dw == None
  {
    hide PipePkgs; hide Of; hide Pkgs; hide Unsent;
    assert ThreadOk(s, a) && DirectOk(s, a);
    forall b | b in t.senders
      ensures DirectOk(t, b)
    {
      assert ThreadOk(s, b) && DirectOk(s, b);
    }
  }

  // ----- the direct write -----

  lemma DirectWriteOk(s: State, a: nat, n: nat)
    requires Inv(s) && Enabled(s, DirectWrite(a, n))
    ensures Inv(DoDirectWrite(s, a, n))
  {
    hide ThreadsOk; hide CounterOk; hide DirectsOk; hide ListsOk; hide FlowOk; hide WireOk;
    var t := DoDirectWrite(s, a, n);
    NotLocked(s, a);
    DirectNow(s, a);
    assert OneThread(s, t, a);
    assert ThreadOk(t, a);
    OneThreadOk(s, t, a);
    OneThreadCounter(s, t, a);
    assert DirectOk(t, a);
    OneThreadDirect(s, t, a);
    SameLists(s, t);
    DirectFlow(s, t, a, n);
    DirectWire(s, t, a, n);
  }

  /** Line before and after a direct write. */
  lemma DirectLine(s: State, t: State, a: nat, n: nat)
    requires Enabled(s, DirectWrite(a, n)) && t == DoDirectWrite(s, a, n) && s.lock == Thread(a) && s.dw == None
    ensures Line(s) == s.high + s.low
    ensures Line(t) == if n < |s.senders[a].pkg.data| then [Buf(s.senders[a].pkg, n)] + (s.high + s.low)
            else s.high + s.low
  {
    assert Hand(s) == [] && Dw(s) == [] && Dw(t) == [];
    assert [] + (s.high + s.low) == s.high + s.low;
    assert [] + ([] + (s.high + s.low)) == s.high + s.low;
  }

  /** The flow after a direct write: the package stands before everything that waits. */
  lemma DirectShape(s: State, t: State, a: nat, n: nat)
    requires Enabled(s, DirectWrite(a, n)) && t == DoDirectWrite(s, a, n) && s.lock == Thread(a) && s.dw == None
    ensures var rest := Pkgs(s.high + s.low) + PipePkgs(s.pipe);
            Flow(s) == s.sent + rest && Flow(t) == s.sent + ([s.senders[a].pkg] + rest)
  {
    hide Line; hide Pkgs; hide PipePkgs; hide DoDirectWrite;
    DirectLine(s, t, a, n);
    DirectSent(s, t, a, n);
    ShapeOf(s.sent, s.senders[a].pkg, n, s.high + s.low, PipePkgs(s.pipe));
  }

  lemma DirectSent(s: State, t: State, a: nat, n: nat)
    requires Enabled(s, DirectWrite(a, n)) && t == DoDirectWrite(s, a, n)
    ensures t.sent == s.sent + (if n < |s.senders[a].pkg.data| then [] else [s.senders[a].pkg]) && t.pipe == s.pipe
  {
  }

  lemma ShapeOf(sent: seq<Package>, pkg: Package, n: nat, waiting: seq<Buf>, pipe: seq<Package>)
    ensures sent + (Pkgs([Buf(pkg, n)] + waiting) + pipe) == sent + ([pkg] + (Pkgs(waiting) + pipe))
    ensures (sent + [pkg]) + (Pkgs(waiting) + pipe) == sent + ([pkg] + (Pkgs(waiting) + pipe))
    ensures (sent + []) + (Pkgs([Buf(pkg, n)] + waiting) + pipe) == sent + ([pkg] + (Pkgs(waiting) + pipe))
  {
    hide Pkgs;
    PkgsAppend([Buf(pkg, n)], waiting);
    assert Pkgs([Buf(pkg, n)]) == [pkg];
    assert ([pkg] + Pkgs(waiting)) + pipe == [pkg] + (Pkgs(waiting) + pipe);
    assert sent + [] == sent;
  }

  /** The package overtakes nothing of its own sender, so the order is kept. */
  lemma DirectFlow(s: State, t: State, a: nat, n: nat)
    requires FlowOk(s) && ListsOk(s)
    requires Enabled(s, DirectWrite(a, n)) && t == DoDirectWrite(s, a, n) && ThreadOk(s, a) && DirectOk(s, a)
    ensures FlowOk(t)
  {
    hide FlowOk; hide Of; hide PipePkgs; hide Pkgs; hide Flow; hide ListsOk;
    var pkg := s.senders[a].pkg;
    var rest := Pkgs(s.high + s.low) + PipePkgs(s.pipe);
    DirectShape(s, t, a, n);
    RestHasNone(s, a);
    assert t.begun == s.begun && pkg.sender == a && pkg.high;
    assert InHand(s, a) == [pkg] && InHand(t, a) == [];
    forall b: nat, h: bool
      ensures FlowAt(t, b, h)
    {
      FlowTo(s, b, h);
      assert b != a ==> InHand(t, b) == InHand(s, b);
      InsertFlow(s.sent, pkg, rest, b, h);
      OfOne(pkg, b, h);
      OfNone(b, h);
    }
    FlowFrom(t);
  }

  lemma InsertFlow(x: seq<Package>, pkg: Package, y: seq<Package>, b: nat, h: bool)
    ensures Of(x + y, b, h) == Of(x, b, h) + Of(y, b, h)
    ensures Of(x + ([pkg] + y), b, h) == Of(x, b, h) + (Of([pkg], b, h) + Of(y, b, h))
  {
    hide Of;
    OfAppend(x, y, b, h);
    OfAppend([pkg], y, b, h);
    OfAppend(x, [pkg] + y, b, h);
  }

  lemma RestHasNone(s: State, a: nat)
    requires ListsOk(s) && Of(PipePkgs(s.pipe), a, true) == [] && Of(Pkgs(s.high), a, true) == []
    ensures Of(Pkgs(s.high + s.low) + PipePkgs(s.pipe), a, true) == []
  {
    hide Of; hide PipePkgs; hide Unsent; hide Pkgs;
    PkgsAppend(s.high, s.low);
    LowHasNoHigh(s.low, a);
    OfAppend(Pkgs(s.high), Pkgs(s.low), a, true);
    OfAppend(Pkgs(s.high + s.low), PipePkgs(s.pipe), a, true);
  }

  /** Nothing was partly written, so the package starts at a package boundary. */
  lemma DirectWire(s: State, t: State, a: nat, n: nat)
    requires WireOk(s) && ListsOk(s)
    requires Enabled(s, DirectWrite(a, n)) && t == DoDirectWrite(s, a, n) && ThreadOk(s, a) && DirectOk(s, a)
    ensures WireOk(t)
  {
    hide Of; hide PipePkgs; hide Unsent; hide Pkgs; hide Line; hide Concat; hide Partial; hide Untouched;
    var pkg := s.senders[a].pkg;
    DirectLine(s, t, a, n);
    assert Partial(s.high + s.low) == [] by { UntouchedBoth(s.high, s.low); }
    assert s.wire == Concat(s.sent);
    if n == |pkg.data| {
      ConcatSnoc(s.sent, pkg);
    } else {
      PartialHead(Buf(pkg, n), s.high + s.low);
    }
  }

  lemma PartialHead(b: Buf, rest: seq<Buf>)
    requires b.off <= |b.pkg.data|
    ensures Partial([b] + rest) == b.pkg.data[..b.off]
  {
  }

  lemma UntouchedBoth(x: seq<Buf>, y: seq<Buf>)
    requires Untouched(x) && Untouched(y)
    ensures Untouched(x + y) && Partial(x + y) == []
  {
  }

  // ----- steps of the socket thread -----

  lemma DecOk(s: State)
    requires Inv(s) && Enabled(s, DecSending)
    ensures Inv(Next(s, DecSending)) && s.sending > 0
  {
    hide FlowOk; hide WireOk; hide Of; hide PipePkgs;
    var t := Next(s, DecSending);
    forall a | a in t.senders
      ensures ThreadOk(t, a) && DirectOk(t, a)
    {
      assert ThreadOk(s, a) && DirectOk(s, a);
    }
    assert Line(t) == Line(s);
    SameFlow(s, t);
  }

  /** t differs from s in nothing that a sending thread owns. */
  predicate SameThreads(s: State, t: State) {
    t.senders == s.senders && t.pushing == s.pushing && t.begun == s.begun
  }

  lemma SameThreadsOk(s: State, t: State)
    requires ThreadsOk(s) && SameThreads(s, t)
    requires (t.lock == s.lock && t.phase == s.phase) ||
             (!s.lock.Thread? && !t.lock.Thread? && (t.lock == SocketThread <==> t.phase != Idle))
    ensures ThreadsOk(t)
  {
    forall a | a in t.senders
      ensures ThreadOk(t, a)
    {
      assert ThreadOk(s, a);
    }
  }

  /** While the lock is not held by a sender, senders know about the pipe only. */
  lemma NoSenderInside(s: State, t: State)
    requires ThreadsOk(s) && ThreadsOk(t) && DirectsOk(s) && SameThreads(s, t) && !t.lock.Thread? && t.pipe == s.pipe
    ensures DirectsOk(t)
  {
    hide Of; hide PipePkgs; hide Pkgs;
    forall a | a in t.senders
      ensures DirectOk(t, a)
    {
      assert ThreadOk(t, a) && DirectOk(s, a);
    }
  }

  lemma SameCounter(s: State, t: State)
    requires CounterOk(s) && SameThreads(s, t) && t.sending == s.sending
    requires |PipePkgs(t.pipe)| + (if t.counted then 1 else 0) == |PipePkgs(s.pipe)| + (if s.counted then 1 else 0)
    ensures CounterOk(t)
  {
    hide PipePkgs;
  }

  lemma SameInHand(s: State, t: State)
    requires SameThreads(s, t)
    ensures forall a: nat :: InHand(t, a) == InHand(s, a)
  {
  }

  /** Equal flows are equally good. */
  lemma EqualFlow(s: State, t: State)
    requires FlowOk(s) && SameThreads(s, t) && Flow(t) == Flow(s)
    ensures FlowOk(t)
  {
    hide FlowOk; hide Flow; hide Of;
    SameInHand(s, t);
    forall b: nat, h: bool
      ensures FlowAt(t, b, h)
    {
      FlowTo(s, b, h);
    }
    FlowFrom(t);
  }

  lemma CommandOk(s: State)
    requires Inv(s) && Enabled(s, Command)
    ensures Inv(DoCommand(s))
  {
    hide ThreadsOk; hide CounterOk; hide DirectsOk; hide ListsOk; hide FlowOk; hide WireOk; hide PipePkgs;
    var t := DoCommand(s);
    PipeHead(s.pipe);
    SameThreadsOk(s, t);
    SameCounter(s, t);
    if s.pipe[0].Wake? {
      WakeDirects(s, t);
      SameLists(s, t);
      SameInHand(s, t);
      assert Line(t) == Line(s);
      SameFlow(s, t);
    } else {
      CommandDirects(s, t, s.pipe[0].pkg);
      CommandLists(s, t, s.pipe[0].pkg);
      CommandFlow(s, t, s.pipe[0].pkg);
      CommandWire(s, t, s.pipe[0].pkg);
    }
  }

  lemma PipeHead(cs: seq<Cmd>)
    requires cs != []
    ensures PipePkgs(cs) == (if cs[0].Send? then [cs[0].pkg] else []) + PipePkgs(cs[1..])
  {
  }

  lemma WakeDirects(s: State, t: State)
    requires DirectsOk(s) && SameThreads(s, t) && t.high == s.high && t.dw == s.dw
    requires PipePkgs(t.pipe) == PipePkgs(s.pipe)
    ensures DirectsOk(t)
  {
    hide Of; hide PipePkgs; hide Pkgs; hide Untouched;
    forall a | a in t.senders
      ensures DirectOk(t, a)
    {
      assert DirectOk(s, a);
    }
  }

  /** send_socket appends the buffer of a package to the high or to the low list. */
  predicate Appends(s: State, t: State, pkg: Package) {
    var b := Buf(pkg, 0);
    && SameThreads(s, t) && t.sent == s.sent && t.wire == s.wire && t.dw == s.dw && t.lock == s.lock
       && t.phase == s.phase
    && PipePkgs(s.pipe) == [pkg] + PipePkgs(t.pipe)
    && t.wbSize == s.wbSize + |pkg.data|
    && if (s.high == [] && s.low == []) || pkg.high then t.high == s.high + [b] && t.low == s.low
       else t.high == s.high && t.low == s.low + [b]
  }

  lemma CommandDirects(s: State, t: State, pkg: Package)
    requires DirectsOk(s) && Appends(s, t, pkg)
    ensures DirectsOk(t)
  {
    hide PipePkgs; hide Pkgs; hide Of;
    var b := Buf(pkg, 0);
    PkgsAppend(s.high, [b]);
    assert Pkgs([b]) == [pkg];
    forall a | a in t.senders
      ensures DirectOk(t, a)
    {
      assert DirectOk(s, a);
      OfAppend([pkg], PipePkgs(t.pipe), a, true);
      OfAppend(Pkgs(s.high), [pkg], a, true);
    }
  }

  lemma CommandLists(s: State, t: State, pkg: Package)
    requires ListsOk(s) && Appends(s, t, pkg) && s.phase == Idle
    ensures ListsOk(t)
  {
    hide PipePkgs; hide Pkgs; hide Of;
    var b := Buf(pkg, 0);
    UnsentAppend(s.high, [b]);
    UnsentAppend(s.low, [b]);
    assert Unsent([b]) == |pkg.data| by { assert Unsent([b][1..]) == 0; }
    assert s.high != [] ==> (s.high + [b])[1..] == s.high[1..] + [b];
  }

  /** What stands before the lists does not change. */
  lemma CommandLine(s: State, t: State, pkg: Package) returns (x: seq<Buf>)
    requires Appends(s, t, pkg)
    ensures Line(s) == x + (s.high + s.low) && Line(t) == x + (t.high + t.low)
  {
    hide PipePkgs;
    x := Hand(s) + Dw(s);
    assert Hand(t) == Hand(s) && Dw(t) == Dw(s);
  }

  lemma CommandFlow(s: State, t: State, pkg: Package)
    requires FlowOk(s) && ListsOk(s) && Appends(s, t, pkg)
    ensures FlowOk(t)
  {
    hide FlowOk; hide ListsOk; hide Of; hide PipePkgs; hide Pkgs; hide Line;
    var b := Buf(pkg, 0);
    var x := CommandLine(s, t, pkg);
    assert Pkgs([b]) == [pkg];
    if pkg.high && !(s.high == [] && s.low == []) {
      PkgsAppend(x, s.high + s.low);
      PkgsAppend(s.high, s.low);
      PkgsAppend(x, (s.high + [b]) + s.low);
      PkgsAppend(s.high + [b], s.low);
      PkgsAppend(s.high, [b]);
      forall a: nat, h: bool
        ensures FlowAt(t, a, h)
      {
        FlowTo(s, a, h);
        if h {
          LowIsLow(s);
          LowHasNoHigh(s.low, a);
        }
        MoveFlow(s.sent, Pkgs(x), Pkgs(s.high), Pkgs(s.low), pkg, PipePkgs(t.pipe), a, h);
        SameInHand(s, t);
      }
      FlowFrom(t);
    } else {
      assert Line(t) == Line(s) + [b];
      PkgsAppend(Line(s), [b]);
      assert Flow(t) == Flow(s);
      EqualFlow(s, t);
    }
  }

  lemma LowIsLow(s: State)
    requires ListsOk(s)
    ensures forall i :: 0 <= i < |s.low| ==> !s.low[i].pkg.high
  {
  }

  /** A high-priority package passes only low-priority ones. */
  lemma MoveFlow(sent: seq<Package>, x: seq<Package>, hi: seq<Package>, lo: seq<Package>, pkg: Package,
      rest: seq<Package>, a: nat, h: bool)
    requires pkg.high && (h ==> Of(lo, a, true) == [])
    ensures Of(sent + ((x + (hi + lo)) + ([pkg] + rest)), a, h) == Of(sent + ((x + ((hi + [pkg]) + lo)) + rest), a, h)
  {
    hide Of;
    var front := sent + (x + hi);
    assert sent + ((x + (hi + lo)) + ([pkg] + rest)) == front + (lo + ([pkg] + rest));
    assert sent + ((x + ((hi + [pkg]) + lo)) + rest) == front + ([pkg] + (lo + rest));
    OfAppend(front, lo + ([pkg] + rest), a, h);
    OfAppend(front, [pkg] + (lo + rest), a, h);
    OfAppend(lo, [pkg] + rest, a, h);
    OfAppend([pkg], rest, a, h);
    OfAppend([pkg], lo + rest, a, h);
    OfAppend(lo, rest, a, h);
    OfOne(pkg, a, h);
  }

  lemma CommandWire(s: State, t: State, pkg: Package)
    requires WireOk(s) && ListsOk(s) && Appends(s, t, pkg)
    ensures WireOk(t)
  {
    hide Of; hide PipePkgs; hide Pkgs; hide Line; hide Unsent; hide Concat;
    var x := CommandLine(s, t, pkg);
    assert Partial(Line(t)) == Partial(Line(s));
  }

  // ----- send_buffer -----

  lemma WritableOk(s: State)
    requires Inv(s) && Enabled(s, Writable)
    ensures Inv(DoWritable(s))
  {
    hide ThreadsOk; hide CounterOk; hide DirectsOk; hide ListsOk; hide FlowOk; hide WireOk; hide PipePkgs;
    var t := DoWritable(s);
    SameThreadsOk(s, t);
    NoSenderInside(s, t);
    SameCounter(s, t);
    WritableLists(s, t);
    SameInHand(s, t);
    WritableLine(s, t);
    SameFlow(s, t);
  }

  lemma WritableLine(s: State, t: State)
    requires s.lock == NoOne && t == DoWritable(s)
    ensures Line(t) == Line(s)
  {
    assert Hand(s) == [] && Hand(t) == [];
  }

  lemma WritableLists(s: State, t: State)
    requires ListsOk(s) && Enabled(s, Writable) && t == DoWritable(s)
    ensures ListsOk(t)
  {
    hide Of; hide PipePkgs; hide Pkgs;
    if s.dw.Some? {
      assert t.high[1..] == s.high;
    }
  }

  /** While the socket thread holds the lock, the line is just the two lists. */
  lemma SocketLine(s: State)
    requires s.lock == SocketThread && s.dw == None
    ensures Line(s) == s.high + s.low
  {
  }

  lemma WriteOk(s: State, again: bool, n: nat)
    requires Inv(s) && Enabled(s, Write(again, n))
    ensures Inv(Next(s, Write(again, n)))
  {
    hide ThreadsOk; hide CounterOk; hide DirectsOk; hide ListsOk; hide FlowOk; hide WireOk; hide PipePkgs;
    hide DoWriteHigh; hide DoWriteLow;
    var t := Next(s, Write(again, n));
    SocketHolds(s);
    WriteKeeps(s, t, again, n);
    SameThreadsOk(s, t);
    NoSenderInside(s, t);
    SameCounter(s, t);
    WriteLists(s, t, again, n);
    WriteFlow(s, t, again, n);
    WriteWire(s, t, again, n);
  }

  lemma SocketHolds(s: State)
    requires ThreadsOk(s) && ListsOk(s) && s.phase != Idle
    ensures s.lock == SocketThread && s.dw == None
  {
  }

  lemma WriteLists(s: State, t: State, again: bool, n: nat)
    requires ListsOk(s) && Enabled(s, Write(again, n)) && t == Next(s, Write(again, n))
    ensures ListsOk(t)
  {
    hide ListsOk; hide Written;
    if s.phase == SendingHigh {
      WriteHighLists(s, t, again, n);
    } else {
      WriteLowLists(s, t, again, n);
    }
  }

  lemma WriteHighLists(s: State, t: State, again: bool, n: nat)
    requires ListsOk(s) && s.phase == SendingHigh && (s.high == [] || n <= Rest(s.high[0]))
    requires t == DoWriteHigh(s, again, n)
    ensures ListsOk(t)
  {
    hide Written;
    if s.high != [] && !again {
      var b := s.high[0];
      UnsentHead(s.high);
      if n < Rest(b) {
        var h := Buf(b.pkg, b.off + n);
        assert ([h] + s.high[1..])[1..] == s.high[1..];
        UnsentHead([h] + s.high[1..]);
      } else {
        assert s.high[1..] != [] ==> s.high[1..][0].off == 0;
      }
      hide Unsent;
    }
  }

  lemma UnsentHead(bs: seq<Buf>)
    requires bs != []
    ensures Unsent(bs) == Rest(bs[0]) + Unsent(bs[1..])
  {
  }

  lemma WriteLowLists(s: State, t: State, again: bool, n: nat)
    requires ListsOk(s) && s.phase == SendingLow && (s.low == [] || n <= Rest(s.low[0])) && t == DoWriteLow(s, again, n)
    ensures ListsOk(t)
  {
    hide Written;
    if s.low != [] {
      var h := Buf(s.low[0].pkg, s.low[0].off + n);
      assert ([h] + s.high)[1..] == [];
    }
  }

  /** What one write does to the line, the sent packages and the wire. */
  predicate Effect(s: State, t: State, l: seq<Buf>, m: seq<Buf>, n: nat) {
    || (m == l && t.sent == s.sent && t.wire == s.wire)
    || (&& l != [] && l[0].off + n <= |l[0].pkg.data|
        && m == [Buf(l[0].pkg, l[0].off + n)] + l[1..] && t.sent == s.sent
        && t.wire == s.wire + l[0].pkg.data[l[0].off..l[0].off + n])
    || (&& l != [] && l[0].off <= |l[0].pkg.data|
        && m == l[1..] && Untouched(l[1..]) && t.sent == s.sent + [l[0].pkg]
        && t.wire == s.wire + l[0].pkg.data[l[0].off..])
  }

  lemma BothUntouched(s: State)
    requires ListsOk(s) && s.high != []
    ensures Untouched(s.high[1..] + s.low)
  {
  }

  lemma WriteHighEffect(s: State, t: State, again: bool, n: nat)
    requires ListsOk(s) && Enabled(s, Write(again, n)) && s.phase == SendingHigh && t == DoWriteHigh(s, again, n)
    ensures Effect(s, t, s.high + s.low, t.high + t.low, n)
  {
    hide ListsOk; hide Effect; hide Untouched;
    var l := s.high + s.low;
    if s.high == [] || again {
      HighNothing(s, t, again, n);
      EffectNone(s, t, l, n);
    } else if n < Rest(s.high[0]) {
      HighPart(s, t, n);
      EffectPart(s, t, l, n);
    } else {
      BothUntouched(s);
      HighDone(s, t, n);
      EffectDone(s, t, l, n);
    }
  }

  lemma HighNothing(s: State, t: State, again: bool, n: nat)
    requires (s.high == [] || n <= Rest(s.high[0])) && t == DoWriteHigh(s, again, n) && (s.high == [] || again)
    ensures t.high + t.low == s.high + s.low && t.sent == s.sent && t.wire == s.wire
  {
  }

  lemma HighPart(s: State, t: State, n: nat)
    requires s.high != [] && n < Rest(s.high[0]) && t == DoWriteHigh(s, false, n)
    ensures var l := s.high + s.low; var b := l[0];
            && t.high + t.low == [Buf(b.pkg, b.off + n)] + l[1..] && b.off + n <= |b.pkg.data|
            && t.sent == s.sent && t.wire == s.wire + b.pkg.data[b.off..b.off + n]
  {
    var l := s.high + s.low;
    assert l[1..] == s.high[1..] + s.low && l[0] == s.high[0];
    Regroup([Buf(l[0].pkg, l[0].off + n)], s.high[1..], s.low);
  }

  lemma HighDone(s: State, t: State, n: nat)
    requires ListsOk(s) && s.high != [] && n == Rest(s.high[0]) && t == DoWriteHigh(s, false, n)
    ensures var l := s.high + s.low; var b := l[0];
            && t.high + t.low == l[1..] && l[1..] == s.high[1..] + s.low && b.off + n == |b.pkg.data|
            && t.sent == s.sent + [b.pkg] && t.wire == s.wire + b.pkg.data[b.off..b.off + n]
  {
    hide Unsent; hide Untouched;
    var l := s.high + s.low;
    assert l[1..] == s.high[1..] + s.low && l[0] == s.high[0];
  }

  lemma WriteLowEffect(s: State, t: State, again: bool, n: nat)
    requires ListsOk(s) && Enabled(s, Write(again, n)) && s.phase == SendingLow && t == DoWriteLow(s, again, n)
    ensures Effect(s, t, s.high + s.low, t.high + t.low, n)
  {
    hide ListsOk; hide Effect; hide Untouched;
    LowFacts(s);
    if s.low == [] || again || (n == 0 && n < Rest(s.low[0])) {
      LowNothing(s, t, again, n);
      EffectNone(s, t, s.low, n);
    } else if n == Rest(s.low[0]) {
      LowDone(s, t, n);
      EffectDone(s, t, s.low, n);
    } else {
      LowPart(s, t, n);
      EffectPart(s, t, s.low, n);
    }
  }

  lemma LowFacts(s: State)
    requires ListsOk(s) && s.phase == SendingLow
    ensures s.high == [] && s.high + s.low == s.low
    ensures s.low != [] ==> s.low[0].off == 0 && Untouched(s.low[1..])
  {
  }

  lemma LowNothing(s: State, t: State, again: bool, n: nat)
    requires s.high == [] && (s.low == [] || n <= Rest(s.low[0])) && t == DoWriteLow(s, again, n)
    requires s.low == [] || again || (n == 0 && n < Rest(s.low[0]) && s.low[0].off == 0)
    ensures t.high + t.low == s.low && t.sent == s.sent && t.wire == s.wire
  {
    assert [] + s.low == s.low;
  }

  lemma LowDone(s: State, t: State, n: nat)
    requires s.high == [] && s.low != [] && s.low[0].off == 0 && n == Rest(s.low[0]) && t == DoWriteLow(s, false, n)
    ensures t.high + t.low == s.low[1..] && n == |s.low[0].pkg.data|
    ensures t.sent == s.sent + [s.low[0].pkg] && t.wire == s.wire + s.low[0].pkg.data[0..n]
  {
    assert [] + s.low[1..] == s.low[1..];
  }

  lemma LowPart(s: State, t: State, n: nat)
    requires s.high == [] && s.low != [] && s.low[0].off == 0 && 0 < n < Rest(s.low[0]) && t == DoWriteLow(s, false, n)
    ensures t.high + t.low == [Buf(s.low[0].pkg, s.low[0].off + n)] + s.low[1..] && n <= |s.low[0].pkg.data|
    ensures t.sent == s.sent && t.wire == s.wire + s.low[0].pkg.data[0..n]
  {
  }

  lemma EffectNone(s: State, t: State, l: seq<Buf>, n: nat)
    requires t.sent == s.sent && t.wire == s.wire
    ensures Effect(s, t, l, l, n)
  {
  }

  lemma EffectPart(s: State, t: State, l: seq<Buf>, n: nat)
    requires l != [] && l[0].off + n <= |l[0].pkg.data| && t.sent == s.sent
    requires t.wire == s.wire + l[0].pkg.data[l[0].off..l[0].off + n]
    ensures Effect(s, t, l, [Buf(l[0].pkg, l[0].off + n)] + l[1..], n)
  {
  }

  lemma EffectDone(s: State, t: State, l: seq<Buf>, n: nat)
    requires l != [] && l[0].off + n == |l[0].pkg.data| && Untouched(l[1..])
    requires t.sent == s.sent + [l[0].pkg] && t.wire == s.wire + l[0].pkg.data[l[0].off..l[0].off + n]
    ensures Effect(s, t, l, l[1..], n)
  {
  }

  lemma WriteEffect(s: State, t: State, again: bool, n: nat)
    requires ListsOk(s) && Enabled(s, Write(again, n)) && t == Next(s, Write(again, n))
    requires s.lock == SocketThread && s.dw == None
    ensures Line(s) == s.high + s.low && Line(t) == t.high + t.low
    ensures Effect(s, t, s.high + s.low, t.high + t.low, n)
  {
    hide ListsOk; hide Effect; hide Written;
    SocketLine(s);
    WriteKeeps(s, t, again, n);
    SocketOrNone(t);
    if s.phase == SendingHigh {
      WriteHighEffect(s, t, again, n);
    } else {
      WriteLowEffect(s, t, again, n);
    }
  }

  /** What a write by the socket thread leaves alone. */
  predicate Kept(s: State, t: State) {
    && (t.lock == NoOne || t.lock == SocketThread) && (t.lock == SocketThread <==> t.phase != Idle) && t.dw == s.dw
    && SameThreads(s, t) && t.pipe == s.pipe && t.sending == s.sending && t.counted == s.counted
  }

  lemma WriteKeeps(s: State, t: State, again: bool, n: nat)
    requires Enabled(s, Write(again, n)) && t == Next(s, Write(again, n)) && s.lock == SocketThread && s.dw == None
    ensures Kept(s, t)
  {
    hide DoWriteHigh; hide DoWriteLow; hide Kept;
    if s.phase == SendingHigh {
      HighKeeps(s, again, n);
    } else {
      LowKeeps(s, again, n);
    }
  }

  lemma HighKeeps(s: State, again: bool, n: nat)
    requires s.phase == SendingHigh && s.lock == SocketThread && (s.high == [] || n <= Rest(s.high[0]))
    ensures Kept(s, DoWriteHigh(s, again, n))
  {
    hide Written;
  }

  lemma LowKeeps(s: State, again: bool, n: nat)
    requires s.phase == SendingLow && s.lock == SocketThread && (s.low == [] || n <= Rest(s.low[0]))
    ensures Kept(s, DoWriteLow(s, again, n))
  {
    hide Written;
  }

  lemma SocketOrNone(s: State)
    requires !s.lock.Thread? && s.dw == None
    ensures Line(s) == s.high + s.low
  {
  }

  /** Completing the first package of the line moves it to the sent ones; the flow is the same. */
  lemma WriteFlow(s: State, t: State, again: bool, n: nat)
    requires FlowOk(s) && ListsOk(s) && Enabled(s, Write(again, n)) && t == Next(s, Write(again, n))
    requires s.lock == SocketThread && s.dw == None
    ensures FlowOk(t)
  {
    hide FlowOk; hide Of; hide PipePkgs; hide Written; hide ListsOk; hide Line; hide Effect; hide Enabled; hide Next;
    WriteEffect(s, t, again, n);
    WriteKeeps(s, t, again, n);
    EffectFlow(s, t, Line(s), Line(t), n);
    assert Flow(s) == (s.sent + Pkgs(Line(s))) + PipePkgs(s.pipe);
    assert Flow(t) == (t.sent + Pkgs(Line(t))) + PipePkgs(t.pipe);
    EqualFlow(s, t);
  }

  lemma EffectFlow(s: State, t: State, l: seq<Buf>, m: seq<Buf>, n: nat)
    requires Effect(s, t, l, m, n)
    ensures s.sent + Pkgs(l) == t.sent + Pkgs(m)
  {
    hide Pkgs; hide Untouched;
    if l != [] {
      var b := Buf(l[0].pkg, l[0].off + n);
      assert l == [l[0]] + l[1..];
      PkgsAppend([l[0]], l[1..]);
      PkgsAppend([b], l[1..]);
      assert Pkgs([l[0]]) == [l[0].pkg] && Pkgs([b]) == [l[0].pkg];
      assert (s.sent + [l[0].pkg]) + Pkgs(l[1..]) == s.sent + ([l[0].pkg] + Pkgs(l[1..]));
    }
  }

  /** The bytes written continue the first package of the line. */
  lemma WriteWire(s: State, t: State, again: bool, n: nat)
    requires WireOk(s) && ListsOk(s) && Enabled(s, Write(again, n)) && t == Next(s, Write(again, n))
    requires s.lock == SocketThread && s.dw == None
    ensures WireOk(t)
  {
    hide Written; hide ListsOk; hide Line; hide Effect; hide Enabled; hide Next; hide Concat; hide Partial;
    WriteEffect(s, t, again, n);
    EffectWire(s, t, Line(s), Line(t), n);
  }

  lemma EffectWire(s: State, t: State, l: seq<Buf>, m: seq<Buf>, n: nat)
    requires Effect(s, t, l, m, n) && s.wire == Concat(s.sent) + Partial(l)
    ensures t.wire == Concat(t.sent) + Partial(m)
  {
    hide Concat;
    if l != [] && l[0].off <= |l[0].pkg.data| {
      var p, o := l[0].pkg, l[0].off;
      ConcatSnoc(s.sent, p);
      assert p.data[..o] + p.data[o..] == p.data;
      Regroup(Concat(s.sent), p.data[..o], p.data[o..]);
      if o + n <= |p.data| {
        assert p.data[..o] + p.data[o..o + n] == p.data[..o + n];
        Regroup(Concat(s.sent), p.data[..o], p.data[o..o + n]);
      }
    }
  }

  // ----- every run -----

  lemma StepOk(s: State, c: Choice)
    requires Inv(s) && Enabled(s, c)
    ensures Inv(Next(s, c))
  {
    hide Inv;
    match c
    case Begin(a, high, data) => BeginOk(s, a, high, data);
    case Check(a) => CheckOk(s, a);
    case TryLock(a) => TryLockOk(s, a);
    case DirectWrite(a, n) => DirectWriteOk(s, a, n);
    case StoreDw(a) => StoreOk(s, a);
    case SendWake(a) => WakeOk(s, a);
    case IncSending(a) => IncOk(s, a);
    case PushPipe(a) => PushOk(s, a);
    case Command => CommandOk(s);
    case DecSending => DecOk(s);
    case Writable => WritableOk(s);
    case Write(again, n) => WriteOk(s, again, n);
  }

  lemma {:induction false} RunOk(s: State, run: seq<Choice>)
    requires Inv(s)
    ensures Inv(Run(s, run))
    decreases |run|
  {
    hide Inv; hide Enabled; hide Next;
    if run != [] {
      var before := Run(s, run[..|run| - 1]);
      RunOk(s, run[..|run| - 1]);
      if Enabled(before, run[|run| - 1]) {
        StepOk(before, run[|run| - 1]);
      }
    }
  }

  /** Prefix of one list of packages. */
  predicate Prefix(x: seq<Package>, y: seq<Package>) {
    |x| <= |y| && y[..|x|] == x
  }

  /** Package p is next after those sent, and its first k bytes, not all, are on the wire behind them. */
  ghost predicate CutAt(s: State, p: Package, k: nat) {
    && p in s.begun && Line(s) != [] && Line(s)[0] == Buf(p, k) && 0 < k < |p.data|
    && Prefix(Of(s.sent + [p], p.sender, p.high), Of(s.begun, p.sender, p.high))
    && s.wire == Concat(s.sent) + p.data[..k]
  }

  /**
   Over every interleaving: the wire carries whole packages, in the order 'sent', and at most a
   proper prefix of the one package that was handed in next; and for every sender and priority the
   packages sent are a prefix of those handed in, so none is lost, repeated or reordered.
   */
  lemma SendSafe(ids: set<nat>, run: seq<Choice>)
    ensures var s := Run(Init(ids), run);
            && (s.wire == Concat(s.sent) || exists p: Package, k: nat :: CutAt(s, p, k))
            && forall a: nat, h: bool :: Prefix(Of(s.sent, a, h), Of(s.begun, a, h))
  {
    hide Of; hide Concat; hide Run; hide Pkgs; hide PipePkgs; hide Inv; hide CutAt;
    var s := Run(Init(ids), run);
    InitOk(ids);
    RunOk(Init(ids), run);
    WireFacts(s);
    forall a: nat, h: bool
      ensures Prefix(Of(s.sent, a, h), Of(s.begun, a, h))
    {
      SentFirst(s, a, h);
    }
  }

  lemma SentFirst(s: State, a: nat, h: bool)
    requires Inv(s)
    ensures Prefix(Of(s.sent, a, h), Of(s.begun, a, h))
  {
    hide Of; hide Concat; hide Pkgs; hide PipePkgs; hide ThreadsOk; hide CounterOk; hide DirectsOk; hide ListsOk;
    FlowTo(s, a, h);
    OfAppend(s.sent, Pkgs(Line(s)) + PipePkgs(s.pipe), a, h);
  }

  lemma WireFacts(s: State)
    requires Inv(s)
    ensures s.wire == Concat(s.sent) || exists p: Package, k: nat :: CutAt(s, p, k)
  {
    hide Of; hide Concat; hide Pkgs; hide PipePkgs; hide CounterOk; hide DirectsOk; hide FlowOk;
    var line := Line(s);
    if line != [] {
      HeadCut(s);
    }
    if line != [] && line[0].off > 0 {
      HeadNext(s);
      assert CutAt(s, line[0].pkg, line[0].off);
    } else {
      assert Partial(line) == [];
    }
  }

  /** Whatever is first in line has not been written completely. */
  lemma HeadCut(s: State)
    requires ThreadsOk(s) && ListsOk(s) && Line(s) != []
    ensures Line(s)[0].off == 0 || Line(s)[0].off < |Line(s)[0].pkg.data|
  {
  }

  /** It is the next package of its sender and priority. */
  lemma HeadNext(s: State)
    requires FlowOk(s) && Line(s) != []
    ensures var p := Line(s)[0].pkg;
            p in s.begun && Prefix(Of(s.sent + [p], p.sender, p.high), Of(s.begun, p.sender, p.high))
  {
    hide Of; hide Line; hide Pkgs; hide PipePkgs;
    var p := Line(s)[0].pkg;
    var rest := Pkgs(Line(s))[1..] + PipePkgs(s.pipe);
    assert Flow(s) == (s.sent + [p]) + rest;
    OfAppend(s.sent + [p], rest, p.sender, p.high);
    FlowTo(s, p.sender, p.high);
    OfAppend(s.sent, [p], p.sender, p.high);
    OfOne(p, p.sender, p.high);
    var mine := Of(s.begun, p.sender, p.high);
    assert mine[|Of(s.sent, p.sender, p.high)|] == p;
    OfFrom(s.begun, p.sender, p.high);
  }

  lemma {:induction false} OfFrom(ps: seq<Package>, a: nat, h: bool)
    ensures forall p :: p in Of(ps, a, h) ==> p in ps
  {
    if ps != [] {
      OfFrom(ps[1..], a, h);
    }
  }

  /** Nothing is under way. */
  predicate Quiet(s: State) {
    s.high == [] && s.low == [] && s.dw == None && s.pipe == [] && forall a :: a in s.senders ==>
      s.senders[a].pc == Ready
  }

  /** Once nothing is under way, every package handed in has been written, completely and once. */
  lemma AllDelivered(ids: set<nat>, run: seq<Choice>)
    requires Quiet(Run(Init(ids), run))
    ensures var s := Run(Init(ids), run);
            s.wire == Concat(s.sent) && s.wbSize == 0 && forall a: nat, h: bool :: Of(s.sent, a, h) == Of(s.begun, a, h)
  {
    hide Of; hide Concat; hide Run; hide Inv; hide Quiet;
    InitOk(ids);
    RunOk(Init(ids), run);
    QuietFacts(Run(Init(ids), run));
  }

  lemma QuietFacts(s: State)
    requires Inv(s) && Quiet(s)
    ensures s.wire == Concat(s.sent) && s.wbSize == 0 && forall a: nat, h: bool :: Of(s.sent, a, h) == Of(s.begun, a, h)
  {
    hide Of; hide Concat; hide CounterOk; hide DirectsOk; hide FlowOk;
    QuietFlow(s);
    forall a: nat, h: bool
      ensures Of(s.sent, a, h) == Of(s.begun, a, h)
    {
      FlowTo(s, a, h);
      OfNone(a, h);
    }
  }

  lemma QuietFlow(s: State)
    requires Quiet(s)
    ensures Line(s) == [] && Flow(s) == s.sent && forall a: nat :: InHand(s, a) == []
  {
    assert Hand(s) == [];
    assert Pkgs([]) == [] && PipePkgs([]) == [];
  }

  /** Data that waits will be looked at: the poller reports writability, or a wake-up is on its way. */
  ghost predicate Watched(s: State) {
    && (s.high != [] || s.low != [] || s.phase != Idle ==> s.writing)
    && (s.dw.Some? ==> s.writing || Wake in s.pipe || exists a :: a in s.senders && s.senders[a].pc == Waking)
  }

  lemma WatchedStep(s: State, c: Choice)
    requires Inv(s) && Watched(s) && Enabled(s, c)
    ensures Watched(Next(s, c))
  {
    hide Inv; hide Watched; hide Next;
    match c
    case Command => WatchedCommand(s);
    case StoreDw(_) => WatchedStore(s, c);
    case SendWake(_) => WatchedWake(s, c);
    case Write(again, n) => WatchedWrite(s, again, n);
    case DecSending => WatchedOther(s, c);
    case Writable => WatchedOther(s, c);
    case _ => WatchedMove(s, c);
  }

  lemma WatchedStore(s: State, c: Choice)
    requires Watched(s) && Enabled(s, c) && c.StoreDw?
    ensures Watched(Next(s, c))
  {
    var t := Next(s, c);
    assert c.a in t.senders && t.senders[c.a].pc == Waking;
  }

  lemma WatchedWake(s: State, c: Choice)
    requires Watched(s) && Enabled(s, c) && c.SendWake?
    ensures Watched(Next(s, c))
  {
    assert Wake in Next(s, c).pipe;
  }

  lemma WatchedOther(s: State, c: Choice)
    requires Watched(s) && Enabled(s, c) && (c.DecSending? || c.Writable?)
    ensures Watched(Next(s, c))
  {
  }

  lemma WatchedMove(s: State, c: Choice)
    requires Watched(s) && Enabled(s, c)
    requires c.PushPipe? || c.Begin? || c.Check? || c.TryLock? || c.DirectWrite? || c.IncSending?
    ensures Watched(Next(s, c))
  {
    hide Watched;
    WatchedSender(s, Next(s, c), c.a);
  }

  lemma WatchedWrite(s: State, again: bool, n: nat)
    requires Inv(s) && Watched(s) && Enabled(s, Write(again, n))
    ensures Watched(Next(s, Write(again, n)))
  {
    hide CounterOk; hide DirectsOk; hide FlowOk; hide WireOk; hide Written; hide Unsent;
    SocketHolds(s);
  }

  /** Thread a, not at Waking, does something else. */
  lemma WatchedSender(s: State, t: State, a: nat)
    requires Watched(s) && a in s.senders && s.senders[a].pc != Waking
    requires t.high == s.high && t.low == s.low && t.phase == s.phase && t.writing == s.writing && t.dw == s.dw
    requires s.pipe <= t.pipe && a in t.senders && t.senders == s.senders[a := t.senders[a]]
    ensures Watched(t)
  {
    if s.dw.Some? && !s.writing && Wake !in s.pipe {
      var b :| b in s.senders && s.senders[b].pc == Waking;
      assert b in t.senders && t.senders[b].pc == Waking;
    }
  }

  lemma WatchedCommand(s: State)
    requires Watched(s) && Enabled(s, Command)
    ensures Watched(Next(s, Command))
  {
    var t := DoCommand(s);
    if s.dw.Some? && !s.writing && Wake in s.pipe && s.pipe[0] != Wake {
      assert s.pipe == [s.pipe[0]] + t.pipe;
    }
  }

  lemma {:induction false} WatchedRun(ids: set<nat>, run: seq<Choice>)
    ensures Watched(Run(Init(ids), run))
    decreases |run|
  {
    hide Inv; hide Enabled; hide Next; hide Watched;
    if run == [] {
      WatchedInit(ids);
    } else {
      var front := run[..|run| - 1];
      WatchedRun(ids, front);
      InitOk(ids);
      RunOk(Init(ids), front);
      if Enabled(Run(Init(ids), front), run[|run| - 1]) {
        WatchedStep(Run(Init(ids), front), run[|run| - 1]);
      }
    }
  }

  lemma WatchedInit(ids: set<nat>)
    ensures Watched(Init(ids))
  {
  }

  /**
   Nothing is stranded: in every reachable state with data waiting in the lists or in the direct-write
   buffer, the socket thread or a sender that is about to wake it has a step to make.
   */
  lemma NothingStranded(ids: set<nat>, run: seq<Choice>)
    ensures var s := Run(Init(ids), run);
            && (s.high != [] || s.low != [] ==> s.writing)
            && (s.dw.Some? ==> s.writing || Wake in s.pipe || exists a :: a in s.senders && s.senders[a].pc == Waking)
            && (s.writing && s.phase == Idle && !s.counted && s.lock == NoOne ==> Enabled(s, Writable))
            && (s.phase == Idle && !s.counted && s.pipe != [] ==> Enabled(s, Command))
  {
    hide Run; hide Init;
    WatchedRun(ids, run);
  }

  /**
   While a sender writes to the socket itself it owns the lock, there is no direct-write buffer, nothing
   in the lists is partly sent, and none of its own high-priority packages is still on its way.
   */
  lemma WritesAlone(ids: set<nat>, run: seq<Choice>, a: nat)
    requires var s := Run(Init(ids), run); a in s.senders && s.senders[a].pc.Writing?
    ensures var s := Run(Init(ids), run);
            && s.lock == Thread(a) && s.dw == None && Untouched(s.high) && Untouched(s.low)
            && Of(PipePkgs(s.pipe), a, true) == [] && Of(Pkgs(s.high), a, true) == []
  {
    hide Run, Init, CounterOk, FlowOk, WireOk;
    InitOk(ids);
    RunOk(Init(ids), run);
    var s := Run(Init(ids), run);
    assert DirectOk(s, a) && ThreadOk(s, a);
  }

  /** list_uncomplete */
  predicate Uncomplete(bs: seq<Buf>) {
    bs != [] && bs[0].off != 0
  }

  /** The assertions in the code hold in every reachable state, and wb_size counts the unsent bytes. */
  lemma AssertionsHold(ids: set<nat>, run: seq<Choice>)
    ensures var s := Run(Init(ids), run);
            && s.wbSize == Unsent(s.high) + Unsent(s.low)
            && !Uncomplete(s.low)                                                  // on entry to send_buffer_
            && (s.phase == SendingLow ==> s.high == [])                            // in raise_uncomplete
            && (s.high == [] && s.low == [] ==> s.wbSize == 0)                     // step 4
            && (s.dw.Some? ==> !Uncomplete(s.high))                                // before the buffer joins the list
            && (s.counted ==> s.sending > 0)                                       // in dec_sending_ref
  {
    hide Run; hide Of; hide PipePkgs; hide FlowOk; hide WireOk; hide ThreadsOk; hide DirectsOk;
    InitOk(ids);
    RunOk(Init(ids), run);
  }
}
