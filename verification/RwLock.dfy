/**
 The spinning reader-writer lock of rwlock.h, as the interleaving of its atomic operations by any
 number of threads.
 */
module RwLock {

  datatype Pc =
    | Out
    | ReadSpin      // while (write) {}
    | ReadAdd       // before read++
    | ReadCheck     // read counted, before the second look at write
    | ReadUndo      // a writer was seen, before read--
    | Reading
    | WriteTry      // before the compare-and-swap of write
    | WriteSpin     // while (read) {}
    | Writing

  datatype State = State(write: int, read: int, threads: map<nat, Pc>)

  /** What a thread outside does next; the others have one way to go. */
  datatype Wish = WantRead | WantWrite | GoOn

  function At(s: State, t: nat): Pc {
    if t in s.threads then s.threads[t] else Out
  }

  function Next(s: State, t: nat, w: Wish): State {
    match At(s, t)
    case Out =>
      if w == WantRead then Goto(s, t, ReadSpin) else if w == WantWrite then Goto(s, t, WriteTry) else s
    case ReadSpin => if s.write != 0 then s else Goto(s, t, ReadAdd)
    case ReadAdd => Goto(s.(read := s.read + 1), t, ReadCheck)
    case ReadCheck => Goto(s, t, if s.write != 0 then ReadUndo else Reading)
    case ReadUndo => Goto(s.(read := s.read - 1), t, ReadSpin)
    case Reading => Goto(s.(read := s.read - 1), t, Out)
    case WriteTry => if s.write == 0 then Goto(s.(write := 1), t, WriteSpin) else s
    case WriteSpin => if s.read != 0 then s else Goto(s, t, Writing)
    case Writing => Goto(s.(write := 0), t, Out)
  }

  function Goto(s: State, t: nat, pc: Pc): State {
    s.(threads := s.threads[t := pc])
  }

  datatype Move = Move(t: nat, w: Wish)

  ghost predicate Run(moves: seq<Move>, states: seq<State>) {
    && |states| == |moves| + 1
    && states[0] == State(0, 0, map[])
    && forall i :: 0 <= i < |moves| ==> states[i + 1] == Next(states[i], moves[i].t, moves[i].w)
  }

  /** Between increment and decrement of 'read'. */
  predicate Counted(pc: Pc) {
    pc == ReadCheck || pc == ReadUndo || pc == Reading
  }

  predicate Owns(pc: Pc) {
    pc == WriteSpin || pc == Writing
  }

  function Readers(s: State): set<nat> {
    set t | t in s.threads && Counted(s.threads[t])
  }

  function Owners(s: State): set<nat> {
    set t | t in s.threads && Owns(s.threads[t])
  }

  /** No writer shares the critical section with a reader or another writer. */
  ghost predicate Exclusive(s: State) {
    forall t, u :: t in s.threads && u in s.threads && t != u && s.threads[t] == Writing ==>
      s.threads[u] != Writing && s.threads[u] != Reading
  }

  ghost predicate Inv(s: State) {
    && s.read == |Readers(s)|
    && s.write == |Owners(s)| && s.write <= 1
    && Exclusive(s)
  }

  lemma ReadersMove(s: State, t: nat, pc: Pc)
    ensures |Readers(Goto(s, t, pc))| ==
            |Readers(s)| - (if Counted(At(s, t)) then 1 else 0) + (if Counted(pc) then 1 else 0)
  {
    var rest := Readers(s) - {t};
    assert Readers(s) == if Counted(At(s, t)) then rest + {t} else rest;
    assert Readers(Goto(s, t, pc)) == if Counted(pc) then rest + {t} else rest;
  }

  lemma OwnersMove(s: State, t: nat, pc: Pc)
    ensures |Owners(Goto(s, t, pc))| == |Owners(s)| - (if Owns(At(s, t)) then 1 else 0) + (if Owns(pc) then 1 else 0)
  {
    var rest := Owners(s) - {t};
    assert Owners(s) == if Owns(At(s, t)) then rest + {t} else rest;
    assert Owners(Goto(s, t, pc)) == if Owns(pc) then rest + {t} else rest;
  }

  /** A set of one thread has no other member. */
  lemma OnlyOwner(s: State, t: nat, u: nat)
    requires t in Owners(s) && u in Owners(s) && |Owners(s)| <= 1
    ensures t == u
  {
    var rest := Owners(s) - {t};
    assert |rest| == 0;
    assert u !in rest;
  }

  lemma ExclusiveMove(s: State, t: nat, pc: Pc)
    requires Inv(s)
    requires pc == Writing ==> Owns(At(s, t)) && s.read == 0
    requires pc == Reading ==> s.write == 0
    ensures Exclusive(Goto(s, t, pc))
  {
    var s2 := Goto(s, t, pc);
    forall a, b | a in s2.threads && b in s2.threads && a != b && s2.threads[a] == Writing
      ensures s2.threads[b] != Writing && s2.threads[b] != Reading
    {
      if a == t {
        assert t in Owners(s);
        if s.threads[b] == Writing {
          OnlyOwner(s, t, b);
        }
        assert b !in Readers(s);
      } else {
        assert a in Owners(s);
        if b == t && pc == Writing {
          OnlyOwner(s, a, t);
        }
      }
    }
  }

  /** Every atomic step keeps the invariant. */
  lemma StepOk(s: State, t: nat, w: Wish)
    requires Inv(s)
    ensures Inv(Next(s, t, w))
  {
    var s2 := Next(s, t, w);
    if s2 != s {
      ReadersMove(s, t, At(s2, t));
      OwnersMove(s, t, At(s2, t));
      ExclusiveMove(s, t, At(s2, t));
      SameSets(s, s2, t);
    }
  }

  lemma SameSets(s: State, s2: State, t: nat)
    requires s2.threads == Goto(s, t, At(s2, t)).threads
    ensures Readers(s2) == Readers(Goto(s, t, At(s2, t))) && Owners(s2) == Owners(Goto(s, t, At(s2, t)))
    ensures Exclusive(Goto(s, t, At(s2, t))) ==> Exclusive(s2)
  {
  }

  /**
   After any interleaving of the atomic operations a writer is alone, and 'read' is the number of
   threads between its increment and its decrement.
   */
  lemma {:induction false} MutualExclusion(moves: seq<Move>, states: seq<State>, i: nat)
    requires Run(moves, states) && i < |states|
    ensures Inv(states[i])
  {
    if i > 0 {
      MutualExclusion(moves, states, i - 1);
      StepOk(states[i - 1], moves[i - 1].t, moves[i - 1].w);
    }
  }

  // ---- Nobody is shut out for good

  /** The state after some more steps. */
  function After(s: State, moves: seq<Move>): State
    decreases |moves|
  {
    if moves == [] then s else After(Next(s, moves[0].t, moves[0].w), moves[1..])
  }

  ghost predicate Leads(s: State, e: State) {
    exists moves :: After(s, moves) == e
  }

  lemma {:induction false} AfterAppend(s: State, a: seq<Move>, b: seq<Move>)
    ensures After(s, a + b) == After(After(s, a), b)
    decreases |a|
  {
    if a == [] {
      assert a + b == b;
    } else {
      assert (a + b)[1..] == a[1..] + b;
      AfterAppend(Next(s, a[0].t, a[0].w), a[1..], b);
    }
  }

  lemma LeadsOn(s: State, m: State, e: State)
    requires Leads(s, m) && Leads(m, e)
    ensures Leads(s, e)
  {
    var a :| After(s, a) == m;
    var b :| After(m, b) == e;
    AfterAppend(s, a, b);
  }

  lemma LeadsStep(s: State, t: nat, w: Wish)
    ensures Leads(s, Next(s, t, w))
  {
    assert After(s, [Move(t, w)]) == Next(s, t, w);
  }

  lemma LeadsNowhere(s: State)
    ensures Leads(s, s)
  {
    assert After(s, []) == s;
  }

  function Busy(s: State): set<nat> {
    set t | t in s.threads && s.threads[t] != Out
  }

  /** Thread t made one step, to a place that is not counted in 'read' (or not busy at all). */
  lemma Shrinks(s: State, s2: State, t: nat)
    requires s2.threads == s.threads[t := At(s2, t)] && t in s.threads
    ensures !Counted(At(s2, t)) ==> Readers(s2) == Readers(s) - {t}
    ensures At(s2, t) == Out ==> Busy(s2) == Busy(s) - {t}
    ensures At(s2, t) != Out && At(s, t) != Out ==> Busy(s2) == Busy(s)
  {
  }

  /** The threads counted in 'read' can leave, whoever holds 'write'. */
  lemma {:induction false} NoReaders(s: State)
    requires Inv(s)
    ensures exists e :: Leads(s, e) && Inv(e) && e.read == 0 && e.write == s.write
    decreases |Readers(s)|
  {
    hide Leads, Inv, Next;
    if s.read == 0 {
      LeadsNowhere(s);
    } else {
      SomeReader(s);
      var t :| t in Readers(s);
      var m := Leave(s, t);
      NoReaders(m);
      var e :| Leads(m, e) && Inv(e) && e.read == 0 && e.write == m.write;
      LeadsOn(s, m, e);
    }
  }

  lemma SomeReader(s: State)
    requires Inv(s) && s.read != 0
    ensures exists t :: t in Readers(s)
  {
    assert Readers(s) != {};
  }

  /** A counted thread gives up its count. */
  lemma Leave(s: State, t: nat) returns (m: State)
    requires Inv(s) && t in Readers(s)
    ensures Leads(s, m) && Inv(m) && m.write == s.write && Readers(m) == Readers(s) - {t}
  {
    hide Leads, Inv, Exclusive;
    m := Next(s, t, GoOn);
    LeadsStep(s, t, GoOn);
    if At(s, t) == ReadCheck {
      var m2 := Next(m, t, GoOn);
      LeadsStep(m, t, GoOn);
      LeadsOn(s, m, m2);
      assert m2.threads == s.threads[t := At(m2, t)];
      m := m2;
    }
    LeadsKeeps(s, m);
    Shrinks(s, m, t);
  }

  /** Without counted threads the owner of 'write' gets in and out. */
  lemma NoWriter(s: State)
    requires Inv(s) && s.read == 0
    ensures exists e :: Leads(s, e) && Inv(e) && e.read == 0 && e.write == 0
  {
    if s.write == 0 {
      LeadsNowhere(s);
    } else {
      if Owners(s) == {} {
        assert false;
      }
      var t :| t in Owners(s);
      var e := WriteOut(s, t);
    }
  }

  lemma WriteOut(s: State, t: nat) returns (e: State)
    requires Inv(s) && s.read == 0 && Owns(At(s, t))
    ensures Leads(s, e) && Inv(e) && e.read == 0 && e.write == 0 && At(e, t) == Out
    ensures e.threads == s.threads[t := Out]
  {
    hide Leads, Inv, Exclusive;
    e := Next(s, t, GoOn);
    LeadsStep(s, t, GoOn);
    if At(s, t) == WriteSpin {
      var e2 := Next(e, t, GoOn);
      LeadsStep(e, t, GoOn);
      LeadsOn(s, e, e2);
      e := e2;
    }
    LeadsKeeps(s, e);
  }

  /** All threads are outside. */
  predicate Clear(s: State) {
    s.read == 0 && s.write == 0 && Busy(s) == {}
  }

  /** With nobody in the way each waiting thread gets in and out. */
  lemma {:induction false} AllOut(s: State)
    requires Inv(s) && s.read == 0 && s.write == 0
    ensures exists e :: Leads(s, e) && Inv(e) && Clear(e)
    decreases |Busy(s)|
  {
    hide Leads, Inv, Next;
    if Busy(s) == {} {
      LeadsNowhere(s);
    } else {
      var t :| t in Busy(s);
      NotCounted(s, t);
      var m: State;
      if At(s, t) == WriteTry {
        m := ThroughWrite(s, t);
      } else {
        m := ThroughRead(s, t);
      }
      LeadsKeeps(s, m);
      Shrinks(s, m, t);
      AllOut(m);
      var e :| Leads(m, e) && Inv(e) && Clear(e);
      LeadsOn(s, m, e);
    }
  }

  lemma NotCounted(s: State, t: nat)
    requires Inv(s) && s.read == 0 && s.write == 0 && t in Busy(s)
    ensures At(s, t) in {ReadSpin, ReadAdd, WriteTry}
  {
    assert t !in Readers(s) && t !in Owners(s);
  }

  /** While nobody holds 'write' a thread gets to read, in three steps once it wants to. */
  lemma GetsRead(s: State, t: nat) returns (e: State)
    requires s.write == 0 && At(s, t) in {Out, ReadSpin, ReadAdd}
    ensures Leads(s, e) && e == State(0, s.read + 1, s.threads[t := Reading])
  {
    hide Leads;
    var a := if At(s, t) == Out then Next(s, t, WantRead) else s;
    var b := if At(a, t) == ReadSpin then Next(a, t, GoOn) else a;
    LeadsMaybe(s, a, t, WantRead);
    LeadsMaybe(a, b, t, GoOn);
    var c := Next(b, t, GoOn);
    e := Next(c, t, GoOn);
    LeadsStep(b, t, GoOn);
    LeadsStep(c, t, GoOn);
    LeadsOn(s, a, b);
    LeadsOn(s, b, c);
    LeadsOn(s, c, e);
    assert e.threads == s.threads[t := Reading];
  }

  lemma LeadsMaybe(s: State, e: State, t: nat, w: Wish)
    requires e == s || e == Next(s, t, w)
    ensures Leads(s, e)
  {
    LeadsNowhere(s);
    LeadsStep(s, t, w);
  }

  /** When nobody reads or writes a thread gets to write. */
  lemma GetsWrite(s: State, t: nat) returns (e: State)
    requires s.write == 0 && s.read == 0 && At(s, t) in {Out, WriteTry}
    ensures Leads(s, e) && e == State(1, 0, s.threads[t := Writing])
  {
    hide Leads;
    var a := if At(s, t) == Out then Next(s, t, WantWrite) else s;
    LeadsMaybe(s, a, t, WantWrite);
    var b := Next(a, t, GoOn);
    e := Next(b, t, GoOn);
    LeadsStep(a, t, GoOn);
    LeadsStep(b, t, GoOn);
    LeadsOn(s, a, b);
    LeadsOn(s, b, e);
    assert e.threads == s.threads[t := Writing];
  }

  lemma ThroughRead(s: State, t: nat) returns (e: State)
    requires s.write == 0 && At(s, t) in {Out, ReadSpin, ReadAdd}
    ensures Leads(s, e) && e == State(0, s.read, s.threads[t := Out])
  {
    hide Leads;
    var m := GetsRead(s, t);
    e := Next(m, t, GoOn);
    LeadsStep(m, t, GoOn);
    LeadsOn(s, m, e);
    assert e.threads == s.threads[t := Out];
  }

  lemma ThroughWrite(s: State, t: nat) returns (e: State)
    requires s.write == 0 && s.read == 0 && At(s, t) in {Out, WriteTry}
    ensures Leads(s, e) && e == State(0, 0, s.threads[t := Out])
  {
    hide Leads;
    var m := GetsWrite(s, t);
    e := Next(m, t, GoOn);
    LeadsStep(m, t, GoOn);
    LeadsOn(s, m, e);
    assert e.threads == s.threads[t := Out];
  }

  lemma {:induction false} AfterOk(s: State, moves: seq<Move>)
    requires Inv(s)
    ensures Inv(After(s, moves))
    decreases |moves|
  {
    hide Inv, Next;
    if moves != [] {
      StepOk(s, moves[0].t, moves[0].w);
      AfterOk(Next(s, moves[0].t, moves[0].w), moves[1..]);
    }
  }

  lemma LeadsKeeps(s: State, e: State)
    requires Inv(s) && Leads(s, e)
    ensures Inv(e)
  {
    hide Inv, After;
    var moves :| After(s, moves) == e;
    AfterOk(s, moves);
  }

  /**
   From every reachable state the threads can go on so that all are outside, and from there any
   thread, new or not, gets to read and gets to write: nobody waits for ever.
   */
  lemma NobodyShutOut(moves: seq<Move>, states: seq<State>, i: nat, t: nat)
    requires Run(moves, states) && i < |states|
    ensures exists e :: Leads(states[i], e) && Clear(e)
    ensures exists e :: Leads(states[i], e) && At(e, t) == Reading
    ensures exists e :: Leads(states[i], e) && At(e, t) == Writing
  {
    hide Run, Leads, Inv, Next, Clear;
    var s := states[i];
    MutualExclusion(moves, states, i);
    NoReaders(s);
    var a :| Leads(s, a) && Inv(a) && a.read == 0 && a.write == s.write;
    NoWriter(a);
    var b :| Leads(a, b) && Inv(b) && b.read == 0 && b.write == 0;
    AllOut(b);
    var c :| Leads(b, c) && Inv(c) && Clear(c);
    LeadsOn(s, a, b);
    LeadsOn(s, b, c);
    OutsideAll(c, t);
    var r := GetsRead(c, t);
    var w := GetsWrite(c, t);
    LeadsOn(s, c, r);
    LeadsOn(s, c, w);
    assert At(r, t) == Reading && At(w, t) == Writing;
  }

  lemma OutsideAll(s: State, t: nat)
    requires Clear(s)
    ensures At(s, t) == Out && s.read == 0 && s.write == 0
  {
    if t in s.threads {
      assert t !in Busy(s);
    }
  }
}
