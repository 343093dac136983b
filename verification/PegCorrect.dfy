/**
 The code generated for a pattern computes what the pattern means. The statement is contextual:
 it holds wherever the block is placed, under any stack, behind any dominating test, inside an
 optional pattern or not, and with any follow set.
 */
module PegCorrect {
  import opened PegTree
  import opened PegCharset
  import opened PegAnalysis
  import opened PegCode
  import opened PegVm

  // ----- blocks inside a code array -----

  /** The block lies at address pc of the code. */
  predicate CodeAt(code: Code, pc: nat, block: Code) {
    pc + |block| <= |code| && code[pc..pc + |block|] == block
  }

  lemma CodeAtSplit(code: Code, pc: nat, a: Code, b: Code)
    requires CodeAt(code, pc, a + b)
    ensures CodeAt(code, pc, a) && CodeAt(code, pc + |a|, b)
  {
    assert code[pc..pc + |a|] == (a + b)[..|a|] == a;
    assert code[pc + |a|..pc + |a| + |b|] == (a + b)[|a|..] == b;
  }

  lemma CodeAtInstr(code: Code, pc: nat, i: Instr)
    requires CodeAt(code, pc, Emit(i))
    ensures pc < |code| && code[pc] == i
  {
    assert code[pc] == code[pc..pc + |Emit(i)|][0];
  }

  /** An instruction followed by a block. */
  lemma CodeAtCons(code: Code, pc: nat, i: Instr, b: Code)
    requires CodeAt(code, pc, Emit(i) + b)
    ensures pc < |code| && code[pc] == i && CodeAt(code, pc, Emit(i)) && CodeAt(code, pc + Slots(i), b)
  {
    CodeAtSplit(code, pc, Emit(i), b);
    CodeAtInstr(code, pc, i);
  }

  /** A block followed by an instruction. */
  lemma CodeAtSnoc(code: Code, pc: nat, b: Code, i: Instr)
    requires CodeAt(code, pc, b + Emit(i))
    ensures CodeAt(code, pc, b) && pc + |b| < |code| && code[pc + |b|] == i && CodeAt(code, pc + |b|, Emit(i))
  {
    CodeAtSplit(code, pc, b, Emit(i));
    CodeAtInstr(code, pc + |b|, i);
  }

  /** A test followed by a block; the size of the test does not depend on its offset. */
  lemma CodeAtTest(code: Code, pc: nat, cs: Charset, off: int, b: Code)
    requires CodeAt(code, pc, Emit(TestOp(cs, off)) + b)
    ensures pc < |code| && code[pc] == TestOp(cs, off) && CodeAt(code, pc + TestSize(cs), b)
    ensures |Emit(TestOp(cs, off)) + b| == TestSize(cs) + |b|
  {
    hide CodeAt; hide Emit; hide SetSlots; hide FullSet; hide Least;
    CodeAtCons(code, pc, TestOp(cs, off), b);
  }

  // ----- what a block must do -----

  /** What a dominating test guarantees about the next byte. An IJmp test is never passed. */
  predicate TestHolds(tt: Test, s: Subject, i: nat) {
    tt.Tested? ==>
      match tt.op
      case ITestAny(_) => i < |s|
      case ITestChar(c, _) => NextIn(s, i, {c})
      case ITestSet(cs, _, _) => NextIn(s, i, cs)
      case IJmp(_) => false
      case _ => true
  }

  /** A failure that the follow set excuses: whatever follows would fail at j anyway. */
  predicate Excused(fl: Charset, s: Subject, j: nat) {
    j < |s| && s[j] !in fl
  }

  /**
   What a run of a block of length len at pc, started at position i, must do when the pattern's
   result is r.
   Outside an optional pattern it ends after the block with the stack untouched, exactly when the
   pattern matches, or it backtracks; it may backtrack on a match only when that is excused.
   Inside an optional pattern a match may also resume the enclosing choice with its saved position
   moved to the end of the match, which is what committing that choice would do.
   */
  ghost predicate Agrees(code: Code, s: Subject, r: Outcome, opt: bool, fl: Charset, pc: nat, len: nat, i: nat,
      stk: Stack) {
    var start := Run(pc, i, stk);
    match r
    case Fail => Reach(code, s, start, Backtrack(stk))
    case Match(j) =>
      if !opt then
        || Reach(code, s, start, Run(pc + len, j, stk))
        || (Excused(fl, s, j) && Reach(code, s, start, Backtrack(stk)))
      else
        && stk.Entry?
        && (|| Reach(code, s, start, Run(stk.p, j, stk.below))
            || exists s1: nat :: Reach(code, s, start, Run(pc + len, j, Entry(s1, stk.p, stk.below))))
  }

  /** Conditions under which codegen calls itself. */
  predicate Context(opt: bool, tt: Test, fl: Charset, s: Subject, i: nat, stk: Stack) {
    i <= |s| && TestHolds(tt, s, i) && (opt ==> fl == FullSet() && stk.Entry?)
  }

  /** Where an exact run of a block ends. */
  function End(r: Outcome, pc: nat, len: nat, stk: Stack): State {
    match r
    case Fail => Backtrack(stk)
    case Match(j) => Run(pc + len, j, stk)
  }

  /** A block that ends with the stack untouched agrees in every context. */
  lemma ExactAgrees(code: Code, s: Subject, r: Outcome, opt: bool, fl: Charset, pc: nat, len: nat, i: nat, stk: Stack)
    requires opt ==> stk.Entry?
    requires Reach(code, s, Run(pc, i, stk), End(r, pc, len, stk))
    ensures Agrees(code, s, r, opt, fl, pc, len, i, stk)
  {
    hide Reach;
    if opt && r.Match? {
      assert stk == Entry(stk.s, stk.p, stk.below);
    }
  }

  /** A run to the start of a block that agrees. */
  lemma PrefixAgrees(code: Code, s: Subject, r: Outcome, opt: bool, fl: Charset, pc: nat, n1: nat, n2: nat, i: nat,
      j: nat, stk: Stack)
    requires Reach(code, s, Run(pc, i, stk), Run(pc + n1, j, stk))
    requires Agrees(code, s, r, opt, fl, pc + n1, n2, j, stk)
    ensures Agrees(code, s, r, opt, fl, pc, n1 + n2, i, stk)
  {
    hide Reach;
    var start, mid := Run(pc, i, stk), Run(pc + n1, j, stk);
    forall c | Reach(code, s, mid, c)
      ensures Reach(code, s, start, c)
    {
      ReachTrans(code, s, start, mid, c);
    }
  }

  /** A test instruction falls through exactly when the next byte is in its set. */
  lemma TestRuns(code: Code, s: Subject, cs: Charset, off: int, pc: nat, i: nat, stk: Stack)
    requires i <= |s| && pc < |code| && code[pc] == TestOp(cs, off)
    ensures Reach(code, s, Run(pc, i, stk), Run(if NextIn(s, i, cs) then pc + TestSize(cs) else pc + off, i, stk))
    ensures NextIn(s, i, cs) ==> TestHolds(TestOf(cs), s, i)
  {
    hide SetSlots; hide Least; hide BytesBelow; hide Emit;
    hide Reach;
    ReachExec(code, s, TestOp(cs, off), pc, i, stk);
  }

  /** A passed test, and then a run. */
  lemma PassThen(code: Code, s: Subject, cs: Charset, off: int, pc: nat, i: nat, stk: Stack, z: State)
    requires i <= |s| && pc < |code| && code[pc] == TestOp(cs, off) && NextIn(s, i, cs)
    requires Reach(code, s, Run(pc + TestSize(cs), i, stk), z)
    ensures Reach(code, s, Run(pc, i, stk), z)
  {
    hide Reach;
    TestRuns(code, s, cs, off, pc, i, stk);
    ReachTrans(code, s, Run(pc, i, stk), Run(pc + TestSize(cs), i, stk), z);
  }

  // ----- the contextual statement, by structural induction -----

  lemma {:induction false} GenAgrees(code: Code, s: Subject, t: Tree, opt: bool, tt: Test, fl: Charset, pc: nat, i: nat,
      stk: Stack)
    requires WellFormed(t)
    requires CodeAt(code, pc, Gen(t, opt, tt, fl))
    requires Context(opt, tt, fl, s, i, stk)
    ensures Agrees(code, s, Eval(t, s, i), opt, fl, pc, |Gen(t, opt, tt, fl)|, i, stk)
    decreases t, |s| - i, 3
  {
    hide Agrees; hide CodeAt; hide Eval;
    match t
    case TSeq(_, _) => SeqAgrees(code, s, t, opt, tt, fl, pc, i, stk);
    case TChoice(_, _) =>
      if ChoiceByTest(t, fl) {
        ChoiceByTestAgrees(code, s, t, opt, fl, pc, i, stk);
      } else if opt && t.p2.TTrue? {
        ChoiceInOptionalAgrees(code, s, t, fl, pc, i, stk);
      } else {
        ChoiceAgrees(code, s, t, opt, fl, pc, i, stk);
      }
    case TRep(_) =>
      if RepByCharset(t) {
        RepCharsetAgrees(code, s, t, opt, fl, pc, i, stk);
      } else if RepByTest(t, fl) {
        RepByTestAgrees(code, s, t, opt, fl, pc, i, stk);
      } else {
        RepAgrees(code, s, t, opt, fl, pc, i, stk);
      }
    case TNot(_) => NotAgrees(code, s, t, opt, fl, pc, i, stk);
    case TAnd(_) => AndAgrees(code, s, t, opt, tt, fl, pc, i, stk);
    case TBehind(_, _) => BehindAgrees(code, s, t, opt, fl, pc, i, stk);
    case _ => LeafAgrees(code, s, t, opt, tt, fl, pc, i, stk);
  }

  /** Outside an optional pattern and with the full follow set, a block is exact. */
  lemma {:induction false} ExactRun(code: Code, s: Subject, t: Tree, tt: Test, pc: nat, i: nat, stk: Stack)
    requires WellFormed(t)
    requires CodeAt(code, pc, Gen(t, false, tt, FullSet()))
    requires Context(false, tt, FullSet(), s, i, stk)
    ensures Reach(code, s, Run(pc, i, stk), End(Eval(t, s, i), pc, |Gen(t, false, tt, FullSet())|, stk))
    decreases t, |s| - i, 4
  {
    hide Reach; hide Gen; hide CodeAt; hide Eval;
    GenAgrees(code, s, t, false, tt, FullSet(), pc, i, stk);
  }

  /** The instruction of a one-byte pattern (IFail for the pattern that never matches). */
  function LeafOp(t: Tree, tt: Test): Instr
    requires t.TChar? || t.TSet? || t.TAny? || t.TFalse?
  {
    match t
    case TChar(c) => if tt.Tested? && tt.op.ITestChar? && tt.op.c == c then IAny else IChar(c)
    case TSet(cs) => if tt.Tested? && tt.op.ITestSet? && tt.op.cs == cs then IAny else ISet(cs, SetSlots(cs))
    case TAny => IAny
    case TFalse => IFail
  }

  lemma LeafGen(t: Tree, opt: bool, tt: Test, fl: Charset)
    requires t.TChar? || t.TSet? || t.TAny? || t.TFalse?
    ensures Gen(t, opt, tt, fl) == Emit(LeafOp(t, tt))
  {
    hide Emit; hide SetSlots;
  }

  lemma LeafExec(s: Subject, t: Tree, tt: Test, pc: nat, i: nat, stk: Stack)
    requires t.TChar? || t.TSet? || t.TAny? || t.TFalse?
    requires i <= |s| && TestHolds(tt, s, i)
    ensures Exec(LeafOp(t, tt), s, pc, i, stk) == End(Eval(t, s, i), pc, Slots(LeafOp(t, tt)), stk)
  {
    hide SetSlots;
  }

  lemma LeafAgrees(code: Code, s: Subject, t: Tree, opt: bool, tt: Test, fl: Charset, pc: nat, i: nat, stk: Stack)
    requires t.TChar? || t.TSet? || t.TAny? || t.TTrue? || t.TFalse?
    requires CodeAt(code, pc, Gen(t, opt, tt, fl))
    requires Context(opt, tt, fl, s, i, stk)
    ensures Agrees(code, s, Eval(t, s, i), opt, fl, pc, |Gen(t, opt, tt, fl)|, i, stk)
  {
    hide Reach; hide CodeAt; hide Agrees; hide LeafOp; hide Exec; hide Emit; hide Slots;
    if t.TTrue? {
      ReachRefl(code, s, Run(pc, i, stk));
    } else {
      LeafGen(t, opt, tt, fl);
      LeafExec(s, t, tt, pc, i, stk);
      CodeAtInstr(code, pc, LeafOp(t, tt));
      ReachExec(code, s, LeafOp(t, tt), pc, i, stk);
    }
    ExactAgrees(code, s, Eval(t, s, i), opt, fl, pc, |Gen(t, opt, tt, fl)|, i, stk);
  }

  lemma {:induction false} SeqAgrees(code: Code, s: Subject, t: Tree, opt: bool, tt: Test, fl: Charset, pc: nat, i: nat,
      stk: Stack)
    requires t.TSeq? && WellFormed(t)
    requires CodeAt(code, pc, GenSeq(t, opt, tt, fl))
    requires Context(opt, tt, fl, s, i, stk)
    ensures Agrees(code, s, Eval(t, s, i), opt, fl, pc, |GenSeq(t, opt, tt, fl)|, i, stk)
    decreases t, |s| - i, 1
  {
    hide Reach; hide CodeAt; hide Gen;
    var p1, p2 := t.p1, t.p2;
    var fl1 := SeqFollow(t, fl);
    var b1 := Gen(p1, false, tt, fl1);
    var b2 := Gen(p2, opt, SeqTest(t, tt), fl);
    CodeAtSplit(code, pc, b1, b2);
    GenAgrees(code, s, p1, false, tt, fl1, pc, i, stk);
    var start := Run(pc, i, stk);
    if Eval(p1, s, i).Match? {
      var j := Eval(p1, s, i).pos;
      if Reach(code, s, start, Run(pc + |b1|, j, stk)) {
        if FixedLen(p1) == 0 {
          FixedLenSound(p1, s, i);
        }
        GenAgrees(code, s, p2, opt, SeqTest(t, tt), fl, pc + |b1|, j, stk);
        PrefixAgrees(code, s, Eval(t, s, i), opt, fl, pc, |b1|, |b2|, i, j, stk);
      } else {
        // the first part failed on a byte that cannot start the rest
        if Eval(p2, s, j).Match? && (Eval(p2, s, j).pos > j || s[j] in fl) {
          GetFirstSound(p2, fl, s, j);
        }
      }
    }
  }

  // ----- choice -----

  /** Where the parts of a choice decided by a test lie. */
  lemma ByTestParts(code: Code, pc: nat, cs: Charset, b1: Code, jmp: Code, b2: Code)
    requires CodeAt(code, pc, Emit(TestOp(cs, TestSize(cs) + |b1| + |jmp|)) + (b1 + (jmp + b2)))
    ensures pc < |code| && code[pc] == TestOp(cs, TestSize(cs) + |b1| + |jmp|)
    ensures CodeAt(code, pc + TestSize(cs), b1)
    ensures CodeAt(code, pc + TestSize(cs) + |b1|, jmp)
    ensures CodeAt(code, pc + TestSize(cs) + |b1| + |jmp|, b2)
    ensures |Emit(TestOp(cs, TestSize(cs) + |b1| + |jmp|)) + (b1 + (jmp + b2))| == TestSize(cs) + |b1| + |jmp| + |b2|
  {
    hide TestOp; hide Emit; hide SetSlots; hide FullSet;
    hide CodeAt;
    var ts := TestSize(cs);
    CodeAtTest(code, pc, cs, ts + |b1| + |jmp|, b1 + (jmp + b2));
    CodeAtSplit(code, pc + ts, b1, jmp + b2);
    CodeAtSplit(code, pc + ts + |b1|, jmp, b2);
  }

  lemma {:induction false} ChoiceByTestAgrees(code: Code, s: Subject, t: Tree, opt: bool, fl: Charset, pc: nat, i: nat,
      stk: Stack)
    requires t.TChoice? && WellFormed(t) && ChoiceByTest(t, fl)
    requires CodeAt(code, pc, GenChoice(t, opt, fl))
    requires Context(opt, NoTest, fl, s, i, stk)
    ensures Agrees(code, s, Eval(t, s, i), opt, fl, pc, |GenChoice(t, opt, fl)|, i, stk)
    decreases t, |s| - i, 1
  {
    hide Reach; hide CodeAt; hide Gen; hide Agrees; hide GetFirst; hide HeadFail;
    hide TestOp; hide TestSize; hide Emit; hide FullSet; hide Exec;
    var p1, p2 := t.p1, t.p2;
    var cs := GetFirst(p1, FullSet()).cs;
    var b1 := Gen(p1, false, TestOf(cs), fl);
    var b2 := Gen(p2, opt, NoTest, fl);
    var jmp := if p2.TTrue? then [] else Emit(IJmp(2 + |b2|));
    var off := TestSize(cs) + |b1| + |jmp|;
    ByTestParts(code, pc, cs, b1, jmp, b2);
    TestRuns(code, s, cs, off, pc, i, stk);
    if HeadFail(p1) {
      HeadFailSound(p1, s, i);
    }
    if NextIn(s, i, cs) {
      GenAgrees(code, s, p1, false, TestOf(cs), fl, pc + TestSize(cs), i, stk);
      if Eval(p1, s, i).Fail? && Eval(p2, s, i).Match? && (Eval(p2, s, i).pos > i || s[i] in fl) {
        GetFirstSound(p2, fl, s, i);
      }
      if p2.TTrue? {
        TrueGen(opt, fl);
      } else {
        CodeAtInstr(code, pc + TestSize(cs) + |b1|, IJmp(2 + |b2|));
      }
      ByTestFirst(code, s, Eval(p1, s, i), Eval(t, s, i), opt, fl, cs, off, |b1|, |jmp|, |b2|, pc, i, stk);
    } else {
      TestSound(p1, s, i);
      GenAgrees(code, s, p2, opt, NoTest, fl, pc + off, i, stk);
      PrefixAgrees(code, s, Eval(t, s, i), opt, fl, pc, off, |b2|, i, i, stk);
    }
  }

  lemma TrueGen(opt: bool, fl: Charset)
    ensures Gen(TTrue, opt, NoTest, fl) == []
  {
  }

  /** The test was passed: the first alternative decides (r1), and the jump skips the second. */
  lemma ByTestFirst(code: Code, s: Subject, r1: Outcome, r: Outcome, opt: bool, fl: Charset, cs: Charset, off: int,
                    n1: nat, nj: nat, n2: nat, pc: nat, i: nat, stk: Stack)
    requires Context(opt, NoTest, fl, s, i, stk) && NextIn(s, i, cs)
    requires pc < |code| && code[pc] == TestOp(cs, off)
    requires Agrees(code, s, r1, false, fl, pc + TestSize(cs), n1, i, stk)
    requires if nj == 0 then n2 == 0
             else nj == 2 && pc + TestSize(cs) + n1 < |code| && code[pc + TestSize(cs) + n1] == IJmp(2 + n2)
    requires r1.Match? ==> r == r1 && r.pos <= |s|
    requires r1.Fail? ==> r.Fail? || (r == Match(i) && Excused(fl, s, i))
    ensures Agrees(code, s, r, opt, fl, pc, TestSize(cs) + n1 + nj + n2, i, stk)
  {
    hide Reach;
    var start := Run(pc, i, stk);
    var ts := TestSize(cs);
    if r1.Match? && Reach(code, s, Run(pc + ts, i, stk), Run(pc + ts + n1, r1.pos, stk)) {
      PassThen(code, s, cs, off, pc, i, stk, Run(pc + ts + n1, r1.pos, stk));
      if nj > 0 {
        ReachLast(code, s, start, IJmp(2 + n2), pc + ts + n1, r1.pos, stk);
      }
      ExactAgrees(code, s, r, opt, fl, pc, ts + n1 + nj + n2, i, stk);
    } else {
      PassThen(code, s, cs, off, pc, i, stk, Backtrack(stk));
    }
  }

  lemma {:induction false} ChoiceInOptionalAgrees(code: Code, s: Subject, t: Tree, fl: Charset, pc: nat, i: nat,
      stk: Stack)
    requires t.TChoice? && WellFormed(t) && !ChoiceByTest(t, fl) && t.p2.TTrue?
    requires CodeAt(code, pc, GenChoice(t, true, fl))
    requires Context(true, NoTest, fl, s, i, stk)
    ensures Agrees(code, s, Eval(t, s, i), true, fl, pc, |GenChoice(t, true, fl)|, i, stk)
    decreases t, |s| - i, 1
  {
    hide SetSlots; hide FullSet; hide Emit;
    hide Reach; hide CodeAt; hide Gen; hide GetFirst; hide ChoiceByTest;
    var b1 := Gen(t.p1, true, NoTest, FullSet());
    CodeAtCons(code, pc, IPartialCommit(2), b1);
    var stk1 := Entry(i, stk.p, stk.below);
    GenAgrees(code, s, t.p1, true, NoTest, FullSet(), pc + 2, i, stk1);
    forall z | Reach(code, s, Run(pc + 2, i, stk1), z)
      ensures Reach(code, s, Run(pc, i, stk), z)
    {
      ReachThen(code, s, IPartialCommit(2), pc, i, stk, z);
    }
    assert Eval(t.p1, s, i).Fail? ==> Eval(t, s, i) == Match(i);
  }

  function ChoiceCore(b1: Code, b2: Code): Code {
    Emit(IChoice(4 + |b1|)) + (b1 + (Emit(ICommit(2 + |b2|)) + b2))
  }

  lemma CoreParts(code: Code, pc: nat, b1: Code, b2: Code)
    requires CodeAt(code, pc, ChoiceCore(b1, b2))
    ensures pc < |code| && code[pc] == IChoice(4 + |b1|) && CodeAt(code, pc + 2, b1)
    ensures pc + 2 + |b1| < |code| && code[pc + 2 + |b1|] == ICommit(2 + |b2|)
    ensures CodeAt(code, pc + 4 + |b1|, b2)
  {
    hide CodeAt;
    CodeAtCons(code, pc, IChoice(4 + |b1|), b1 + (Emit(ICommit(2 + |b2|)) + b2));
    CodeAtSplit(code, pc + 2, b1, Emit(ICommit(2 + |b2|)) + b2);
    CodeAtCons(code, pc + 2 + |b1|, ICommit(2 + |b2|), b2);
  }

  lemma {:induction false} ChoiceAgrees(code: Code, s: Subject, t: Tree, opt: bool, fl: Charset, pc: nat, i: nat,
      stk: Stack)
    requires t.TChoice? && WellFormed(t) && !ChoiceByTest(t, fl) && !(opt && t.p2.TTrue?)
    requires CodeAt(code, pc, GenChoice(t, opt, fl))
    requires Context(opt, NoTest, fl, s, i, stk)
    ensures Agrees(code, s, Eval(t, s, i), opt, fl, pc, |GenChoice(t, opt, fl)|, i, stk)
    decreases t, |s| - i, 1
  {
    hide Reach; hide CodeAt; hide Gen; hide Agrees; hide GetFirst; hide ChoiceByTest;
    hide TestOp; hide TestSize; hide Emit; hide FullSet; hide Exec; hide SetSlots; hide Backtrack;
    var p1, p2 := t.p1, t.p2;
    var f1 := GetFirst(p1, FullSet());
    var tt1 := if f1.e then NoTest else TestOf(f1.cs);
    var b1 := Gen(p1, p2.TTrue?, tt1, FullSet());
    var b2 := Gen(p2, opt, NoTest, fl);
    var core := ChoiceCore(b1, b2);
    if f1.e {
      CoreAgrees(code, s, t, opt, tt1, fl, pc, i, stk);
    } else {
      var ts := TestSize(f1.cs);
      var off := ts + 4 + |b1|;
      CodeAtTest(code, pc, f1.cs, off, core);
      TestRuns(code, s, f1.cs, off, pc, i, stk);
      if NextIn(s, i, f1.cs) {
        CoreAgrees(code, s, t, opt, tt1, fl, pc + ts, i, stk);
        PrefixAgrees(code, s, Eval(t, s, i), opt, fl, pc, ts, |core|, i, i, stk);
      } else {
        TestSound(p1, s, i);
        CoreParts(code, pc + ts, b1, b2);
        GenAgrees(code, s, p2, opt, NoTest, fl, pc + off, i, stk);
        PrefixAgrees(code, s, Eval(t, s, i), opt, fl, pc, off, |b2|, i, i, stk);
      }
    }
  }

  lemma {:induction false} CoreAgrees(code: Code, s: Subject, t: Tree, opt: bool, tt1: Test, fl: Charset, pc: nat,
      i: nat, stk: Stack)
    requires t.TChoice? && WellFormed(t)
    requires CodeAt(code, pc, ChoiceCore(Gen(t.p1, t.p2.TTrue?, tt1, FullSet()), Gen(t.p2, opt, NoTest, fl)))
    requires Context(opt, tt1, fl, s, i, stk)
    ensures Agrees(code, s, Eval(t, s, i), opt, fl, pc,
                   |ChoiceCore(Gen(t.p1, t.p2.TTrue?, tt1, FullSet()), Gen(t.p2, opt, NoTest, fl))|, i, stk)
    decreases t, |s| - i, 0
  {
    hide SetSlots; hide FullSet; hide Emit;
    hide Reach; hide CodeAt; hide Gen; hide Agrees;
    var p1, p2 := t.p1, t.p2;
    var b1 := Gen(p1, p2.TTrue?, tt1, FullSet());
    var b2 := Gen(p2, opt, NoTest, fl);
    CoreParts(code, pc, b1, b2);
    var l1 := pc + 4 + |b1|;
    var stk1 := Entry(i, l1, stk);
    GenAgrees(code, s, p1, p2.TTrue?, tt1, FullSet(), pc + 2, i, stk1);
    if p2.TTrue? {
      TrueGen(opt, fl);
    }
    CoreFirst(code, s, Eval(p1, s, i), p2.TTrue?, |b1|, |b2|, pc, i, stk);
    if Eval(p1, s, i).Match? {
      ExactAgrees(code, s, Eval(t, s, i), opt, fl, pc, |ChoiceCore(b1, b2)|, i, stk);
    } else {
      GenAgrees(code, s, p2, opt, NoTest, fl, l1, i, stk);
      PrefixAgrees(code, s, Eval(t, s, i), opt, fl, pc, 4 + |b1|, |b2|, i, i, stk);
    }
  }

  /** choice L1; p1; commit L2; L1: -- with the code of p1 as the end of an optional pattern or not. */
  lemma CoreFirst(code: Code, s: Subject, r1: Outcome, opt1: bool, n1: nat, n2: nat, pc: nat, i: nat, stk: Stack)
    requires i <= |s| && (r1.Match? ==> r1.pos <= |s|)
    requires pc + 2 + n1 < |code| && code[pc] == IChoice(4 + n1) && code[pc + 2 + n1] == ICommit(2 + n2)
    requires Agrees(code, s, r1, opt1, FullSet(), pc + 2, n1, i, Entry(i, pc + 4 + n1, stk))
    requires opt1 ==> n2 == 0
    ensures Reach(code, s, Run(pc, i, stk),
                  match r1 case Fail => Run(pc + 4 + n1, i, stk) case Match(j) => Run(pc + 4 + n1 + n2, j, stk))
  {
    hide Reach;
    var start := Run(pc, i, stk);
    var l1 := pc + 4 + n1;
    var m1 := Run(pc + 2, i, Entry(i, l1, stk));
    if r1.Fail? {
      ReachThen(code, s, IChoice(4 + n1), pc, i, stk, Run(l1, i, stk));
    } else if opt1 && Reach(code, s, m1, Run(l1, r1.pos, stk)) {
      ReachThen(code, s, IChoice(4 + n1), pc, i, stk, Run(l1, r1.pos, stk));
    } else {
      var s1: nat :| Reach(code, s, m1, Run(pc + 2 + n1, r1.pos, Entry(s1, l1, stk)));
      ReachThen(code, s, IChoice(4 + n1), pc, i, stk, Run(pc + 2 + n1, r1.pos, Entry(s1, l1, stk)));
      ReachLast(code, s, start, ICommit(2 + n2), pc + 2 + n1, r1.pos, Entry(s1, l1, stk));
    }
  }

  // ----- repetition -----

  lemma {:induction false} SpanIsRep(t: Tree, s: Subject, i: nat)
    requires t.TRep? && t.body.TSet? && i <= |s|
    ensures Eval(t, s, i) == Match(SpanEnd(s, i, t.body.cs))
    decreases |s| - i
  {
    if i < |s| && s[i] in t.body.cs {
      SpanIsRep(t, s, i + 1);
    }
  }

  /** L1: test -> L2; any; jmp L1; L2: */
  lemma {:induction false} CharLoop(code: Code, s: Subject, t: Tree, test: Instr, pc: nat, i: nat, stk: Stack)
    requires t.TRep? && (t.body.TAny? || t.body.TChar?) && i <= |s|
    requires pc + 5 <= |code| && code[pc + 2] == IAny && code[pc + 3] == IJmp(-3) && code[pc] == test
    requires test == if t.body.TAny? then ITestAny(5) else ITestChar(t.body.c, 5)
    ensures Eval(t, s, i).Match?
    ensures Reach(code, s, Run(pc, i, stk), Run(pc + 5, Eval(t, s, i).pos, stk))
    decreases |s| - i
  {
    hide Reach;
    if Eval(t.body, s, i).Match? {
      CharLoop(code, s, t, test, pc, i + 1, stk);
      var z := Run(pc + 5, Eval(t, s, i).pos, stk);
      ReachThen(code, s, IJmp(-3), pc + 3, i + 1, stk, z);
      ReachThen(code, s, IAny, pc + 2, i, stk, z);
      ReachThen(code, s, test, pc, i, stk, z);
    } else {
      ReachExec(code, s, test, pc, i, stk);
    }
  }

  lemma {:induction false} RepCharsetAgrees(code: Code, s: Subject, t: Tree, opt: bool, fl: Charset, pc: nat, i: nat,
      stk: Stack)
    requires t.TRep? && WellFormed(t) && RepByCharset(t)
    requires CodeAt(code, pc, GenRep(t, opt, fl))
    requires Context(opt, NoTest, fl, s, i, stk)
    ensures Agrees(code, s, Eval(t, s, i), opt, fl, pc, |GenRep(t, opt, fl)|, i, stk)
  {
    hide SetSlots; hide FullSet; hide Emit;
    hide Reach; hide CodeAt; hide Agrees;
    if t.body.TFalse? {
      assert Eval(t.body, s, i) == Fail;
      ReachRefl(code, s, Run(pc, i, stk));
    } else if t.body.TSet? {
      CodeAtInstr(code, pc, ISpan(t.body.cs, SetSlots(t.body.cs)));
      SpanIsRep(t, s, i);
      ReachExec(code, s, ISpan(t.body.cs, SetSlots(t.body.cs)), pc, i, stk);
      assert |GenRep(t, opt, fl)| == Slots(ISpan(t.body.cs, SetSlots(t.body.cs)));
    } else {
      var test := if t.body.TAny? then ITestAny(5) else ITestChar(t.body.c, 5);
      CodeAtCons(code, pc, test, Emit(IAny) + Emit(IJmp(-3)));
      CodeAtCons(code, pc + 2, IAny, Emit(IJmp(-3)));
      CodeAtInstr(code, pc + 3, IJmp(-3));
      assert pc + 5 <= |code| by {
        CodeAtEnd(code, pc + 3, Emit(IJmp(-3)));
      }
      CharLoop(code, s, t, test, pc, i, stk);
      assert |GenRep(t, opt, fl)| == 5;
    }
    ExactAgrees(code, s, Eval(t, s, i), opt, fl, pc, |GenRep(t, opt, fl)|, i, stk);
  }

  lemma CodeAtEnd(code: Code, pc: nat, b: Code)
    requires CodeAt(code, pc, b)
    ensures pc + |b| <= |code|
  {
  }

  lemma {:induction false} RepByTestAgrees(code: Code, s: Subject, t: Tree, opt: bool, fl: Charset, pc: nat, i: nat,
      stk: Stack)
    requires t.TRep? && WellFormed(t) && !RepByCharset(t) && RepByTest(t, fl)
    requires CodeAt(code, pc, GenRep(t, opt, fl))
    requires Context(opt, NoTest, fl, s, i, stk)
    ensures Agrees(code, s, Eval(t, s, i), opt, fl, pc, |GenRep(t, opt, fl)|, i, stk)
    decreases t, |s| - i, 1
  {
    hide Reach; hide CodeAt; hide Gen; hide Agrees; hide GetFirst; hide HeadFail;
    hide TestOp; hide TestSize; hide Emit; hide FullSet;
    var cs := GetFirst(t.body, FullSet()).cs;
    var b := Gen(t.body, false, TestOf(cs), FullSet());
    var ts := TestSize(cs);
    var n := ts + |b|;
    CodeAtTest(code, pc, cs, n + 2, b + Emit(IJmp(-n)));
    CodeAtSnoc(code, pc + ts, b, IJmp(-n));
    TestRuns(code, s, cs, n + 2, pc, i, stk);
    if HeadFail(t.body) {
      HeadFailSound(t.body, s, i);
    }
    if !NextIn(s, i, cs) {
      TestSound(t.body, s, i);
      ExactAgrees(code, s, Eval(t, s, i), opt, fl, pc, n + 2, i, stk);
    } else {
      ExactRun(code, s, t.body, TestOf(cs), pc + ts, i, stk);
      match Eval(t.body, s, i)
      case Fail =>
        PassThen(code, s, cs, n + 2, pc, i, stk, Backtrack(stk));
        ExcusedAgrees(code, s, opt, fl, pc, n + 2, i, stk);
      case Match(j) =>
        if j == i {
          NullableSound(t.body, s, i);
        }
        PassThen(code, s, cs, n + 2, pc, i, stk, Run(pc + n, j, stk));
        ReachLast(code, s, Run(pc, i, stk), IJmp(-n), pc + n, j, stk);
        RepByTestAgrees(code, s, t, opt, fl, pc, j, stk);
        PrefixAgrees(code, s, Eval(t, s, i), opt, fl, pc, 0, n + 2, i, j, stk);
    }
  }

  /** An excused failure instead of an empty match. */
  lemma ExcusedAgrees(code: Code, s: Subject, opt: bool, fl: Charset, pc: nat, len: nat, i: nat, stk: Stack)
    requires Excused(fl, s, i) && (opt ==> fl == FullSet())
    requires Reach(code, s, Run(pc, i, stk), Backtrack(stk))
    ensures Agrees(code, s, Match(i), opt, fl, pc, len, i, stk)
  {
  }

  /** L1: <p>; partialcommit L1, entered with a choice that saves the current position. */
  lemma {:induction false} RepLoop(code: Code, s: Subject, t: Tree, b: Code, l1: nat, i: nat, exit: int, below: Stack)
    requires t.TRep? && WellFormed(t) && i <= |s|
    requires b == Gen(t.body, false, NoTest, FullSet())
    requires CodeAt(code, l1, b) && l1 + |b| < |code| && code[l1 + |b|] == IPartialCommit(-|b|)
    ensures Eval(t, s, i).Match?
    ensures Reach(code, s, Run(l1, i, Entry(i, exit, below)), Run(exit, Eval(t, s, i).pos, below))
    decreases t, |s| - i, 0
  {
    hide Reach; hide CodeAt; hide Gen;
    var stk := Entry(i, exit, below);
    ExactRun(code, s, t.body, NoTest, l1, i, stk);
    match Eval(t.body, s, i)
    case Fail =>
    case Match(j) =>
      if j == i {
        NullableSound(t.body, s, i);
      }
      RepLoop(code, s, t, b, l1, j, exit, below);
      var z := Run(exit, Eval(t, s, i).pos, below);
      ReachThen(code, s, IPartialCommit(-|b|), l1 + |b|, j, stk, z);
      ReachTrans(code, s, Run(l1, i, stk), Run(l1 + |b|, j, stk), z);
  }

  function RepCore(b: Code, opt: bool): Code {
    Emit(if opt then IPartialCommit(2) else IChoice(4 + |b|)) + (b + Emit(IPartialCommit(-|b|)))
  }

  lemma {:induction false} RepAgrees(code: Code, s: Subject, t: Tree, opt: bool, fl: Charset, pc: nat, i: nat,
      stk: Stack)
    requires t.TRep? && WellFormed(t) && !RepByCharset(t) && !RepByTest(t, fl)
    requires CodeAt(code, pc, GenRep(t, opt, fl))
    requires Context(opt, NoTest, fl, s, i, stk)
    ensures Agrees(code, s, Eval(t, s, i), opt, fl, pc, |GenRep(t, opt, fl)|, i, stk)
    decreases t, |s| - i, 2
  {
    hide Reach; hide CodeAt; hide Gen; hide Agrees; hide GetFirst; hide RepByTest;
    hide TestOp; hide TestSize; hide Emit; hide Slots; hide FullSet; hide Exec;
    var f := GetFirst(t.body, FullSet());
    var core := RepCore(Gen(t.body, false, NoTest, FullSet()), opt);
    if f.e {
      RepCoreAgrees(code, s, t, opt, fl, pc, i, stk);
    } else {
      var ts := TestSize(f.cs);
      CodeAtTest(code, pc, f.cs, ts + |core|, core);
      TestRuns(code, s, f.cs, ts + |core|, pc, i, stk);
      if NextIn(s, i, f.cs) {
        RepCoreAgrees(code, s, t, opt, fl, pc + ts, i, stk);
        PrefixAgrees(code, s, Eval(t, s, i), opt, fl, pc, ts, |core|, i, i, stk);
      } else {
        TestSound(t.body, s, i);
        ExactAgrees(code, s, Eval(t, s, i), opt, fl, pc, ts + |core|, i, stk);
      }
    }
  }

  lemma {:induction false} RepCoreAgrees(code: Code, s: Subject, t: Tree, opt: bool, fl: Charset, pc: nat, i: nat,
      stk: Stack)
    requires t.TRep? && WellFormed(t)
    requires CodeAt(code, pc, RepCore(Gen(t.body, false, NoTest, FullSet()), opt))
    requires Context(opt, NoTest, fl, s, i, stk)
    ensures Agrees(code, s, Eval(t, s, i), opt, fl, pc, |RepCore(Gen(t.body, false, NoTest, FullSet()), opt)|, i, stk)
    decreases t, |s| - i, 1
  {
    hide Reach; hide CodeAt; hide Gen; hide Eval; hide Emit; hide FullSet; hide WellFormed;
    var b := Gen(t.body, false, NoTest, FullSet());
    var enter := if opt then IPartialCommit(2) else IChoice(4 + |b|);
    CodeAtCons(code, pc, enter, b + Emit(IPartialCommit(-|b|)));
    CodeAtSnoc(code, pc + 2, b, IPartialCommit(-|b|));
    var exit, below := if opt then stk.p else pc + 4 + |b|, if opt then stk.below else stk;
    RepLoop(code, s, t, b, pc + 2, i, exit, below);
    ReachThen(code, s, enter, pc, i, stk, Run(exit, Eval(t, s, i).pos, below));
  }

  // ----- predicates -----

  function NotCore(t: Tree): Code
    requires t.TNot?
  {
    var b := Gen(t.body, false, NoTest, FullSet());
    if HeadFail(t.body) then Emit(IFail) else Emit(IChoice(3 + |b|)) + (b + Emit(IFailTwice))
  }

  lemma {:induction false} NotAgrees(code: Code, s: Subject, t: Tree, opt: bool, fl: Charset, pc: nat, i: nat,
      stk: Stack)
    requires t.TNot? && WellFormed(t)
    requires CodeAt(code, pc, GenNot(t))
    requires Context(opt, NoTest, fl, s, i, stk)
    ensures Agrees(code, s, Eval(t, s, i), opt, fl, pc, |GenNot(t)|, i, stk)
    decreases t, |s| - i, 1
  {
    hide Reach; hide CodeAt; hide Gen; hide Agrees; hide GetFirst; hide HeadFail;
    hide TestOp; hide TestSize; hide Emit; hide Slots; hide FullSet; hide Exec;
    var f := GetFirst(t.body, FullSet());
    var core := NotCore(t);
    var ts := TestSize(f.cs);
    if f.e {
      if HeadFail(t.body) {
        HeadFailSound(t.body, s, i);
      }
      NotCoreRun(code, s, t, pc, i, stk);
    } else {
      CodeAtTest(code, pc, f.cs, ts + |core|, core);
      TestRuns(code, s, f.cs, ts + |core|, pc, i, stk);
      if NextIn(s, i, f.cs) {
        NotCoreRun(code, s, t, pc + ts, i, stk);
        PassThen(code, s, f.cs, ts + |core|, pc, i, stk, End(Eval(t, s, i), pc + ts, |core|, stk));
      } else {
        TestSound(t.body, s, i);
      }
    }
    ExactAgrees(code, s, Eval(t, s, i), opt, fl, pc, |GenNot(t)|, i, stk);
  }

  lemma {:induction false} NotCoreRun(code: Code, s: Subject, t: Tree, pc: nat, i: nat, stk: Stack)
    requires t.TNot? && WellFormed(t) && i <= |s|
    requires CodeAt(code, pc, NotCore(t))
    requires HeadFail(t.body) ==> NextIn(s, i, GetFirst(t.body, FullSet()).cs)
    ensures Reach(code, s, Run(pc, i, stk), End(Eval(t, s, i), pc, |NotCore(t)|, stk))
    decreases t, |s| - i, 0
  {
    hide Reach; hide CodeAt; hide Gen; hide GetFirst; hide HeadFail;
    hide Emit; hide FullSet;
    if HeadFail(t.body) {
      HeadFailSound(t.body, s, i);
      CodeAtInstr(code, pc, IFail);
      ReachExec(code, s, IFail, pc, i, stk);
    } else {
      var b := Gen(t.body, false, NoTest, FullSet());
      CodeAtCons(code, pc, IChoice(3 + |b|), b + Emit(IFailTwice));
      CodeAtSnoc(code, pc + 2, b, IFailTwice);
      var stk1 := Entry(i, pc + 3 + |b|, stk);
      ExactRun(code, s, t.body, NoTest, pc + 2, i, stk1);
      ReachThen(code, s, IChoice(3 + |b|), pc, i, stk, End(Eval(t.body, s, i), pc + 2, |b|, stk1));
      if Eval(t.body, s, i).Match? {
        ReachLast(code, s, Run(pc, i, stk), IFailTwice, pc + 2 + |b|, Eval(t.body, s, i).pos, stk1);
      }
    }
  }

  lemma {:induction false} AndAgrees(code: Code, s: Subject, t: Tree, opt: bool, tt: Test, fl: Charset, pc: nat, i: nat,
      stk: Stack)
    requires t.TAnd? && WellFormed(t)
    requires CodeAt(code, pc, GenAnd(t, tt))
    requires Context(opt, tt, fl, s, i, stk)
    ensures Agrees(code, s, Eval(t, s, i), opt, fl, pc, |GenAnd(t, tt)|, i, stk)
    decreases t, |s| - i, 1
  {
    hide Reach, CodeAt, Gen, Agrees, FixedLen, Emit, FullSet, Exec, SetSlots, TestHolds;
    var n := FixedLen(t.body);
    var b := Gen(t.body, false, tt, FullSet());
    if 0 <= n <= MAXBEHIND {
      AndByLength(code, s, t, tt, b, n, pc, i, stk);
    } else {
      AndParts(code, pc, b);
      ExactRun(code, s, t.body, tt, pc + 2, i, Entry(i, pc + 4 + |b|, stk));
      AndByChoice(code, s, Eval(t.body, s, i), |b|, pc, i, stk);
    }
    ExactAgrees(code, s, Eval(t, s, i), opt, fl, pc, |GenAnd(t, tt)|, i, stk);
  }

  function AndCore(b: Code): Code {
    Emit(IChoice(4 + |b|)) + (b + (Emit(IBackCommit(3)) + Emit(IFail)))
  }

  lemma AndParts(code: Code, pc: nat, b: Code)
    requires CodeAt(code, pc, AndCore(b))
    ensures pc + 4 + |b| < |code| && code[pc] == IChoice(4 + |b|) && CodeAt(code, pc + 2, b)
    ensures code[pc + 2 + |b|] == IBackCommit(3) && code[pc + 4 + |b|] == IFail
    ensures |AndCore(b)| == 5 + |b|
  {
    hide CodeAt; hide Emit;
    CodeAtCons(code, pc, IChoice(4 + |b|), b + (Emit(IBackCommit(3)) + Emit(IFail)));
    CodeAtSplit(code, pc + 2, b, Emit(IBackCommit(3)) + Emit(IFail));
    CodeAtCons(code, pc + 2 + |b|, IBackCommit(3), Emit(IFail));
    CodeAtInstr(code, pc + 4 + |b|, IFail);
  }

  /** <p>; behind n -- when every match of p has length n. */
  lemma {:induction false} AndByLength(code: Code, s: Subject, t: Tree, tt: Test, b: Code, n: nat, pc: nat, i: nat,
      stk: Stack)
    requires t.TAnd? && WellFormed(t) && FixedLen(t.body) == n
    requires b == Gen(t.body, false, tt, FullSet())
    requires CodeAt(code, pc, b + (if n > 0 then Emit(IBehind(n)) else []))
    requires Context(false, tt, FullSet(), s, i, stk)
    ensures Reach(code, s, Run(pc, i, stk), End(Eval(t, s, i), pc, |b| + (if n > 0 then 1 else 0), stk))
    decreases t, |s| - i, 0
  {
    hide Reach; hide CodeAt; hide Gen; hide FixedLen; hide Emit; hide FullSet;
    CodeAtSplit(code, pc, b, if n > 0 then Emit(IBehind(n)) else []);
    ExactRun(code, s, t.body, tt, pc, i, stk);
    if Eval(t.body, s, i).Match? {
      FixedLenSound(t.body, s, i);
      if n > 0 {
        CodeAtInstr(code, pc + |b|, IBehind(n));
        ReachLast(code, s, Run(pc, i, stk), IBehind(n), pc + |b|, i + n, stk);
      }
    }
  }

  /** choice L1; p; backcommit L2; L1: fail; L2: -- when p gives r. */
  lemma AndByChoice(code: Code, s: Subject, r: Outcome, n: nat, pc: nat, i: nat, stk: Stack)
    requires i <= |s| && (r.Match? ==> r.pos <= |s|)
    requires pc + 4 + n < |code| && code[pc] == IChoice(4 + n)
    requires code[pc + 2 + n] == IBackCommit(3) && code[pc + 4 + n] == IFail
    requires Reach(code, s, Run(pc + 2, i, Entry(i, pc + 4 + n, stk)), End(r, pc + 2, n, Entry(i, pc + 4 + n, stk)))
    ensures Reach(code, s, Run(pc, i, stk), End(if r.Match? then Match(i) else Fail, pc, n + 5, stk))
  {
    hide Reach;
    var stk1 := Entry(i, pc + 4 + n, stk);
    ReachThen(code, s, IChoice(4 + n), pc, i, stk, End(r, pc + 2, n, stk1));
    if r.Match? {
      ReachLast(code, s, Run(pc, i, stk), IBackCommit(3), pc + 2 + n, r.pos, stk1);
    } else {
      ReachLast(code, s, Run(pc, i, stk), IFail, pc + 4 + n, i, stk);
    }
  }

  lemma {:induction false} BehindAgrees(code: Code, s: Subject, t: Tree, opt: bool, fl: Charset, pc: nat, i: nat,
      stk: Stack)
    requires t.TBehind? && WellFormed(t)
    requires CodeAt(code, pc, GenBehind(t))
    requires Context(opt, NoTest, fl, s, i, stk)
    ensures Agrees(code, s, Eval(t, s, i), opt, fl, pc, |GenBehind(t)|, i, stk)
    decreases t, |s| - i, 1
  {
    hide Reach; hide CodeAt; hide Gen; hide Agrees; hide Emit; hide FullSet; hide FixedLen;
    var b := Gen(t.body, false, NoTest, FullSet());
    var back := if t.n > 0 then Emit(IBehind(t.n)) else [];
    CodeAtSplit(code, pc, back, b);
    if t.n > 0 {
      CodeAtInstr(code, pc, IBehind(t.n));
    }
    if t.n <= i {
      ExactRun(code, s, t.body, NoTest, pc + |back|, i - t.n, stk);
      if Eval(t.body, s, i - t.n).Match? {
        FixedLenSound(t.body, s, i - t.n);
      }
      if t.n > 0 {
        ReachThen(code, s, IBehind(t.n), pc, i, stk, End(Eval(t, s, i), pc, 1 + |b|, stk));
      }
    } else {
      ReachExec(code, s, IBehind(t.n), pc, i, stk);
    }
    ExactAgrees(code, s, Eval(t, s, i), opt, fl, pc, |GenBehind(t)|, i, stk);
  }

  // ----- whole programs -----

  /**
   Compiler correctness: on every subject and from every start position the machine halts on the
   compiled code, with exactly the result that the pattern means.
   */
  lemma CompileCorrect(t: Tree, s: Subject, start: nat)
    requires WellFormed(t) && start <= |s|
    ensures Reach(Compile(t), s, Initial(start), Halt(Eval(t, s, start)))
  {
    hide Reach; hide Gen; hide Eval;
    var code := Compile(t);
    var b := Gen(t, false, NoTest, FullSet());
    var stk := Entry(start, GIVEUP, Bottom);
    assert code[0..|code|] == code;
    CodeAtSnoc(code, 0, b, IEnd);
    ExactRun(code, s, t, NoTest, 0, start, stk);
    var m := End(Eval(t, s, start), 0, |b|, stk);
    ReachStep(code, s, m);
    ReachTrans(code, s, Initial(start), m, Step(code, s, m));
  }
}
