/**
 The compiler of lpcode.c as it works: it appends instructions to the code array, patches their
 offsets in place, and finally runs the peephole loop over the array; and the interpreter loop of
 lpvm.c. Both are proved against the functional model.
 */
module PegCompiler {
  import opened Prelude
  import opened PegTree
  import opened PegCharset
  import opened PegCode
  import opened PegVm
  import opened PegCorrect
  import opened PegPeephole
  import opened PegLayout

  const NOINST := -1

  /** The test that instruction index tt stands for; its offset is irrelevant. */
  function TestAt(code: Code, tt: int): Test
    requires tt < |code| && (tt >= 0 ==> code[tt].HasLabel())
  {
    if tt < 0 then NoTest else Tested(code[tt].WithOffset(0))
  }

  /** A rank for every slot; it decreases along every chain of jumps. */
  ghost predicate Ranked(code: Code, rank: seq<nat>) {
    && |rank| == |code|
    && forall k :: 0 <= k < |code| && code[k].IJmp? && 0 <= k + code[k].off < |code| && code[k + code[k].off].IJmp? ==>
         rank[k + code[k].off] < rank[k]
  }

  ghost function RankAt(code: Code, k: nat): nat
    requires LabelsOk(code) && k < |code|
  {
    if code[k].IJmp? then (assert LabelOk(code, k); |code| - Progress(code, k)) else 0
  }

  ghost function RankOf(code: Code): (r: seq<nat>)
    requires LabelsOk(code)
    ensures Ranked(code, r)
  {
    var r := seq(|code|, k requires 0 <= k < |code| => RankAt(code, k));
    assert Ranked(code, r) by {
      forall k | 0 <= k < |code| && code[k].IJmp? && 0 <= k + code[k].off < |code| && code[k + code[k].off].IJmp?
        ensures r[k + code[k].off] < r[k]
      {
        assert LabelOk(code, k);
        assert LabelOk(code, k + code[k].off);
      }
    }
    r
  }

  /** finaltarget */
  method FinalTarget(code: Code, i: nat, ghost rank: seq<nat>) returns (r: nat)
    requires i < |code| && ProgramOk(code) && Ranked(code, rank) && code[i] != IPad
    ensures r < |code| && !code[r].IJmp? && code[r] != IPad
    ensures Leads(code, i, r)
  {
    hide Leads;
    r := i;
    LeadsRefl(code, i);
    while code[r].IJmp?
      invariant r < |code| && code[r] != IPad && Leads(code, i, r)
      decreases code[r].IJmp?, rank[r]
    {
      LeadsMore(code, i, r);
      r := r + code[r].off;
    }
  }

  /** Code that agrees from i on parses alike. */
  lemma {:induction false} ParsesSame(a: Code, b: Code, i: nat)
    requires i <= |a| == |b| && a[i..] == b[i..] && ParsesFrom(a, i)
    ensures ParsesFrom(b, i)
    decreases |a| - i
  {
    if i < |a| {
      assert forall k :: i <= k < |a| ==> a[k] == a[i..][k - i] && b[k] == b[i..][k - i];
      var j := i + Slots(a[i]);
      assert a[j..] == a[i..][j - i..] && b[j..] == b[i..][j - i..];
      ParsesSame(a, b, j);
    }
  }

  /** What the peephole loop keeps about the code from address i on. */
  ghost predicate PeepholeInv(code: Code, i: nat, rank: seq<nat>) {
    i <= |code| && ParsesFrom(code, i) && ProgramOk(code) && Ranked(code, rank)
  }

  /** Instructions that a jump is replaced by. */
  predicate Copied(op: Instr) {
    op.IFail? || op.IFailTwice? || op.IEnd? || op.ICommit? || op.IPartialCommit? || op.IBackCommit?
  }

  /** The label of instruction j leads to no jump, and a jump leads to nothing it could be replaced by. */
  predicate Straight(code: Code, j: nat)
    requires j < |code|
  {
    code[j].HasLabel() ==>
      && 0 <= j + code[j].off < |code| && code[j + code[j].off] != IPad && !code[j + code[j].off].IJmp?
      && (code[j].IJmp? ==> !Copied(code[j + code[j].off]))
  }

  ghost predicate StraightTo(code: Code, i: nat)
    requires i <= |code|
  {
    forall j :: 0 <= j < i ==> Straight(code, j)
  }

  /** Optimising the instruction at i leaves those before it as they are. */
  ghost predicate OnlyAt(a: Code, b: Code, i: nat)
    requires i < |a| == |b|
  {
    && (forall k :: 0 <= k < |a| && k != i && a[k] != IPad ==> b[k] == a[k])
    && (forall k :: 0 <= k < |a| && k != i && a[k] == IPad ==> b[k] in {IPad, IEmpty})
    && (a[i].IJmp? || (a[i] != IPad && a[i].HasLabel() && exists o :: b[i] == a[i].WithOffset(o)))
  }

  lemma StraightKept(a: Code, b: Code, i: nat)
    requires i < |a| == |b| && StraightTo(a, i) && OnlyAt(a, b, i)
    ensures StraightTo(b, i)
  {
    forall j | 0 <= j < i ensures Straight(b, j) {
      assert Straight(a, j);
      if b[j].HasLabel() {
        assert a[j] == b[j];
      }
    }
  }

  /** The slots of an instruction behind its first hold no label. */
  lemma StraightSlots(code: Code, i: nat)
    requires i < |code| && StraightTo(code, i) && Straight(code, i) && i + Slots(code[i]) <= |code|
    requires forall k :: i < k < i + Slots(code[i]) ==> !code[k].HasLabel()
    ensures StraightTo(code, i + Slots(code[i]))
  {
  }

  /** Giving instruction i a new label keeps the invariant. */
  lemma RelabelKeeps(code: Code, i: nat, op: Instr, rank: seq<nat>)
    requires PeepholeInv(code, i, rank) && i < |code| && code[i].HasLabel()
    requires op.HasLabel() && Slots(op) == Slots(code[i]) && (op.IJmp? ==> code[i].IJmp?)
    requires 0 <= i + op.off < |code| && code[i + op.off] != IPad && (op.IJmp? ==> !code[i + op.off].IJmp?)
    ensures PeepholeInv(code[i := op], i, rank) && code[i + 1] == IPad
  {
    hide Slots; hide ParsesFrom;
    var c := code[i := op];
    LabelParses(code, i);
    var j := i + Slots(op);
    assert code[j..] == c[j..];
    ParsesSame(code, c, j);
    ParsesAt(c, i);
  }

  /** The first instruction at i, and what follows it. */
  lemma LabelParses(code: Code, i: nat)
    requires i < |code| && ParsesFrom(code, i)
    ensures var j := i + Slots(code[i]);
            j <= |code| && ParsesFrom(code, j) && (forall k :: i < k < j ==> code[k] == IPad) && code[i] != IPad
    ensures code[i].HasLabel() ==> i + 1 < |code| && code[i + 1] == IPad
  {
  }

  lemma ParsesAt(code: Code, i: nat)
    requires i < |code| && code[i] != IPad && i + Slots(code[i]) <= |code|
    requires forall k :: i < k < i + Slots(code[i]) ==> code[k] == IPad
    requires ParsesFrom(code, i + Slots(code[i]))
    ensures ParsesFrom(code, i)
  {
  }

  /** Replacing jump i by a one-slot instruction and a filler keeps the invariant. */
  lemma ReplaceKeeps(code: Code, i: nat, op: Instr, rank: seq<nat>)
    requires PeepholeInv(code, i, rank) && i < |code| && code[i].IJmp? && Terminal(op)
    ensures i + 1 < |code| && PeepholeInv(code[i := op][i + 1 := IEmpty], i, rank) && code[i + 1] == IPad
  {
    hide ParsesFrom, ProgramOk, Ranked, Slots;
    LabelParses(code, i);
    ReplaceParses(code, i, op);
    ReplaceOk(code, i, op, rank);
  }

  lemma ReplaceParses(code: Code, i: nat, op: Instr)
    requires i + 1 < |code| && code[i].IJmp? && Terminal(op) && ParsesFrom(code, i)
    ensures ParsesFrom(code[i := op][i + 1 := IEmpty], i)
  {
    hide ParsesFrom;
    LabelParses(code, i);
    var c := code[i := op][i + 1 := IEmpty];
    assert code[i + 2..] == c[i + 2..];
    ParsesSame(code, c, i + 2);
    ParsesAt(c, i + 1);
    ParsesAt(c, i);
  }

  lemma ReplaceOk(code: Code, i: nat, op: Instr, rank: seq<nat>)
    requires i + 1 < |code| && code[i].IJmp? && code[i + 1] == IPad && Terminal(op)
    requires ProgramOk(code) && Ranked(code, rank)
    ensures var c := code[i := op][i + 1 := IEmpty]; ProgramOk(c) && Ranked(c, rank)
  {
  }

  /** A jump at i that ends at ft may become op. */
  lemma JumpRefines(code: Code, code2: Code, i: nat, ft: nat, op: Instr)
    requires i + 1 < |code| && code[i].IJmp? && code[i + 1] == IPad
    requires ft < |code| && !code[ft].IJmp? && Leads(code, i, ft)
    requires JumpRewrite(code, code[ft], ft, op, i)
    requires code2 == code[i := op] || code2 == code[i := op][i + 1 := IEmpty]
    ensures Refines(code, code2)
  {
    hide Leads; hide Refines; hide JumpRewrite;
    RewriteRefines(code, code2, i);
  }

  /** Some code array that computes what the pattern means, on every subject and start position. */
  ghost predicate Implements(code: Code, t: Tree) {
    forall s: Subject, start: nat :: start <= |s| ==> Reach(code, s, Initial(start), Halt(Eval(t, s, start)))
  }

  /** Patching the offset of an instruction inside of the code. */
  lemma PatchAt(pre: Code, op: Instr, post: Code, o: int)
    requires op.HasLabel()
    ensures (pre + (Emit(op) + post))[|pre|] == op
    ensures (pre + (Emit(op) + post))[|pre| := op.WithOffset(o)] == pre + (Emit(op.WithOffset(o)) + post)
  {
    var a, b := Emit(op), Emit(op.WithOffset(o));
    assert a[0 := op.WithOffset(o)] == b;
  }

  class CompileState {
    var code: Code

    constructor ()
      ensures code == []
    {
      code := [];
    }

    /** addinstruction, addoffsetinst and addcharset: the offset of the new instruction is still open. */
    method AddInstruction(op: Instr) returns (i: nat)
      modifies this
      ensures i == |old(code)| && code == old(code) + Emit(op)
    {
      i := |code|;
      code := code + Emit(op);
    }

    /** jumptothere: patch instruction i (if there is one) to jump to the target. */
    method JumpToThere(i: int, target: nat, ghost pre: Code, ghost op: Instr, ghost post: Code)
      requires i >= 0 ==> i == |pre| && op.HasLabel() && code == pre + (Emit(op) + post)
      modifies this
      ensures i >= 0 ==> code == pre + (Emit(op.WithOffset(target - i)) + post)
      ensures i < 0 ==> code == old(code)
    {
      if i >= 0 {
        PatchAt(pre, op, post, target - i);
        code := code[i := code[i].WithOffset(target - i)];
      }
    }

    /** jumptohere */
    method JumpToHere(i: int, ghost pre: Code, ghost op: Instr, ghost post: Code)
      requires i >= 0 ==> i == |pre| && op.HasLabel() && code == pre + (Emit(op) + post)
      modifies this
      ensures i >= 0 ==> code == pre + (Emit(op.WithOffset(Slots(op) + |post|)) + post)
      ensures i < 0 ==> code == old(code)
    {
      JumpToThere(i, |code|, pre, op, post);
    }

    /** codetestset */
    method CodeTestSet(cs: Charset, e: bool) returns (i: int)
      modifies this
      ensures e ==> i == NOINST && code == old(code)
      ensures !e ==> i == |old(code)| && code == old(code) + Emit(TestOp(cs, 0)) && TestAt(code, i) == TestOf(cs)
    {
      if e {
        i := NOINST;
      } else {
        i := AddInstruction(TestOp(cs, 0));
        TestOpOffset(cs, 0, 0);
      }
    }

    /** codegen */
    method CodeGen(t: Tree, opt: bool, tt: int, fl: Charset)
      requires tt < |code| && (tt >= 0 ==> code[tt].HasLabel())
      modifies this
      ensures code == old(code) + Gen(t, opt, TestAt(old(code), tt), fl)
      decreases t, 4
    {
      hide Emit, Slots, SetSlots, GenChoice, GenRep, GenNot, GenAnd, GenSeq, GenBehind;
      match t {
        case TChar(_) => CodeLeaf(t, opt, tt, fl);
        case TAny => CodeLeaf(t, opt, tt, fl);
        case TSet(_) => CodeLeaf(t, opt, tt, fl);
        case TTrue => CodeLeaf(t, opt, tt, fl);
        case TFalse => CodeLeaf(t, opt, tt, fl);
        case TChoice(p1, p2) => CodeChoice(t, opt, fl);
        case TRep(p) => CodeRep(t, opt, fl);
        case TBehind(n, p) => CodeBehind(t);
        case TNot(p) => CodeNot(t);
        case TAnd(p) => CodeAnd(t, tt);
        case TSeq(p1, p2) => CodeSeq(t, opt, tt, fl);
      }
    }

    /** Patterns without parts: codechar, codecharset and single instructions. */
    method CodeLeaf(t: Tree, opt: bool, tt: int, fl: Charset)
      requires t.TChar? || t.TAny? || t.TSet? || t.TTrue? || t.TFalse?
      requires tt < |code| && (tt >= 0 ==> code[tt].HasLabel())
      modifies this
      ensures code == old(code) + Gen(t, opt, TestAt(old(code), tt), fl)
    {
      hide Emit; hide Slots; hide SetSlots;
      match t {
        case TChar(c) =>
          if tt >= 0 && code[tt].ITestChar? && code[tt].c == c {
            var _ := AddInstruction(IAny);
          } else {
            var _ := AddInstruction(IChar(c));
          }
        case TAny => var _ := AddInstruction(IAny);
        case TSet(cs) =>
          if tt >= 0 && code[tt].ITestSet? && code[tt].cs == cs {
            var _ := AddInstruction(IAny);
          } else {
            var _ := AddInstruction(ISet(cs, SetSlots(cs)));
          }
        case TTrue =>
        case TFalse => var _ := AddInstruction(IFail);
      }
    }

    /** codeseq1, and the second part of the sequence. */
    method CodeSeq(t: Tree, opt: bool, tt: int, fl: Charset)
      requires t.TSeq?
      requires tt < |code| && (tt >= 0 ==> code[tt].HasLabel())
      modifies this
      ensures code == old(code) + GenSeq(t, opt, TestAt(old(code), tt), fl)
      decreases t, 1
    {
      hide Gen;
      ghost var pre := code;
      if NeedFollow(t.p1) {
        CodeGen(t.p1, false, tt, GetFirst(t.p2, fl).cs);
      } else {
        CodeGen(t.p1, false, tt, FullSet());
      }
      ghost var b1 := Gen(t.p1, false, TestAt(pre, tt), SeqFollow(t, fl));
      assert code == pre + b1;
      var tt2 := if FixedLen(t.p1) != 0 then NOINST else tt;
      CodeGen(t.p2, opt, tt2, fl);
      Regroup(pre, b1, Gen(t.p2, opt, SeqTest(t, TestAt(pre, tt)), fl));
    }

    /** codechoice */
    method CodeChoice(t: Tree, opt: bool, fl: Charset)
      requires t.TChoice?
      modifies this
      ensures code == old(code) + GenChoice(t, opt, fl)
      decreases t, 2
    {
      hide Gen;
      if ChoiceByTest(t, fl) {
        CodeChoiceByTest(t, opt, fl);
      } else if opt && t.p2.TTrue? {
        ghost var pre := code;
        var pc := AddInstruction(IPartialCommit(0));
        assert code == pre + (Emit(IPartialCommit(0)) + []);
        JumpToHere(pc, pre, IPartialCommit(0), []);
        assert code == pre + Emit(IPartialCommit(2));
        CodeGen(t.p1, true, NOINST, FullSet());
        Regroup(pre, Emit(IPartialCommit(2)), Gen(t.p1, true, NoTest, FullSet()));
      } else {
        CodeChoiceFull(t, opt, fl);
      }
    }

    /** test (fail(p1)) -> L1; p1; jmp L2; L1: p2; L2: */
    method CodeChoiceByTest(t: Tree, opt: bool, fl: Charset)
      requires t.TChoice? && ChoiceByTest(t, fl)
      modifies this
      ensures code == old(code) + GenChoice(t, opt, fl)
      decreases t, 1
    {
      hide Gen; hide TestOp; hide Emit; hide ChoiceByTest; hide GetFirst; hide FullSet; hide TestSize; hide Slots;
      ghost var pre := code;
      ghost var cs := GetFirst(t.p1, FullSet()).cs;
      ghost var b1 := Gen(t.p1, false, TestOf(cs), fl);
      ghost var b2 := Gen(t.p2, opt, NoTest, fl);
      ghost var nj := if t.p2.TTrue? then 0 else 2;
      JmpSlots(0);
      JmpSlots(2 + |b2|);
      ghost var test := Emit(TestOp(cs, TestSize(cs) + |b1| + nj));
      var jmp := CodeGuarded(t, fl);
      FinishByTest(t.p2, opt, fl, pre + (test + b1), jmp);
      ghost var rest := if t.p2.TTrue? then [] + b2 else Emit(IJmp(2 + |b2|)) + b2;
      Regroup(pre, test + b1, rest);
      Regroup(test, b1, rest);
    }

    /** L1: p2; L2: -- and the patch of the jump before it, if there is one. */
    method FinishByTest(p2: Tree, opt: bool, fl: Charset, ghost front: Code, jmp: int)
      requires if p2.TTrue? then jmp < 0 && code == front + [] else jmp == |front| && code == front + Emit(IJmp(0))
      modifies this
      ensures var b2 := Gen(p2, opt, NoTest, fl);
              code == front + if p2.TTrue? then [] + b2 else Emit(IJmp(2 + |b2|)) + b2
      decreases p2, 5
    {
      hide Gen; hide Emit;
      ghost var b2 := Gen(p2, opt, NoTest, fl);
      CodeGen(p2, opt, NOINST, fl);
      if !p2.TTrue? {
        Regroup(front, Emit(IJmp(0)), b2);
      } else {
        Regroup(front, [], b2);
      }
      JumpToHere(jmp, front, IJmp(0), b2);
    }

    /** test (fail(p1)) -> L1; p1; jmp (open); L1: -- the part before p2. */
    method CodeGuarded(t: Tree, fl: Charset) returns (jmp: int)
      requires t.TChoice?
      modifies this
      ensures var cs := GetFirst(t.p1, FullSet()).cs;
              var b1 := Gen(t.p1, false, TestOf(cs), fl);
              var j := if t.p2.TTrue? then [] else Emit(IJmp(0));
              var front := old(code) + (Emit(TestOp(cs, TestSize(cs) + |b1| + |j|)) + b1);
              code == front + j && jmp == if t.p2.TTrue? then NOINST else |front|
      decreases t, 0
    {
      hide Gen; hide TestOp; hide Emit; hide GetFirst; hide FullSet; hide SetSlots; hide TestSize; hide Slots;
      ghost var pre := code;
      var f1 := GetFirst(t.p1, FullSet());
      var test := CodeTestSet(f1.cs, false);
      jmp := NOINST;
      TestInCode(pre, f1.cs);
      CodeGen(t.p1, false, test, fl);
      ghost var op := TestOp(f1.cs, 0);
      ghost var b1 := Gen(t.p1, false, TestOf(f1.cs), fl);
      ghost var j := [];
      Regroup(pre, Emit(op), b1);
      if !t.p2.TTrue? {
        jmp := AddInstruction(IJmp(0));
        j := Emit(IJmp(0));
        Regroup(pre, Emit(op) + b1, j);
        Regroup(Emit(op), b1, j);
      } else {
        assert b1 + j == b1;
      }
      JumpToHere(test, pre, op, b1 + j);
      ghost var off := TestSize(f1.cs) + |b1| + |j|;
      TestOpOffset(f1.cs, 0, off);
      Regroup(Emit(TestOp(f1.cs, off)), b1, j);
      Regroup(pre, Emit(TestOp(f1.cs, off)) + b1, j);
    }

    /** test(first(p1)) -> L1; choice L1; <p1>; commit L2; L1: <p2>; L2: */
    method CodeChoiceFull(t: Tree, opt: bool, fl: Charset)
      requires t.TChoice? && !ChoiceByTest(t, fl) && !(opt && t.p2.TTrue?)
      modifies this
      ensures code == old(code) + GenChoice(t, opt, fl)
      decreases t, 1
    {
      hide FullSet; hide SetSlots; hide TestSize;
      hide Gen; hide TestOp; hide Emit; hide GetFirst; hide ChoiceByTest; hide Slots;
      ghost var pre := code;
      var f1 := GetFirst(t.p1, FullSet());
      var test := CodeTestSet(f1.cs, f1.e);
      ghost var op := TestOp(f1.cs, 0);
      if !f1.e {
        TestInCode(pre, f1.cs);
      }
      ghost var tt1 := if f1.e then NoTest else TestOf(f1.cs);
      ghost var b1 := Gen(t.p1, t.p2.TTrue?, tt1, FullSet());
      ghost var b2 := Gen(t.p2, opt, NoTest, fl);
      ghost var off := TestSize(f1.cs) + 4 + |b1|;
      ghost var x := Emit(IChoice(4 + |b1|));
      ghost var y := x + (b1 + Emit(ICommit(0)));
      ghost var z := x + (b1 + (Emit(ICommit(2 + |b2|)) + b2));
      var pcommit := CodeChoiceHead(t, test);
      if !f1.e {
        Regroup(pre, Emit(op), y);
      }
      JumpToHere(test, pre, op, y);
      ChoiceSizes(b1);
      TestOpOffset(f1.cs, 0, off);
      ghost var front := if f1.e then pre else pre + Emit(TestOp(f1.cs, off));
      if !f1.e {
        Regroup(pre, Emit(TestOp(f1.cs, off)), y);
        Regroup(pre, Emit(TestOp(f1.cs, off)), z);
      }
      FinishChoice(t.p2, opt, fl, front, x, b1, pcommit);
    }

    /** choice L1; <p1>; commit (open); L1: */
    method CodeChoiceHead(t: Tree, test: int) returns (pcommit: int)
      requires t.TChoice?
      requires test < |code| && (test >= 0 ==> code[test].HasLabel())
      modifies this
      ensures var b1 := Gen(t.p1, t.p2.TTrue?, TestAt(old(code), test), FullSet());
              && code == old(code) + (Emit(IChoice(4 + |b1|)) + (b1 + Emit(ICommit(0))))
              && pcommit == |old(code)| + 2 + |b1|
      decreases t, 0
    {
      hide Gen; hide Emit;
      ghost var mid := code;
      ghost var b1 := Gen(t.p1, t.p2.TTrue?, TestAt(mid, test), FullSet());
      var pchoice := AddInstruction(IChoice(0));
      if test >= 0 {
        assert code[test] == mid[test];
      }
      CodeGen(t.p1, t.p2.TTrue?, test, FullSet());
      Regroup(mid, Emit(IChoice(0)), b1);
      pcommit := AddInstruction(ICommit(0));
      Regroup(mid, Emit(IChoice(0)) + b1, Emit(ICommit(0)));
      Regroup(Emit(IChoice(0)), b1, Emit(ICommit(0)));
      JumpToHere(pchoice, mid, IChoice(0), b1 + Emit(ICommit(0)));
    }

    /** L1: <p2>; L2: -- and the patch of the commit before it. */
    method FinishChoice(p2: Tree, opt: bool, fl: Charset, ghost front: Code, ghost x: Code, ghost b1: Code,
        pcommit: int)
      requires code == front + (x + (b1 + Emit(ICommit(0))))
      requires pcommit == |front| + |x| + |b1|
      modifies this
      ensures var b2 := Gen(p2, opt, NoTest, fl);
              code == front + (x + (b1 + (Emit(ICommit(2 + |b2|)) + b2)))
      decreases p2, 5
    {
      hide Gen; hide Emit;
      ghost var b2 := Gen(p2, opt, NoTest, fl);
      ghost var c0 := Emit(ICommit(0));
      Regroup(x, b1, c0);
      Regroup(front, x + b1, c0);
      CodeGen(p2, opt, NOINST, fl);
      Regroup(front + (x + b1), c0, b2);
      JumpToHere(pcommit, front + (x + b1), ICommit(0), b2);
      ghost var z := Emit(ICommit(2 + |b2|)) + b2;
      Regroup(front, x + b1, z);
      Regroup(x, b1, z);
    }

    /** coderepcharset */
    method CodeRepCharset(t: Tree, ghost opt: bool, ghost fl: Charset) returns (done: bool)
      requires t.TRep?
      modifies this
      ensures done == RepByCharset(t)
      ensures code == old(code) + if done then GenRep(t, opt, fl) else []
    {
      hide Emit;
      ghost var pre := code;
      done := true;
      match t.body {
        case TFalse =>
        case TAny =>
          var test := AddInstruction(ITestAny(0));
          CharLoopBody(pre, ITestAny(0), test);
        case TChar(c) =>
          var test := AddInstruction(ITestChar(c, 0));
          CharLoopBody(pre, ITestChar(c, 0), test);
        case TSet(cs) => var _ := AddInstruction(ISpan(cs, SetSlots(cs)));
        case _ => done := false;
      }
    }

    /** any; closeloop(test) */
    method CharLoopBody(ghost pre: Code, ghost op: Instr, test: nat)
      requires code == pre + Emit(op) && test == |pre| && (op.ITestAny? || op.ITestChar?)
      modifies this
      ensures code == pre + (Emit(op.WithOffset(5)) + (Emit(IAny) + Emit(IJmp(-3))))
    {
      hide Emit;
      var _ := AddInstruction(IAny);
      Regroup(pre, Emit(op), Emit(IAny));
      CloseLoop(pre, op, Emit(IAny), test);
    }

    /** closeloop: a jump back to the test, and the test to the next instruction. */
    method CloseLoop(ghost pre: Code, ghost op: Instr, ghost b: Code, test: nat)
      requires code == pre + (Emit(op) + b) && test == |pre| && op.HasLabel()
      modifies this
      ensures var n := Slots(op) + |b|; code == pre + (Emit(op.WithOffset(n + 2)) + (b + Emit(IJmp(-n))))
    {
      hide Emit; hide Slots;
      ghost var n := Slots(op) + |b|;
      var jmp := AddInstruction(IJmp(0));
      ghost var j0 := Emit(IJmp(0));
      JmpSlots(0);
      Regroup(pre, Emit(op) + b, j0);
      Regroup(Emit(op), b, j0);
      JumpToHere(test, pre, op, b + j0);
      ghost var e := Emit(op.WithOffset(n + 2));
      Regroup(e, b, j0);
      Regroup(pre, e + b, j0);
      EndEmpty(pre + (e + b), j0);
      JumpToThere(jmp, test, pre + (e + b), IJmp(0), []);
      EndEmpty(pre + (e + b), Emit(IJmp(-n)));
      Regroup(pre, e + b, Emit(IJmp(-n)));
      Regroup(e, b, Emit(IJmp(-n)));
    }

    /** coderep */
    method CodeRep(t: Tree, opt: bool, fl: Charset)
      requires t.TRep?
      modifies this
      ensures code == old(code) + GenRep(t, opt, fl)
      decreases t, 3
    {
      hide Gen; hide TestOp; hide Emit; hide GetFirst; hide RepByTest; hide Slots; hide FullSet; hide TestSize;
      ghost var pre := code;
      var done := CodeRepCharset(t, opt, fl);
      if !done {
        assert code == pre;
        var f := GetFirst(t.body, FullSet());
        if RepByTest(t, fl) {
          CodeRepByTest(t, f.cs);
        } else {
          CodeRepFull(t, opt, f);
        }
      }
    }

    /** test(fail(p1)) -> L2; choice L2; L1: <p>; partialcommit L1; L2: */
    method CodeRepFull(t: Tree, opt: bool, f: First)
      requires t.TRep?
      modifies this
      ensures var core := RepCore(Gen(t.body, false, NoTest, FullSet()), opt);
              code == old(code) + if f.e then core else Emit(TestOp(f.cs, TestSize(f.cs) + |core|)) + core
      decreases t, 2
    {
      hide Gen; hide TestOp; hide Emit; hide FullSet; hide Slots; hide RepCore;
      ghost var pre := code;
      ghost var core := RepCore(Gen(t.body, false, NoTest, FullSet()), opt);
      var test := CodeTestSet(f.cs, f.e);
      CodeRepLoop(t, opt);
      if !f.e {
        Regroup(pre, Emit(TestOp(f.cs, 0)), core);
      }
      JumpToHere(test, pre, TestOp(f.cs, 0), core);
      TestOpOffset(f.cs, 0, TestSize(f.cs) + |core|);
    }

    /** L1: test (fail(p1)) -> L2; <p>; jmp L1; L2: */
    method CodeRepByTest(t: Tree, cs: Charset)
      requires t.TRep?
      modifies this
      ensures var b := Gen(t.body, false, TestOf(cs), FullSet());
              var n := TestSize(cs) + |b|;
              code == old(code) + (Emit(TestOp(cs, n + 2)) + (b + Emit(IJmp(-n))))
      decreases t, 1
    {
      hide Gen; hide TestOp; hide Emit; hide Slots;
      ghost var pre := code;
      var test := CodeTestSet(cs, false);
      TestInCode(pre, cs);
      CodeGen(t.body, false, test, FullSet());
      ghost var b := Gen(t.body, false, TestOf(cs), FullSet());
      Regroup(pre, Emit(TestOp(cs, 0)), b);
      CloseLoop(pre, TestOp(cs, 0), b, test);
      TestOpOffset(cs, 0, TestSize(cs) + |b| + 2);
    }

    /** choice L2 (or partialcommit); L1: <p>; partialcommit L1; L2: */
    method CodeRepLoop(t: Tree, opt: bool)
      requires t.TRep?
      modifies this
      ensures code == old(code) + RepCore(Gen(t.body, false, NoTest, FullSet()), opt)
      decreases t, 1
    {
      hide FullSet; hide SetSlots;
      hide Gen; hide Emit;
      ghost var pre := code;
      ghost var b := Gen(t.body, false, NoTest, FullSet());
      var pchoice := NOINST;
      if opt {
        var pc := AddInstruction(IPartialCommit(0));
        EndEmpty(pre, Emit(IPartialCommit(0)));
        JumpToHere(pc, pre, IPartialCommit(0), []);
        EndEmpty(pre, Emit(IPartialCommit(2)));
      } else {
        pchoice := AddInstruction(IChoice(0));
      }
      ghost var enter := if opt then IPartialCommit(2) else IChoice(0);
      CodeRepBody(t, pre, enter);
      JumpToHere(pchoice, pre, IChoice(0), b + Emit(IPartialCommit(-|b|)));
    }

    /** L1: <p>; partialcommit L1 */
    method CodeRepBody(t: Tree, ghost pre: Code, ghost enter: Instr)
      requires t.TRep? && code == pre + Emit(enter)
      modifies this
      ensures var b := Gen(t.body, false, NoTest, FullSet());
              code == pre + (Emit(enter) + (b + Emit(IPartialCommit(-|b|))))
      decreases t, 0
    {
      hide Gen; hide Emit; hide Slots;
      ghost var b := Gen(t.body, false, NoTest, FullSet());
      var l2 := |code|;
      CodeGen(t.body, false, NOINST, FullSet());
      Regroup(pre, Emit(enter), b);
      ghost var mid := code;
      var commit := AddInstruction(IPartialCommit(0));
      EndEmpty(mid, Emit(IPartialCommit(0)));
      JumpToThere(commit, l2, mid, IPartialCommit(0), []);
      ghost var back := Emit(IPartialCommit(-|b|));
      EndEmpty(mid, back);
      Regroup(pre, Emit(enter) + b, back);
      Regroup(Emit(enter), b, back);
    }

    /** codenot */
    method CodeNot(t: Tree)
      requires t.TNot?
      modifies this
      ensures code == old(code) + GenNot(t)
      decreases t, 1
    {
      hide FullSet; hide SetSlots; hide TestSize;
      hide Gen; hide TestOp; hide Emit; hide GetFirst; hide HeadFail; hide Slots;
      ghost var pre := code;
      var f := GetFirst(t.body, FullSet());
      var test := CodeTestSet(f.cs, f.e);
      ghost var mid := code;
      if HeadFail(t.body) {
        var _ := AddInstruction(IFail);
      } else {
        CodeNotLoop(t);
      }
      ghost var core := NotCore(t);
      if !f.e {
        Regroup(pre, Emit(TestOp(f.cs, 0)), core);
      }
      JumpToHere(test, pre, TestOp(f.cs, 0), core);
      TestOpOffset(f.cs, 0, TestSize(f.cs) + |core|);
    }

    /** choice L1; <p>; failtwice; L1: */
    method CodeNotLoop(t: Tree)
      requires t.TNot?
      modifies this
      ensures var b := Gen(t.body, false, NoTest, FullSet());
              code == old(code) + (Emit(IChoice(3 + |b|)) + (b + Emit(IFailTwice)))
      decreases t, 0
    {
      hide Gen; hide Emit;
      ghost var pre := code;
      ghost var b := Gen(t.body, false, NoTest, FullSet());
      var pchoice := AddInstruction(IChoice(0));
      CodeGen(t.body, false, NOINST, FullSet());
      Regroup(pre, Emit(IChoice(0)), b);
      var _ := AddInstruction(IFailTwice);
      Regroup(pre, Emit(IChoice(0)) + b, Emit(IFailTwice));
      Regroup(Emit(IChoice(0)), b, Emit(IFailTwice));
      JumpToHere(pchoice, pre, IChoice(0), b + Emit(IFailTwice));
    }

    /** codeand */
    method CodeAnd(t: Tree, tt: int)
      requires t.TAnd?
      requires tt < |code| && (tt >= 0 ==> code[tt].HasLabel())
      modifies this
      ensures code == old(code) + GenAnd(t, TestAt(old(code), tt))
      decreases t, 1
    {
      hide Gen; hide Emit; hide FixedLen; hide FullSet;
      ghost var pre := code;
      var n := FixedLen(t.body);
      ghost var b := Gen(t.body, false, TestAt(pre, tt), FullSet());
      if 0 <= n <= MAXBEHIND {
        CodeGen(t.body, false, tt, FullSet());
        if n > 0 {
          var _ := AddInstruction(IBehind(n));
          Regroup(pre, b, Emit(IBehind(n)));
        } else {
          assert b + [] == b;
        }
      } else {
        CodeAndByChoice(t, tt);
      }
    }

    /** choice L1; p1; backcommit L2; L1: fail; L2: */
    method CodeAndByChoice(t: Tree, tt: int)
      requires t.TAnd?
      requires tt < |code| && (tt >= 0 ==> code[tt].HasLabel())
      modifies this
      ensures var b := Gen(t.body, false, TestAt(old(code), tt), FullSet());
              code == old(code) + (Emit(IChoice(4 + |b|)) + (b + (Emit(IBackCommit(3)) + Emit(IFail))))
      decreases t, 0
    {
      hide FullSet; hide SetSlots;
      hide Gen; hide Emit;
      ghost var pre := code;
      ghost var b := Gen(t.body, false, TestAt(pre, tt), FullSet());
      var pchoice := AddInstruction(IChoice(0));
      if tt >= 0 {
        assert code[tt] == pre[tt];
      }
      CodeGen(t.body, false, tt, FullSet());
      Regroup(pre, Emit(IChoice(0)), b);
      var pcommit := AddInstruction(IBackCommit(0));
      ghost var c0 := Emit(IBackCommit(0));
      Regroup(pre, Emit(IChoice(0)) + b, c0);
      Regroup(Emit(IChoice(0)), b, c0);
      JumpToHere(pchoice, pre, IChoice(0), b + c0);
      ghost var e := Emit(IChoice(4 + |b|));
      assert code == pre + (e + (b + c0));
      Regroup(e, b, c0);
      Regroup(pre, e + b, c0);
      var _ := AddInstruction(IFail);
      Regroup(pre + (e + b), c0, Emit(IFail));
      JumpToHere(pcommit, pre + (e + b), IBackCommit(0), Emit(IFail));
      ghost var z := Emit(IBackCommit(3)) + Emit(IFail);
      Regroup(pre, e + b, z);
      Regroup(e, b, z);
    }

    /** codebehind */
    method CodeBehind(t: Tree)
      requires t.TBehind?
      modifies this
      ensures code == old(code) + GenBehind(t)
      decreases t, 1
    {
      hide Gen; hide Emit;
      ghost var pre := code;
      ghost var back := [];
      if t.n > 0 {
        var _ := AddInstruction(IBehind(t.n));
        back := Emit(IBehind(t.n));
      }
      CodeGen(t.body, false, NOINST, FullSet());
      Regroup(pre, back, Gen(t.body, false, NoTest, FullSet()));
    }

    /** compile: code generation, IEnd, and the peephole pass. */
    method Compile(t: Tree)
      requires WellFormed(t) && code == []
      modifies this
      ensures Implements(code, t)
      ensures StraightTo(code, |code|)
    {
      hide Refines; hide Reach; hide StraightTo; hide Gen; hide LabelsOk; hide ParsesFrom; hide ProgramOk; hide Ranked;
      CodeGen(t, false, NOINST, FullSet());
      var _ := AddInstruction(IEnd);
      ghost var plain := PegCode.Compile(t);
      assert code == plain;
      CompileOk(t);
      Peephole(RankOf(plain));
      forall s: Subject, start: nat | start <= |s|
        ensures Reach(code, s, Initial(start), Halt(Eval(t, s, start)))
      {
        CompileCorrect(t, s, start);
        RefinesUse(plain, code, s, start, Eval(t, s, start));
      }
    }

    /** The label of instruction i moves to the end of its chain of jumps. */
    method OptimizeLabel(i: nat, ghost rank: seq<nat>)
      requires PeepholeInv(code, i, rank) && i < |code| && code[i].HasLabel() && !code[i].IJmp?
      modifies this
      ensures PeepholeInv(code, i, rank) && |code| == |old(code)| && code[i] != IPad
      ensures Slots(code[i]) == Slots(old(code)[i])
      ensures Refines(old(code), code)
      ensures OnlyAt(old(code), code, i) && Straight(code, i)
    {
      hide Leads; hide Refines; hide ParsesFrom; hide Slots;
      ghost var before := code;
      var op := code[i];
      var ft := FinalTarget(code, i + op.off, rank);
      LabelStays(code, i, op, ft);
      RelabelKeeps(code, i, op.WithOffset(ft - i), rank);
      code := code[i := op.WithOffset(ft - i)];
      RewriteRefines(before, code, i);
    }

    /** peephole */
    method Peephole(ghost rank: seq<nat>)
      requires ParsesFrom(code, 0) && ProgramOk(code) && Ranked(code, rank)
      modifies this
      ensures Refines(old(code), code)
      ensures |code| == |old(code)| && ProgramOk(code) && code[|code| - 1] == IEnd
      ensures StraightTo(code, |code|)
    {
      hide Leads; hide Refines; hide Ranked; hide StraightTo; hide Slots;
      var i := 0;
      NoneStraight(code);
      RefinesSame(code);
      while i < |code|
        invariant |code| == |old(code)| && PeepholeInv(code, i, rank)
        invariant Refines(old(code), code) && StraightTo(code, i)
        invariant i > 0 ==> code[|code| - 1] == IEnd
      {
        ghost var before := code;
        PeepholeAt(i, rank);
        RefinesTrans(old(code), before, code);
        NextInv(code, i, rank);
        i := i + Slots(code[i]);
      }
    }

    /** The switch of peephole for the instruction at i. */
    method PeepholeAt(i: nat, ghost rank: seq<nat>)
      requires PeepholeInv(code, i, rank) && i < |code| && StraightTo(code, i)
      modifies this
      ensures PeepholeInv(code, i, rank) && |code| == |old(code)| && code[i] != IPad && i + Slots(code[i]) <= |code|
      ensures Refines(old(code), code) && StraightTo(code, i + Slots(code[i]))
    {
      hide Leads; hide Refines; hide PeepholeInv; hide Straight; hide OnlyAt; hide StraightTo; hide Slots;
      ghost var before := code;
      PeepholeInvParts(code, i, rank);
      if code[i].IJmp? {
        PeepholeJump(i, rank);
        StraightKept(before, code, i);
      } else if code[i].HasLabel() {
        OptimizeLabel(i, rank);
        StraightKept(before, code, i);
      } else {
        RefinesSame(code);
        NoLabel(code, i);
      }
      SlotsHere(code, i, rank);
      StraightSlots(code, i);
    }

    /** The IJmp case of peephole, with its 'redo'. */
    method PeepholeJump(i: nat, ghost rank: seq<nat>)
      requires PeepholeInv(code, i, rank) && i < |code| && code[i].IJmp?
      modifies this
      ensures PeepholeInv(code, i, rank) && |code| == |old(code)| && code[i] != IPad
      ensures Refines(old(code), code)
      ensures OnlyAt(old(code), code, i) && Straight(code, i)
    {
      hide Leads; hide Refines; hide PeepholeInv; hide OnlyAt; hide Straight;
      ghost var before := code;
      PeepholeInvParts(code, i, rank);
      var ft := FinalTarget(code, i, rank);
      var op := code[ft];
      if op.IFail? || op.IFailTwice? || op.IEnd? {
        ReplaceKeeps(code, i, op, rank);
        code := code[i := op][i + 1 := IEmpty];
        JumpRefines(before, code, i, ft, op);
        JumpGone(before, i, op);
      } else if op.ICommit? || op.IPartialCommit? || op.IBackCommit? {
        var fft := FinalTarget(code, ft + op.off, rank);
        RelabelKeeps(code, i, op.WithOffset(fft - i), rank);
        code := code[i := op.WithOffset(fft - i)];
        JumpRefines(before, code, i, ft, op.WithOffset(fft - i));
        ghost var mid := code;
        OptimizeLabel(i, rank);
        RefinesTrans(before, mid, code);
        OnlyTwice(before, mid, code, i, op.WithOffset(fft - i));
      } else {
        RelabelKeeps(code, i, IJmp(ft - i), rank);
        code := code[i := IJmp(ft - i)];
        JumpRefines(before, code, i, ft, IJmp(ft - i));
        JumpStays(before, i, ft);
      }
    }
  }

  lemma LabelStays(code: Code, i: nat, op: Instr, ft: nat)
    requires i < |code| && code[i] == op && op.HasLabel() && !op.IJmp? && ft < |code| && !code[ft].IJmp?
    requires code[ft] != IPad
    ensures var b := code[i := op.WithOffset(ft - i)]; OnlyAt(code, b, i) && Straight(b, i)
  {
  }

  lemma JumpGone(code: Code, i: nat, op: Instr)
    requires i + 1 < |code| && code[i].IJmp? && code[i + 1] == IPad && !op.HasLabel()
    ensures var b := code[i := op][i + 1 := IEmpty]; OnlyAt(code, b, i) && Straight(b, i)
  {
  }

  lemma JumpStays(code: Code, i: nat, ft: nat)
    requires i < |code| && code[i].IJmp? && ft < |code| && !code[ft].IJmp? && code[ft] != IPad && !Copied(code[ft])
    ensures var b := code[i := IJmp(ft - i)]; OnlyAt(code, b, i) && Straight(b, i)
  {
  }

  lemma OnlyTwice(a: Code, m: Code, b: Code, i: nat, op: Instr)
    requires i < |a| == |m| == |b| && a[i].IJmp? && m == a[i := op] && OnlyAt(m, b, i)
    ensures OnlyAt(a, b, i)
  {
  }

  lemma NoneStraight(code: Code)
    ensures StraightTo(code, 0)
  {
  }

  lemma NoLabel(code: Code, i: nat)
    requires i < |code| && !code[i].HasLabel()
    ensures Straight(code, i)
  {
  }

  lemma NextInv(code: Code, i: nat, rank: seq<nat>)
    requires PeepholeInv(code, i, rank) && i < |code| && i + Slots(code[i]) <= |code|
    ensures PeepholeInv(code, i + Slots(code[i]), rank) && code[|code| - 1] == IEnd && Slots(code[i]) > 0
  {
    hide Slots;
  }

  lemma SlotsHere(code: Code, i: nat, rank: seq<nat>)
    requires PeepholeInv(code, i, rank) && i < |code|
    ensures i + Slots(code[i]) <= |code|
    ensures forall k :: i < k < i + Slots(code[i]) ==> !code[k].HasLabel()
  {
  }

  lemma PeepholeInvParts(code: Code, i: nat, rank: seq<nat>)
    requires PeepholeInv(code, i, rank) && i < |code|
    ensures ProgramOk(code) && Ranked(code, rank) && code[i] != IPad && i + Slots(code[i]) <= |code|
  {
  }

  /** A test can be relabelled without changing anything else. */
  lemma TestOpOffset(cs: Charset, o: int, o2: int)
    ensures TestOp(cs, o).WithOffset(o2) == TestOp(cs, o2) && Slots(TestOp(cs, o)) == TestSize(cs)
  {
  }

  lemma TestInCode(pre: Code, cs: Charset)
    ensures |pre| < |pre + Emit(TestOp(cs, 0))| && (pre + Emit(TestOp(cs, 0)))[|pre|].HasLabel()
  {
  }

  lemma EndEmpty(a: Code, b: Code)
    ensures a + b == a + (b + [])
  {
  }

  lemma JmpSlots(o: int)
    ensures Slots(IJmp(o)) == 2
  {
  }

  lemma ChoiceSizes(b1: Code)
    ensures |Emit(IChoice(4 + |b1|)) + (b1 + Emit(ICommit(0)))| == 4 + |b1|
  {
  }

  lemma RefinesUse(a: Code, b: Code, s: Subject, start: nat, r: Outcome)
    requires Refines(a, b) && Reach(a, s, Initial(start), Halt(r))
    ensures Reach(b, s, Initial(start), Halt(r))
  {
  }

  lemma RefinesSame(a: Code)
    ensures Refines(a, a)
  {
  }

  // ----- the interpreter -----

  /** Where a run that halts with r stands one instruction later. */
  lemma Alive(code: Code, s: Subject, pc: int, i: nat, stack: Stack, n: nat, r: Outcome)
    requires Steps(code, s, Run(pc, i, stack), n) == Halt(r)
    ensures n > 0
    ensures pc == GIVEUP ==> stack.Bottom? && r == Fail
    ensures pc != GIVEUP ==> && 0 <= pc < |code| && i <= |s|
                             && Exec(code[pc], s, pc, i, stack) != Stuck
                             && Steps(code, s, Exec(code[pc], s, pc, i, stack), n - 1) == Halt(r)
                             && (Exec(code[pc], s, pc, i, stack).Halt? ==> Exec(code[pc], s, pc, i, stack) == Halt(r))
  {
    hide Exec;
    var next := Step(code, s, Run(pc, i, stack));
    if next == Stuck {
      StuckForever(code, s, n - 1);
    } else if next.Halt? {
      HaltForever(code, s, r, next, n - 1);
    }
  }

  /** match: interprets the code until it ends or gives up. */
  method Interpret(code: Code, s: Subject, start: nat, ghost expected: Outcome) returns (r: Outcome)
    requires start <= |s| && Reach(code, s, Initial(start), Halt(expected))
    ensures r == expected
  {
    hide Steps; hide Reach;
    var pc, i, stack := 0, start, Entry(start, GIVEUP, Bottom);
    ghost var n := StepsOf(code, s, Initial(start), Halt(expected));
    while true
      invariant Steps(code, s, Run(pc, i, stack), n) == Halt(expected)
      decreases n
    {
      Alive(code, s, pc, i, stack, n, expected);
      if pc == GIVEUP {
        return Fail;
      }
      ghost var next := Exec(code[pc], s, pc, i, stack);
      n := n - 1;
      if code[pc].IEnd? {
        return Match(i);
      }
      pc, i, stack := ExecOne(code[pc], s, pc, i, stack);
    }
  }

  lemma StepsOf(code: Code, s: Subject, a: State, b: State) returns (n: nat)
    requires Reach(code, s, a, b)
    ensures Steps(code, s, a, n) == b
  {
    n :| Steps(code, s, a, n) == b;
  }

  /** The body of the interpreter's switch, for every instruction but IEnd. */
  method ExecOne(op: Instr, s: Subject, pc0: int, i0: nat, stack0: Stack) returns (pc: int, i: nat, stack: Stack)
    requires i0 <= |s| && !op.IEnd? && Exec(op, s, pc0, i0, stack0) != Stuck
    ensures Run(pc, i, stack) == Exec(op, s, pc0, i0, stack0)
  {
    pc, i, stack := pc0, i0, stack0;
    var fail := false;
    match op {
      case IAny =>
        if i < |s| { pc, i := pc + 1, i + 1; } else { fail := true; }
      case IChar(c) =>
        if i < |s| && s[i] == c { pc, i := pc + 1, i + 1; } else { fail := true; }
      case ISet(cs, _) =>
        if i < |s| && s[i] in cs { pc, i := pc + Slots(op), i + 1; } else { fail := true; }
      case ITestAny(off) =>
        if i < |s| { pc := pc + 2; } else { pc := pc + off; }
      case ITestChar(c, off) =>
        if i < |s| && s[i] == c { pc := pc + 2; } else { pc := pc + off; }
      case ITestSet(cs, _, off) =>
        if i < |s| && s[i] in cs { pc := pc + Slots(op); } else { pc := pc + off; }
      case IBehind(n) =>
        if n > i { fail := true; } else { pc, i := pc + 1, i - n; }
      case ISpan(cs, _) =>
        while i < |s| && s[i] in cs
          invariant i <= |s| && SpanEnd(s, i, cs) == SpanEnd(s, i0, cs)
        {
          i := i + 1;
        }
        pc := pc + Slots(op);
      case IJmp(off) => pc := pc + off;
      case IChoice(off) =>
        stack := Entry(i, pc + off, stack);
        pc := pc + 2;
      case ICommit(off) =>
        stack := stack.below;
        pc := pc + off;
      case IPartialCommit(off) =>
        stack := stack.(s := i);
        pc := pc + off;
      case IBackCommit(off) =>
        i, stack := stack.s, stack.below;
        pc := pc + off;
      case IFailTwice =>
        stack := stack.below;
        fail := true;
      case IFail => fail := true;
    }
    if fail {
      pc, i, stack := stack.p, stack.s, stack.below;
    }
  }

  /** Compiling a pattern and running the code decides what the pattern means. */
  method CompileAndMatch(t: Tree, s: Subject, start: nat) returns (r: Outcome)
    requires WellFormed(t) && start <= |s|
    ensures r == Eval(t, s, start)
  {
    var c := new CompileState();
    c.Compile(t);
    r := Interpret(c.code, s, start, Eval(t, s, start));
  }
}
