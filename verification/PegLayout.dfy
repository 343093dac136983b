/**
 Shape of generated code: it parses into whole instructions, every label points to the start of an
 instruction of the block or right behind it, and no chain of jumps is circular.
 */
module PegLayout {
  import opened PegTree
  import opened PegCharset
  import opened PegCode
  import opened PegCorrect

  /** From address i on, the code is a sequence of whole instructions. */
  predicate ParsesFrom(code: Code, i: nat)
    decreases |code| - i
  {
    i == |code| ||
    (&& i < |code| && code[i] != IPad
     && i + Slots(code[i]) <= |code|
     && (forall k :: i < k < i + Slots(code[i]) ==> code[k] == IPad)
     && ParsesFrom(code, i + Slots(code[i])))
  }

  /** How far a jump at k gets, at least: the chain that goes through k ends beyond this address. */
  function Progress(code: Code, k: nat): int
    requires k < |code| && code[k].IJmp?
  {
    if code[k].off > 0 then k + code[k].off - 1 else k
  }

  /** The label of slot k, if any, is good. */
  predicate LabelOk(code: Code, k: nat)
    requires k < |code|
  {
    code[k].HasLabel() ==>
      var t := k + code[k].off;
      && 0 <= t <= |code| && (code[k].IJmp? ==> code[k].off != 0)
      && (t < |code| ==> code[t] != IPad && (code[k].IJmp? && code[t].IJmp? ==> Progress(code, k) < Progress(code, t)))
  }

  predicate LabelsOk(code: Code) {
    forall k :: 0 <= k < |code| ==> LabelOk(code, k)
  }

  /** A generated block. */
  predicate BlockOk(b: Code) {
    ParsesFrom(b, 0) && LabelsOk(b)
  }

  // ----- parsing -----

  lemma {:induction false} ParsesAppend(a: Code, b: Code, i: nat)
    requires i <= |a| && ParsesFrom(a, i) && ParsesFrom(b, 0)
    ensures ParsesFrom(a + b, i)
    decreases |a| - i
  {
    if i == |a| {
      ParsesShift(a, b, 0);
    } else {
      ParsesAppend(a, b, i + Slots(a[i]));
    }
  }

  lemma {:induction false} ParsesShift(a: Code, b: Code, i: nat)
    requires i <= |b| && ParsesFrom(b, i)
    ensures ParsesFrom(a + b, |a| + i)
    decreases |b| - i
  {
    if i < |b| {
      ParsesShift(a, b, i + Slots(b[i]));
      assert forall k :: |a| + i < k < |a| + i + Slots(b[i]) ==> (a + b)[k] == b[k - |a|];
    }
  }

  lemma EmitParses(op: Instr)
    requires op != IPad
    ensures ParsesFrom(Emit(op), 0)
  {
    forall k | 0 < k < Slots(op)
      ensures Emit(op)[k] == IPad
    {
      EmitPads(op, k);
    }
  }

  lemma ConsParses(op: Instr, b: Code)
    requires op != IPad && ParsesFrom(b, 0)
    ensures ParsesFrom(Emit(op) + b, 0)
  {
    EmitParses(op);
    ParsesAppend(Emit(op), b, 0);
  }

  lemma SnocParses(b: Code, op: Instr)
    requires op != IPad && ParsesFrom(b, 0)
    ensures ParsesFrom(b + Emit(op), 0)
  {
    EmitParses(op);
    ParsesAppend(b, Emit(op), 0);
  }

  /** Generated code is a sequence of whole instructions. */
  lemma {:induction false} GenParses(t: Tree, opt: bool, tt: Test, fl: Charset)
    ensures ParsesFrom(Gen(t, opt, tt, fl), 0)
    decreases t
  {
    hide ParsesFrom; hide Emit; hide Slots; hide TestOp; hide FullSet; hide GetFirst; hide HeadFail;
    assert ParsesFrom([], 0) by { EmptyParses(); }
    match t
    case TSeq(p1, p2) =>
      GenParses(p1, false, tt, SeqFollow(t, fl));
      GenParses(p2, opt, SeqTest(t, tt), fl);
      ParsesAppend(Gen(p1, false, tt, SeqFollow(t, fl)), Gen(p2, opt, SeqTest(t, tt), fl), 0);
    case TChoice(_, _) => GenChoiceParses(t, opt, fl);
    case TRep(_) => GenRepParses(t, opt, fl);
    case TNot(p) => GenNotParses(t);
    case TAnd(p) => GenAndParses(t, tt);
    case TBehind(n, p) =>
      GenParses(p, false, NoTest, FullSet());
      var b := Gen(p, false, NoTest, FullSet());
      if n > 0 {
        ConsParses(IBehind(n), b);
      } else {
        assert [] + b == b;
      }
    case TChar(c) => EmitParses(IAny); EmitParses(IChar(c));
    case TSet(cs) => EmitParses(IAny); EmitParses(ISet(cs, SetSlots(cs)));
    case TAny => EmitParses(IAny);
    case TTrue =>
    case TFalse => EmitParses(IFail);
  }

  lemma EmptyParses()
    ensures ParsesFrom([], 0)
  {
  }

  lemma TestNotPad(cs: Charset, off: int)
    ensures TestOp(cs, off) != IPad
  {
  }

  lemma {:induction false} GenChoiceParses(t: Tree, opt: bool, fl: Charset)
    requires t.TChoice?
    ensures ParsesFrom(GenChoice(t, opt, fl), 0)
    decreases t, 0
  {
    hide ParsesFrom; hide Emit; hide Slots; hide TestOp; hide FullSet; hide GetFirst; hide Gen; hide ChoiceByTest;
    var f1 := GetFirst(t.p1, FullSet());
    var b2 := Gen(t.p2, opt, NoTest, fl);
    GenParses(t.p2, opt, NoTest, fl);
    if ChoiceByTest(t, fl) {
      var b1 := Gen(t.p1, false, TestOf(f1.cs), fl);
      GenParses(t.p1, false, TestOf(f1.cs), fl);
      var jmp := if t.p2.TTrue? then [] else Emit(IJmp(2 + |b2|));
      if t.p2.TTrue? {
        assert jmp + b2 == b2;
      } else {
        ConsParses(IJmp(2 + |b2|), b2);
      }
      ParsesAppend(b1, jmp + b2, 0);
      TestNotPad(f1.cs, TestSize(f1.cs) + |b1| + |jmp|);
      ConsParses(TestOp(f1.cs, TestSize(f1.cs) + |b1| + |jmp|), b1 + (jmp + b2));
    } else if opt && t.p2.TTrue? {
      GenParses(t.p1, true, NoTest, FullSet());
      ConsParses(IPartialCommit(2), Gen(t.p1, true, NoTest, FullSet()));
    } else {
      var tt1 := if f1.e then NoTest else TestOf(f1.cs);
      var b1 := Gen(t.p1, t.p2.TTrue?, tt1, FullSet());
      GenParses(t.p1, t.p2.TTrue?, tt1, FullSet());
      ConsParses(ICommit(2 + |b2|), b2);
      ParsesAppend(b1, Emit(ICommit(2 + |b2|)) + b2, 0);
      ConsParses(IChoice(4 + |b1|), b1 + (Emit(ICommit(2 + |b2|)) + b2));
      TestNotPad(f1.cs, TestSize(f1.cs) + 4 + |b1|);
      ConsParses(TestOp(f1.cs, TestSize(f1.cs) + 4 + |b1|), ChoiceCore(b1, b2));
    }
  }

  lemma {:induction false} GenRepParses(t: Tree, opt: bool, fl: Charset)
    requires t.TRep?
    ensures ParsesFrom(GenRep(t, opt, fl), 0)
    decreases t, 0
  {
    hide ParsesFrom; hide Emit; hide Slots; hide TestOp; hide FullSet; hide GetFirst; hide Gen; hide RepByTest;
    if RepByCharset(t) {
      EmptyParses();
      EmitParses(IJmp(-3));
      ConsParses(IAny, Emit(IJmp(-3)));
      match t.body {
        case TFalse =>
        case TAny => ConsParses(ITestAny(5), Emit(IAny) + Emit(IJmp(-3)));
        case TChar(c) => ConsParses(ITestChar(c, 5), Emit(IAny) + Emit(IJmp(-3)));
        case TSet(cs) => EmitParses(ISpan(cs, SetSlots(cs)));
      }
    } else {
      var f := GetFirst(t.body, FullSet());
      var tt := if RepByTest(t, fl) then TestOf(f.cs) else NoTest;
      var b := Gen(t.body, false, tt, FullSet());
      GenParses(t.body, false, tt, FullSet());
      var n := TestSize(f.cs) + |b|;
      if RepByTest(t, fl) {
        SnocParses(b, IJmp(-n));
        TestNotPad(f.cs, n + 2);
        ConsParses(TestOp(f.cs, n + 2), b + Emit(IJmp(-n)));
      } else {
        var core := RepCore(b, opt);
        SnocParses(b, IPartialCommit(-|b|));
        ConsParses(if opt then IPartialCommit(2) else IChoice(4 + |b|), b + Emit(IPartialCommit(-|b|)));
        TestNotPad(f.cs, TestSize(f.cs) + |core|);
        ConsParses(TestOp(f.cs, TestSize(f.cs) + |core|), core);
      }
    }
  }

  lemma {:induction false} GenNotParses(t: Tree)
    requires t.TNot?
    ensures ParsesFrom(GenNot(t), 0)
    decreases t, 0
  {
    hide ParsesFrom; hide Emit; hide Slots; hide TestOp; hide FullSet; hide GetFirst; hide Gen; hide HeadFail;
    var f := GetFirst(t.body, FullSet());
    var b := Gen(t.body, false, NoTest, FullSet());
    GenParses(t.body, false, NoTest, FullSet());
    EmitParses(IFail);
    SnocParses(b, IFailTwice);
    ConsParses(IChoice(3 + |b|), b + Emit(IFailTwice));
    var core := NotCore(t);
    TestNotPad(f.cs, TestSize(f.cs) + |core|);
    ConsParses(TestOp(f.cs, TestSize(f.cs) + |core|), core);
  }

  lemma {:induction false} GenAndParses(t: Tree, tt: Test)
    requires t.TAnd?
    ensures ParsesFrom(GenAnd(t, tt), 0)
    decreases t, 0
  {
    hide ParsesFrom; hide Emit; hide Slots; hide FullSet; hide Gen; hide FixedLen;
    var n := FixedLen(t.body);
    var b := Gen(t.body, false, tt, FullSet());
    GenParses(t.body, false, tt, FullSet());
    if 0 <= n <= MAXBEHIND {
      if n > 0 {
        SnocParses(b, IBehind(n));
      } else {
        assert b + [] == b;
      }
    } else {
      EmitParses(IFail);
      ConsParses(IBackCommit(3), Emit(IFail));
      ParsesAppend(b, Emit(IBackCommit(3)) + Emit(IFail), 0);
      ConsParses(IChoice(4 + |b|), b + (Emit(IBackCommit(3)) + Emit(IFail)));
    }
  }

  // ----- labels -----

  /** A block does not start inside an instruction. */
  lemma StartsClean(b: Code)
    requires ParsesFrom(b, 0) && b != []
    ensures b[0] != IPad
  {
  }

  /** Slots k with from <= k < to have good labels. */
  predicate LabelsOkIn(code: Code, from: nat, to: nat)
    requires to <= |code|
  {
    forall k :: from <= k < to ==> LabelOk(code, k)
  }

  lemma JoinOk(code: Code, a: nat, b: nat, c: nat)
    requires a <= b <= c <= |code| && LabelsOkIn(code, a, b) && LabelsOkIn(code, b, c)
    ensures LabelsOkIn(code, a, c)
  {
  }

  lemma WholeOk(code: Code)
    requires LabelsOkIn(code, 0, |code|)
    ensures LabelsOk(code)
  {
  }

  /** The address is the end of the code or the start of something. */
  predicate Clean(code: Code, p: nat) {
    p <= |code| && (p < |code| ==> code[p] != IPad)
  }

  /** Where a block starts (or, when it is empty, where the next thing starts) is clean. */
  lemma CleanAt(code: Code, p: nat, b: Code)
    requires CodeAt(code, p, b) && ParsesFrom(b, 0) && Clean(code, p + |b|)
    ensures Clean(code, p)
  {
    if b != [] {
      StartsClean(b);
      assert code[p] == code[p..p + |b|][0];
    }
  }

  /** The labels of a block stay good wherever it is placed, if the place behind it is clean. */
  lemma InsideOk(code: Code, p: nat, b: Code)
    requires CodeAt(code, p, b) && LabelsOk(b) && Clean(code, p + |b|)
    ensures p + |b| <= |code| && LabelsOkIn(code, p, p + |b|)
  {
    forall k | p <= k < p + |b|
      ensures LabelOk(code, k)
    {
      InsideOkAt(code, p, b, k - p);
    }
  }

  lemma InsideOkAt(code: Code, p: nat, b: Code, k: nat)
    requires CodeAt(code, p, b) && k < |b| && LabelOk(b, k) && Clean(code, p + |b|)
    ensures LabelOk(code, p + k)
  {
    assert code[p + k] == code[p..p + |b|][k];
    if b[k].HasLabel() && k + b[k].off < |b| {
      assert code[p + k + b[k].off] == code[p..p + |b|][k + b[k].off];
    }
  }

  /** An instruction of the frame with a good target. */
  lemma FrameOk(code: Code, p: nat, op: Instr)
    requires CodeAt(code, p, Emit(op))
    requires op.HasLabel() ==> p + op.off >= 0 && (op.IJmp? ==> op.off != 0) && Clean(code, p + op.off)
    requires op.HasLabel() && op.IJmp? && op.off < 0 ==>
             (p + op.off < |code| && code[p + op.off].IJmp? ==> p < Progress(code, p + op.off))
    ensures p + Slots(op) <= |code| && LabelsOkIn(code, p, p + Slots(op))
  {
    forall k | p <= k < p + Slots(op)
      ensures LabelOk(code, k)
    {
      assert code[k] == code[p..p + |Emit(op)|][k - p];
      if k > p {
        EmitPads(op, k - p);
      }
    }
  }

  lemma CodeAtWhole(b: Code)
    ensures CodeAt(b, 0, b) && Clean(b, |b|)
  {
    assert b[0..|b|] == b;
  }

  lemma CleanInstr(code: Code, p: nat, op: Instr)
    requires p < |code| && code[p] == op && op != IPad
    ensures Clean(code, p)
  {
  }

  /** Every label of generated code is good. */
  lemma {:induction false} GenLabelsOk(t: Tree, opt: bool, tt: Test, fl: Charset)
    ensures LabelsOk(Gen(t, opt, tt, fl))
    decreases t, 1
  {
    hide LabelsOk; hide Emit; hide Slots; hide TestOp; hide FullSet; hide GetFirst; hide HeadFail;
    match t
    case TSeq(p1, p2) => GenSeqLabelsOk(t, opt, tt, fl);
    case TChoice(_, _) => GenChoiceLabelsOk(t, opt, fl);
    case TRep(_) => GenRepLabelsOk(t, opt, fl);
    case TNot(p) => GenNotLabelsOk(t);
    case TAnd(p) => GenAndLabelsOk(t, tt);
    case TBehind(n, p) => GenBehindLabelsOk(t);
    case TChar(c) => EmitLabelsOk(IAny); EmitLabelsOk(IChar(c));
    case TSet(cs) => EmitLabelsOk(IAny); EmitLabelsOk(ISet(cs, SetSlots(cs)));
    case TAny => EmitLabelsOk(IAny);
    case TTrue => EmptyLabelsOk();
    case TFalse => EmitLabelsOk(IFail);
  }

  lemma EmptyLabelsOk()
    ensures LabelsOk([])
  {
  }

  lemma EmitLabelsOk(op: Instr)
    requires !op.HasLabel()
    ensures LabelsOk(Emit(op))
  {
    CodeAtWhole(Emit(op));
    FrameOk(Emit(op), 0, op);
    WholeOk(Emit(op));
  }

  /** Two blocks in sequence. */
  lemma SeqLabelsOk(a: Code, b: Code)
    requires LabelsOk(a) && LabelsOk(b) && ParsesFrom(b, 0)
    ensures LabelsOk(a + b)
  {
    hide LabelsOk; hide CodeAt; hide ParsesFrom; hide LabelsOkIn;
    var c := a + b;
    CodeAtWhole(c);
    CodeAtSplit(c, 0, a, b);
    CleanAt(c, |a|, b);
    InsideOk(c, 0, a);
    InsideOk(c, |a|, b);
    JoinOk(c, 0, |a|, |c|);
    WholeOk(c);
  }

  lemma {:induction false} GenSeqLabelsOk(t: Tree, opt: bool, tt: Test, fl: Charset)
    requires t.TSeq?
    ensures LabelsOk(GenSeq(t, opt, tt, fl))
    decreases t, 0
  {
    hide LabelsOk; hide ParsesFrom; hide Gen;
    GenLabelsOk(t.p1, false, tt, SeqFollow(t, fl));
    GenLabelsOk(t.p2, opt, SeqTest(t, tt), fl);
    GenParses(t.p2, opt, SeqTest(t, tt), fl);
    SeqLabelsOk(Gen(t.p1, false, tt, SeqFollow(t, fl)), Gen(t.p2, opt, SeqTest(t, tt), fl));
  }

  lemma {:induction false} GenBehindLabelsOk(t: Tree)
    requires t.TBehind?
    ensures LabelsOk(GenBehind(t))
    decreases t, 0
  {
    hide LabelsOk; hide ParsesFrom; hide Gen; hide Emit;
    var b := Gen(t.body, false, NoTest, FullSet());
    GenLabelsOk(t.body, false, NoTest, FullSet());
    GenParses(t.body, false, NoTest, FullSet());
    EmptyLabelsOk();
    EmitLabelsOk(IBehind(t.n));
    SeqLabelsOk(if t.n > 0 then Emit(IBehind(t.n)) else [], b);
  }

  /** test -> L1; b1; [jmp L2;] L1: b2; L2: */
  lemma ByTestLabelsOk(cs: Charset, b1: Code, b2: Code, jump: bool)
    requires BlockOk(b1) && BlockOk(b2) && (!jump ==> b2 == [])
    ensures var jmp := if jump then Emit(IJmp(2 + |b2|)) else [];
            LabelsOk(Emit(TestOp(cs, TestSize(cs) + |b1| + |jmp|)) + (b1 + (jmp + b2)))
  {
    hide LabelsOk; hide CodeAt; hide ParsesFrom; hide LabelsOkIn; hide Emit; hide TestOp; hide TestSize; hide Clean;
    var jmp := if jump then Emit(IJmp(2 + |b2|)) else [];
    var ts := TestSize(cs);
    var test := TestOp(cs, ts + |b1| + |jmp|);
    var c := Emit(test) + (b1 + (jmp + b2));
    CodeAtWhole(c);
    ByTestParts(c, 0, cs, b1, jmp, b2);
    CodeAtTest(c, 0, cs, ts + |b1| + |jmp|, b1 + (jmp + b2));
    var l1 := ts + |b1| + |jmp|;
    CleanAt(c, l1, b2);
    InsideOk(c, l1, b2);
    if jump {
      CodeAtInstr(c, ts + |b1|, IJmp(2 + |b2|));
      CleanInstr(c, ts + |b1|, IJmp(2 + |b2|));
      FrameOk(c, ts + |b1|, IJmp(2 + |b2|));
      JoinOk(c, ts + |b1|, l1, |c|);
    }
    InsideOk(c, ts, b1);
    JoinOk(c, ts, ts + |b1|, |c|);
    TestFrameOk(c, cs, l1);
    JoinOk(c, 0, ts, |c|);
    WholeOk(c);
  }

  /** A test at the start of a block. */
  lemma TestFrameOk(code: Code, cs: Charset, off: nat)
    requires CodeAt(code, 0, Emit(TestOp(cs, off))) && off >= TestSize(cs) && Clean(code, off)
    ensures TestSize(cs) <= |code| && LabelsOkIn(code, 0, TestSize(cs))
  {
    FrameOk(code, 0, TestOp(cs, off));
  }

  /** A test that skips a whole block. */
  lemma SkipLabelsOk(cs: Charset, core: Code)
    requires BlockOk(core)
    ensures LabelsOk(Emit(TestOp(cs, TestSize(cs) + |core|)) + core)
  {
    ByTestLabelsOk(cs, core, [], false);
    assert core + ([] + []) == core;
  }

  /** choice L1; b1; commit L2; L1: b2; L2:, and the same behind a test that jumps to L1. */
  lemma ChoiceCoreLabelsOk(cs: Charset, b1: Code, b2: Code)
    requires BlockOk(b1) && BlockOk(b2)
    ensures LabelsOk(ChoiceCore(b1, b2))
    ensures LabelsOk(Emit(TestOp(cs, TestSize(cs) + 4 + |b1|)) + ChoiceCore(b1, b2))
  {
    hide LabelsOk; hide CodeAt; hide ParsesFrom; hide LabelsOkIn; hide Emit; hide TestOp; hide TestSize; hide Clean;
    var core := ChoiceCore(b1, b2);
    CodeAtWhole(core);
    ChoiceCoreLabelsIn(core, 0, b1, b2);
    WholeOk(core);
    var ts := TestSize(cs);
    var c := Emit(TestOp(cs, ts + 4 + |b1|)) + core;
    CodeAtWhole(c);
    CodeAtTest(c, 0, cs, ts + 4 + |b1|, core);
    CodeAtSplit(c, 0, Emit(TestOp(cs, ts + 4 + |b1|)), core);
    ChoiceCoreLabelsIn(c, ts, b1, b2);
    TestFrameOk(c, cs, ts + 4 + |b1|);
    JoinOk(c, 0, ts, |c|);
    WholeOk(c);
  }

  lemma ChoiceCoreLabelsIn(code: Code, p: nat, b1: Code, b2: Code)
    requires BlockOk(b1) && BlockOk(b2)
    requires CodeAt(code, p, ChoiceCore(b1, b2)) && Clean(code, p + |ChoiceCore(b1, b2)|)
    ensures p + |ChoiceCore(b1, b2)| <= |code| && LabelsOkIn(code, p, p + |ChoiceCore(b1, b2)|)
    ensures Clean(code, p + 4 + |b1|)
  {
    hide LabelsOk; hide CodeAt; hide ParsesFrom; hide LabelsOkIn; hide Emit; hide Clean;
    CodeAtCons(code, p, IChoice(4 + |b1|), b1 + (Emit(ICommit(2 + |b2|)) + b2));
    CodeAtSplit(code, p + 2, b1, Emit(ICommit(2 + |b2|)) + b2);
    CodeAtCons(code, p + 2 + |b1|, ICommit(2 + |b2|), b2);
    var l1 := p + 4 + |b1|;
    assert |ChoiceCore(b1, b2)| == 4 + |b1| + |b2|;
    CleanAt(code, l1, b2);
    InsideOk(code, l1, b2);
    CleanInstr(code, p + 2 + |b1|, ICommit(2 + |b2|));
    FrameOk(code, p + 2 + |b1|, ICommit(2 + |b2|));
    JoinOk(code, p + 2 + |b1|, l1, l1 + |b2|);
    InsideOk(code, p + 2, b1);
    JoinOk(code, p + 2, p + 2 + |b1|, l1 + |b2|);
    FrameOk(code, p, IChoice(4 + |b1|));
    JoinOk(code, p, p + 2, l1 + |b2|);
  }

  lemma {:induction false} GenChoiceLabelsOk(t: Tree, opt: bool, fl: Charset)
    requires t.TChoice?
    ensures LabelsOk(GenChoice(t, opt, fl))
    decreases t, 0
  {
    hide LabelsOk; hide ParsesFrom; hide Emit; hide TestOp; hide FullSet; hide GetFirst; hide Gen; hide ChoiceByTest;
    var f1 := GetFirst(t.p1, FullSet());
    var b2 := Gen(t.p2, opt, NoTest, fl);
    GenOk(t.p2, opt, NoTest, fl);
    if ChoiceByTest(t, fl) {
      var b1 := Gen(t.p1, false, TestOf(f1.cs), fl);
      GenOk(t.p1, false, TestOf(f1.cs), fl);
      if t.p2.TTrue? {
        TrueGen(opt, fl);
      }
      ByTestLabelsOk(f1.cs, b1, b2, !t.p2.TTrue?);
    } else if opt && t.p2.TTrue? {
      GenOk(t.p1, true, NoTest, FullSet());
      EnterLabelsOk(IPartialCommit(2), Gen(t.p1, true, NoTest, FullSet()));
    } else {
      var tt1 := if f1.e then NoTest else TestOf(f1.cs);
      var b1 := Gen(t.p1, t.p2.TTrue?, tt1, FullSet());
      GenOk(t.p1, t.p2.TTrue?, tt1, FullSet());
      ChoiceCoreLabelsOk(f1.cs, b1, b2);
    }
  }

  /** An instruction whose label is the start or the end of the block behind it. */
  lemma EnterLabelsOk(op: Instr, b: Code)
    requires BlockOk(b) && op.HasLabel() && (op.off == Slots(op) || op.off == Slots(op) + |b|)
    ensures LabelsOk(Emit(op) + b)
  {
    hide LabelsOk; hide CodeAt; hide ParsesFrom; hide LabelsOkIn; hide Emit; hide Clean;
    var c := Emit(op) + b;
    CodeAtWhole(c);
    CodeAtCons(c, 0, op, b);
    CleanAt(c, Slots(op), b);
    InsideOk(c, Slots(op), b);
    FrameOk(c, 0, op);
    JoinOk(c, 0, Slots(op), |c|);
    WholeOk(c);
  }

  lemma {:induction false} GenOk(t: Tree, opt: bool, tt: Test, fl: Charset)
    ensures BlockOk(Gen(t, opt, tt, fl))
    decreases t, 2
  {
    GenParses(t, opt, tt, fl);
    GenLabelsOk(t, opt, tt, fl);
  }

  /** L1: test -> L2; any; jmp L1; L2: */
  lemma CharLoopLabelsOk(test: Instr)
    requires test == ITestAny(5) || (test.ITestChar? && test.off == 5)
    ensures LabelsOk(Emit(test) + (Emit(IAny) + Emit(IJmp(-3))))
  {
    hide LabelsOk; hide CodeAt; hide LabelsOkIn; hide Emit;
    var c := Emit(test) + (Emit(IAny) + Emit(IJmp(-3)));
    CodeAtWhole(c);
    CodeAtCons(c, 0, test, Emit(IAny) + Emit(IJmp(-3)));
    CodeAtCons(c, 2, IAny, Emit(IJmp(-3)));
    FrameOk(c, 3, IJmp(-3));
    FrameOk(c, 2, IAny);
    JoinOk(c, 2, 3, 5);
    FrameOk(c, 0, test);
    JoinOk(c, 0, 2, 5);
    WholeOk(c);
  }

  /** L1: test -> L2; b; jmp L1; L2:, where the test itself may be a jump to L2. */
  lemma TestLoopLabelsOk(cs: Charset, b: Code)
    requires BlockOk(b)
    ensures var n := TestSize(cs) + |b|; LabelsOk(Emit(TestOp(cs, n + 2)) + (b + Emit(IJmp(-n))))
  {
    hide LabelsOk; hide CodeAt; hide LabelsOkIn; hide Emit; hide ParsesFrom; hide SetSlots; hide FullSet; hide Least;
    var ts := TestSize(cs);
    var n := ts + |b|;
    var c := Emit(TestOp(cs, n + 2)) + (b + Emit(IJmp(-n)));
    CodeAtWhole(c);
    CodeAtTest(c, 0, cs, n + 2, b + Emit(IJmp(-n)));
    CodeAtCons(c, 0, TestOp(cs, n + 2), b + Emit(IJmp(-n)));
    CodeAtSnoc(c, ts, b, IJmp(-n));
    FrameOk(c, n, IJmp(-n));
    InsideOk(c, ts, b);
    JoinOk(c, ts, n, |c|);
    TestFrameOk(c, cs, n + 2);
    JoinOk(c, 0, ts, |c|);
    WholeOk(c);
  }

  /** enter; L1: b; partialcommit L1 */
  lemma RepCoreLabelsOk(b: Code, opt: bool)
    requires BlockOk(b)
    ensures LabelsOk(RepCore(b, opt))
  {
    hide LabelsOk; hide CodeAt; hide LabelsOkIn; hide Emit; hide ParsesFrom; hide Clean;
    var enter := if opt then IPartialCommit(2) else IChoice(4 + |b|);
    var c := RepCore(b, opt);
    CodeAtWhole(c);
    CodeAtCons(c, 0, enter, b + Emit(IPartialCommit(-|b|)));
    CodeAtSnoc(c, 2, b, IPartialCommit(-|b|));
    CleanInstr(c, 2 + |b|, IPartialCommit(-|b|));
    CleanAt(c, 2, b);
    FrameOk(c, 2 + |b|, IPartialCommit(-|b|));
    InsideOk(c, 2, b);
    JoinOk(c, 2, 2 + |b|, |c|);
    FrameOk(c, 0, enter);
    JoinOk(c, 0, 2, |c|);
    WholeOk(c);
  }

  lemma {:induction false} GenRepLabelsOk(t: Tree, opt: bool, fl: Charset)
    requires t.TRep?
    ensures LabelsOk(GenRep(t, opt, fl))
    decreases t, 0
  {
    hide LabelsOk, ParsesFrom, Emit, Slots, TestOp, FullSet, GetFirst, Gen, RepByTest;
    if RepByCharset(t) {
      match t.body {
        case TFalse => EmptyLabelsOk();
        case TAny => CharLoopLabelsOk(ITestAny(5));
        case TChar(c) => CharLoopLabelsOk(ITestChar(c, 5));
        case TSet(cs) => EmitLabelsOk(ISpan(cs, SetSlots(cs)));
      }
    } else {
      var f := GetFirst(t.body, FullSet());
      var tt := if RepByTest(t, fl) then TestOf(f.cs) else NoTest;
      var b := Gen(t.body, false, tt, FullSet());
      GenOk(t.body, false, tt, FullSet());
      if RepByTest(t, fl) {
        TestLoopLabelsOk(f.cs, b);
      } else {
        var core := RepCore(b, opt);
        RepCoreLabelsOk(b, opt);
        SnocParses(b, IPartialCommit(-|b|));
        ConsParses(if opt then IPartialCommit(2) else IChoice(4 + |b|), b + Emit(IPartialCommit(-|b|)));
        SkipLabelsOk(f.cs, core);
      }
    }
  }

  lemma {:induction false} GenNotLabelsOk(t: Tree)
    requires t.TNot?
    ensures LabelsOk(GenNot(t))
    decreases t, 0
  {
    hide LabelsOk; hide ParsesFrom; hide Emit; hide TestOp; hide FullSet; hide GetFirst; hide Gen; hide HeadFail;
    var f := GetFirst(t.body, FullSet());
    var core := NotCore(t);
    if HeadFail(t.body) {
      EmitLabelsOk(IFail);
      EmitParses(IFail);
    } else {
      var b := Gen(t.body, false, NoTest, FullSet());
      GenOk(t.body, false, NoTest, FullSet());
      EmitParses(IFailTwice);
      EmitLabelsOk(IFailTwice);
      SeqLabelsOk(b, Emit(IFailTwice));
      SnocParses(b, IFailTwice);
      EnterLabelsOk(IChoice(3 + |b|), b + Emit(IFailTwice));
      ConsParses(IChoice(3 + |b|), b + Emit(IFailTwice));
    }
    SkipLabelsOk(f.cs, core);
  }

  lemma {:induction false} GenAndLabelsOk(t: Tree, tt: Test)
    requires t.TAnd?
    ensures LabelsOk(GenAnd(t, tt))
    decreases t, 0
  {
    hide LabelsOk; hide ParsesFrom; hide Emit; hide Slots; hide FullSet; hide Gen; hide FixedLen;
    var n := FixedLen(t.body);
    var b := Gen(t.body, false, tt, FullSet());
    GenOk(t.body, false, tt, FullSet());
    if 0 <= n <= MAXBEHIND {
      if n > 0 {
        EmitLabelsOk(IBehind(n));
        EmitParses(IBehind(n));
        SeqLabelsOk(b, Emit(IBehind(n)));
      } else {
        assert b + [] == b;
      }
    } else {
      AndCoreLabelsOk(b);
    }
  }

  /** choice L1; b; backcommit L2; L1: fail; L2: */
  lemma AndCoreLabelsOk(b: Code)
    requires BlockOk(b)
    ensures LabelsOk(Emit(IChoice(4 + |b|)) + (b + (Emit(IBackCommit(3)) + Emit(IFail))))
  {
    hide LabelsOk; hide CodeAt; hide LabelsOkIn; hide Emit; hide ParsesFrom; hide Clean;
    var c := Emit(IChoice(4 + |b|)) + (b + (Emit(IBackCommit(3)) + Emit(IFail)));
    CodeAtWhole(c);
    CodeAtCons(c, 0, IChoice(4 + |b|), b + (Emit(IBackCommit(3)) + Emit(IFail)));
    CodeAtSplit(c, 2, b, Emit(IBackCommit(3)) + Emit(IFail));
    CodeAtCons(c, 2 + |b|, IBackCommit(3), Emit(IFail));
    CodeAtInstr(c, 4 + |b|, IFail);
    CleanInstr(c, 4 + |b|, IFail);
    CleanInstr(c, 2 + |b|, IBackCommit(3));
    FrameOk(c, 4 + |b|, IFail);
    FrameOk(c, 2 + |b|, IBackCommit(3));
    JoinOk(c, 2 + |b|, 4 + |b|, |c|);
    InsideOk(c, 2, b);
    JoinOk(c, 2, 2 + |b|, |c|);
    FrameOk(c, 0, IChoice(4 + |b|));
    JoinOk(c, 0, 2, |c|);
    WholeOk(c);
  }

  /** What a finished program looks like; peephole keeps this. */
  predicate ProgramOk(code: Code) {
    && code != [] && code[|code| - 1] == IEnd
    && forall k :: 0 <= k < |code| && code[k].HasLabel() ==>
       0 <= k + code[k].off < |code| && code[k + code[k].off] != IPad
  }

  /** The compiled program parses, ends in IEnd, has only good labels, and no chain of jumps is circular. */
  lemma CompileOk(t: Tree)
    ensures ParsesFrom(Compile(t), 0) && ProgramOk(Compile(t)) && LabelsOk(Compile(t))
  {
    hide Gen; hide ParsesFrom;
    var b := Gen(t, false, NoTest, FullSet());
    GenOk(t, false, NoTest, FullSet());
    SnocParses(b, IEnd);
    EmitParses(IEnd);
    EmitLabelsOk(IEnd);
    SeqLabelsOk(b, Emit(IEnd));
    var c := Compile(t);
    forall k | 0 <= k < |c| && c[k].HasLabel()
      ensures 0 <= k + c[k].off < |c| && c[k + c[k].off] != IPad
    {
      assert c[k] == b[k];
      assert LabelOk(b, k);
      assert LabelOk(c, k);
    }
  }
}
