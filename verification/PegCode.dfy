/**
 Instructions of the LPeg machine and the code that the generator of lpcode.c produces for a
 pattern, as position-independent blocks of instruction slots (all labels are relative offsets).
 */
module PegCode {
  import opened Prelude
  import opened PegTree
  import opened PegCharset

  /**
   One slot of the code array. An instruction occupies its first slot (with its offset, when it
   has one); the further slots that hold the offset and a charset bitmap are IPad. A charset
   instruction records the size of its bitmap, in slots; PegCharset relates bitmap and set.
   */
  datatype Instr =
    | IAny
    | IChar(c: Byte)
    | ISet(cs: Charset, size: nat)
    | ITestAny(off: int)
    | ITestChar(c: Byte, off: int)
    | ITestSet(cs: Charset, size: nat, off: int)
    | ISpan(cs: Charset, size: nat)
    | IBehind(n: nat)
    | IEnd
    | IChoice(off: int)
    | IJmp(off: int)
    | ICommit(off: int)
    | IPartialCommit(off: int)
    | IBackCommit(off: int)
    | IFailTwice
    | IFail
    | IEmpty
    | IPad
  {
    predicate HasLabel() {
      ITestAny? || ITestChar? || ITestSet? || IChoice? || IJmp? || ICommit? || IPartialCommit? || IBackCommit?
    }

    /** setoffset */
    function WithOffset(o: int): (r: Instr)
      requires HasLabel()
      ensures r.HasLabel() && r.off == o && Slots(r) == Slots(this)
    {
      this.(off := o)
    }
  }

  type Code = seq<Instr>

  /** sizei */
  function Slots(i: Instr): (r: nat)
    ensures r >= 1
    ensures i.HasLabel() ==> r >= 2
  {
    match i
    case ISet(_, size) => 1 + size
    case ISpan(_, size) => 1 + size
    case ITestSet(_, size, _) => 2 + size
    case _ => if i.HasLabel() then 2 else 1
  }

  function Pads(n: nat): (r: Code)
    ensures |r| == n
    ensures forall k :: 0 <= k < n ==> r[k] == IPad
  {
    seq(n, _ => IPad)
  }

  lemma EmitPads(i: Instr, k: nat)
    requires 1 <= k < |Emit(i)|
    ensures Emit(i)[k] == IPad
  {
  }

  /** One instruction with all its slots. */
  function Emit(i: Instr): (r: Code)
    ensures |r| == Slots(i) && r[0] == i
  {
    [i] + Pads(Slots(i) - 1)
  }

  /** A test that dominates the code being generated (its offset does not matter). */
  datatype Test = NoTest | Tested(op: Instr)

  /** The least byte of a set, searching from k upward (255 when there is none). */
  function Least(cs: Charset, k: Byte): (r: Byte)
    decreases 255 - k
  {
    if k in cs || k == 255 then k else Least(cs, k + 1)
  }

  /** codetestset: the cheapest instruction that jumps unless the next byte is in the set. */
  function TestOp(cs: Charset, off: int): (r: Instr)
    ensures r.HasLabel() && r.off == off
  {
    if cs == {} then IJmp(off)
    else if cs == {Least(cs, 0)} then ITestChar(Least(cs, 0), off)
    else if cs == FullSet() then ITestAny(off)
    else ITestSet(cs, SetSlots(cs), off)
  }

  /** Size of the test for a set; it does not depend on the offset. */
  function TestSize(cs: Charset): nat {
    Slots(TestOp(cs, 0))
  }

  function TestOf(cs: Charset): Test {
    Tested(TestOp(cs, 0))
  }

  /** codechar and codecharset: IAny when an equivalent test dominates the instruction. */
  function GenChar(c: Byte, tt: Test): Code {
    if tt.Tested? && tt.op.ITestChar? && tt.op.c == c then Emit(IAny) else Emit(IChar(c))
  }

  function GenSet(cs: Charset, tt: Test): Code {
    if tt.Tested? && tt.op.ITestSet? && tt.op.cs == cs then Emit(IAny) else Emit(ISet(cs, SetSlots(cs)))
  }

  /**
   codegen. 'opt' says that the code is the last thing inside an optional pattern whose choice is
   on top of the stack; 'tt' is a test that protects the code; 'fl' is the follow set.
   */
  function Gen(t: Tree, opt: bool, tt: Test, fl: Charset): Code
    decreases t, 1
  {
    match t
    case TChar(c) => GenChar(c, tt)
    case TSet(cs) => GenSet(cs, tt)
    case TAny => Emit(IAny)
    case TTrue => []
    case TFalse => Emit(IFail)
    case TSeq(_, _) => GenSeq(t, opt, tt, fl)
    case TChoice(_, _) => GenChoice(t, opt, fl)
    case TRep(_) => GenRep(t, opt, fl)
    case TNot(_) => GenNot(t)
    case TAnd(_) => GenAnd(t, tt)
    case TBehind(_, _) => GenBehind(t)
  }

  /** Follow set given to the first part of a sequence. */
  function SeqFollow(t: Tree, fl: Charset): Charset
    requires t.TSeq?
  {
    if NeedFollow(t.p1) then GetFirst(t.p2, fl).cs else FullSet()
  }

  /** The test that still protects the second part of a sequence. */
  function SeqTest(t: Tree, tt: Test): Test
    requires t.TSeq?
  {
    if FixedLen(t.p1) != 0 then NoTest else tt
  }

  function GenSeq(t: Tree, opt: bool, tt: Test, fl: Charset): Code
    requires t.TSeq?
    decreases t, 0
  {
    Gen(t.p1, false, tt, SeqFollow(t, fl)) + Gen(t.p2, opt, SeqTest(t, tt), fl)
  }

  /** The choice needs no stack entry: one byte decides between its alternatives. */
  predicate ChoiceByTest(t: Tree, fl: Charset)
    requires t.TChoice?
  {
    var f1 := GetFirst(t.p1, FullSet());
    HeadFail(t.p1) || (!f1.e && f1.cs !! GetFirst(t.p2, fl).cs)
  }

  function GenChoice(t: Tree, opt: bool, fl: Charset): Code
    requires t.TChoice?
    decreases t, 0
  {
    var f1 := GetFirst(t.p1, FullSet());
    if ChoiceByTest(t, fl) then
      var b1 := Gen(t.p1, false, TestOf(f1.cs), fl);
      var b2 := Gen(t.p2, opt, NoTest, fl);
      var jmp := if t.p2.TTrue? then [] else Emit(IJmp(2 + |b2|));
      Emit(TestOp(f1.cs, TestSize(f1.cs) + |b1| + |jmp|)) + (b1 + (jmp + b2))
    else if opt && t.p2.TTrue? then
      Emit(IPartialCommit(2)) + Gen(t.p1, true, NoTest, FullSet())
    else
      var b1 := Gen(t.p1, t.p2.TTrue?, if f1.e then NoTest else TestOf(f1.cs), FullSet());
      var b2 := Gen(t.p2, opt, NoTest, fl);
      var core := Emit(IChoice(4 + |b1|)) + (b1 + (Emit(ICommit(2 + |b2|)) + b2));
      if f1.e then core
      else Emit(TestOp(f1.cs, TestSize(f1.cs) + 4 + |b1|)) + core
  }

  /** coderepcharset applies. */
  predicate RepByCharset(t: Tree)
    requires t.TRep?
  {
    t.body.TFalse? || t.body.TAny? || t.body.TChar? || t.body.TSet?
  }

  /** The repetition needs no stack entry. */
  predicate RepByTest(t: Tree, fl: Charset)
    requires t.TRep?
  {
    var f := GetFirst(t.body, FullSet());
    HeadFail(t.body) || (!f.e && f.cs !! fl)
  }

  function GenRep(t: Tree, opt: bool, fl: Charset): Code
    requires t.TRep?
    decreases t, 0
  {
    if RepByCharset(t) then
      match t.body
      case TFalse => []
      case TAny => Emit(ITestAny(5)) + (Emit(IAny) + Emit(IJmp(-3)))
      case TChar(c) => Emit(ITestChar(c, 5)) + (Emit(IAny) + Emit(IJmp(-3)))
      case TSet(cs) => Emit(ISpan(cs, SetSlots(cs)))
    else
      var f := GetFirst(t.body, FullSet());
      if RepByTest(t, fl) then
        var b := Gen(t.body, false, TestOf(f.cs), FullSet());
        var n := TestSize(f.cs) + |b|;
        Emit(TestOp(f.cs, n + 2)) + (b + Emit(IJmp(-n)))
      else
        var b := Gen(t.body, false, NoTest, FullSet());
        var enter := if opt then IPartialCommit(2) else IChoice(4 + |b|);
        var core := Emit(enter) + (b + Emit(IPartialCommit(-|b|)));
        if f.e then core
        else Emit(TestOp(f.cs, TestSize(f.cs) + |core|)) + core
  }

  function GenNot(t: Tree): Code
    requires t.TNot?
    decreases t, 0
  {
    var f := GetFirst(t.body, FullSet());
    var b := Gen(t.body, false, NoTest, FullSet());
    var core := if HeadFail(t.body) then Emit(IFail)
                else Emit(IChoice(3 + |b|)) + (b + Emit(IFailTwice));
    if f.e then core
    else Emit(TestOp(f.cs, TestSize(f.cs) + |core|)) + core
  }

  function GenAnd(t: Tree, tt: Test): Code
    requires t.TAnd?
    decreases t, 0
  {
    var n := FixedLen(t.body);
    var b := Gen(t.body, false, tt, FullSet());
    if 0 <= n <= MAXBEHIND then
      b + (if n > 0 then Emit(IBehind(n)) else [])
    else
      Emit(IChoice(4 + |b|)) + (b + (Emit(IBackCommit(3)) + Emit(IFail)))
  }

  function GenBehind(t: Tree): Code
    requires t.TBehind?
    decreases t, 0
  {
    (if t.n > 0 then Emit(IBehind(t.n)) else []) + Gen(t.body, false, NoTest, FullSet())
  }

  /** compile, before peephole optimisation. */
  function Compile(t: Tree): Code {
    Gen(t, false, NoTest, FullSet()) + Emit(IEnd)
  }
}
