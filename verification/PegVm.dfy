/**
 The LPeg virtual machine (lpvm.c, 'match') without captures and calls, as a transition function,
 and the reachability relation that its runs induce.
 */
module PegVm {
  import opened Prelude
  import opened PegTree
  import opened PegCode

  /** Address of the IGiveup instruction, which lies outside of every code array. */
  const GIVEUP := -1

  /** The backtrack stack: each entry saves a subject position and where to go on failure. */
  datatype Stack = Bottom | Entry(s: nat, p: int, below: Stack)

  /** Stuck stands for a failed assertion of the interpreter or an access outside of the code. */
  datatype State = Run(pc: int, s: nat, stack: Stack) | Halt(result: Outcome) | Stuck

  /** The state in which 'match' starts its loop. */
  function Initial(start: nat): State {
    Run(0, start, Entry(start, GIVEUP, Bottom))
  }

  /** The 'fail' label: pop an entry and resume there. */
  function Backtrack(stack: Stack): State {
    match stack
    case Bottom => Stuck
    case Entry(s, p, below) => Run(p, s, below)
  }

  /** ISpan: first position at or after i whose byte is outside the set. */
  function SpanEnd(s: Subject, i: nat, cs: Charset): (r: nat)
    requires i <= |s|
    ensures i <= r <= |s|
    decreases |s| - i
  {
    if i < |s| && s[i] in cs then SpanEnd(s, i + 1, cs) else i
  }

  /** The next byte is there and belongs to the set. */
  predicate NextIn(s: Subject, i: nat, cs: Charset) {
    i < |s| && s[i] in cs
  }

  /** What the instruction at pc does, at position i <= |s| with the given stack. */
  function Exec(op: Instr, s: Subject, pc: int, i: nat, stack: Stack): State
    requires i <= |s|
  {
    match op
    case IEnd => if stack.Entry? && stack.below.Bottom? then Halt(Match(i)) else Stuck
    case IAny => if i < |s| then Run(pc + 1, i + 1, stack) else Backtrack(stack)
    case IChar(c) => if NextIn(s, i, {c}) then Run(pc + 1, i + 1, stack) else Backtrack(stack)
    case ISet(cs, _) => if NextIn(s, i, cs) then Run(pc + Slots(op), i + 1, stack) else Backtrack(stack)
    case ITestAny(off) => Run(if i < |s| then pc + 2 else pc + off, i, stack)
    case ITestChar(c, off) => Run(if NextIn(s, i, {c}) then pc + 2 else pc + off, i, stack)
    case ITestSet(cs, _, off) => Run(if NextIn(s, i, cs) then pc + Slots(op) else pc + off, i, stack)
    case IBehind(n) => if n > i then Backtrack(stack) else Run(pc + 1, i - n, stack)
    case ISpan(cs, _) => Run(pc + Slots(op), SpanEnd(s, i, cs), stack)
    case IJmp(off) => Run(pc + off, i, stack)
    case IChoice(off) => Run(pc + 2, i, Entry(i, pc + off, stack))
    case ICommit(off) => if stack.Entry? then Run(pc + off, i, stack.below) else Stuck
    case IPartialCommit(off) => if stack.Entry? then Run(pc + off, i, stack.(s := i)) else Stuck
    case IBackCommit(off) => if stack.Entry? then Run(pc + off, stack.s, stack.below) else Stuck
    case IFailTwice => if stack.Entry? then Backtrack(stack.below) else Stuck
    case IFail => Backtrack(stack)
    case IEmpty => Stuck
    case IPad => Stuck
  }

  /** One iteration of the interpreter loop. */
  function Step(code: Code, s: Subject, st: State): State {
    match st
    case Halt(_) => st
    case Stuck => st
    case Run(pc, i, stack) =>
      if pc == GIVEUP then (if stack.Bottom? then Halt(Fail) else Stuck)
      else if !(0 <= pc < |code|) || i > |s| then Stuck
      else Exec(code[pc], s, pc, i, stack)
  }

  function Steps(code: Code, s: Subject, st: State, n: nat): State
    decreases n
  {
    if n == 0 then st else Steps(code, s, Step(code, s, st), n - 1)
  }

  /** Some number of steps leads from a to b. */
  ghost predicate Reach(code: Code, s: Subject, a: State, b: State) {
    exists n: nat :: Steps(code, s, a, n) == b
  }

  lemma {:induction false} StepsAdd(code: Code, s: Subject, a: State, m: nat, n: nat)
    ensures Steps(code, s, a, m + n) == Steps(code, s, Steps(code, s, a, m), n)
    decreases m
  {
    if m > 0 {
      StepsAdd(code, s, Step(code, s, a), m - 1, n);
    }
  }

  lemma ReachRefl(code: Code, s: Subject, a: State)
    ensures Reach(code, s, a, a)
  {
    assert Steps(code, s, a, 0) == a;
  }

  lemma ReachStep(code: Code, s: Subject, a: State)
    ensures Reach(code, s, a, Step(code, s, a))
  {
    assert Steps(code, s, a, 1) == Steps(code, s, Step(code, s, a), 0);
  }

  lemma ReachTrans(code: Code, s: Subject, a: State, b: State, c: State)
    requires Reach(code, s, a, b) && Reach(code, s, b, c)
    ensures Reach(code, s, a, c)
  {
    var m: nat :| Steps(code, s, a, m) == b;
    var n: nat :| Steps(code, s, b, n) == c;
    StepsAdd(code, s, a, m, n);
  }

  /** Running one known instruction. */
  lemma ReachExec(code: Code, s: Subject, op: Instr, pc: nat, i: nat, stk: Stack)
    requires i <= |s| && pc < |code| && code[pc] == op
    ensures Reach(code, s, Run(pc, i, stk), Exec(op, s, pc, i, stk))
  {
    ReachStep(code, s, Run(pc, i, stk));
  }

  /** One known instruction, and then a run. */
  lemma ReachThen(code: Code, s: Subject, op: Instr, pc: nat, i: nat, stk: Stack, z: State)
    requires i <= |s| && pc < |code| && code[pc] == op
    requires Reach(code, s, Exec(op, s, pc, i, stk), z)
    ensures Reach(code, s, Run(pc, i, stk), z)
  {
    ReachExec(code, s, op, pc, i, stk);
    ReachTrans(code, s, Run(pc, i, stk), Exec(op, s, pc, i, stk), z);
  }

  /** A run, and then one known instruction. */
  lemma ReachLast(code: Code, s: Subject, a: State, op: Instr, pc: nat, i: nat, stk: Stack)
    requires i <= |s| && pc < |code| && code[pc] == op
    requires Reach(code, s, a, Run(pc, i, stk))
    ensures Reach(code, s, a, Exec(op, s, pc, i, stk))
  {
    ReachExec(code, s, op, pc, i, stk);
    ReachTrans(code, s, a, Run(pc, i, stk), Exec(op, s, pc, i, stk));
  }
}
