/**
 The jump optimisations of 'peephole' (lpcode.c): every single rewrite of one instruction keeps
 the result of every halting run.
 */
module PegPeephole {
  import opened PegTree
  import opened PegCode
  import opened PegVm

  /** The address reached from i by following at most k jumps. */
  function Follow(code: Code, i: int, k: nat): int
    decreases k
  {
    if k == 0 || !(0 <= i < |code|) || !code[i].IJmp? then i
    else Follow(code, i + code[i].off, k - 1)
  }

  /** A chain of jumps leads from i to j. */
  ghost predicate Leads(code: Code, i: int, j: int) {
    exists k: nat :: Follow(code, i, k) == j
  }

  lemma LeadsRefl(code: Code, i: int)
    ensures Leads(code, i, i)
  {
    assert Follow(code, i, 0) == i;
  }

  /** A chain that really moves starts with a jump. */
  lemma LeadsHead(code: Code, i: int, j: int)
    requires Leads(code, i, j) && i != j
    ensures 0 <= i < |code| && code[i].IJmp? && Leads(code, i + code[i].off, j)
  {
    var k: nat :| Follow(code, i, k) == j;
    assert Follow(code, i + code[i].off, k - 1) == j;
  }

  /** Unconditional instructions without a label: a jump to one may be replaced by a copy. */
  predicate Terminal(op: Instr) {
    op.IFail? || op.IFailTwice? || op.IEnd?
  }

  /** Unconditional instructions with a label: a jump to one may be replaced by a relabelled copy. */
  predicate Committing(op: Instr) {
    op.ICommit? || op.IPartialCommit? || op.IBackCommit?
  }

  /** op2 is op with its label moved along a chain of jumps. */
  ghost predicate Relabelled(code: Code, op: Instr, at: int, op2: Instr, at2: int) {
    op.HasLabel() && op2.HasLabel() && op2 == op.WithOffset(op2.off) && Leads(code, at + op.off, at2 + op2.off)
  }

  /** One rewrite of peephole, at address i. */
  ghost predicate Rewrites(code: Code, code2: Code, i: nat) {
    && i + 1 < |code| == |code2| && code[i].HasLabel()
    && (forall k :: 0 <= k < |code| && k != i && k != i + 1 ==> code2[k] == code[k])
    && code[i + 1] == IPad
    && (code2[i + 1] == IPad || code2[i + 1] == IEmpty)
    && if code[i].IJmp? then
         exists ft: nat :: ft < |code| && ft != i && Leads(code, i, ft) && JumpRewrite(code, code[ft], ft, code2[i], i)
       else
         Relabelled(code, code[i], i, code2[i], i)
  }

  /** What a jump at i that ends at op (at ft) may become. */
  ghost predicate JumpRewrite(code: Code, op: Instr, ft: int, op2: Instr, i: int) {
    || (Terminal(op) && op2 == op)
    || (Committing(op) && Relabelled(code, op, ft, op2, i))
    || op2 == IJmp(ft - i)
  }

  // ----- simulation -----

  ghost predicate RelatedStacks(code: Code, a: Stack, b: Stack) {
    match a
    case Bottom => b.Bottom?
    case Entry(s, p, below) => b.Entry? && b.s == s && Leads(code, p, b.p) && RelatedStacks(code, below, b.below)
  }

  /** States that differ only in addresses, and there only along chains of jumps. */
  ghost predicate Related(code: Code, a: State, b: State) {
    match a
    case Run(pc, s, stack) => b.Run? && b.s == s && Leads(code, pc, b.pc) && RelatedStacks(code, stack, b.stack)
    case _ => a == b
  }

  lemma {:induction false} RelatedStacksRefl(code: Code, a: Stack)
    ensures RelatedStacks(code, a, a)
  {
    if a.Entry? {
      LeadsRefl(code, a.p);
      RelatedStacksRefl(code, a.below);
    }
  }

  lemma BottomRelated(code: Code, a: Stack, b: Stack)
    requires RelatedStacks(code, a, b) && a.Bottom?
    ensures b.Bottom?
  {
  }

  lemma RelatedRefl(code: Code, a: State)
    ensures Related(code, a, a)
  {
    if a.Run? {
      LeadsRefl(code, a.pc);
      RelatedStacksRefl(code, a.stack);
    }
  }

  /** The same instruction at the same address keeps states related. */
  lemma ExecSame(code: Code, op: Instr, s: Subject, pc: int, i: nat, a: Stack, b: Stack)
    requires i <= |s| && RelatedStacks(code, a, b)
    ensures Related(code, Exec(op, s, pc, i, a), Exec(op, s, pc, i, b))
  {
    hide Leads; hide Slots; hide SpanEnd; hide NextIn;
    LeadsRefl(code, pc + 1);
    LeadsRefl(code, pc + 2);
    LeadsRefl(code, pc + Slots(op));
    if op.HasLabel() {
      LeadsRefl(code, pc + op.off);
    }
  }

  /** An instruction relabelled in place keeps states related. */
  lemma ExecRelabelled(code: Code, op: Instr, op2: Instr, s: Subject, pc: int, i: nat, a: Stack, b: Stack)
    requires i <= |s| && RelatedStacks(code, a, b)
    requires Relabelled(code, op, pc, op2, pc)
    ensures Related(code, Exec(op, s, pc, i, a), Exec(op2, s, pc, i, b))
  {
    hide Leads; hide SpanEnd; hide NextIn;
    LeadsRefl(code, pc + 2);
    LeadsRefl(code, pc + Slots(op));
  }

  /** A copied unconditional instruction keeps states related. */
  lemma ExecCopied(code: Code, op: Instr, op2: Instr, s: Subject, ft: int, pc: int, i: nat, a: Stack, b: Stack)
    requires i <= |s| && RelatedStacks(code, a, b)
    requires (Terminal(op) && op2 == op) || (Committing(op) && Relabelled(code, op, ft, op2, pc))
    ensures Related(code, Exec(op, s, ft, i, a), Exec(op2, s, pc, i, b))
  {
    hide Leads;
  }

  lemma {:induction false} StuckForever(code: Code, s: Subject, n: nat)
    ensures Steps(code, s, Stuck, n) == Stuck
  {
    if n > 0 {
      StuckForever(code, s, n - 1);
    }
  }

  /** A run that halts still halts, with fewer steps to go, from the end of a chain of jumps. */
  lemma {:induction false} JumpAhead(code: Code, s: Subject, pc: int, i: nat, stk: Stack, ft: int, n: nat,
      r: Outcome) returns (m: nat)
    requires Steps(code, s, Run(pc, i, stk), n) == Halt(r)
    requires Leads(code, pc, ft) && pc != GIVEUP
    ensures Steps(code, s, Run(ft, i, stk), m) == Halt(r)
    ensures m <= n && (pc != ft ==> m < n)
    decreases n
  {
    if pc == ft {
      m := n;
    } else {
      LeadsHead(code, pc, ft);
      if i > |s| {
        StuckForever(code, s, n - 1);
      }
      var next := pc + code[pc].off;
      assert Step(code, s, Run(pc, i, stk)) == Run(next, i, stk);
      if next == ft {
        m := n - 1;
      } else {
        LeadsHead(code, next, ft);
        m := JumpAhead(code, s, next, i, stk, ft, n - 1, r);
      }
    }
  }

  /** One step of the rewritten code, and then a run of it. */
  lemma StepThen(code: Code, s: Subject, a: State, z: State)
    requires Reach(code, s, Step(code, s, a), z)
    ensures Reach(code, s, a, z)
  {
    hide Reach;
    ReachStep(code, s, a);
    ReachTrans(code, s, a, Step(code, s, a), z);
  }

  /**
   Simulation: when the original code halts from a state, the rewritten code halts with the same
   result from every related state.
   */
  lemma {:induction false} Simulates(code: Code, code2: Code, at: nat, s: Subject, a: State, b: State, n: nat,
      r: Outcome)
    requires Rewrites(code, code2, at)
    requires Related(code, a, b)
    requires Steps(code, s, a, n) == Halt(r)
    ensures Reach(code2, s, b, Halt(r))
    decreases n
  {
    hide Reach; hide Leads; hide RelatedStacks; hide Exec;
    if a.Halt? {
      HaltForever(code, s, r, a, n);
      ReachRefl(code2, s, b);
    } else if a.Stuck? {
      StuckForever(code, s, n);
    } else if a.pc != b.pc {
      LeadsHead(code, a.pc, b.pc);
      SimulatesJump(code, code2, at, s, a, b, n, r);
    } else {
      assert n > 0;
      if a.pc == GIVEUP {
        if a.stack.Bottom? {
          HaltForever(code, s, r, Halt(Fail), n - 1);
          BottomRelated(code, a.stack, b.stack);
          ReachStep(code2, s, b);
        } else {
          StuckForever(code, s, n - 1);
        }
      } else if !(0 <= a.pc < |code|) || a.s > |s| {
        StuckForever(code, s, n - 1);
      } else if a.pc == at && code[at].IJmp? {
        SimulatesRewrittenJump(code, code2, at, s, a, b, n, r);
      } else {
        if a.pc == at {
          ExecRelabelled(code, code[at], code2[at], s, a.pc, a.s, a.stack, b.stack);
        } else if a.pc == at + 1 {
          PadIsStuck(code, s, a, n);
        } else {
          ExecSame(code, code[a.pc], s, a.pc, a.s, a.stack, b.stack);
        }
        Simulates(code, code2, at, s, Step(code, s, a), Step(code2, s, b), n - 1, r);
        StepThen(code2, s, b, Halt(r));
      }
    }
  }

  lemma {:induction false} HaltForever(code: Code, s: Subject, r: Outcome, a: State, n: nat)
    requires a.Halt? && Steps(code, s, a, n) == Halt(r)
    ensures a == Halt(r)
  {
    if n > 0 {
      HaltForever(code, s, r, a, n - 1);
    }
  }

  lemma PadIsStuck(code: Code, s: Subject, a: State, n: nat)
    requires a.Run? && 0 <= a.pc < |code| && code[a.pc] == IPad
    ensures Steps(code, s, a, n) == (if n == 0 then a else Stuck)
  {
    if n > 0 {
      StuckForever(code, s, n - 1);
    }
  }

  /** The original code still has a jump to make. */
  lemma {:induction false} SimulatesJump(code: Code, code2: Code, at: nat, s: Subject, a: State, b: State, n: nat,
      r: Outcome)
    requires Rewrites(code, code2, at)
    requires Related(code, a, b) && a.Run? && 0 <= a.pc < |code| && code[a.pc].IJmp?
    requires Leads(code, a.pc + code[a.pc].off, b.pc)
    requires Steps(code, s, a, n) == Halt(r)
    ensures Reach(code2, s, b, Halt(r))
    decreases n, 0
  {
    hide Reach; hide Leads; hide RelatedStacks; hide Rewrites;
    assert n > 0;
    if a.s > |s| {
      StuckForever(code, s, n - 1);
    } else {
      Simulates(code, code2, at, s, Step(code, s, a), b, n - 1, r);
    }
  }

  /** The rewritten jump itself. */
  lemma {:induction false} SimulatesRewrittenJump(code: Code, code2: Code, at: nat, s: Subject, a: State, b: State,
      n: nat, r: Outcome)
    requires Rewrites(code, code2, at) && code[at].IJmp?
    requires Related(code, a, b) && a.Run? && a.pc == b.pc == at && a.s <= |s|
    requires Steps(code, s, a, n) == Halt(r)
    ensures Reach(code2, s, b, Halt(r))
    decreases n, 0
  {
    hide Reach; hide Leads; hide RelatedStacks; hide Exec; hide Steps;
    var ft: nat :| ft < |code| && ft != at && Leads(code, at, ft) && JumpRewrite(code, code[ft], ft, code2[at], at);
    var m := JumpAhead(code, s, at, a.s, a.stack, ft, n, r);
    var c := Run(ft, a.s, a.stack);
    if code2[at] == IJmp(ft - at) {
      JmpTo(code2, s, at, ft, b);
      LeadsRefl(code, ft);
      Simulates(code, code2, at, s, c, Run(ft, b.s, b.stack), m, r);
    } else {
      HaltNotYet(code, s, c, m, r);
      ExecCopied(code, code[ft], code2[at], s, ft, at, a.s, a.stack, b.stack);
      Simulates(code, code2, at, s, Step(code, s, c), Step(code2, s, b), m - 1, r);
    }
    StepThen(code2, s, b, Halt(r));
  }

  lemma JmpTo(code: Code, s: Subject, at: nat, ft: nat, b: State)
    requires at < |code| && code[at] == IJmp(ft - at) && b.Run? && b.pc == at && b.s <= |s|
    ensures Step(code, s, b) == Run(ft, b.s, b.stack)
  {
  }

  lemma HaltNotYet(code: Code, s: Subject, c: State, m: nat, r: Outcome)
    requires c.Run? && Steps(code, s, c, m) == Halt(r)
    ensures m > 0 && Steps(code, s, Step(code, s, c), m - 1) == Halt(r)
  {
  }

  // ----- refinement -----

  /** Whatever the first code computes, the second computes too. */
  ghost predicate Refines(code: Code, code2: Code) {
    forall s: Subject, start: nat, r: Outcome ::
      Reach(code, s, Initial(start), Halt(r)) ==> Reach(code2, s, Initial(start), Halt(r))
  }

  lemma RewriteRefines(code: Code, code2: Code, at: nat)
    requires Rewrites(code, code2, at)
    ensures Refines(code, code2)
  {
    hide Rewrites; hide Related;
    forall s: Subject, start: nat, r: Outcome | Reach(code, s, Initial(start), Halt(r))
      ensures Reach(code2, s, Initial(start), Halt(r))
    {
      var n: nat :| Steps(code, s, Initial(start), n) == Halt(r);
      RelatedRefl(code, Initial(start));
      Simulates(code, code2, at, s, Initial(start), Initial(start), n, r);
    }
  }

  lemma RefinesTrans(a: Code, b: Code, c: Code)
    requires Refines(a, b) && Refines(b, c)
    ensures Refines(a, c)
  {
    hide Reach;
  }

  lemma {:induction false} FollowMore(code: Code, i: int, k: nat)
    requires 0 <= Follow(code, i, k) < |code| && code[Follow(code, i, k)].IJmp?
    ensures Follow(code, i, k + 1) == Follow(code, i, k) + code[Follow(code, i, k)].off
    decreases k
  {
    if k > 0 && 0 <= i < |code| && code[i].IJmp? {
      FollowMore(code, i + code[i].off, k - 1);
    }
  }

  /** A chain can be extended at its end. */
  lemma LeadsMore(code: Code, i: int, j: int)
    requires Leads(code, i, j) && 0 <= j < |code| && code[j].IJmp?
    ensures Leads(code, i, j + code[j].off)
  {
    var k: nat :| Follow(code, i, k) == j;
    FollowMore(code, i, k);
  }
}
