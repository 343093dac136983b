/**
 Soundness of the static analyses of lpcode.c with respect to the direct evaluator, for every
 pattern, subject and position.
 */
module PegAnalysis {
  import opened Prelude
  import opened PegTree

  /** A pattern that can match without consuming anything is reported nullable. */
  lemma {:induction false} NullableSound(t: Tree, s: Subject, i: nat)
    requires i <= |s|
    requires Eval(t, s, i) == Match(i)
    ensures Nullable(t)
  {
    match t
    case TSeq(p1, p2) =>
      NullableSound(p1, s, i);
      NullableSound(p2, s, i);
    case TChoice(p1, p2) =>
      if Eval(p1, s, i).Match? {
        NullableSound(p1, s, i);
      } else {
        NullableSound(p2, s, i);
      }
    case _ =>
  }

  /** The pattern with every predicate replaced by true. */
  function Bare(t: Tree): Tree {
    match t
    case TRep(p) => TRep(Bare(p))
    case TSeq(p1, p2) => TSeq(Bare(p1), Bare(p2))
    case TChoice(p1, p2) => TChoice(Bare(p1), Bare(p2))
    case TNot(_) => TTrue
    case TAnd(_) => TTrue
    case TBehind(_, _) => TTrue
    case _ => t
  }

  predicate HasPredicate(t: Tree) {
    match t
    case TRep(p) => HasPredicate(p)
    case TSeq(p1, p2) => HasPredicate(p1) || HasPredicate(p2)
    case TChoice(p1, p2) => HasPredicate(p1) || HasPredicate(p2)
    case TNot(_) => true
    case TAnd(_) => true
    case TBehind(_, _) => true
    case _ => false
  }

  /** Nullable is exact but for predicates, which are taken to succeed. */
  lemma {:induction false} NullableExactly(t: Tree)
    ensures Nullable(t) <==> Eval(Bare(t), [], 0) == Match(0)
    ensures Eval(Bare(t), [], 0).Match? ==> Eval(Bare(t), [], 0).pos == 0
  {
    match t
    case TRep(p) => NullableExactly(p);
    case TSeq(p1, p2) =>
      NullableExactly(p1);
      NullableExactly(p2);
    case TChoice(p1, p2) =>
      NullableExactly(p1);
      NullableExactly(p2);
    case _ =>
  }

  /** Without predicates a pattern is nullable exactly when it matches the empty subject. */
  lemma {:induction false} NullablePlain(t: Tree)
    requires !HasPredicate(t)
    ensures Nullable(t) <==> Eval(t, [], 0) == Match(0)
  {
    BareSame(t);
    NullableExactly(t);
  }

  lemma {:induction false} BareSame(t: Tree)
    requires !HasPredicate(t)
    ensures Bare(t) == t
  {
    match t
    case TRep(p) => BareSame(p);
    case TSeq(p1, p2) =>
      BareSame(p1);
      BareSame(p2);
    case TChoice(p1, p2) =>
      BareSame(p1);
      BareSame(p2);
    case _ =>
  }

  /** A pattern reported "nofail" matches every subject at every position. */
  lemma {:induction false} NoFailSound(t: Tree, s: Subject, i: nat)
    requires i <= |s|
    requires NoFail(t)
    ensures Eval(t, s, i).Match?
    decreases t, |s| - i
  {
    match t
    case TRep(p) =>
      if Eval(p, s, i).Match? && i < Eval(p, s, i).pos {
        NoFailSound(t, s, Eval(p, s, i).pos);
      }
    case TAnd(p) => NoFailSound(p, s, i);
    case TSeq(p1, p2) =>
      NoFailSound(p1, s, i);
      NoFailSound(p2, s, Eval(p1, s, i).pos);
    case TChoice(p1, p2) =>
      if NoFail(p1) {
        NoFailSound(p1, s, i);
      } else {
        NoFailSound(p2, s, i);
      }
    case TTrue =>
  }

  /** The pattern with negations and look-behinds, which the analysis takes to fail, replaced by false. */
  function Doubted(t: Tree): Tree {
    match t
    case TRep(p) => TRep(Doubted(p))
    case TSeq(p1, p2) => TSeq(Doubted(p1), Doubted(p2))
    case TChoice(p1, p2) => TChoice(Doubted(p1), Doubted(p2))
    case TAnd(p) => TAnd(Doubted(p))
    case TNot(_) => TFalse
    case TBehind(_, _) => TFalse
    case _ => t
  }

  /** "nofail" is exact but for negations and look-behinds, which are taken to fail. */
  lemma {:induction false} NoFailExactly(t: Tree)
    ensures NoFail(t) <==> Eval(Doubted(t), [], 0).Match?
  {
    match t
    case TRep(p) => NoFailExactly(p);
    case TAnd(p) => NoFailExactly(p);
    case TSeq(p1, p2) =>
      NoFailExactly(p1);
      NoFailExactly(p2);
    case TChoice(p1, p2) =>
      NoFailExactly(p1);
      NoFailExactly(p2);
    case _ =>
  }

  /** "nofail" is stronger than "nullable". */
  lemma {:induction false} NoFailNullable(t: Tree)
    requires NoFail(t)
    ensures Nullable(t)
  {
    match t
    case TSeq(p1, p2) =>
      NoFailNullable(p1);
      NoFailNullable(p2);
    case TChoice(p1, p2) =>
      if NoFail(p1) {
        NoFailNullable(p1);
      } else {
        NoFailNullable(p2);
      }
    case _ =>
  }

  /** A fixed length n means that every match consumes exactly n bytes. */
  lemma {:induction false} FixedLenSound(t: Tree, s: Subject, i: nat)
    requires i <= |s|
    requires FixedLen(t) >= 0 && Eval(t, s, i).Match?
    ensures Eval(t, s, i).pos == i + FixedLen(t)
  {
    match t
    case TSeq(p1, p2) =>
      FixedLenSound(p1, s, i);
      FixedLenSound(p2, s, Eval(p1, s, i).pos);
    case TChoice(p1, p2) =>
      if Eval(p1, s, i).Match? {
        FixedLenSound(p1, s, i);
      } else {
        FixedLenSound(p2, s, i);
      }
    case _ =>
  }

  /** A repetition that is not inside a predicate. */
  predicate Loops(t: Tree) {
    match t
    case TRep(_) => true
    case TSeq(p1, p2) => Loops(p1) || Loops(p2)
    case TChoice(p1, p2) => Loops(p1) || Loops(p2)
    case _ => false
  }

  /** The lengths of the paths through a pattern without loops; a failing path counts as empty. */
  ghost function Lengths(t: Tree): set<int> {
    match t
    case TChar(_) => {1}
    case TSet(_) => {1}
    case TAny => {1}
    case TSeq(p1, p2) => Sums(Lengths(p1), Lengths(p2))
    case TChoice(p1, p2) => Lengths(p1) + Lengths(p2)
    case _ => {0}
  }

  ghost function Sums(x: set<int>, y: set<int>): set<int> {
    set a, b | a in x && b in y :: a + b
  }

  predicate Agree(lengths: set<int>) {
    forall m, n :: m in lengths && n in lengths ==> m == n
  }

  /** The length is fixed exactly when there is no loop and all paths are equally long. */
  lemma {:induction false} FixedLenExactly(t: Tree)
    ensures FixedLen(t) >= 0 <==> !Loops(t) && Agree(Lengths(t))
    ensures if FixedLen(t) >= 0 then FixedLen(t) in Lengths(t) else FixedLen(t) == -1
    ensures exists n :: n in Lengths(t)
  {
    hide FixedLen, Lengths, Loops, Agree, Sums;
    if t.TSeq? || t.TChoice? {
      FixedLenExactly(t.p1);
      FixedLenExactly(t.p2);
      LengthParts(t);
      SumsAgree(Lengths(t.p1), Lengths(t.p2));
      UnionAgrees(Lengths(t.p1), Lengths(t.p2), FixedLen(t.p1), FixedLen(t.p2));
    } else {
      OneLength(t);
    }
  }

  lemma LengthParts(t: Tree)
    requires t.TSeq? || t.TChoice?
    ensures var x, y := Lengths(t.p1), Lengths(t.p2);
            Lengths(t) == if t.TSeq? then Sums(x, y) else x + y
    ensures var m, n := FixedLen(t.p1), FixedLen(t.p2);
            FixedLen(t) == if m < 0 || n < 0 || (t.TChoice? && m != n) then -1 else if t.TSeq? then m + n else m
    ensures Loops(t) <==> Loops(t.p1) || Loops(t.p2)
  {
  }

  lemma OneLength(t: Tree)
    requires !t.TSeq? && !t.TChoice?
    ensures exists n :: n in Lengths(t)
    ensures if t.TRep? then FixedLen(t) == -1 && Loops(t)
            else FixedLen(t) >= 0 && !Loops(t) && FixedLen(t) in Lengths(t) && Agree(Lengths(t))
  {
    assert 0 in Lengths(t) || 1 in Lengths(t);
  }

  lemma UnionAgrees(x: set<int>, y: set<int>, m: int, n: int)
    requires (exists k :: k in x) && exists k :: k in y
    ensures exists k :: k in x + y
    ensures Agree(x + y) ==> Agree(x) && Agree(y)
    ensures m in x && n in y && Agree(x) && Agree(y) ==> (Agree(x + y) <==> m == n)
  {
    var k :| k in x;
    assert k in x + y;
    assert forall j :: j in x || j in y ==> j in x + y;
  }

  lemma SumsAgree(x: set<int>, y: set<int>)
    requires (exists n :: n in x) && exists n :: n in y
    ensures Agree(Sums(x, y)) <==> Agree(x) && Agree(y)
    ensures forall a, b :: a in x && b in y ==> a + b in Sums(x, y)
    ensures exists n :: n in Sums(x, y)
  {
    var sums := Sums(x, y);
    var a :| a in x;
    var b :| b in y;
    assert a + b in sums;
    if Agree(sums) {
      forall m, n | m in x && n in x ensures m == n {
        assert m + b in sums && n + b in sums;
      }
      forall m, n | m in y && n in y ensures m == n {
        assert a + m in sums && a + n in sums;
      }
    }
  }

  /** One-byte patterns: exactly those with a charset, and they match that charset. */
  lemma ToCharsetSound(t: Tree, s: Subject, i: nat)
    requires i <= |s|
    requires ToCharset(t).Some?
    ensures Eval(t, s, i) == if i < |s| && s[i] in ToCharset(t).value then Match(i + 1) else Fail
  {
  }

  /**
   First sets are sound: a match that starts at a byte and either consumes it, or consumes nothing
   while that byte is in the follow set, has that byte in the first set.
   */
  lemma {:induction false} GetFirstSound(t: Tree, follow: Charset, s: Subject, i: nat)
    requires i < |s|
    requires Eval(t, s, i).Match?
    requires Eval(t, s, i).pos > i || s[i] in follow
    ensures s[i] in GetFirst(t, follow).cs
  {
    match t
    case TChoice(p1, p2) =>
      if Eval(p1, s, i).Match? {
        GetFirstSound(p1, follow, s, i);
      } else {
        GetFirstSound(p2, follow, s, i);
      }
    case TSeq(p1, p2) =>
      var k := Eval(p1, s, i).pos;
      if !Nullable(p1) {
        if k == i {
          NullableSound(p1, s, i);
        }
        GetFirstSound(p1, FullSet(), s, i);
      } else {
        if k == i {
          GetFirstSound(p2, follow, s, i);
        }
        GetFirstSound(p1, GetFirst(p2, follow).cs, s, i);
      }
    case TRep(p) =>
      if s[i] !in follow {
        GetFirstSound(p, follow, s, i);
      }
    case TAnd(p) => GetFirstSound(p, follow, s, i);
    case TNot(p) =>
      if ToCharset(p).Some? {
        ToCharsetSound(p, s, i);
      }
    case _ =>
  }

  /** A zero result of getfirst means that the pattern fails at the end of the subject. */
  lemma {:induction false} GetFirstAtEnd(t: Tree, follow: Charset, s: Subject)
    requires !GetFirst(t, follow).e
    ensures Eval(t, s, |s|) == Fail
  {
    match t
    case TChoice(p1, p2) =>
      GetFirstAtEnd(p1, follow, s);
      GetFirstAtEnd(p2, follow, s);
    case TSeq(p1, p2) =>
      if !Nullable(p1) {
        GetFirstAtEnd(p1, FullSet(), s);
      } else if !GetFirst(p1, GetFirst(p2, follow).cs).e {
        GetFirstAtEnd(p1, GetFirst(p2, follow).cs, s);
      } else {
        GetFirstAtEnd(p2, follow, s);
      }
    case TAnd(p) => GetFirstAtEnd(p, follow, s);
    case _ =>
  }

  /** A test on the first set never discards a match: outside the set, and at the end, t fails. */
  lemma TestSound(t: Tree, s: Subject, i: nat)
    requires i <= |s|
    requires !GetFirst(t, FullSet()).e
    requires i == |s| || s[i] !in GetFirst(t, FullSet()).cs
    ensures Eval(t, s, i) == Fail
  {
    if i == |s| {
      GetFirstAtEnd(t, FullSet(), s);
    } else if Eval(t, s, i).Match? {
      GetFirstSound(t, FullSet(), s, i);
    }
  }

  /** The first set of a pattern that never fails, followed by anything, is everything, and getfirst returns 1. */
  lemma {:induction false} NoFailFirst(t: Tree)
    requires NoFail(t)
    ensures GetFirst(t, FullSet()).cs == FullSet() && GetFirst(t, FullSet()).e
  {
    match t
    case TSeq(p1, p2) =>
      NoFailNullable(p1);
      NoFailFirst(p2);
      NoFailFirst(p1);
    case TChoice(p1, p2) =>
      if NoFail(p1) {
        NoFailFirst(p1);
      } else {
        NoFailFirst(p2);
      }
    case TAnd(p) => NoFailFirst(p);
    case _ =>
  }

  /**
   headfail is exact: getfirst returns 0, and the pattern matches if and only if there is a next
   byte and it belongs to the first set.
   */
  lemma {:induction false} HeadFailSound(t: Tree, s: Subject, i: nat)
    requires i <= |s|
    requires HeadFail(t)
    ensures !GetFirst(t, FullSet()).e
    ensures Eval(t, s, i).Match? <==> i < |s| && s[i] in GetFirst(t, FullSet()).cs
  {
    match t
    case TSeq(p1, p2) =>
      HeadFailSound(p1, s, i);
      if Eval(p1, s, i).Match? {
        NoFailSound(p2, s, Eval(p1, s, i).pos);
      }
      if Nullable(p1) {
        NoFailFirst(p2);
      }
    case TChoice(p1, p2) =>
      HeadFailSound(p1, s, i);
      HeadFailSound(p2, s, i);
    case TAnd(p) => HeadFailSound(p, s, i);
    case _ =>
  }
}
