/**
 How LPeg builds and rewrites pattern trees (lptree.c): the simplifications of the operators, p^n,
 and the right-association of sequences and choices inside the flat array that holds a tree.
 */
module PegBuild {
  import opened Prelude
  import opened PegTree
  import opened PegAnalysis
  import opened PegCharset
  import PegCompiler

  /** The two patterns give the same outcome everywhere. */
  ghost predicate SameMeaning(a: Tree, b: Tree) {
    forall s: Subject, i: nat :: i <= |s| ==> Eval(a, s, i) == Eval(b, s, i)
  }

  // ---- newcharset and the operators

  /** The simplest one-byte pattern for a set; a TSet only when the set is neither empty, full nor a singleton. */
  ghost predicate IsCharset(t: Tree, cs: Charset) {
    ToCharset(t) == Some(cs) && (t.TSet? <==> cs != {} && cs != FullSet() && forall c: Byte :: cs != {c})
  }

  /** newcharset. */
  method NewCharset(cs: Charset) returns (t: Tree)
    ensures IsCharset(t, cs) && WellFormed(t)
  {
    hide TestChar, Compact;
    var bits := BitsOf(cs);
    var kind := CharsetType(bits);
    forall c: Byte ensures TestChar(bits, c) <==> c in cs {
      BitsOfSound(cs, c);
    }
    match kind
    case EmptySet =>
      assert cs == {};
      return TFalse;
    case AllChars =>
      assert cs == FullSet();
      return TAny;
    case SingleChar(c) =>
      assert cs == {c};
      return TChar(c);
    case Regular(_) =>
      forall c: Byte ensures cs != {c} {
        assert !OnlyChar(bits, c);
      }
      return TSet(cs);
  }

  /** lp_seq. */
  method LpSeq(t1: Tree, t2: Tree) returns (t: Tree)
    ensures SameMeaning(t, TSeq(t1, t2))
    ensures WellFormed(t1) && WellFormed(t2) ==> WellFormed(t)
    ensures t1 == TFalse || t2 == TTrue ==> t == t1
    ensures t1 == TTrue ==> t == t2
    ensures t1 != TFalse && t1 != TTrue && t2 != TTrue ==> t == TSeq(t1, t2)
  {
    if t1 == TFalse || t2 == TTrue {
      return t1;
    }
    if t1 == TTrue {
      return t2;
    }
    return TSeq(t1, t2);
  }

  /** lp_choice. */
  method LpChoice(t1: Tree, t2: Tree) returns (t: Tree)
    ensures SameMeaning(t, TChoice(t1, t2))
    ensures WellFormed(t1) && WellFormed(t2) ==> WellFormed(t)
    ensures if ToCharset(t1).Some? && ToCharset(t2).Some?
            then IsCharset(t, ToCharset(t1).value + ToCharset(t2).value)
            else t == if NoFail(t1) || t2 == TFalse then t1 else if t1 == TFalse then t2 else TChoice(t1, t2)
  {
    if ToCharset(t1).Some? && ToCharset(t2).Some? {
      t := NewCharset(ToCharset(t1).value + ToCharset(t2).value);
      UnionMeans(t, t1, t2);
    } else if NoFail(t1) || t2 == TFalse {
      t := t1;
      FirstSuffices(t1, t2);
    } else if t1 == TFalse {
      t := t2;
    } else {
      t := TChoice(t1, t2);
    }
  }

  /** lp_sub. */
  method LpSub(t1: Tree, t2: Tree) returns (t: Tree)
    ensures SameMeaning(t, TSeq(TNot(t2), t1))
    ensures WellFormed(t1) && WellFormed(t2) ==> WellFormed(t)
    ensures if ToCharset(t1).Some? && ToCharset(t2).Some?
            then IsCharset(t, ToCharset(t1).value - ToCharset(t2).value)
            else t == TSeq(TNot(t2), t1)
  {
    if ToCharset(t1).Some? && ToCharset(t2).Some? {
      t := NewCharset(ToCharset(t1).value - ToCharset(t2).value);
      DifferenceMeans(t, t1, t2);
    } else {
      t := TSeq(TNot(t2), t1);
    }
  }

  /** lp_behind: only patterns of one length, and not too long, may stand behind. */
  method LpBehind(p: Tree) returns (r: Option<Tree>)
    ensures r.Some? <==> !Loops(p) && Agree(Lengths(p)) && forall n :: n in Lengths(p) ==> n <= MAXBEHIND
    ensures r.Some? ==> r.value.TBehind? && r.value.body == p && r.value.n in Lengths(p)
    ensures r.Some? && WellFormed(p) ==> WellFormed(r.value)
  {
    hide Loops, Lengths, FixedLen;
    FixedLenExactly(p);
    var n := FixedLen(p);
    if n < 0 || n > MAXBEHIND {
      return None;
    }
    return Some(TBehind(n, p));
  }

  lemma UnionMeans(t: Tree, t1: Tree, t2: Tree)
    requires ToCharset(t1).Some? && ToCharset(t2).Some?
    requires ToCharset(t) == Some(ToCharset(t1).value + ToCharset(t2).value)
    ensures SameMeaning(t, TChoice(t1, t2))
  {
    forall s: Subject, i: nat | i <= |s| ensures Eval(t, s, i) == Eval(TChoice(t1, t2), s, i) {
      ToCharsetSound(t, s, i);
      ToCharsetSound(t1, s, i);
      ToCharsetSound(t2, s, i);
    }
  }

  lemma DifferenceMeans(t: Tree, t1: Tree, t2: Tree)
    requires ToCharset(t1).Some? && ToCharset(t2).Some?
    requires ToCharset(t) == Some(ToCharset(t1).value - ToCharset(t2).value)
    ensures SameMeaning(t, TSeq(TNot(t2), t1))
  {
    forall s: Subject, i: nat | i <= |s| ensures Eval(t, s, i) == Eval(TSeq(TNot(t2), t1), s, i) {
      ToCharsetSound(t, s, i);
      ToCharsetSound(t1, s, i);
      ToCharsetSound(t2, s, i);
    }
  }

  lemma FirstSuffices(t1: Tree, t2: Tree)
    requires NoFail(t1) || t2 == TFalse
    ensures SameMeaning(t1, TChoice(t1, t2))
  {
    forall s: Subject, i: nat | i <= |s| ensures Eval(t1, s, i) == Eval(TChoice(t1, t2), s, i) {
      if NoFail(t1) {
        NoFailSound(t1, s, i);
      }
    }
  }

  // ---- The flat array

  /** One TTree cell; a set may take several. */
  datatype Cell =
    | CChar(c: Byte)
    | CSet(cs: Charset)
    | CBitmap            // a cell that holds part of a set's bitmap
    | CAny
    | CTrue
    | CFalse
    | CRep
    | CSeq(ps: nat)
    | CChoice(ps: nat)
    | CNot
    | CAnd
    | CBehind(n: nat)

  const SIZEOF_TTREE := 8
  const BITMAP_OFFSET := 7

  /** Cells of a set after the first: bytes2slots of the node's size, less one. */
  function BitmapCells(cs: Charset): nat {
    (BITMAP_OFFSET + Compact(BitsOf(cs)).size - 1) / SIZEOF_TTREE
  }

  /** The cells of a tree: the first child follows its parent, the second is 'ps' cells away. */
  function Cells(t: Tree): (r: seq<Cell>)
    ensures |r| > 0
  {
    match t
    case TChar(c) => [CChar(c)]
    case TSet(cs) => [CSet(cs)] + seq(BitmapCells(cs), _ => CBitmap)
    case TAny => [CAny]
    case TTrue => [CTrue]
    case TFalse => [CFalse]
    case TRep(p) => [CRep] + Cells(p)
    case TSeq(p1, p2) => [CSeq(|Cells(p1)| + 1)] + Cells(p1) + Cells(p2)
    case TChoice(p1, p2) => [CChoice(|Cells(p1)| + 1)] + Cells(p1) + Cells(p2)
    case TNot(p) => [CNot] + Cells(p)
    case TAnd(p) => [CAnd] + Cells(p)
    case TBehind(n, p) => [CBehind(n)] + Cells(p)
  }

  predicate Binary(t: Tree) {
    t.TSeq? || t.TChoice?
  }

  predicate SameTag(t: Tree, u: Tree) {
    (t.TSeq? && u.TSeq?) || (t.TChoice? && u.TChoice?)
  }

  function Op(like: Tree, p1: Tree, p2: Tree): Tree
    requires Binary(like)
  {
    if like.TSeq? then TSeq(p1, p2) else TChoice(p1, p2)
  }

  function OpCell(like: Tree, ps: nat): Cell
    requires Binary(like)
  {
    if like.TSeq? then CSeq(ps) else CChoice(ps)
  }

  /** Length of the chain of equal operators that starts at t and goes left. */
  function LeftDepth(t: Tree): nat {
    if Binary(t) && SameTag(t, t.p1) then 1 + LeftDepth(t.p1) else 0
  }

  /** One rotation. */
  function Turn(t: Tree): Tree
    requires Binary(t) && SameTag(t, t.p1)
  {
    Op(t, t.p1.p1, Op(t, t.p1.p2, t.p2))
  }

  lemma TurnShortens(t: Tree)
    requires Binary(t) && SameTag(t, t.p1)
    ensures LeftDepth(Turn(t)) < LeftDepth(t)
  {
    assert LeftDepth(t) == 1 + LeftDepth(t.p1);
    assert LeftDepth(Turn(t)) == if SameTag(t, t.p1.p1) then 1 + LeftDepth(t.p1.p1) else 0;
    assert LeftDepth(t.p1) == if SameTag(t.p1, t.p1.p1) then 1 + LeftDepth(t.p1.p1) else 0;
  }

  /** Op (Op a b) c becomes Op a (Op b c), until the first child is another kind of node. */
  function Rotate(t: Tree): (r: Tree)
    requires Binary(t)
    ensures SameTag(r, t) && !SameTag(r, r.p1)
    decreases LeftDepth(t)
  {
    if SameTag(t, t.p1) then TurnShortens(t); Rotate(Turn(t)) else t
  }

  lemma RotateOnce(t: Tree, s: Subject, i: nat)
    requires Binary(t) && SameTag(t, t.p1) && i <= |s|
    ensures Eval(Turn(t), s, i) == Eval(t, s, i)
  {
  }

  lemma {:induction false} RotateMeans(t: Tree, s: Subject, i: nat)
    requires Binary(t) && i <= |s|
    ensures Eval(Rotate(t), s, i) == Eval(t, s, i)
    decreases LeftDepth(t)
  {
    if SameTag(t, t.p1) {
      RotateOnce(t, s, i);
      TurnShortens(t);
      RotateMeans(Turn(t), s, i);
    }
  }

  /** correctassociativity, in place: the cells from 'at' on hold t, then Rotate(t). */
  method CorrectAssociativity(a: array<Cell>, at: nat, ghost t: Tree, ghost pre: seq<Cell>, ghost post: seq<Cell>)
    requires Binary(t) && |pre| == at && a[..] == pre + Cells(t) + post
    modifies a
    ensures a[..] == pre + Cells(Rotate(t)) + post
  {
    hide Cells, Rotate;
    ghost var u := t;
    RootAt(a[..], pre, u, post);
    while SameOp(a[at], a[at + 1])
      invariant Binary(u) && at + 1 < a.Length && Rotate(u) == Rotate(t) && a[..] == pre + Cells(u) + post
      decreases LeftDepth(u)
    {
      RootAt(a[..], pre, u, post);
      TurnInPlace(a, at, u, pre, post);
      RotateTurn(u);
      TurnShortens(u);
      u := Turn(u);
      RootAt(a[..], pre, u, post);
    }
    RootAt(a[..], pre, u, post);
    RotateDone(u);
  }

  /** One round: the first grandchild moves left, and a new node follows it. */
  method TurnInPlace(a: array<Cell>, at: nat, ghost u: Tree, ghost pre: seq<Cell>, ghost post: seq<Cell>)
    requires Binary(u) && SameTag(u, u.p1) && |pre| == at && a[..] == pre + Cells(u) + post
    modifies a
    ensures a[..] == pre + Cells(Turn(u)) + post
  {
    hide Cells, Rewritten;
    TurnStep(a[..], u, pre, post);
    assert a[at] == a[..][at] && a[at + 1] == a[..][at + 1];
    var tag := a[at];
    var n1 := a[at].ps - 1;
    var n11 := a[at + 1].ps - 1;
    var n12 := n1 - n11 - 1;
    Rewrite(a, at, n11, WithPs(tag, n11 + 1), WithPs(tag, n12 + 1));
  }

  /** The cells after a move of n cells from at + 2 to at + 1 and two stores. */
  ghost function Rewritten(s: seq<Cell>, at: nat, n: nat, e: Cell, f: Cell): seq<Cell>
    requires at + 2 + n <= |s|
  {
    var moved := s[..at + 1] + s[at + 2..at + 2 + n] + s[at + 1 + n..];
    moved[at := e][at + n + 1 := f]
  }

  /** The three changes of a round. */
  method Rewrite(a: array<Cell>, at: nat, n: nat, e: Cell, f: Cell)
    requires at + 2 + n <= a.Length
    modifies a
    ensures a[..] == Rewritten(old(a[..]), at, n, e, f)
  {
    ghost var s0 := a[..];
    MoveLeft(a, at + 1, at + 2, n);
    ghost var s1 := s0[..at + 1] + s0[at + 2..at + 2 + n] + s0[at + 1 + n..];
    assert a[..] == s1;
    a[at] := e;
    assert a[..] == s1[at := e];
    a[at + n + 1] := f;
  }

  lemma TurnStep(s: seq<Cell>, u: Tree, pre: seq<Cell>, post: seq<Cell>)
    requires Binary(u) && SameTag(u, u.p1) && s == pre + Cells(u) + post
    ensures var k, n, m := |pre|, |Cells(u.p1.p1)|, |Cells(u.p1.p2)|;
            && k + 2 + n <= |s|
            && s[k] == OpCell(u, n + m + 2) && s[k + 1] == OpCell(u, n + 1)
            && Rewritten(s, k, n, OpCell(u, n + 1), OpCell(u, m + 1)) == pre + Cells(Turn(u)) + post
  {
    hide Cells;
    var x, y, z := Cells(u.p1.p1), Cells(u.p1.p2), Cells(u.p2);
    TurnCells(u, x, y, z);
    var c, d, rest := OpCell(u, |x| + |y| + 2), OpCell(u, |x| + 1), y + z + post;
    Around(pre, [c, d], x, y, z, post);
    Front(pre, c, d, x, rest);
    Turned(pre, c, d, x, rest, d, OpCell(u, |y| + 1));
    AroundTurned(pre, d, x, OpCell(u, |y| + 1), y, z, post);
  }

  /** The move and the two stores, on the array as a sequence. */
  lemma Turned(pre: seq<Cell>, c: Cell, d: Cell, x: seq<Cell>, rest: seq<Cell>, e: Cell, f: Cell)
    ensures Rewritten(pre + [c, d] + x + rest, |pre|, |x|, e, f) == pre + [e] + x + [f] + rest
  {
    Slices(pre, c, d, x, rest);
    var k, n := |pre|, |x|;
    var s0 := pre + [c, d] + x + rest;
    var g := s0[k + 1 + n];
    assert s0[k + 1 + n..] == [g] + rest;
    Stores(pre, c, x, g, rest, e, f);
  }

  lemma Front(pre: seq<Cell>, c: Cell, d: Cell, x: seq<Cell>, rest: seq<Cell>)
    ensures var s0 := pre + [c, d] + x + rest; s0[|pre|] == c && s0[|pre| + 1] == d
  {
  }

  lemma Slices(pre: seq<Cell>, c: Cell, d: Cell, x: seq<Cell>, rest: seq<Cell>)
    ensures var k, n := |pre|, |x|;
            var s0 := pre + [c, d] + x + rest;
            s0[..k + 1] == pre + [c] && s0[k + 2..k + 2 + n] == x && s0[k + 2 + n..] == rest
  {
  }

  lemma Stores(pre: seq<Cell>, c: Cell, x: seq<Cell>, g: Cell, rest: seq<Cell>, e: Cell, f: Cell)
    ensures ((pre + [c]) + x + ([g] + rest))[|pre| := e][|pre| + |x| + 1 := f] == pre + [e] + x + [f] + rest
  {
    assert ((pre + [c]) + x + ([g] + rest))[|pre| := e] == (pre + [e]) + x + ([g] + rest);
    assert ((pre + [e]) + x + ([g] + rest))[|pre| + |x| + 1 := f] == (pre + [e]) + x + ([f] + rest);
  }

  lemma Around(pre: seq<Cell>, w: seq<Cell>, x: seq<Cell>, y: seq<Cell>, z: seq<Cell>, post: seq<Cell>)
    ensures pre + (w + x + y + z) + post == pre + w + x + (y + z + post)
  {
  }

  lemma AroundTurned(pre: seq<Cell>, e: Cell, x: seq<Cell>, f: Cell, y: seq<Cell>, z: seq<Cell>, post: seq<Cell>)
    ensures pre + ([e] + x + [f] + (y + z)) + post == pre + [e] + x + [f] + (y + z + post)
  {
  }

  lemma RootAt(s: seq<Cell>, pre: seq<Cell>, u: Tree, post: seq<Cell>)
    requires Binary(u) && s == pre + Cells(u) + post
    ensures |s| >= |pre| + 3
    ensures SameOp(s[|pre|], s[|pre| + 1]) <==> SameTag(u, u.p1)
  {
    hide Cells;
    RootCells(u);
  }

  function WithPs(c: Cell, ps: nat): Cell {
    if c.CSeq? then CSeq(ps) else CChoice(ps)
  }

  lemma RootCells(u: Tree)
    requires Binary(u)
    ensures Cells(u) == [OpCell(u, |Cells(u.p1)| + 1)] + Cells(u.p1) + Cells(u.p2)
    ensures |Cells(u)| >= 3 && Cells(u)[1] == Cells(u.p1)[0]
    ensures SameOp(Cells(u)[0], Cells(u)[1]) <==> SameTag(u, u.p1)
  {
    assert Cells(u.p1)[0].CSeq? <==> u.p1.TSeq?;
  }

  lemma TurnCells(u: Tree, x: seq<Cell>, y: seq<Cell>, z: seq<Cell>)
    requires Binary(u) && SameTag(u, u.p1)
    requires x == Cells(u.p1.p1) && y == Cells(u.p1.p2) && z == Cells(u.p2)
    ensures Cells(u) == [OpCell(u, |x| + |y| + 2), OpCell(u, |x| + 1)] + x + y + z
    ensures Cells(Turn(u)) == [OpCell(u, |x| + 1)] + x + [OpCell(u, |y| + 1)] + (y + z)
  {
    hide Cells;
    RootCells(u);
    RootCells(u.p1);
    RootCells(Turn(u));
    RootCells(Turn(u).p2);
  }

  lemma RotateTurn(u: Tree)
    requires Binary(u) && SameTag(u, u.p1)
    ensures Rotate(u) == Rotate(Turn(u))
  {
  }

  lemma RotateDone(u: Tree)
    requires Binary(u) && !SameTag(u, u.p1)
    ensures Rotate(u) == u
  {
  }

  predicate SameOp(x: Cell, y: Cell) {
    (x.CSeq? && y.CSeq?) || (x.CChoice? && y.CChoice?)
  }

  /** memmove of 'n' cells to a lower place. */
  method MoveLeft(a: array<Cell>, to: nat, from: nat, n: nat)
    requires to <= from && from + n <= a.Length
    modifies a
    ensures a[..] == old(a[..to]) + old(a[from..from + n]) + old(a[to + n..])
  {
    MoveCells(a, to, from, n);
    assert a[..] == a[..to] + a[to..to + n] + a[to + n..];
  }

  method MoveCells(a: array<Cell>, to: nat, from: nat, n: nat)
    requires to <= from && from + n <= a.Length
    modifies a
    ensures a[to..to + n] == old(a[from..from + n])
    ensures a[..to] == old(a[..to]) && a[to + n..] == old(a[to + n..])
  {
    var k := 0;
    while k < n
      invariant 0 <= k <= n
      invariant a[to..to + k] == old(a[from..from + k])
      invariant a[to + k..] == old(a[to + k..])
      invariant a[..to] == old(a[..to])
    {
      assert a[from + k] == a[to + k..][from - to] == old(a[from + k]);
      a[to + k] := a[from + k];
      k := k + 1;
    }
  }

  // ---- finalfix

  lemma {:induction false} RotateSize(t: Tree)
    requires Binary(t)
    ensures |Cells(Rotate(t))| == |Cells(t)|
    decreases LeftDepth(t)
  {
    if SameTag(t, t.p1) {
      TurnCells(t, Cells(t.p1.p1), Cells(t.p1.p2), Cells(t.p2));
      TurnShortens(t);
      RotateSize(Turn(t));
    }
  }

  lemma ChildrenSmaller(t: Tree)
    requires Binary(t)
    ensures |Cells(Rotate(t).p1)| < |Cells(t)| && |Cells(Rotate(t).p2)| < |Cells(t)|
  {
    RotateSize(t);
    RootCells(Rotate(t));
  }

  /** finalfix: every sequence and choice becomes right associative. */
  function Fix(t: Tree): (r: Tree)
    ensures |Cells(r)| == |Cells(t)|
    ensures r.TSeq? == t.TSeq? && r.TChoice? == t.TChoice?
    decreases |Cells(t)|
  {
    match t
    case TRep(p) => TRep(Fix(p))
    case TNot(p) => TNot(Fix(p))
    case TAnd(p) => TAnd(Fix(p))
    case TBehind(n, p) => TBehind(n, Fix(p))
    case TSeq(_, _) => ChildrenSmaller(t); RotateSize(t); TSeq(Fix(Rotate(t).p1), Fix(Rotate(t).p2))
    case TChoice(_, _) => ChildrenSmaller(t); RotateSize(t); TChoice(Fix(Rotate(t).p1), Fix(Rotate(t).p2))
    case _ => t
  }

  lemma {:induction false} RepMeans(p: Tree, q: Tree, s: Subject, i: nat)
    requires SameMeaning(p, q) && i <= |s|
    ensures Eval(TRep(p), s, i) == Eval(TRep(q), s, i)
    decreases |s| - i
  {
    var r := Eval(p, s, i);
    assert r == Eval(q, s, i);
    if r.Match? && i < r.pos {
      RepMeans(p, q, s, r.pos);
    }
  }

  lemma OpMeans(like: Tree, p1: Tree, p2: Tree, q1: Tree, q2: Tree)
    requires Binary(like) && SameMeaning(p1, q1) && SameMeaning(p2, q2)
    ensures SameMeaning(Op(like, p1, p2), Op(like, q1, q2))
  {
  }

  lemma SameTransitive(a: Tree, b: Tree, c: Tree)
    requires SameMeaning(a, b) && SameMeaning(b, c)
    ensures SameMeaning(a, c)
  {
  }

  /** Right association changes no outcome. */
  lemma {:induction false} FixMeans(t: Tree)
    ensures SameMeaning(Fix(t), t)
    decreases |Cells(t)|
  {
    match t
    case TRep(p) =>
      FixMeans(p);
      forall s: Subject, i: nat | i <= |s| ensures Eval(TRep(Fix(p)), s, i) == Eval(t, s, i) {
        RepMeans(Fix(p), p, s, i);
      }
    case TNot(p) => FixMeans(p);
    case TAnd(p) => FixMeans(p);
    case TBehind(_, p) => FixMeans(p);
    case TSeq(_, _) => FixOpMeans(t);
    case TChoice(_, _) => FixOpMeans(t);
    case _ =>
  }

  lemma {:induction false} FixOpMeans(t: Tree)
    requires Binary(t)
    ensures SameMeaning(Fix(t), t)
    decreases |Cells(t)|, 0
  {
    var r := Rotate(t);
    ChildrenSmaller(t);
    FixMeans(r.p1);
    FixMeans(r.p2);
    OpMeans(r, Fix(r.p1), Fix(r.p2), r.p1, r.p2);
    forall s: Subject, i: nat | i <= |s| ensures Eval(r, s, i) == Eval(t, s, i) {
      RotateMeans(t, s, i);
    }
    SameTransitive(Fix(t), r, t);
  }

  /** The analyses see the same pattern. */
  lemma {:induction false} RotateChecks(t: Tree)
    requires Binary(t)
    ensures Nullable(Rotate(t)) == Nullable(t) && FixedLen(Rotate(t)) == FixedLen(t)
    ensures WellFormed(Rotate(t)) == WellFormed(t)
    decreases LeftDepth(t)
  {
    if SameTag(t, t.p1) {
      TurnShortens(t);
      TurnChecks(t);
      RotateChecks(Turn(t));
    }
  }

  lemma TurnChecks(t: Tree)
    requires Binary(t) && SameTag(t, t.p1)
    ensures Nullable(Turn(t)) == Nullable(t) && FixedLen(Turn(t)) == FixedLen(t) && WellFormed(Turn(t)) == WellFormed(t)
  {
    hide Nullable, FixedLen, WellFormed;
    TurnNullable(t);
    TurnFixedLen(t);
    TurnWellFormed(t);
  }

  lemma TurnNullable(t: Tree)
    requires Binary(t) && SameTag(t, t.p1)
    ensures Nullable(Turn(t)) == Nullable(t)
  {
  }

  lemma TurnFixedLen(t: Tree)
    requires Binary(t) && SameTag(t, t.p1)
    ensures FixedLen(Turn(t)) == FixedLen(t)
  {
    var a, b, c := t.p1.p1, t.p1.p2, t.p2;
    FixedLenOp(t, t.p1, c);
    FixedLenOp(t, a, b);
    FixedLenOp(t, a, Op(t, b, c));
    FixedLenOp(t, b, c);
    hide FixedLen;
    assert t == Op(t, t.p1, c) && t.p1 == Op(t, a, b) && Turn(t) == Op(t, a, Op(t, b, c));
  }

  /** The length of a sequence or of a choice from those of its parts. */
  function JoinedLen(like: Tree, n1: int, n2: int): int {
    if like.TSeq? then (if n1 < 0 || n2 < 0 then -1 else n1 + n2) else if n1 != n2 || n1 < 0 then -1 else n1
  }

  lemma FixedLenOp(like: Tree, p1: Tree, p2: Tree)
    requires Binary(like)
    ensures FixedLen(Op(like, p1, p2)) == JoinedLen(like, FixedLen(p1), FixedLen(p2))
  {
  }

  lemma TurnWellFormed(t: Tree)
    requires Binary(t) && SameTag(t, t.p1)
    ensures WellFormed(Turn(t)) == WellFormed(t)
  {
  }

  lemma {:induction false} FixChecks(t: Tree)
    ensures Nullable(Fix(t)) == Nullable(t) && FixedLen(Fix(t)) == FixedLen(t) && WellFormed(Fix(t)) == WellFormed(t)
    decreases |Cells(t)|
  {
    match t
    case TRep(p) => FixChecks(p);
    case TNot(p) => FixChecks(p);
    case TAnd(p) => FixChecks(p);
    case TBehind(_, p) => FixChecks(p);
    case TSeq(_, _) =>
      RotateChecks(t);
      ChildrenSmaller(t);
      FixChecks(Rotate(t).p1);
      FixChecks(Rotate(t).p2);
    case TChoice(_, _) =>
      RotateChecks(t);
      ChildrenSmaller(t);
      FixChecks(Rotate(t).p1);
      FixChecks(Rotate(t).p2);
    case _ =>
  }

  /** No sequence begins with a sequence and no choice with a choice. */
  predicate RightAssociative(t: Tree) {
    match t
    case TRep(p) => RightAssociative(p)
    case TNot(p) => RightAssociative(p)
    case TAnd(p) => RightAssociative(p)
    case TBehind(_, p) => RightAssociative(p)
    case TSeq(p1, p2) => !p1.TSeq? && RightAssociative(p1) && RightAssociative(p2)
    case TChoice(p1, p2) => !p1.TChoice? && RightAssociative(p1) && RightAssociative(p2)
    case _ => true
  }

  lemma {:induction false} FixRight(t: Tree)
    ensures RightAssociative(Fix(t))
    decreases |Cells(t)|
  {
    match t
    case TRep(p) => FixRight(p);
    case TNot(p) => FixRight(p);
    case TAnd(p) => FixRight(p);
    case TBehind(_, p) => FixRight(p);
    case TSeq(_, _) =>
      ChildrenSmaller(t);
      FixRight(Rotate(t).p1);
      FixRight(Rotate(t).p2);
    case TChoice(_, _) =>
      ChildrenSmaller(t);
      FixRight(Rotate(t).p1);
      FixRight(Rotate(t).p2);
    case _ =>
  }

  /** finalfix on the flat array. */
  method FinalFix(a: array<Cell>, at: nat, ghost t: Tree, ghost pre: seq<Cell>, ghost post: seq<Cell>)
    requires |pre| == at && a[..] == pre + Cells(t) + post
    modifies a
    ensures a[..] == pre + Cells(Fix(t)) + post
    decreases |Cells(t)|
  {
    hide Rotate;
    assert a[at] == a[..][at] == Cells(t)[0];
    var c := a[at];
    if c.CSeq? || c.CChoice? {
      FixOp(a, at, t, pre, post);
    } else if c.CRep? || c.CNot? || c.CAnd? || c.CBehind? {
      FixOne(a, at, t, pre, post);
    }
  }

  /** A node with one child. */
  method FixOne(a: array<Cell>, at: nat, ghost t: Tree, ghost pre: seq<Cell>, ghost post: seq<Cell>)
    requires t.TRep? || t.TNot? || t.TAnd? || t.TBehind?
    requires |pre| == at && a[..] == pre + Cells(t) + post
    modifies a
    ensures a[..] == pre + Cells(Fix(t)) + post
    decreases |Cells(t)|, 0
  {
    hide Cells;
    OneCells(t, pre, post);
    FinalFix(a, at + 1, t.body, pre + [Cells(t)[0]], post);
  }

  lemma OneCells(t: Tree, pre: seq<Cell>, post: seq<Cell>)
    requires t.TRep? || t.TNot? || t.TAnd? || t.TBehind?
    ensures |Cells(t.body)| < |Cells(t)|
    ensures pre + Cells(t) + post == (pre + [Cells(t)[0]]) + Cells(t.body) + post
    ensures pre + Cells(Fix(t)) + post == (pre + [Cells(t)[0]]) + Cells(Fix(t.body)) + post
  {
    hide Cells, Fix;
    RootOne(t);
  }

  lemma RootOne(t: Tree)
    requires t.TRep? || t.TNot? || t.TAnd? || t.TBehind?
    ensures Cells(t) == [Cells(t)[0]] + Cells(t.body)
    ensures Cells(Fix(t)) == [Cells(t)[0]] + Cells(Fix(t.body))
  {
  }

  /** A node with two children. */
  method FixOp(a: array<Cell>, at: nat, ghost t: Tree, ghost pre: seq<Cell>, ghost post: seq<Cell>)
    requires Binary(t) && |pre| == at && a[..] == pre + Cells(t) + post
    modifies a
    ensures a[..] == pre + Cells(Fix(t)) + post
    decreases |Cells(t)|, 0
  {
    hide Cells, Rotate, Fix;
    ghost var r := Rotate(t);
    CorrectAssociativity(a, at, t, pre, post);
    ghost var op := Cells(r)[0];
    ChildrenSmaller(t);
    OpCells(t, r, pre, post);
    assert a[at] == a[..][at] == op;
    var ps := a[at].ps;
    FinalFix(a, at + 1, r.p1, pre + [op], Cells(r.p2) + post);
    Regroup(pre + [op] + Cells(Fix(r.p1)), Cells(r.p2), post);
    FinalFix(a, at + ps, r.p2, pre + [op] + Cells(Fix(r.p1)), post);
  }

  lemma OpCells(t: Tree, r: Tree, pre: seq<Cell>, post: seq<Cell>)
    requires Binary(t) && r == Rotate(t)
    ensures var op := Cells(r)[0];
            && op == OpCell(r, |Cells(r.p1)| + 1) && |Cells(Fix(r.p1))| == |Cells(r.p1)|
            && pre + Cells(r) + post == (pre + [op]) + Cells(r.p1) + (Cells(r.p2) + post)
            && pre + Cells(Fix(t)) + post == (pre + [op] + Cells(Fix(r.p1))) + Cells(Fix(r.p2)) + post
            && (pre + Cells(r) + post)[|pre|] == op
  {
    hide Cells, Rotate;
    RootCells(r);
    RootCells(Fix(t));
  }

  // ---- From the cells to a match

  /** The tree that starts at the first cell, by sib1 (the next cell) and sib2 ('ps' cells away). */
  function ReadTree(c: seq<Cell>): Option<Tree>
    decreases |c|
  {
    if c == [] then None
    else
      match c[0]
      case CChar(x) => Some(TChar(x))
      case CSet(cs) => Some(TSet(cs))
      case CBitmap => None
      case CAny => Some(TAny)
      case CTrue => Some(TTrue)
      case CFalse => Some(TFalse)
      case CSeq(ps) => if 0 < ps <= |c| then Both(c[0], ReadTree(c[1..]), ReadTree(c[ps..])) else None
      case CChoice(ps) => if 0 < ps <= |c| then Both(c[0], ReadTree(c[1..]), ReadTree(c[ps..])) else None
      case _ => One(c[0], ReadTree(c[1..]))
  }

  function Both(c: Cell, p1: Option<Tree>, p2: Option<Tree>): Option<Tree> {
    if p1 == None || p2 == None then None
    else Some(if c.CSeq? then TSeq(p1.value, p2.value) else TChoice(p1.value, p2.value))
  }

  function One(c: Cell, p: Option<Tree>): Option<Tree> {
    if p == None then None
    else
      match c
      case CRep => Some(TRep(p.value))
      case CNot => Some(TNot(p.value))
      case CAnd => Some(TAnd(p.value))
      case CBehind(n) => Some(TBehind(n, p.value))
      case _ => None
  }

  /** The cells of a tree say which tree it is, whatever comes after them. */
  lemma {:induction false} ReadCells(t: Tree, rest: seq<Cell>)
    ensures ReadTree(Cells(t) + rest) == Some(t)
  {
    hide BitmapCells, Cells;
    if Binary(t) {
      RootCells(t);
      var c := Cells(t) + rest;
      assert c[1..] == Cells(t.p1) + (Cells(t.p2) + rest);
      assert c[|Cells(t.p1)| + 1..] == Cells(t.p2) + rest;
      ReadCells(t.p1, Cells(t.p2) + rest);
      ReadCells(t.p2, rest);
    } else if t.TRep? || t.TNot? || t.TAnd? || t.TBehind? {
      RootUnary(t);
      ReadCells(t.body, rest);
      assert (Cells(t) + rest)[1..] == Cells(t.body) + rest;
    } else {
      RootLeaf(t, rest);
    }
  }

  lemma RootUnary(t: Tree)
    requires t.TRep? || t.TNot? || t.TAnd? || t.TBehind?
    ensures Cells(t) == [Cells(t)[0]] + Cells(t.body) && One(Cells(t)[0], Some(t.body)) == Some(t)
    ensures var c := Cells(t)[0]; c.CRep? || c.CNot? || c.CAnd? || c.CBehind?
  {
  }

  lemma RootLeaf(t: Tree, rest: seq<Cell>)
    requires !Binary(t) && !t.TRep? && !t.TNot? && !t.TAnd? && !t.TBehind?
    ensures ReadTree(Cells(t) + rest) == Some(t)
  {
    hide BitmapCells;
  }

  /** initposition: positions count from 1, or from the end when not positive, and are cropped. */
  function InitPosition(init: int, len: nat): (r: nat)
    ensures r <= len
    ensures 1 <= init <= len ==> r + 1 == init
    ensures init <= 0 <= len + init ==> r == len + init
    ensures init > len ==> r == len
    ensures len + init < 0 ==> r == 0
  {
    if init > 0 then (if init <= len then init - 1 else len)
    else if -init <= len then len + init
    else 0
  }

  /**
   lp_match on a fresh pattern: the array is fixed in place, the tree in it compiled and run. The outcome
   is that of the tree as it was built.
   */
  method PrepareAndMatch(a: array<Cell>, ghost t: Tree, s: Subject, init: int) returns (r: Outcome)
    requires WellFormed(t) && a[..] == Cells(t)
    modifies a
    ensures a[..] == Cells(Fix(t))
    ensures r == Eval(t, s, InitPosition(init, |s|))
  {
    hide Cells, Fix, ReadTree, InitPosition;
    FixMeans(t);
    FixChecks(t);
    assert [] + Cells(t) + [] == Cells(t);
    FinalFix(a, 0, t, [], []);
    assert a[..] == Cells(Fix(t)) + [];
    ReadCells(Fix(t), []);
    var tree := ReadTree(a[..]);
    r := PegCompiler.CompileAndMatch(tree.value, s, InitPosition(init, |s|));
  }

  // ---- p^n

  /** The tree of p^n for n >= 0: n copies, then a repetition. */
  function StarTree(p: Tree, n: nat): Tree {
    if n == 0 then TRep(p) else TSeq(p, StarTree(p, n - 1))
  }

  /** The tree of p^-n: nested choices. */
  function AtMostTree(p: Tree, n: nat): Tree
    requires n > 0
  {
    if n == 1 then TChoice(p, TTrue) else TChoice(TSeq(p, AtMostTree(p, n - 1)), TTrue)
  }

  /** Matching p exactly n times in a row. */
  function Times(p: Tree, n: nat, s: Subject, i: nat): (r: Outcome)
    requires i <= |s|
    ensures r.Match? ==> i <= r.pos <= |s|
  {
    if n == 0 then Match(i)
    else
      match Eval(p, s, i)
      case Fail => Fail
      case Match(j) => Times(p, n - 1, s, j)
  }

  /** Matching p as often as possible, but at most n times. */
  function UpTo(p: Tree, n: nat, s: Subject, i: nat): (r: Outcome)
    requires i <= |s|
    ensures r.Match?
  {
    if n == 0 then Match(i)
    else
      match Eval(p, s, i)
      case Fail => Match(i)
      case Match(j) => UpTo(p, n - 1, s, j)
  }

  /** p^n matches p n times, then as often as it can. */
  lemma {:induction false} StarMeans(p: Tree, n: nat, s: Subject, i: nat)
    requires i <= |s|
    ensures Eval(StarTree(p, n), s, i) ==
            match Times(p, n, s, i)
            case Fail => Fail
            case Match(j) => Eval(TRep(p), s, j)
  {
    if n > 0 && Eval(p, s, i).Match? {
      StarMeans(p, n - 1, s, Eval(p, s, i).pos);
    }
  }

  /** p^-n matches p as often as it can, at most n times. */
  lemma {:induction false} AtMostMeans(p: Tree, n: nat, s: Subject, i: nat)
    requires i <= |s| && n > 0
    ensures Eval(AtMostTree(p, n), s, i) == UpTo(p, n, s, i)
  {
    if n > 1 && Eval(p, s, i).Match? {
      AtMostMeans(p, n - 1, s, Eval(p, s, i).pos);
    }
  }

  lemma {:induction false} StarSize(p: Tree, n: nat)
    ensures |Cells(StarTree(p, n))| == (n + 1) * (|Cells(p)| + 1)
    ensures !Nullable(p) && WellFormed(p) ==> WellFormed(StarTree(p, n))
  {
    hide Cells, Nullable;
    if n > 0 {
      StarSize(p, n - 1);
      RootCells(StarTree(p, n));
      Room(n, |Cells(p)| + 1);
    } else {
      LastRep(p);
    }
  }

  lemma {:induction false} AtMostSize(p: Tree, n: nat)
    requires n > 0
    ensures |Cells(AtMostTree(p, n))| == n * (|Cells(p)| + 3) - 1
    ensures WellFormed(p) ==> WellFormed(AtMostTree(p, n))
  {
    hide Cells;
    RootCells(AtMostTree(p, n));
    TrueCell();
    if n > 1 {
      AtMostSize(p, n - 1);
      RootCells(AtMostTree(p, n).p1);
      Room(n - 1, |Cells(p)| + 3);
    }
  }

  lemma TrueCell()
    ensures Cells(TTrue) == [CTrue]
  {
  }

  /** The cells in front of the last repetition. */
  function StarPrefix(c: seq<Cell>, k: nat): seq<Cell> {
    if k == 0 then [] else StarPrefix(c, k - 1) + ([CSeq(|c| + 1)] + c)
  }

  lemma {:induction false} StarPrefixRoom(c: seq<Cell>, k: nat, n: nat)
    requires k < n
    ensures |StarPrefix(c, k)| + 1 + |c| <= |StarPrefix(c, n)|
    decreases n
  {
    if k < n - 1 {
      StarPrefixRoom(c, k, n - 1);
    }
  }

  lemma {:induction false} StarCells(p: Tree, n: nat, k: nat)
    requires k <= n
    ensures Cells(StarTree(p, n)) == StarPrefix(Cells(p), k) + Cells(StarTree(p, n - k))
  {
    hide Cells;
    if k > 0 {
      StarCells(p, n, k - 1);
      RootCells(StarTree(p, n - k + 1));
      var c := Cells(p);
      var x, y, z := StarPrefix(c, k - 1), [CSeq(|c| + 1)] + c, Cells(StarTree(p, n - k));
      Regroup(x, y, z);
    }
  }

  /** Copies 'bytes' into the array. */
  method CopyTo(a: array<Cell>, at: nat, c: seq<Cell>, ghost pre: seq<Cell>)
    requires at + |c| <= a.Length && |pre| == at && a[..at] == pre
    modifies a
    ensures a[..at + |c|] == pre + c && a[at + |c|..] == old(a[at + |c|..])
  {
    var k := 0;
    while k < |c|
      invariant 0 <= k <= |c|
      invariant forall i :: 0 <= i < at ==> a[i] == pre[i]
      invariant forall i :: at <= i < at + k ==> a[i] == c[i - at]
      invariant forall i :: at + k <= i < a.Length ==> a[i] == old(a[i])
    {
      a[at + k] := c[k];
      k := k + 1;
    }
  }

  /** lp_star with n >= 0; a body that may match the empty string is refused. */
  method LpStar(p: Tree, n: nat) returns (a: array<Cell>, ok: bool)
    ensures ok <==> Eval(Bare(p), [], 0) == Fail
    ensures !HasPredicate(p) ==> (ok <==> Eval(p, [], 0) == Fail)
    ensures ok ==> fresh(a) && a[..] == Cells(StarTree(p, n)) && (WellFormed(p) ==> WellFormed(StarTree(p, n)))
  {
    hide Cells, StarTree, Nullable, WellFormed;
    NullableExactly(p);
    if !HasPredicate(p) {
      BareSame(p);
    }
    var c := Cells(p);
    a := new Cell[(n + 1) * (|c| + 1)](_ => CTrue);
    if Nullable(p) {
      return a, false;
    }
    StarSize(p, n);
    StarCells(p, n, n);
    LastRep(p);
    FillStar(a, n, c);
    return a, true;
  }

  /** seqaux n times, then the repetition. */
  method FillStar(a: array<Cell>, n: nat, c: seq<Cell>)
    requires a.Length == |StarPrefix(c, n)| + 1 + |c|
    modifies a
    ensures a[..] == StarPrefix(c, n) + ([CRep] + c)
  {
    var k, at := 0, 0;
    while k < n
      invariant 0 <= k <= n && at == |StarPrefix(c, k)| <= |StarPrefix(c, n)|
      invariant a[..at] == StarPrefix(c, k)
    {
      StarPrefixRoom(c, k, n);
      CopyTo(a, at, [CSeq(|c| + 1)] + c, StarPrefix(c, k));
      at := at + 1 + |c|;
      k := k + 1;
    }
    CopyTo(a, at, [CRep] + c, StarPrefix(c, n));
    assert a[..] == a[..at + |[CRep] + c|];
  }

  lemma Room(k: nat, m: nat)
    ensures (k + 1) * m == k * m + m && k * m >= 0
  {
  }

  lemma LastRep(p: Tree)
    ensures Cells(StarTree(p, 0)) == [CRep] + Cells(p)
  {
  }

  /** What precedes the inner choice of p^-m. */
  function Level(c: seq<Cell>, m: nat): (r: seq<Cell>)
    requires m > 0
    ensures |r| == |c| + 2
  {
    Room(m - 1, |c| + 3);
    [CChoice(Extent(c, m) - 1), CSeq(|c| + 1)] + c
  }

  /** The cells in front of the k-th inner choice of p^-n. */
  function AtMostPrefix(c: seq<Cell>, n: nat, k: nat): seq<Cell>
    requires k < n
  {
    if k == 0 then []
    else AtMostPrefix(c, n, k - 1) + Level(c, n - k + 1)
  }

  function Trues(k: nat): seq<Cell> {
    if k == 0 then [] else [CTrue] + Trues(k - 1)
  }

  lemma {:induction false} TruesAre(k: nat)
    ensures |Trues(k)| == k && forall i :: 0 <= i < k ==> Trues(k)[i] == CTrue
  {
    if k > 0 {
      TruesAre(k - 1);
    }
  }

  /** One level of the nest. */
  lemma AtMostLevel(p: Tree, m: nat)
    requires m > 1
    ensures var c := Cells(p);
            Cells(AtMostTree(p, m)) == Level(c, m) + Cells(AtMostTree(p, m - 1)) + [CTrue]
  {
    hide Cells;
    RootCells(AtMostTree(p, m));
    RootCells(AtMostTree(p, m).p1);
    AtMostSize(p, m - 1);
    Room(m - 1, |Cells(p)| + 3);
    TrueCell();
  }

  lemma {:induction false} AtMostCells(p: Tree, n: nat, k: nat)
    requires k < n
    ensures Cells(AtMostTree(p, n)) == AtMostPrefix(Cells(p), n, k) + Cells(AtMostTree(p, n - k)) + Trues(k)
    decreases k
  {
    hide Cells, AtMostTree, Level;
    if k > 0 {
      AtMostCells(p, n, k - 1);
      AtMostLevel(p, n - k + 1);
      var c := Cells(p);
      Nest(AtMostPrefix(c, n, k - 1), Level(c, n - k + 1), Cells(AtMostTree(p, n - k)), CTrue, Trues(k - 1));
    }
  }

  lemma Nest(x: seq<Cell>, w: seq<Cell>, y: seq<Cell>, c: Cell, z: seq<Cell>)
    ensures x + (w + y + [c]) + z == (x + w) + y + ([c] + z)
  {
  }

  lemma {:induction false} AtMostPrefixSize(c: seq<Cell>, n: nat, k: nat)
    requires k < n
    ensures |AtMostPrefix(c, n, k)| == k * (|c| + 2)
  {
    hide Level;
    if k > 0 {
      AtMostPrefixSize(c, n, k - 1);
      Room(k - 1, |c| + 2);
    }
  }

  /** lp_star with a negative count -n. */
  method LpAtMost(p: Tree, n: nat) returns (a: array<Cell>)
    requires n > 0
    ensures fresh(a) && a[..] == Cells(AtMostTree(p, n))
  {
    hide Cells, AtMostTree, Level, Extent;
    var c := Cells(p);
    a := new Cell[Extent(c, n)](_ => CFalse);
    var m, at := n, 0;
    while m > 1
      invariant 1 <= m <= n && at == |AtMostPrefix(c, n, n - m)|
      invariant at + Extent(c, m) + (n - m) == a.Length
      invariant a[..at] == AtMostPrefix(c, n, n - m)
      invariant a[a.Length - (n - m)..] == Trues(n - m)
    {
      ExtentStep(c, m);
      FillLevel(a, at, m, n - m, c, AtMostPrefix(c, n, n - m));
      at := at + |c| + 2;
      m := m - 1;
    }
    FirstExtent(c);
    FillLast(a, at, c, AtMostPrefix(c, n, n - 1), n - 1);
    AtMostCells(p, n, n - 1);
    FirstLevel(p);
  }

  /** The number of cells of p^-m. */
  function Extent(c: seq<Cell>, m: nat): nat
    requires m > 0
  {
    Room(m - 1, |c| + 3);
    m * (|c| + 3) - 1
  }

  lemma ExtentStep(c: seq<Cell>, m: nat)
    requires m > 1
    ensures Extent(c, m) == Extent(c, m - 1) + |c| + 3
  {
    Room(m - 1, |c| + 3);
  }

  lemma FirstExtent(c: seq<Cell>)
    ensures Extent(c, 1) == |c| + 2
  {
  }

  /** The outer choice and its sequence: three stores and a copy. */
  method FillLevel(a: array<Cell>, at: nat, m: nat, k: nat, c: seq<Cell>, ghost pre: seq<Cell>)
    requires m > 1 && |pre| == at && at + Extent(c, m) + k == a.Length && |c| + 3 <= Extent(c, m)
    requires a[..at] == pre && a[a.Length - k..] == Trues(k)
    modifies a
    ensures a[..at + |c| + 2] == pre + Level(c, m) && a[a.Length - k - 1..] == Trues(k + 1)
  {
    hide Extent;
    ghost var tail := a[a.Length - k..];
    CopyTo(a, at, Level(c, m), pre);
    assert a[a.Length - k..] == tail;
    ghost var front := a[..at + |c| + 2];
    a[at + (Extent(c, m) - 1)] := CTrue;
    assert a[..at + |c| + 2] == front;
    assert a[a.Length - k - 1..] == [CTrue] + tail;
  }

  method FillLast(a: array<Cell>, at: nat, c: seq<Cell>, ghost pre: seq<Cell>, ghost k: nat)
    requires |pre| == at && at + |c| + 2 + k == a.Length && a[..at] == pre && a[a.Length - k..] == Trues(k)
    modifies a
    ensures a[..] == pre + ([CChoice(|c| + 1)] + c + [CTrue]) + Trues(k)
  {
    ghost var tail := a[a.Length - k..];
    ghost var w := [CChoice(|c| + 1)] + c + [CTrue];
    CopyTo(a, at, [CChoice(|c| + 1)] + c + [CTrue], pre);
    assert a[..] == a[..at + |w|] + a[at + |w|..];
  }

  lemma FirstLevel(p: Tree)
    ensures Cells(AtMostTree(p, 1)) == [CChoice(|Cells(p)| + 1)] + Cells(p) + [CTrue]
  {
    RootCells(AtMostTree(p, 1));
    TrueCell();
  }
}
