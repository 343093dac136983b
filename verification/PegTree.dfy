/**
 Pattern trees of the LPeg fragment without captures and grammars, and what they mean:
 a direct evaluator for parsing expressions over a subject of bytes.
 */
module PegTree {

  import opened Prelude

  type Charset = set<Byte>

  type Subject = seq<Byte>

  /** The bytes below n. */
  function BytesBelow(n: nat): (r: Charset)
    requires n <= 256
    ensures forall b: Byte :: b in r <==> b < n
  {
    if n == 0 then {} else BytesBelow(n - 1) + {n - 1}
  }

  /** The set of all 256 bytes. */
  function FullSet(): (r: Charset)
    ensures forall b: Byte :: b in r
  {
    BytesBelow(256)
  }

  const MAXBEHIND := 255

  datatype Tree =
    | TChar(c: Byte)
    | TSet(cs: Charset)
    | TAny
    | TTrue
    | TFalse
    | TRep(body: Tree)
    | TSeq(p1: Tree, p2: Tree)
    | TChoice(p1: Tree, p2: Tree)
    | TNot(body: Tree)
    | TAnd(body: Tree)
    | TBehind(n: nat, body: Tree)

  /** Result of a match: failure, or the position right after the matched text. */
  datatype Outcome = Fail | Match(pos: nat)

  /**
   Meaning of a pattern at position i of s. A look-behind demands that the text that ends at i
   is matched by its body; predicates consume nothing; a repetition is greedy and possessive.
   */
  function Eval(t: Tree, s: Subject, i: nat): (r: Outcome)
    requires i <= |s|
    ensures r.Match? ==> i <= r.pos <= |s|
    decreases t, |s| - i
  {
    match t
    case TChar(c) => if i < |s| && s[i] == c then Match(i + 1) else Fail
    case TSet(cs) => if i < |s| && s[i] in cs then Match(i + 1) else Fail
    case TAny => if i < |s| then Match(i + 1) else Fail
    case TTrue => Match(i)
    case TFalse => Fail
    case TRep(p) =>
      (match Eval(p, s, i)
       case Fail => Match(i)
       case Match(j) => if i < j then Eval(t, s, j) else Match(i))
    case TSeq(p1, p2) =>
      (match Eval(p1, s, i)
       case Fail => Fail
       case Match(j) => Eval(p2, s, j))
    case TChoice(p1, p2) =>
      var r1 := Eval(p1, s, i);
      if r1.Match? then r1 else Eval(p2, s, i)
    case TNot(p) => if Eval(p, s, i).Match? then Fail else Match(i)
    case TAnd(p) => if Eval(p, s, i).Match? then Match(i) else Fail
    case TBehind(n, p) => if n <= i && Eval(p, s, i - n) == Match(i) then Match(i) else Fail
  }

  // ----- static analyses (lpcode.c) -----

  /** checkaux with PEnullable. */
  predicate Nullable(t: Tree) {
    match t
    case TChar(_) => false
    case TSet(_) => false
    case TAny => false
    case TFalse => false
    case TRep(_) => true
    case TTrue => true
    case TNot(_) => true
    case TBehind(_, _) => true
    case TAnd(_) => true
    case TSeq(p1, p2) => Nullable(p1) && Nullable(p2)
    case TChoice(p1, p2) => Nullable(p2) || Nullable(p1)
  }

  /** checkaux with PEnofail. */
  predicate NoFail(t: Tree) {
    match t
    case TChar(_) => false
    case TSet(_) => false
    case TAny => false
    case TFalse => false
    case TRep(_) => true
    case TTrue => true
    case TNot(_) => false
    case TBehind(_, _) => false
    case TAnd(p) => NoFail(p)
    case TSeq(p1, p2) => NoFail(p1) && NoFail(p2)
    case TChoice(p1, p2) => NoFail(p2) || NoFail(p1)
  }

  /** Number of bytes every match consumes, or -1 when that may vary. */
  function FixedLen(t: Tree): int {
    match t
    case TChar(_) => 1
    case TSet(_) => 1
    case TAny => 1
    case TFalse => 0
    case TTrue => 0
    case TNot(_) => 0
    case TAnd(_) => 0
    case TBehind(_, _) => 0
    case TRep(_) => -1
    case TSeq(p1, p2) =>
      var n1, n2 := FixedLen(p1), FixedLen(p2);
      if n1 < 0 || n2 < 0 then -1 else n1 + n2
    case TChoice(p1, p2) =>
      var n1, n2 := FixedLen(p1), FixedLen(p2);
      if n1 != n2 || n1 < 0 then -1 else n1
  }

  /** tocharset: the set of a one-byte pattern. */
  function ToCharset(t: Tree): Option<Charset> {
    match t
    case TChar(c) => Some({c})
    case TSet(cs) => Some(cs)
    case TAny => Some(FullSet())
    case TFalse => Some({})
    case _ => None
  }

  /**
   Result of getfirst: the first set, and whether its return value is non-zero ("the pattern may
   accept the empty string"). Without run-time captures bit 2 of that value never appears.
   */
  datatype First = First(cs: Charset, e: bool)

  function GetFirst(t: Tree, follow: Charset): First {
    match t
    case TChar(c) => First({c}, false)
    case TSet(cs) => First(cs, false)
    case TAny => First(FullSet(), false)
    case TFalse => First({}, false)
    case TTrue => First(follow, true)
    case TChoice(p1, p2) =>
      var f1, f2 := GetFirst(p1, follow), GetFirst(p2, follow);
      First(f1.cs + f2.cs, f1.e || f2.e)
    case TSeq(p1, p2) =>
      if !Nullable(p1) then GetFirst(p1, FullSet())
      else
        var f2 := GetFirst(p2, follow);
        var f1 := GetFirst(p1, f2.cs);
        First(f1.cs, if !f1.e then false else f2.e)
    case TRep(p) => First(GetFirst(p, follow).cs + follow, true)
    case TAnd(p) =>
      var f := GetFirst(p, follow);
      First(f.cs * follow, f.e)
    case TNot(p) =>
      (match ToCharset(p)
       case Some(cs) => First(FullSet() - cs, true)
       case None => First(follow, true))
    case TBehind(_, _) => First(follow, true)
  }

  /** headfail: the pattern can fail only because of the next byte. */
  predicate HeadFail(t: Tree) {
    match t
    case TChar(_) => true
    case TSet(_) => true
    case TAny => true
    case TFalse => true
    case TTrue => false
    case TRep(_) => false
    case TNot(_) => false
    case TBehind(_, _) => false
    case TAnd(p) => HeadFail(p)
    case TSeq(p1, p2) => NoFail(p2) && HeadFail(p1)
    case TChoice(p1, p2) => HeadFail(p1) && HeadFail(p2)
  }

  /** needfollow: code generation for the pattern can use its follow set. */
  predicate NeedFollow(t: Tree) {
    match t
    case TChoice(_, _) => true
    case TRep(_) => true
    case TSeq(_, p2) => NeedFollow(p2)
    case _ => false
  }

  /**
   What the constructors in lptree.c enforce: a loop body is not nullable, and a look-behind body
   has the recorded fixed length.
   */
  predicate WellFormed(t: Tree) {
    match t
    case TRep(p) => !Nullable(p) && WellFormed(p)
    case TSeq(p1, p2) => WellFormed(p1) && WellFormed(p2)
    case TChoice(p1, p2) => WellFormed(p1) && WellFormed(p2)
    case TNot(p) => WellFormed(p)
    case TAnd(p) => WellFormed(p)
    case TBehind(n, p) => FixedLen(p) == n && n <= MAXBEHIND && WellFormed(p)
    case _ => true
  }
}
