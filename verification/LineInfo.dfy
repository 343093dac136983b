/**
 Line information of Lua functions: the code generator (lcode.c) stores one signed byte per
 instruction, the difference from the previous line, and now and then an absolute entry; the
 debugger (ldebug.c) reads lines back from an estimated entry.
 */
module LineInfo {

  type SignedByte = x: int | -128 <= x < 128 witness 0

  const ABSLINEINFO: SignedByte := -0x80
  const MAXIWTHABS := 128
  const LIMLINEDIFF := 0x80

  datatype AbsLine = AbsLine(pc: int, line: int)

  /** The part of a Proto that holds line information; without debug information it has none. */
  datatype Proto = Proto(lineDefined: int, debug: bool, lineInfo: seq<SignedByte>, absLineInfo: seq<AbsLine>)

  /** The line before instruction pc. */
  function Before(lineDefined: int, lines: seq<int>, pc: nat): int
    requires pc <= |lines|
  {
    if pc == 0 then lineDefined else lines[pc - 1]
  }

  /** Entries in strictly ascending order, close enough together for the estimate. */
  ghost predicate Spaced(a: seq<AbsLine>, n: nat) {
    && (forall i :: 0 <= i < |a| ==> 0 <= a[i].pc < n && a[i].pc <= MAXIWTHABS * (i + 1))
    && (forall i, j :: 0 <= i < j < |a| ==> a[i].pc < a[j].pc)
    && n <= MAXIWTHABS * (|a| + 1)
  }

  ghost predicate Listed(a: seq<AbsLine>, pc: int) {
    exists i :: 0 <= i < |a| && a[i].pc == pc
  }

  /** Instruction pc is recorded: relative to the line before it, or by an absolute entry. */
  ghost predicate Recorded(lineDefined: int, info: seq<SignedByte>, a: seq<AbsLine>, lines: seq<int>, pc: nat)
    requires pc < |info| && pc < |lines|
  {
    if info[pc] == ABSLINEINFO then Listed(a, pc) else info[pc] == lines[pc] - Before(lineDefined, lines, pc)
  }

  /** The arrays record 'lines', one line per instruction. */
  ghost predicate Encodes(lineDefined: int, info: seq<SignedByte>, a: seq<AbsLine>, lines: seq<int>) {
    && |info| == |lines|
    && Spaced(a, |lines|)
    && (forall i :: 0 <= i < |a| ==> info[a[i].pc] == ABSLINEINFO && a[i].line == lines[a[i].pc])
    && (forall pc :: 0 <= pc < |lines| ==> Recorded(lineDefined, info, a, lines, pc))
  }

  ghost predicate Describes(p: Proto, lines: seq<int>) {
    p.debug && Encodes(p.lineDefined, p.lineInfo, p.absLineInfo, lines)
  }

  /** The fields of FuncState and Proto used while a function is compiled. */
  class FuncState {
    const lineDefined: int
    var pc: nat                       // number of instructions
    var code: seq<int>
    var lineInfo: seq<SignedByte>     // vectors may be longer than the part in use
    var absLineInfo: seq<AbsLine>
    var nAbs: nat
    var previousLine: int
    var iwthabs: int

    /** The first m instructions have line information that records 'lines'. */
    ghost predicate Saved(m: nat, lines: seq<int>)
      reads this
    {
      && m <= pc == |code| && m <= |lineInfo| && nAbs <= |absLineInfo| && |lines| == m
      && Encodes(lineDefined, lineInfo[..m], absLineInfo[..nAbs], lines)
      && 0 <= iwthabs <= MAXIWTHABS + 1
      && (iwthabs <= MAXIWTHABS ==>
            && previousLine == Before(lineDefined, lines, m)
            && iwthabs == m - if nAbs == 0 then 0 else absLineInfo[nAbs - 1].pc)
    }

    /** All instructions have their line. */
    ghost predicate Valid(lines: seq<int>)
      reads this
    {
      Saved(pc, lines) && iwthabs <= MAXIWTHABS
    }

    constructor (lineDefined: int)
      ensures Valid([]) && pc == 0 && this.lineDefined == lineDefined
    {
      this.lineDefined := lineDefined;
      pc, code, lineInfo, absLineInfo, nAbs := 0, [], [], [], 0;
      previousLine, iwthabs := lineDefined, 0;
    }

    method SaveLineInfo(line: int, ghost lines: seq<int>)
      requires pc > 0 && Saved(pc - 1, lines)
      modifies this`lineInfo, this`absLineInfo, this`nAbs, this`previousLine, this`iwthabs
      ensures Valid(lines + [line])
      ensures if -LIMLINEDIFF < line - old(previousLine) < LIMLINEDIFF && old(iwthabs) < MAXIWTHABS
              then nAbs == old(nAbs) && iwthabs == old(iwthabs) + 1
              else nAbs == old(nAbs) + 1 && iwthabs == 1
    {
      hide Encodes;
      var dif := line - previousLine;
      var last := pc - 1;
      var absolute := dif >= LIMLINEDIFF || -dif >= LIMLINEDIFF;
      if !absolute {
        absolute := iwthabs >= MAXIWTHABS;
        iwthabs := iwthabs + 1;
      }
      ghost var a := absLineInfo[..nAbs];
      ghost var info := lineInfo[..last];
      if absolute {
        absLineInfo := Store(absLineInfo, nAbs, AbsLine(last, line));
        nAbs := nAbs + 1;
        dif := ABSLINEINFO;
        iwthabs := 1;
      }
      lineInfo := Store(lineInfo, last, dif);
      previousLine := line;
      if absolute {
        EncodesAbsolute(lineDefined, info, a, lines, line);
      } else {
        EncodesRelative(lineDefined, info, a, lines, line);
      }
    }

    method RemoveLastLineInfo(ghost lines: seq<int>)
      requires pc > 0 && Valid(lines)
      modifies this`nAbs, this`previousLine, this`iwthabs
      ensures Saved(pc - 1, lines[..pc - 1])
    {
      var last := pc - 1;
      EncodesPrefix(lineDefined, lineInfo[..pc], absLineInfo[..nAbs], lines);
      assert lineInfo[..pc][..last] == lineInfo[..last];
      assert nAbs > 0 ==> absLineInfo[..nAbs][..nAbs - 1] == absLineInfo[..nAbs - 1];
      assert Recorded(lineDefined, lineInfo[..pc], absLineInfo[..nAbs], lines, last);
      if lineInfo[last] != ABSLINEINFO {
        previousLine := previousLine - lineInfo[last];
        iwthabs := iwthabs - 1;
      } else {
        assert absLineInfo[nAbs - 1].pc == last;
        nAbs := nAbs - 1;
        iwthabs := MAXIWTHABS + 1;
      }
    }

    /** luaK_code. */
    method Code(i: int, line: int, ghost lines: seq<int>) returns (at: nat)
      requires Saved(pc, lines)
      modifies this
      ensures Valid(lines + [line]) && pc == old(pc) + 1 && at == old(pc) && code == old(code) + [i]
    {
      code := code + [i];
      pc := pc + 1;
      SaveLineInfo(line, lines);
      return pc - 1;
    }

    /** removelastinstruction. */
    method RemoveLastInstruction(ghost lines: seq<int>)
      requires pc > 0 && Valid(lines)
      modifies this
      ensures pc == old(pc) - 1 && code == old(code)[..pc] && Saved(pc, lines[..pc])
    {
      RemoveLastLineInfo(lines);
      pc := pc - 1;
      code := code[..pc];
    }

    /** luaK_fixline. */
    method FixLine(line: int, ghost lines: seq<int>)
      requires pc > 0 && Valid(lines)
      modifies this`lineInfo, this`absLineInfo, this`nAbs, this`previousLine, this`iwthabs
      ensures Valid(lines[..pc - 1] + [line])
    {
      RemoveLastLineInfo(lines);
      SaveLineInfo(line, lines[..pc - 1]);
    }

    /** close_func cuts the vectors to the part in use. */
    method Close(ghost lines: seq<int>) returns (p: Proto)
      requires Valid(lines)
      ensures Describes(p, lines) && p.lineDefined == lineDefined
    {
      p := Proto(lineDefined, true, lineInfo[..pc], absLineInfo[..nAbs]);
    }
  }

  /** luaM_growvector and the store that follows it. */
  function Store<T>(v: seq<T>, i: nat, x: T): (r: seq<T>)
    requires i <= |v|
    ensures |r| >= i + 1 && r[..i + 1] == v[..i] + [x]
  {
    if i == |v| then v + [x] else v[i := x]
  }

  lemma EncodesAbsolute(lineDefined: int, info: seq<SignedByte>, a: seq<AbsLine>, lines: seq<int>, line: int)
    requires Encodes(lineDefined, info, a, lines)
    ensures Encodes(lineDefined, info + [ABSLINEINFO], a + [AbsLine(|lines|, line)], lines + [line])
  {
    var b := a + [AbsLine(|lines|, line)];
    assert b[|a|].pc == |lines|;
    forall pc | 0 <= pc < |lines|
      ensures Recorded(lineDefined, info + [ABSLINEINFO], b, lines + [line], pc)
    {
      assert Recorded(lineDefined, info, a, lines, pc);
      if info[pc] == ABSLINEINFO {
        var i :| 0 <= i < |a| && a[i].pc == pc;
        assert b[i].pc == pc;
      }
    }
  }

  lemma EncodesRelative(lineDefined: int, info: seq<SignedByte>, a: seq<AbsLine>, lines: seq<int>, line: int)
    requires Encodes(lineDefined, info, a, lines)
    requires var dif := line - Before(lineDefined, lines, |lines|); -LIMLINEDIFF < dif < LIMLINEDIFF
    requires |lines| - (if a == [] then 0 else a[|a| - 1].pc) < MAXIWTHABS
    ensures Encodes(lineDefined, info + [line - Before(lineDefined, lines, |lines|)], a, lines + [line])
  {
    var longer := info + [line - Before(lineDefined, lines, |lines|)];
    forall pc | 0 <= pc < |lines|
      ensures Recorded(lineDefined, longer, a, lines + [line], pc)
    {
      assert Recorded(lineDefined, info, a, lines, pc);
    }
  }

  lemma PrefixRecorded(lineDefined: int, info: seq<SignedByte>, a: seq<AbsLine>, lines: seq<int>, pc: nat)
    requires Encodes(lineDefined, info, a, lines) && pc < |lines| - 1
    ensures var m := |lines| - 1;
            && Recorded(lineDefined, info[..m], a, lines[..m], pc)
            && (a != [] && a[|a| - 1].pc == m ==> Recorded(lineDefined, info[..m], a[..|a| - 1], lines[..m], pc))
  {
    assert Recorded(lineDefined, info, a, lines, pc);
    if info[pc] == ABSLINEINFO {
      var i :| 0 <= i < |a| && a[i].pc == pc;
      if a[|a| - 1].pc == |lines| - 1 {
        assert a[..|a| - 1][i].pc == pc;
      }
    }
  }

  /** Without its last instruction, the encoding is that of the shorter function. */
  lemma EncodesPrefix(lineDefined: int, info: seq<SignedByte>, a: seq<AbsLine>, lines: seq<int>)
    requires Encodes(lineDefined, info, a, lines) && lines != []
    ensures var m := |lines| - 1;
            if info[m] == ABSLINEINFO
            then a != [] && a[|a| - 1].pc == m && Encodes(lineDefined, info[..m], a[..|a| - 1], lines[..m])
            else Encodes(lineDefined, info[..m], a, lines[..m])
  {
    var m := |lines| - 1;
    assert Recorded(lineDefined, info, a, lines, m);
    var b := a;
    if info[m] == ABSLINEINFO {
      var i :| 0 <= i < |a| && a[i].pc == m;
      assert i < |a| - 1 ==> a[i].pc < a[|a| - 1].pc;
      b := a[..|a| - 1];
    } else {
      assert a != [] ==> a[|a| - 1].pc != m;
    }
    PrefixSpaced(a, |lines|);
    forall pc: nat | pc < m
      ensures Recorded(lineDefined, info[..m], b, lines[..m], pc)
    {
      PrefixRecorded(lineDefined, info, a, lines, pc);
    }
  }

  lemma PrefixSpaced(a: seq<AbsLine>, n: nat)
    requires Spaced(a, n) && n > 0
    ensures a != [] && a[|a| - 1].pc == n - 1 ==> Spaced(a[..|a| - 1], n - 1)
    ensures a == [] || a[|a| - 1].pc != n - 1 ==> Spaced(a, n - 1)
  {
  }

  // ---- Reading

  /** getbaseline: the last absolute entry at or before pc. */
  method GetBaseLine(p: Proto, pc: nat, ghost lines: seq<int>) returns (basePc: int, line: int)
    requires Describes(p, lines) && pc < |lines|
    ensures -1 <= basePc <= pc && line == Before(p.lineDefined, lines, basePc + 1)
    ensures forall k :: basePc < k <= pc ==> p.lineInfo[k] != ABSLINEINFO
  {
    var a := p.absLineInfo;
    if a == [] || pc < a[0].pc {
      NoneBetween(p, lines, -1, pc);
      return -1, p.lineDefined;
    }
    var i := pc / MAXIWTHABS - 1;
    Estimate(a, |lines|, pc);
    assert i < 0 || (i < |a| && a[i].pc <= pc);
    while i + 1 < |a| && pc >= a[i + 1].pc
      invariant -1 <= i < |a|
      invariant i < 0 || a[i].pc <= pc
      decreases |a| - i
    {
      i := i + 1;
    }
    NoneBetween(p, lines, i, pc);
    return a[i].pc, a[i].line;
  }

  /** The estimate is a lower bound of the right entry. */
  lemma Estimate(a: seq<AbsLine>, n: nat, pc: nat)
    requires Spaced(a, n) && pc < n
    ensures var i := pc / MAXIWTHABS - 1; i < 0 || (i < |a| && a[i].pc <= pc)
  {
    var i := pc / MAXIWTHABS - 1;
    if i >= 0 {
      assert MAXIWTHABS * (i + 1) <= pc;
    }
  }

  lemma NoneBetween(p: Proto, lines: seq<int>, i: int, pc: nat)
    requires Describes(p, lines) && pc < |lines|
    requires -1 <= i < |p.absLineInfo| && (i + 1 < |p.absLineInfo| ==> pc < p.absLineInfo[i + 1].pc)
    ensures forall k :: (if i < 0 then -1 else p.absLineInfo[i].pc) < k <= pc ==> p.lineInfo[k] != ABSLINEINFO
  {
    var a := p.absLineInfo;
    forall k | (if i < 0 then -1 else a[i].pc) < k <= pc
      ensures p.lineInfo[k] != ABSLINEINFO
    {
      assert Recorded(p.lineDefined, p.lineInfo, a, lines, k);
      forall j | 0 <= j < |a| ensures a[j].pc != k {
        if j > i {
          assert a[i + 1].pc <= a[j].pc;
        }
      }
    }
  }

  /** luaG_getfuncline. */
  method GetFuncLine(p: Proto, pc: nat, ghost lines: seq<int>) returns (line: int)
    requires p.debug ==> Describes(p, lines) && pc < |lines|
    ensures line == if p.debug then lines[pc] else -1
  {
    if !p.debug {
      return -1;
    }
    var basePc: int;
    basePc, line := GetBaseLine(p, pc, lines);
    while basePc < pc
      invariant -1 <= basePc <= pc && line == Before(p.lineDefined, lines, basePc + 1)
      invariant forall k :: basePc < k <= pc ==> p.lineInfo[k] != ABSLINEINFO
    {
      basePc := basePc + 1;
      assert Recorded(p.lineDefined, p.lineInfo, p.absLineInfo, lines, basePc);
      line := line + p.lineInfo[basePc];
    }
  }

  /** changedline: the shortcut through the differences decides the same as comparing the lines. */
  method ChangedLine(p: Proto, oldPc: nat, newPc: nat, ghost lines: seq<int>) returns (changed: bool)
    requires p.debug ==> Describes(p, lines) && oldPc < newPc < |lines|
    ensures changed == (p.debug && lines[oldPc] != lines[newPc])
  {
    if !p.debug {
      return false;
    }
    if newPc - oldPc < MAXIWTHABS / 2 {
      var delta: int := 0;
      var pc := oldPc;
      while true
        invariant oldPc <= pc < newPc && delta == lines[pc] - lines[oldPc]
        decreases newPc - pc
      {
        pc := pc + 1;
        assert Recorded(p.lineDefined, p.lineInfo, p.absLineInfo, lines, pc);
        var info: int := p.lineInfo[pc];
        if info == ABSLINEINFO {
          break;
        }
        delta := delta + info;
        if pc == newPc {
          return delta != 0;
        }
      }
    }
    var before := GetFuncLine(p, oldPc, lines);
    var after := GetFuncLine(p, newPc, lines);
    return before != after;
  }

  // ---- Whole compilations

  /** What the compiler does: emit, replace the last instruction, or correct the last line. */
  datatype Op = Emit(i: int, line: int) | Replace(i: int, line: int) | Fix(line: int)

  /** The last line recorded for each instruction. */
  function Lines(ops: seq<Op>): seq<int> {
    if ops == [] then []
    else
      var before := Lines(ops[..|ops| - 1]);
      var op := ops[|ops| - 1];
      if op.Emit? || before == [] then before + [op.line] else before[..|before| - 1] + [op.line]
  }

  /** Every compilation that starts with an emitted instruction yields line information for Lines. */
  method Compile(lineDefined: int, ops: seq<Op>) returns (p: Proto)
    requires ops != [] ==> ops[0].Emit?
    ensures Describes(p, Lines(ops)) && p.lineDefined == lineDefined
  {
    var fs := new FuncState(lineDefined);
    ghost var lines := [];
    var n := 0;
    while n < |ops|
      invariant 0 <= n <= |ops| && fresh(fs) && fs.lineDefined == lineDefined
      invariant lines == Lines(ops[..n]) && fs.Valid(lines) && (n > 0 ==> fs.pc > 0)
    {
      assert ops[..n + 1][..n] == ops[..n];
      ghost var rest := if fs.pc > 0 then lines[..fs.pc - 1] else [];
      match ops[n] {
        case Emit(i, line) =>
          var _ := fs.Code(i, line, lines);
          lines := lines + [line];
        case Replace(i, line) =>
          fs.RemoveLastInstruction(lines);
          var _ := fs.Code(i, line, rest);
          lines := rest + [line];
        case Fix(line) =>
          fs.FixLine(line, lines);
          lines := rest + [line];
      }
      n := n + 1;
    }
    assert ops[..n] == ops;
    p := fs.Close(lines);
  }

  /** Written by the compiler, read by the debugger. */
  method LineOf(lineDefined: int, ops: seq<Op>, pc: nat) returns (line: int)
    requires ops != [] && ops[0].Emit? && pc < |Lines(ops)|
    ensures line == Lines(ops)[pc]
  {
    var p := Compile(lineDefined, ops);
    line := GetFuncLine(p, pc, Lines(ops));
  }
}
