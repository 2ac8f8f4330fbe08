/** Lua's delta-coded line table: how the compiler records a line for each instruction (lcode.c), and how the
    debugger looks one up (ldebug.c). */
module LineTable {
  const LIM_LINE_DIFF: int := 0x80
  const ABS_LINE_INFO: int := -0x80
  const MAX_IWTH_ABS: nat := 128

  datatype AbsLineInfo = AbsLineInfo(pc: nat, line: int)

  /** The parts of Proto that record lines. An empty lineinfo is a null pointer. */
  datatype Proto = Proto(linedefined: int, lineinfo: seq<int>, abslineinfo: seq<AbsLineInfo>)

  function Abs(x: int): int { if x < 0 then -x else x }

  // ----- what a table records -----

  /** The line before that of instruction pc. */
  function Before(f: Proto, lines: seq<int>, pc: nat): int
    requires pc <= |lines|
  {
    if pc == 0 then f.linedefined else lines[pc - 1]
  }

  /** Instruction pc is absolute, or a signed byte away from the line before. */
  ghost predicate Entry(f: Proto, lines: seq<int>, pc: nat)
    requires pc < |lines| <= |f.lineinfo|
  {
    if f.lineinfo[pc] == ABS_LINE_INFO then exists i :: 0 <= i < |f.abslineinfo| && f.abslineinfo[i].pc == pc
    else Abs(f.lineinfo[pc]) < LIM_LINE_DIFF && lines[pc] == Before(f, lines, pc) + f.lineinfo[pc]
  }

  /** The absolute entries ascend; each marks its instruction and holds its line. */
  ghost predicate Marks(f: Proto, lines: seq<int>)
    requires |lines| <= |f.lineinfo|
  {
    && (forall i :: 0 <= i < |f.abslineinfo| ==>
        && f.abslineinfo[i].pc < |lines| && f.lineinfo[f.abslineinfo[i].pc] == ABS_LINE_INFO
        && lines[f.abslineinfo[i].pc] == f.abslineinfo[i].line)
    && (forall i, j :: 0 <= i < j < |f.abslineinfo| ==> f.abslineinfo[i].pc < f.abslineinfo[j].pc)
  }

  /** Where the i-th absolute entry is, counting from 1; 0 stands for the start. */
  function Base(f: Proto, i: nat): nat
    requires i <= |f.abslineinfo|
  {
    if i == 0 then 0 else f.abslineinfo[i - 1].pc
  }

  predicate Gap(f: Proto, i: nat)
    requires i < |f.abslineinfo|
  {
    f.abslineinfo[i].pc <= Base(f, i) + MAX_IWTH_ABS
  }

  /** From one absolute entry to the next, and from the last one to n, it is at most MAX_IWTH_ABS. */
  ghost predicate Close(f: Proto, n: nat) {
    && (forall i :: 0 <= i < |f.abslineinfo| ==> Gap(f, i))
    && n <= Base(f, |f.abslineinfo|) + MAX_IWTH_ABS
  }

  /** f records these lines for its first |lines| instructions. */
  ghost predicate Records(f: Proto, lines: seq<int>) {
    && |lines| <= |f.lineinfo|
    && (forall pc :: 0 <= pc < |lines| ==> Entry(f, lines, pc))
    && Marks(f, lines)
    && Close(f, |lines|)
  }

  // ----- recording -----

  /** The entry of instruction |lines| is overwritten or appended. */
  function PutEntry(f: Proto, at: nat, linedif: int): Proto
    requires at <= |f.lineinfo|
  {
    f.(lineinfo := f.lineinfo[..at] + [linedif])
  }

  lemma PutRelative(f: Proto, lines: seq<int>, line: int)
    requires Records(f, lines) && |lines| < Base(f, |f.abslineinfo|) + MAX_IWTH_ABS
    requires Abs(line - Before(f, lines, |lines|)) < LIM_LINE_DIFF
    ensures var g := PutEntry(f, |lines|, line - Before(f, lines, |lines|));
            |g.lineinfo| == |lines| + 1 && Records(g, lines + [line])
  {
    var n, g, m := |lines|, PutEntry(f, |lines|, line - Before(f, lines, |lines|)), lines + [line];
    forall pc | 0 <= pc < |m| ensures Entry(g, m, pc) {
      if pc < n {
        assert Entry(f, lines, pc);
        assert Before(g, m, pc) == Before(f, lines, pc);
      }
    }
    forall i | 0 <= i < |g.abslineinfo| ensures Gap(g, i) {
      assert Gap(f, i);
    }
  }

  lemma PutAbsolute(f: Proto, lines: seq<int>, line: int)
    requires Records(f, lines)
    ensures var g := PutEntry(f, |lines|, ABS_LINE_INFO);
            |g.lineinfo| == |lines| + 1 && Records(g.(abslineinfo := f.abslineinfo + [AbsLineInfo(|lines|, line)]), lines + [line])
  {
    var n, k := |lines|, |f.abslineinfo|;
    var g := PutEntry(f, n, ABS_LINE_INFO).(abslineinfo := f.abslineinfo + [AbsLineInfo(n, line)]);
    var m := lines + [line];
    forall pc | 0 <= pc < |m| ensures Entry(g, m, pc) {
      if pc < n {
        assert Entry(f, lines, pc);
        assert Before(g, m, pc) == Before(f, lines, pc);
        if g.lineinfo[pc] == ABS_LINE_INFO {
          var i :| 0 <= i < k && f.abslineinfo[i].pc == pc;
          assert g.abslineinfo[i].pc == pc;
        }
      } else {
        assert g.abslineinfo[k].pc == pc;
      }
    }
    forall i | 0 <= i <= k ensures Gap(g, i) {
      assert i < k ==> Gap(f, i);
    }
  }

  /** Without its last instruction, which is relative, f records the lines before it. */
  lemma DropRelative(f: Proto, lines: seq<int>)
    requires Records(f, lines) && lines != [] && f.lineinfo[|lines| - 1] != ABS_LINE_INFO
    ensures var n, m := |lines| - 1, lines[..|lines| - 1];
            Records(f, m) && lines[n] == Before(f, m, n) + f.lineinfo[n]
  {
    var n, m := |lines| - 1, lines[..|lines| - 1];
    assert Entry(f, lines, n);
    forall pc | 0 <= pc < n ensures Entry(f, m, pc) {
      assert Entry(f, lines, pc);
      assert Before(f, m, pc) == Before(f, lines, pc);
    }
  }

  /** An absolute last instruction is the last absolute entry; f without it records the lines before. */
  lemma DropAbsolute(f: Proto, lines: seq<int>)
    requires Records(f, lines) && lines != [] && f.lineinfo[|lines| - 1] == ABS_LINE_INFO
    ensures var n, k := |lines| - 1, |f.abslineinfo|;
            k > 0 && f.abslineinfo[k - 1].pc == n && Records(f.(abslineinfo := f.abslineinfo[..k - 1]), lines[..n])
  {
    var n, k := |lines| - 1, |f.abslineinfo|;
    assert Entry(f, lines, n);
    var i :| 0 <= i < k && f.abslineinfo[i].pc == n;
    assert i == k - 1;
    var g, m := f.(abslineinfo := f.abslineinfo[..k - 1]), lines[..n];
    assert Gap(f, k - 1);
    forall j | 0 <= j < k - 1 ensures Gap(g, j) {
      assert Gap(f, j);
    }
    forall pc | 0 <= pc < n ensures Entry(g, m, pc) {
      KeepsEntry(f, lines, pc);
    }
  }

  lemma KeepsEntry(f: Proto, lines: seq<int>, pc: nat)
    requires pc < |lines| - 1 < |f.lineinfo| && Entry(f, lines, pc)
    requires f.abslineinfo != [] && f.abslineinfo[|f.abslineinfo| - 1].pc == |lines| - 1
    ensures Entry(f.(abslineinfo := f.abslineinfo[..|f.abslineinfo| - 1]), lines[..|lines| - 1], pc)
  {
    var g, m := f.(abslineinfo := f.abslineinfo[..|f.abslineinfo| - 1]), lines[..|lines| - 1];
    assert Before(g, m, pc) == Before(f, lines, pc);
    if f.lineinfo[pc] == ABS_LINE_INFO {
      var j :| 0 <= j < |f.abslineinfo| && f.abslineinfo[j].pc == pc;
      assert g.abslineinfo[j].pc == pc;
    }
  }

  class FuncState {
    var f: Proto
    var pc: nat
    var previousline: int
    var iwthabs: nat
    ghost var lines: seq<int>

    /** The last line saved is the last one recorded, and iwthabs counts from the last absolute entry. */
    ghost predicate Regular()
      requires Records(f, lines)
      reads this
    {
      previousline == Before(f, lines, |lines|) && iwthabs == |lines| - Base(f, |f.abslineinfo|)
    }

    /** Every instruction has its line. */
    ghost predicate Valid()
      reads this
    {
      Records(f, lines) && pc == |lines| == |f.lineinfo| && Regular()
    }

    /** Instruction |lines| is to be recorded next. Where an absolute entry was removed, the last line saved
        means nothing, but the counter is beyond its limit. */
    ghost predicate Pending()
      reads this
    {
      Records(f, lines) && |f.lineinfo| <= |lines| + 1 && (Regular() || iwthabs == MAX_IWTH_ABS + 1)
    }

    constructor (linedefined: int)
      ensures Valid() && lines == [] && f.linedefined == linedefined
    {
      f := Proto(linedefined, [], []);
      pc, previousline, iwthabs, lines := 0, linedefined, 0, [];
    }

    /** savelineinfo */
    method SaveLineInfo(line: int)
      requires Pending() && pc == |lines| + 1
      modifies this
      ensures Valid() && pc == old(pc) && lines == old(lines) + [line]
      ensures f.linedefined == old(f.linedefined)
    {
      var linedif := line - previousline;
      var at := pc - 1;
      var absolute := Abs(linedif) >= LIM_LINE_DIFF;
      if !absolute {
        absolute := iwthabs >= MAX_IWTH_ABS;
        iwthabs := iwthabs + 1;
      }
      if absolute {
        SaveAbsolute(line);
      } else {
        SaveRelative(line);
      }
      previousline := line;
    }

    /** The absolute entry that savelineinfo writes, and the counter's restart. */
    method SaveAbsolute(line: int)
      requires Records(f, lines) && |lines| + 1 == pc && |f.lineinfo| <= pc
      modifies this`f, this`iwthabs, this`lines
      ensures Records(f, lines) && lines == old(lines) + [line] && |f.lineinfo| == pc
      ensures iwthabs == |lines| - Base(f, |f.abslineinfo|)
      ensures f.linedefined == old(f.linedefined)
    {
      PutAbsolute(f, lines, line);
      f := PutEntry(f.(abslineinfo := f.abslineinfo + [AbsLineInfo(pc - 1, line)]), pc - 1, ABS_LINE_INFO);
      iwthabs := 1;
      lines := lines + [line];
    }

    /** The relative entry that savelineinfo writes; iwthabs is counted up already. */
    method SaveRelative(line: int)
      requires Records(f, lines) && |lines| + 1 == pc && |f.lineinfo| <= pc
      requires previousline == Before(f, lines, |lines|) && Abs(line - previousline) < LIM_LINE_DIFF
      requires iwthabs == pc - Base(f, |f.abslineinfo|) <= MAX_IWTH_ABS
      modifies this`f, this`lines
      ensures Records(f, lines) && lines == old(lines) + [line] && |f.lineinfo| == pc
      ensures iwthabs == |lines| - Base(f, |f.abslineinfo|)
      ensures f.linedefined == old(f.linedefined)
    {
      PutRelative(f, lines, line);
      f := PutEntry(f, pc - 1, line - previousline);
      lines := lines + [line];
    }

    /** removelastlineinfo */
    method RemoveLastLineInfo()
      requires Valid() && pc > 0
      modifies this
      ensures Pending() && pc == old(pc) && lines == old(lines[..pc - 1])
      ensures f.linedefined == old(f.linedefined)
    {
      var at := pc - 1;
      if f.lineinfo[at] != ABS_LINE_INFO {
        DropRelative(f, lines);
        previousline := previousline - f.lineinfo[at];
        iwthabs := iwthabs - 1;
      } else {
        DropAbsolute(f, lines);
        f := f.(abslineinfo := f.abslineinfo[..|f.abslineinfo| - 1]);
        iwthabs := MAX_IWTH_ABS + 1;
      }
      lines := lines[..at];
    }

    /** removelastinstruction */
    method RemoveLastInstruction()
      requires Valid() && pc > 0
      modifies this
      ensures Pending() && pc == old(pc) - 1 && lines == old(lines[..pc - 1])
      ensures f.linedefined == old(f.linedefined)
    {
      RemoveLastLineInfo();
      pc := pc - 1;
    }

    /** luaK_code, as far as lines go: a new instruction, also where one was just removed. */
    method Code(line: int)
      requires Pending() && pc == |lines|
      modifies this
      ensures Valid() && pc == old(pc) + 1 && lines == old(lines) + [line]
      ensures f.linedefined == old(f.linedefined)
    {
      pc := pc + 1;
      SaveLineInfo(line);
    }

    /** luaK_fixline: the last instruction gets another line. */
    method FixLine(line: int)
      requires Valid() && pc > 0
      modifies this
      ensures Valid() && pc == old(pc) && lines == old(lines[..pc - 1]) + [line]
      ensures f.linedefined == old(f.linedefined)
    {
      RemoveLastLineInfo();
      SaveLineInfo(line);
    }
  }

  // ----- looking up -----

  lemma {:induction false} EntriesClose(f: Proto, lines: seq<int>, i: nat)
    requires Records(f, lines) && i <= |f.abslineinfo|
    ensures Base(f, i) <= MAX_IWTH_ABS * i
  {
    if i > 0 {
      assert Gap(f, i - 1);
      EntriesClose(f, lines, i - 1);
    }
  }

  /** The assertion of getbaseline: its estimate is -1 or an absolute entry at or before pc. */
  lemma EstimateIsLower(f: Proto, lines: seq<int>, pc: nat)
    requires Records(f, lines) && pc < |lines|
    ensures var i := pc / MAX_IWTH_ABS - 1; i < 0 || (i < |f.abslineinfo| && f.abslineinfo[i].pc <= pc)
  {
    var i := pc / MAX_IWTH_ABS - 1;
    EntriesClose(f, lines, |f.abslineinfo|);
    if 0 <= i < |f.abslineinfo| {
      EntriesClose(f, lines, i + 1);
    }
  }

  /** Between one absolute entry and the next all is relative. */
  lemma NoneBetween(f: Proto, lines: seq<int>, i: int, k: nat)
    requires Records(f, lines) && k < |lines| && -1 <= i < |f.abslineinfo|
    requires i >= 0 ==> f.abslineinfo[i].pc < k
    requires i + 1 < |f.abslineinfo| ==> k < f.abslineinfo[i + 1].pc
    ensures f.lineinfo[k] != ABS_LINE_INFO
  {
    assert Entry(f, lines, k);
    forall j | 0 <= j < |f.abslineinfo| ensures f.abslineinfo[j].pc != k {
      if j > i + 1 {
        assert f.abslineinfo[i + 1].pc < f.abslineinfo[j].pc;
      }
    }
  }

  /** getbaseline: the last absolute entry at or before pc. */
  method GetBaseLine(f: Proto, pc: nat, ghost lines: seq<int>) returns (line: int, basepc: int)
    requires Records(f, lines) && pc < |lines|
    ensures -1 <= basepc <= pc && line == Before(f, lines, basepc + 1)
    ensures forall k :: basepc < k <= pc ==> f.lineinfo[k] != ABS_LINE_INFO
  {
    if |f.abslineinfo| == 0 || pc < f.abslineinfo[0].pc {
      forall k | 0 <= k <= pc ensures f.lineinfo[k] != ABS_LINE_INFO {
        NoneBetween(f, lines, -1, k);
      }
      return f.linedefined, -1;
    }
    var i := pc / MAX_IWTH_ABS - 1;
    EstimateIsLower(f, lines, pc);
    while i + 1 < |f.abslineinfo| && pc >= f.abslineinfo[i + 1].pc
      invariant -1 <= i < |f.abslineinfo|
      invariant i >= 0 ==> f.abslineinfo[i].pc <= pc
    {
      i := i + 1;
    }
    line, basepc := f.abslineinfo[i].line, f.abslineinfo[i].pc;
    forall k | basepc < k <= pc ensures f.lineinfo[k] != ABS_LINE_INFO {
      NoneBetween(f, lines, i, k);
    }
  }

  /** luaG_getfuncline finds the line recorded for pc. Its assertion holds: no absolute entry is on the way. */
  method GetFuncLine(f: Proto, pc: nat, ghost lines: seq<int>) returns (line: int)
    requires f.lineinfo == [] || (Records(f, lines) && pc < |lines|)
    ensures if f.lineinfo == [] then line == -1 else line == lines[pc]
  {
    if f.lineinfo == [] { return -1; }
    var basepc;
    line, basepc := GetBaseLine(f, pc, lines);
    while basepc < pc
      invariant basepc <= pc && -1 <= basepc && line == Before(f, lines, basepc + 1)
      invariant forall k :: basepc < k <= pc ==> f.lineinfo[k] != ABS_LINE_INFO
    {
      basepc := basepc + 1;
      assert Entry(f, lines, basepc);
      line := line + f.lineinfo[basepc];
    }
  }

  /** changedline says whether the two lines differ, whichever way it takes. */
  method ChangedLine(f: Proto, oldpc: nat, newpc: nat, ghost lines: seq<int>) returns (changed: bool)
    requires f.lineinfo == [] || (Records(f, lines) && oldpc < newpc < |lines|)
    ensures changed <==> f.lineinfo != [] && lines[oldpc] != lines[newpc]
  {
    if f.lineinfo == [] { return false; }
    if newpc - oldpc < MAX_IWTH_ABS / 2 {
      var delta, pc := 0, oldpc;
      while true
        invariant oldpc <= pc < newpc && lines[pc] == lines[oldpc] + delta
        decreases newpc - pc
      {
        pc := pc + 1;
        assert Entry(f, lines, pc);
        var lineinfo := f.lineinfo[pc];
        if lineinfo == ABS_LINE_INFO { break; }
        delta := delta + lineinfo;
        if pc == newpc { return delta != 0; }
      }
    }
    var before := GetFuncLine(f, oldpc, lines);
    var after := GetFuncLine(f, newpc, lines);
    return before != after;
  }

  // ----- whole runs -----

  /** What the code generator does to the last instruction: code a new one, give it another line, or remove it
      and code another in its place. */
  datatype Emission = New(line: int) | Fix(line: int) | Replace(line: int)

  /** The lines a run leaves. */
  function LinesOf(run: seq<Emission>): (lines: seq<int>)
    requires run != [] ==> run[0].New?
    ensures run != [] ==> lines != [] && lines[|lines| - 1] == run[|run| - 1].line
  {
    if run == [] then []
    else
      var e, before := run[|run| - 1], LinesOf(run[..|run| - 1]);
      if e.New? then before + [e.line] else before[..|before| - 1] + [e.line]
  }

  method Emit(fs: FuncState, e: Emission)
    requires fs.Valid() && (fs.lines == [] ==> e.New?)
    modifies fs
    ensures fs.Valid()
    ensures fs.lines == old(if e.New? then fs.lines else fs.lines[..|fs.lines| - 1]) + [e.line]
  {
    hide Records;
    match e {
      case New(line) => fs.Code(line);
      case Fix(line) => fs.FixLine(line);
      case Replace(line) =>
        fs.RemoveLastInstruction();
        fs.Code(line);
    }
  }

  /** Whatever the run, each instruction is found with the line it got last. */
  method LookUpAfter(linedefined: int, run: seq<Emission>, pc: nat) returns (line: int)
    requires run != [] ==> run[0].New?
    requires pc < |LinesOf(run)|
    ensures line == LinesOf(run)[pc]
  {
    hide Records;
    var fs := new FuncState(linedefined);
    for k := 0 to |run|
      invariant fs.Valid() && fs.lines == LinesOf(run[..k])
      modifies fs
    {
      assert run[..k + 1][..k] == run[..k];
      Emit(fs, run[k]);
    }
    assert run[..|run|] == run;
    assert fs.f.lineinfo != [];
    line := GetFuncLine(fs.f, pc, fs.lines);
  }
}
