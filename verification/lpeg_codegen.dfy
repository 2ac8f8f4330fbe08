/** Code generation of LPeg (codegen and its auxiliaries in lpcode.c) as a function from trees to
    relocatable blocks: every offset is relative, and `tt`, an instruction index in the source, is the
    instruction found there. */
module Codegen {
  import opened Wrappers
  import opened Charsets
  import opened Trees
  import opened Analysis
  import opened Machine

  function Payload(i: Instr): Code {
    match i
    case ISet(o) => seq(o.size, k => Data)
    case ISpan(o) => seq(o.size, k => Data)
    case ITestSet(o) => seq(o.size, k => Data)
    case _ => []
  }

  /** addinstruction, addoffsetinst, addcharset: the slots of an instruction, its offset still open. */
  function Emit(i: Instr): (c: Code)
    ensures |c| == i.Size()
  {
    [Op(i)] + (if i.HasOffset() then [Hole] else []) + Payload(i)
  }

  /** The same with its offset set (jumptothere). */
  function EmitTo(i: Instr, offset: int): (c: Code)
    requires i.HasOffset()
    ensures |c| == i.Size()
  {
    [Op(i), Off(offset)] + Payload(i)
  }

  /** The instruction codetestset selects for a set. */
  function TestInstr(cs: Charset): (i: Instr)
    ensures i.HasOffset()
  {
    match CharsetType(cs)
    case KFail => IJmp
    case KAny => ITestAny
    case KChar(c) => ITestChar(c)
    case KSet(info) => ITestSet(Operand(info))
  }

  /** codechar, codecharset: a character already checked by a dominating test is skipped with IAny. */
  function CodeChar(c: Byte, tt: Option<Instr>): Instr {
    if tt == Some(ITestChar(c)) then IAny else IChar(c)
  }

  function CodeCharset(info: SetInfo, tt: Option<Instr>): Instr {
    if tt == Some(ITestSet(Operand(info))) then IAny else ISet(Operand(info))
  }

  /** codechoice may drop the choice entry: no character can go both to p1 and, after p1 failed, to p2. */
  predicate TestDecides(env: Rules, p1: Tree, p2: Tree, fl: Charset, d: nat) {
    var f1 := GetFirst(env, p1, FullSet(), d);
    HeadFail(env, p1, d) || (!f1.empty && Disjoint(f1.set_, GetFirst(env, p2, fl, d).set_))
  }

  /** test (fail(p1)) -> L1; p1; jmp L2; L1: p2; L2: */
  function ChoiceByTest(test: Instr, c1: Code, emptyp2: bool, c2: Code): Code
    requires test.HasOffset()
  {
    var jmp := if emptyp2 then [] else EmitTo(IJmp, 2 + |c2|);
    EmitTo(test, test.Size() + |c1| + |jmp|) + c1 + jmp + c2
  }

  /** test(first(p1)) -> L1; choice L1; p1; commit L2; L1: p2; L2: */
  function ChoiceByStack(test: Option<Instr>, c1: Code, c2: Code): Code
    requires test.Some? ==> test.value.HasOffset()
  {
    TestCode(test, 4 + |c1|) + EmitTo(IChoice, 4 + |c1|) + c1 + EmitTo(ICommit, 2 + |c2|) + c2
  }

  /** An optional test that skips the `skip` slots after it. */
  function TestCode(test: Option<Instr>, skip: int): (c: Code)
    requires test.Some? ==> test.value.HasOffset()
  {
    if test.Some? then EmitTo(test.value, test.value.Size() + skip) else []
  }

  /** coderep may loop on a test alone: a character that starts the body cannot start what follows. */
  predicate LoopByTest(env: Rules, p: Tree, fl: Charset, d: nat) {
    var f := GetFirst(env, p, FullSet(), d);
    HeadFail(env, p, d) || (!f.empty && Disjoint(f.set_, fl))
  }

  /** L1: test -> L2; body; jmp L1; L2: */
  function TestLoop(test: Instr, body: Code): Code
    requires test.HasOffset()
  {
    EmitTo(test, test.Size() + |body| + 2) + body + EmitTo(IJmp, -(test.Size() + |body|))
  }

  /** test -> L2; choice L2 (or partialcommit L1); L1: body; partialcommit L1; L2: */
  function ChoiceLoop(test: Option<Instr>, opt: bool, body: Code): Code
    requires test.Some? ==> test.value.HasOffset()
  {
    TestCode(test, 4 + |body|)
    + (if opt then EmitTo(IPartialCommit, 2) else EmitTo(IChoice, 4 + |body|))
    + body + EmitTo(IPartialCommit, -|body|)
  }

  /** coderepcharset */
  function RepCharset(t: Tree): Code
    requires ToCharset(t).Some?
  {
    match t
    case TFalse => []
    case TAny => TestLoop(ITestAny, Emit(IAny))
    case TChar(c) => TestLoop(ITestChar(c), Emit(IAny))
    case TSet(info) => Emit(ISpan(Operand(info)))
  }

  /** test(fail(p)) -> L1; fail; L1:   or   test(fail(p)) -> L1; choice L1; p; failtwice; L1: */
  function NotByTest(test: Option<Instr>): Code
    requires test.Some? ==> test.value.HasOffset()
  {
    TestCode(test, 1) + Emit(IFail)
  }

  function NotByStack(test: Option<Instr>, c: Code): Code
    requires test.Some? ==> test.value.HasOffset()
  {
    TestCode(test, 3 + |c|) + EmitTo(IChoice, 3 + |c|) + c + Emit(IFailTwice)
  }

  /** choice L1; p; backcommit L2; L1: fail; L2: */
  function AndByStack(c: Code): Code {
    EmitTo(IChoice, 4 + |c|) + c + EmitTo(IBackCommit, 3) + Emit(IFail)
  }

  function TestFor(f: First): (test: Option<Instr>)
    ensures test.Some? ==> test.value.HasOffset()
  {
    if f.empty then None else Some(TestInstr(f.set_))
  }

  /** codegen. `opt`: last thing inside an optional pattern, whose choice may be reused; `tt`: test
      protecting this code; `fl`: follow set. */
  function Gen(env: Rules, t: Tree, opt: bool, tt: Option<Instr>, fl: Charset, d: nat): Code
    decreases t
  {
    match t
    case TChar(c) => Emit(CodeChar(c, tt))
    case TAny => Emit(IAny)
    case TSet(info) => Emit(CodeCharset(info, tt))
    case TTrue => []
    case TFalse => Emit(IFail)
    case TChoice(p1, p2) =>
      var f1 := GetFirst(env, p1, FullSet(), d);
      if TestDecides(env, p1, p2, fl, d) then
        var test := TestInstr(f1.set_);
        ChoiceByTest(test, Gen(env, p1, false, Some(test), fl, d), p2.TTrue?, Gen(env, p2, opt, None, fl, d))
      else if opt && p2.TTrue? then
        EmitTo(IPartialCommit, 2) + Gen(env, p1, true, None, FullSet(), d)
      else
        ChoiceByStack(TestFor(f1), Gen(env, p1, p2.TTrue?, TestFor(f1), FullSet(), d), Gen(env, p2, opt, None, fl, d))
    case TRep(p) =>
      var f := GetFirst(env, p, FullSet(), d);
      if ToCharset(p).Some? then RepCharset(p)
      else if LoopByTest(env, p, fl, d) then
        var test := TestInstr(f.set_);
        TestLoop(test, Gen(env, p, false, Some(test), FullSet(), d))
      else
        ChoiceLoop(TestFor(f), opt, Gen(env, p, false, None, FullSet(), d))
    case TBehind(n, p) =>
      (if n > 0 then Emit(IBehind(n)) else []) + Gen([], p, false, None, FullSet(), d)
    case TNot(p) =>
      var f := GetFirst(env, p, FullSet(), d);
      if HeadFail(env, p, d) then NotByTest(TestFor(f))
      else NotByStack(TestFor(f), Gen(env, p, false, None, FullSet(), d))
    case TAnd(p) =>
      var n := FixedLen(env, p, d);
      var c := Gen(env, p, false, tt, FullSet(), d);
      if 0 <= n <= MAXBEHIND then c + (if n > 0 then Emit(IBehind(n)) else [])
      else AndByStack(c)
    case TSeq(p1, p2) =>
      var fl1 := if NeedFollow(p1) then GetFirst(env, p2, fl, d).set_ else FullSet();
      Gen(env, p1, false, tt, fl1, d)
      + Gen(env, p2, opt, if FixedLen(env, p1, d) != 0 then None else tt, fl, d)
    case TCall(n) => Emit(IOpenCall(n))
    case TGrammar(rules) => FixCalls(GrammarRaw(rules, d), Positions(rules, rules, 4, d), 4)
  }

  /** codegrammar before its calls are corrected: call L1; jmp L2; L1: rule; ret; rule; ret; ... L2: */
  function GrammarRaw(rules: seq<Tree>, d: nat): Code
    decreases rules, 1
  {
    var bodies := GenRules(rules, rules, d);
    EmitTo(ICall, 4) + EmitTo(IJmp, 2 + |bodies|) + bodies
  }

  /** codegrammar's loop: each rule followed by IRet. */
  function GenRules(env: Rules, rs: seq<Tree>, d: nat): Code
    decreases rs, 0
  {
    if rs == [] then [] else Gen(env, rs[0], false, None, FullSet(), d) + Emit(IRet) + GenRules(env, rs[1..], d)
  }

  /** Where the rules start, the first at `start`. */
  function Positions(env: Rules, rs: seq<Tree>, start: nat, d: nat): (pos: seq<int>)
    ensures |pos| == |rs|
    decreases rs, 0
  {
    if rs == [] then []
    else [start] + Positions(env, rs[1..], start + |Gen(env, rs[0], false, None, FullSet(), d)| + 1, d)
  }

  // ----- calls -----

  /** finaltarget, cut after `bound` jumps: the source loops forever on a cycle of jumps. */
  function FinalTarget(code: Code, i: int, bound: nat): int
    decreases bound
  {
    if bound > 0 && IsOp(code, i) && code[i].op.IJmp? && HasTarget(code, i) then
      FinalTarget(code, Target(code, i), bound - 1)
    else i
  }

  /** correctcalls: turn the open calls from slot k on into calls, or into jumps when a return follows. */
  function FixCalls(code: Code, pos: seq<int>, k: nat): (r: Code)
    ensures |r| == |code|
    decreases |code| - k
  {
    if k >= |code| then code
    else FixCalls(FixCall(code, pos, k), pos, k + 1)
  }

  predicate IsRet(code: Code, p: int) { IsOp(code, p) && code[p].op.IRet? }

  function FixCall(code: Code, pos: seq<int>, k: nat): (r: Code)
    requires k < |code|
    ensures |r| == |code|
  {
    if code[k].Op? && code[k].op.IOpenCall? && code[k].op.rule < |pos| && k + 1 < |code| then
      var rule := pos[code[k].op.rule];
      var op := if IsRet(code, FinalTarget(code, k + 2, |code|)) then IJmp else ICall;
      code[k := Op(op)][k + 1 := Off(rule - k)]
    else code
  }

  /** compile, before the peephole pass. */
  function GenPattern(t: Tree, d: nat): Code {
    Gen([], t, false, None, FullSet(), d) + Emit(IEnd)
  }

  // ----- codegen, one construction at a time -----

  lemma GenOfChoice(env: Rules, p1: Tree, p2: Tree, opt: bool, tt: Option<Instr>, fl: Charset, d: nat)
    ensures var f1 := GetFirst(env, p1, FullSet(), d);
            Gen(env, TChoice(p1, p2), opt, tt, fl, d)
            == if TestDecides(env, p1, p2, fl, d) then
                 var test := TestInstr(f1.set_);
                 ChoiceByTest(test, Gen(env, p1, false, Some(test), fl, d), p2.TTrue?, Gen(env, p2, opt, None, fl, d))
               else if opt && p2.TTrue? then EmitTo(IPartialCommit, 2) + Gen(env, p1, true, None, FullSet(), d)
               else ChoiceByStack(TestFor(f1), Gen(env, p1, p2.TTrue?, TestFor(f1), FullSet(), d), Gen(env, p2, opt, None, fl, d))
  {
    hide GetFirst, HeadFail, FixedLen, NeedFollow, ToCharset, TestDecides, LoopByTest, TestInstr, TestFor, Emit, EmitTo;
  }

  lemma GenOfRep(env: Rules, p: Tree, opt: bool, tt: Option<Instr>, fl: Charset, d: nat)
    ensures var f := GetFirst(env, p, FullSet(), d);
            Gen(env, TRep(p), opt, tt, fl, d)
            == if ToCharset(p).Some? then RepCharset(p)
               else if LoopByTest(env, p, fl, d) then
                 var test := TestInstr(f.set_);
                 TestLoop(test, Gen(env, p, false, Some(test), FullSet(), d))
               else ChoiceLoop(TestFor(f), opt, Gen(env, p, false, None, FullSet(), d))
  {
    hide GetFirst, HeadFail, FixedLen, NeedFollow, ToCharset, TestDecides, LoopByTest, TestInstr, TestFor, Emit, EmitTo;
  }

  lemma GenOfNot(env: Rules, p: Tree, opt: bool, tt: Option<Instr>, fl: Charset, d: nat)
    ensures var test := TestFor(GetFirst(env, p, FullSet(), d));
            Gen(env, TNot(p), opt, tt, fl, d)
            == if HeadFail(env, p, d) then NotByTest(test) else NotByStack(test, Gen(env, p, false, None, FullSet(), d))
  {
    hide GetFirst, HeadFail, FixedLen, NeedFollow, ToCharset, TestDecides, LoopByTest, TestInstr, TestFor, Emit, EmitTo;
  }

  lemma GenOfAnd(env: Rules, p: Tree, opt: bool, tt: Option<Instr>, fl: Charset, d: nat)
    ensures var n, c := FixedLen(env, p, d), Gen(env, p, false, tt, FullSet(), d);
            Gen(env, TAnd(p), opt, tt, fl, d)
            == if 0 <= n <= MAXBEHIND then c + (if n > 0 then Emit(IBehind(n)) else []) else AndByStack(c)
  {
    hide GetFirst, HeadFail, FixedLen, NeedFollow, ToCharset, TestDecides, LoopByTest, TestInstr, TestFor, Emit, EmitTo;
  }

  lemma GenOfBehind(env: Rules, n: nat, p: Tree, opt: bool, tt: Option<Instr>, fl: Charset, d: nat)
    ensures Gen(env, TBehind(n, p), opt, tt, fl, d)
            == (if n > 0 then Emit(IBehind(n)) else []) + Gen([], p, false, None, FullSet(), d)
  {
    hide GetFirst, HeadFail, FixedLen, NeedFollow, ToCharset, TestDecides, LoopByTest, TestInstr, TestFor, Emit, EmitTo;
  }

  lemma GenOfSeq(env: Rules, p1: Tree, p2: Tree, opt: bool, tt: Option<Instr>, fl: Charset, d: nat)
    ensures Gen(env, TSeq(p1, p2), opt, tt, fl, d)
            == Gen(env, p1, false, tt, if NeedFollow(p1) then GetFirst(env, p2, fl, d).set_ else FullSet(), d)
               + Gen(env, p2, opt, if FixedLen(env, p1, d) != 0 then None else tt, fl, d)
  {
    hide GetFirst, HeadFail, FixedLen, NeedFollow, ToCharset, TestDecides, LoopByTest, TestInstr, TestFor, Emit, EmitTo;
  }

  lemma GenOfLeaf(env: Rules, opt: bool, tt: Option<Instr>, fl: Charset, d: nat)
    ensures forall c: Byte :: Gen(env, TChar(c), opt, tt, fl, d) == Emit(CodeChar(c, tt))
    ensures forall info: SetInfo :: Gen(env, TSet(info), opt, tt, fl, d) == Emit(CodeCharset(info, tt))
    ensures Gen(env, TAny, opt, tt, fl, d) == Emit(IAny) && Gen(env, TTrue, opt, tt, fl, d) == []
    ensures Gen(env, TFalse, opt, tt, fl, d) == Emit(IFail)
    ensures forall n: nat :: Gen(env, TCall(n), opt, tt, fl, d) == Emit(IOpenCall(n))
  {
    hide Emit, CodeChar, CodeCharset;
  }

  lemma GenOfGrammar(env: Rules, rules: seq<Tree>, opt: bool, tt: Option<Instr>, fl: Charset, d: nat)
    ensures Gen(env, TGrammar(rules), opt, tt, fl, d) == FixCalls(GrammarRaw(rules, d), Positions(rules, rules, 4, d), 4)
  {
    hide FixCalls, GrammarRaw, Positions;
  }
}
