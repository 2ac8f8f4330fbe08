/** The compiler of lpcode.c as it runs: code is appended, its offsets are patched afterwards, and calls
    are corrected in place. */
module Compiling {
  import opened Wrappers
  import opened Charsets
  import opened Trees
  import opened Analysis
  import opened Machine
  import opened Codegen
  import opened Layout
  import opened Shapes
  import opened Jumps
  import Chains
  import Peepholes

  const NOINST: int := -1

  /** The instruction a test index points to. */
  function TestAt(code: Code, tt: int): Option<Instr> {
    if IsOp(code, tt) then Some(code[tt].op) else None
  }

  lemma TestAtAdded(c0: Code, i: Instr, c1: Code)
    ensures TestAt(c0 + Emit(i) + c1, |c0|) == Some(i)
  {
    assert (c0 + Emit(i) + c1)[|c0|] == Op(i);
  }

  // ----- patching -----

  /** jumptothere, as a function. */
  function Patched(code: Code, instruction: int, target: int): Code
    requires instruction == NOINST || (0 <= instruction && instruction + 1 < |code|)
  {
    if instruction == NOINST then code else code[instruction + 1 := Off(target - instruction)]
  }

  /** Setting the offset of an instruction appended earlier. */
  lemma Patch(pre: Code, i: Instr, post: Code, offset: int)
    requires i.HasOffset()
    ensures |pre| + 1 < |pre + Emit(i) + post|
    ensures Patched(pre + Emit(i) + post, |pre|, |pre| + offset) == pre + EmitTo(i, offset) + post
  {
  }

  /** An optional test appended to c0, later sent to the end of what follows. */
  lemma PatchTest(c0: Code, test: Option<Instr>, post: Code)
    requires test.Some? ==> test.value.HasOffset()
    ensures var x := c0 + TestOpen(test) + post;
            var at := if test.Some? then |c0| else NOINST;
            && (at == NOINST || at + 1 < |x|)
            && Patched(x, at, |x|) == c0 + TestCode(test, |post|) + post
  {
    hide Emit, EmitTo;
    if test.Some? {
      Patch(c0, test.value, post, test.value.Size() + |post|);
    } else {
      assert c0 + [] + post == c0 + TestCode(test, |post|) + post;
    }
  }

  lemma TestLength(test: Option<Instr>, skip: int)
    requires test.Some? ==> test.value.HasOffset()
    ensures |TestOpen(test)| == |TestCode(test, skip)|
  {
  }

  lemma NoTestCode(skip: int)
    ensures TestOpen(None) == [] && TestCode(None, skip) == []
  {
  }

  lemma Append0(a: Code)
    ensures a + [] == a
  {
  }

  lemma Assoc(a: Code, b: Code, c: Code)
    ensures a + b + c == a + (b + c)
  {
  }

  lemma Assoc4(a: Code, b: Code, c: Code, e: Code)
    ensures a + b + c + e == a + (b + c + e)
    ensures a + b + c + e == a + b + (c + e)
  {
  }

  lemma Assoc5(a: Code, b: Code, c: Code, e: Code, f: Code)
    ensures a + b + c + e + f == a + (b + c + e + f)
    ensures a + b + c + e + f == a + b + (c + e + f)
    ensures a + b + c + e + f == a + b + c + (e + f)
  {
  }

  lemma LoopAssoc(c: Code, te: Code, ch: Code, body: Code, back: Code)
    ensures c + te + (ch + (body + back)) == c + (te + ch + body + back)
  {
  }

  lemma Assoc6(a: Code, b: Code, c: Code, e: Code, f: Code, g: Code)
    ensures a + b + c + e + f + g == a + (b + c + e + f + g)
  {
  }

  // ----- correcting calls -----

  lemma FixCallsEnd(x: Code, pos: seq<int>)
    ensures FixCalls(x, pos, |x|) == x
  {
  }

  lemma FixCallsStep(x: Code, pos: seq<int>, k: nat)
    requires k < |x|
    ensures FixCalls(x, pos, k) == FixCalls(FixCall(x, pos, k), pos, k + 1)
  {
  }

  lemma InBlock(pre: Code, x: Code, p: nat)
    ensures IsRet(pre + x, |pre| + p) == IsRet(x, p) && IsJump(pre + x, |pre| + p) == IsJump(x, p)
  {
    if IsOp(x, p) && p + 1 < |x| { assert (pre + x)[|pre| + p + 1] == x[p + 1]; }
  }

  /** A chain that ends in the last block ends in the whole code, and reaches a return in both or in none. */
  lemma ChainFollowed(pre: Code, x: Code, p: nat)
    requires Shaped(x) && Stops(x, p)
    ensures Stops(pre + x, |pre| + p)
    ensures IsRet(pre + x, FinalTarget(pre + x, |pre| + p, |pre + x|)) == IsRet(x, FinalTarget(x, p, |x|))
  {
    hide Shaped, IsRet, IsJump;
    var n: nat :| Ends(x, p, n);
    BoundSuffices(x, p, n);
    ChainShort(x, p, n, {});
    FinalTargetEnds(x, p, n, |pre + x|);
    ChainInBlock(pre, x, p, |pre + x|);
    InBlock(pre, x, FinalTarget(x, p, |pre + x|));
    StopsExactly(pre + x, |pre| + p);
  }

  /** From one instruction to the next there is nothing to correct. */
  lemma SkipInstruction(x: Code, pos: seq<int>, k: nat)
    requires k < |x| && Shaped(x)
    ensures var n := k + (if x[k].Op? then x[k].op.Size() else 1);
            n <= |x| && FixCalls(x, pos, k + 1) == FixCalls(x, pos, n)
  {
    hide FixCalls;
    SkipOperands(x, pos, k + 1, k + (if x[k].Op? then x[k].op.Size() else 1));
  }

  lemma FirstRule(rules: Rules, k: nat, start: nat, d: nat)
    requires k < |rules|
    ensures var b, rest := Gen(rules, rules[k], false, None, FullSet(), d), rules[k + 1..];
            && GenRules(rules, rules[k..], d) == b + Emit(IRet) + GenRules(rules, rest, d)
            && Positions(rules, rules[k..], start, d) == [start] + Positions(rules, rest, start + |b| + 1, d)
  {
    hide Gen;
    assert rules[k..][1..] == rules[k + 1..];
  }

  lemma Prepend(x: seq<int>, p: int, y: seq<int>)
    ensures (x + [p]) + y == x + ([p] + y)
  {
  }

  lemma NoRules(rules: Rules, start: nat, d: nat)
    ensures GenRules(rules, [], d) == [] && Positions(rules, [], start, d) == []
  {
  }

  /** Positions in the whole code are those in the block, moved. */
  lemma PositionsShift(env: Rules, rs: seq<Tree>, start: nat, base: nat, d: nat)
    ensures Shift(Positions(env, rs, base + start, d), 0 - base) == Positions(env, rs, start, d)
    decreases rs
  {
    hide Gen;
    if rs != [] { PositionsShift(env, rs[1..], start + |Gen(env, rs[0], false, None, FullSet(), d)| + 1, base, d); }
  }

  function TestOpen(test: Option<Instr>): Code {
    if test.Some? then Emit(test.value) else []
  }

  class CompileState {
    /** p->code[0..ncode]. */
    var code: Code
    /** The bound on calls followed by the analyses. */
    const d: nat

    constructor (d: nat)
      ensures code == [] && this.d == d
    {
      code := [];
      this.d := d;
    }

    /** addinstruction with the payload of a set, addoffsetinst. */
    method Add(i: Instr) returns (at: int)
      modifies this
      ensures at == |old(code)| && code == old(code) + Emit(i)
    {
      at := |code|;
      code := code + [Op(i)];
      if i.HasOffset() { code := code + [Hole]; }
      code := code + Payload(i);
    }

    /** setoffset, jumptothere */
    method JumpToThere(instruction: int, target: int)
      requires instruction == NOINST || (0 <= instruction && instruction + 1 < |code|)
      modifies this
      ensures code == Patched(old(code), instruction, target)
    {
      if instruction >= 0 { code := code[instruction + 1 := Off(target - instruction)]; }
    }

    /** jumptohere */
    method JumpToHere(instruction: int)
      requires instruction == NOINST || (0 <= instruction && instruction + 1 < |code|)
      modifies this
      ensures code == Patched(old(code), instruction, |old(code)|)
      ensures instruction == NOINST ==> code == old(code)
    {
      JumpToThere(instruction, |code|);
    }

    /** codetestset */
    method CodeTestSet(cs: Charset, e: bool) returns (test: int)
      modifies this
      ensures code == old(code) + TestOpen(if e then None else Some(TestInstr(cs)))
      ensures test == (if e then NOINST else |old(code)|)
    {
      if e { return NOINST; }
      test := Add(TestInstr(cs));
    }

    /** The test in front of a pattern, when its first set allows one. */
    method CodeFirstTest(f: First) returns (test: int)
      modifies this
      ensures code == old(code) + TestOpen(TestFor(f))
      ensures test == (if f.empty then NOINST else |old(code)|)
      ensures f.empty <==> TestFor(f).None?
      ensures forall c: Code :: TestAt(code + c, test) == TestFor(f)
    {
      hide Emit;
      ghost var c0 := code;
      test := CodeTestSet(f.set_, f.empty);
      if !f.empty {
        forall c: Code ensures TestAt(code + c, test) == TestFor(f) { TestAtAdded(c0, TestInstr(f.set_), c); }
      }
    }

    /** Send a choice and the test in front of it here. */
    method LandChoice(test: int, pchoice: int, ghost c0: Code, ghost tt: Option<Instr>, ghost rest: Code)
      requires tt.Some? ==> tt.value.HasOffset()
      requires test == (if tt.Some? then |c0| else NOINST) && pchoice == |c0 + TestOpen(tt)|
      requires code == c0 + TestOpen(tt) + (Emit(IChoice) + rest)
      modifies this
      ensures code == c0 + TestCode(tt, 2 + |rest|) + (EmitTo(IChoice, 2 + |rest|) + rest)
    {
      hide Emit, EmitTo, TestOpen, TestCode, Patched;
      ghost var pre, ch := c0 + TestOpen(tt), EmitTo(IChoice, 2 + |rest|);
      Assoc(pre, Emit(IChoice), rest);
      Patch(pre, IChoice, rest, 2 + |rest|);
      JumpToHere(pchoice);
      Assoc(pre, ch, rest);
      PatchTest(c0, tt, ch + rest);
      JumpToHere(test);
    }

    // ----- choice -----

    /** codechoice */
    method CodeChoice(env: Rules, p1: Tree, p2: Tree, opt: bool, fl: Charset)
      requires Chains.NestedStop(env, p1, d) && Chains.NestedStop(env, p2, d)
      modifies this
      ensures code == old(code) + Gen(env, TChoice(p1, p2), opt, None, fl, d)
      decreases TChoice(p1, p2), 1
    {
      hide Emit, EmitTo, TestDecides, ChoiceByTest, ChoiceByStack, GetFirst, TestFor, TestInstr, Gen, Chains.NestedStop;
      GenOfChoice(env, p1, p2, opt, None, fl, d);
      var f1 := GetFirst(env, p1, FullSet(), d);
      if TestDecides(env, p1, p2, fl, d) {
        CodeChoiceByTest(env, p1, p2, opt, fl, f1.set_);
      } else if opt && p2.TTrue? {
        AddPartial();
        CodeGen(env, p1, true, NOINST, FullSet());
      } else {
        CodeChoiceByStack(env, p1, p2, opt, fl, f1);
      }
    }

    /** A partial commit to the instruction after it. */
    method AddPartial()
      modifies this
      ensures code == old(code) + EmitTo(IPartialCommit, 2)
    {
      ghost var c0 := code;
      var partial := Add(IPartialCommit);
      Patch(c0, IPartialCommit, [], 2);
      assert code == c0 + Emit(IPartialCommit) + [];
      JumpToHere(partial);
      assert code == c0 + EmitTo(IPartialCommit, 2) + [];
    }

    method CodeChoiceByTest(env: Rules, p1: Tree, p2: Tree, opt: bool, fl: Charset, cs: Charset)
      requires Chains.NestedStop(env, p1, d) && Chains.NestedStop(env, p2, d)
      modifies this
      ensures var test := TestInstr(cs);
              code == old(code) + ChoiceByTest(test, Gen(env, p1, false, Some(test), fl, d), p2.TTrue?, Gen(env, p2, opt, None, fl, d))
      decreases TChoice(p1, p2), 0
    {
      hide TestInstr, Gen, EmitTo, Emit, Patched, Chains.NestedStop;
      ghost var c0, ti := code, TestInstr(cs);
      var test := CodeTestSet(cs, false);
      TestAtAdded(c0, ti, []);
      Append0(c0 + Emit(ti));
      ghost var c1 := Gen(env, p1, false, Some(ti), fl, d);
      CodeGen(env, p1, false, test, fl);
      if p2.TTrue? {
        PatchTest(c0, Some(ti), c1);
        JumpToHere(test);
        CodeGen(env, p2, opt, NOINST, fl);
        JumpToHere(NOINST);
        Append0(EmitTo(ti, ti.Size() + |c1|) + c1);
        Assoc4(c0, EmitTo(ti, ti.Size() + |c1|), c1, Gen(env, p2, opt, None, fl, d));
      } else {
        var jmp := Add(IJmp);
        Assoc4(c0, Emit(ti), c1, Emit(IJmp));
        PatchTest(c0, Some(ti), c1 + Emit(IJmp));
        JumpToHere(test);
        FinishTest(env, p1, p2, opt, fl, jmp, c0, EmitTo(ti, ti.Size() + |c1| + 2), c1);
      }
    }

    /** The second half of a choice by a test alone: p2, with the jump sent past it. */
    method FinishTest(env: Rules, ghost p1: Tree, p2: Tree, opt: bool, fl: Charset, jmp: int, ghost c0: Code, ghost te: Code, ghost c1: Code)
      requires Chains.NestedStop(env, p2, d)
      requires code == c0 + te + (c1 + Emit(IJmp)) && jmp == |c0 + te + c1|
      modifies this
      ensures var c2 := Gen(env, p2, opt, None, fl, d);
              code == c0 + (te + c1 + EmitTo(IJmp, 2 + |c2|) + c2)
      decreases TChoice(p1, p2), -1
    {
      hide Gen, EmitTo, Emit, Patched, Chains.NestedStop;
      ghost var pre, c2 := c0 + te + c1, Gen(env, p2, opt, None, fl, d);
      Assoc(c0 + te, c1, Emit(IJmp));
      CodeGen(env, p2, opt, NOINST, fl);
      Patch(pre, IJmp, c2, 2 + |c2|);
      JumpToHere(jmp);
      Assoc5(c0, te, c1, EmitTo(IJmp, 2 + |c2|), c2);
    }

    method CodeChoiceByStack(env: Rules, p1: Tree, p2: Tree, opt: bool, fl: Charset, f1: First)
      requires Chains.NestedStop(env, p1, d) && Chains.NestedStop(env, p2, d)
      modifies this
      ensures code == old(code) + ChoiceByStack(TestFor(f1), Gen(env, p1, p2.TTrue?, TestFor(f1), FullSet(), d), Gen(env, p2, opt, None, fl, d))
      decreases TChoice(p1, p2), 0
    {
      hide TestInstr, Gen, EmitTo, Emit, TestCode, TestFor, Patched, TestOpen, Chains.NestedStop;
      ghost var c0, tt := code, TestFor(f1);
      ghost var to, c1 := TestOpen(tt), Gen(env, p1, p2.TTrue?, tt, FullSet(), d);
      var test := CodeFirstTest(f1);
      var pchoice := Add(IChoice);
      CodeGen(env, p1, p2.TTrue?, test, FullSet());
      var pcommit := Add(ICommit);
      ghost var co := Emit(ICommit);
      Assoc4(c0 + to, Emit(IChoice), c1, co);
      Assoc(Emit(IChoice), c1, co);
      LandChoice(test, pchoice, c0, tt, c1 + co);
      ghost var te, ch := TestCode(tt, 4 + |c1|), EmitTo(IChoice, 4 + |c1|);
      TestLength(tt, 4 + |c1|);
      FinishChoice(env, p1, p2, opt, fl, pcommit, c0, te, ch, c1);
    }

    /** The second half of a choice: p2, with the commit sent past it. */
    method FinishChoice(env: Rules, ghost p1: Tree, p2: Tree, opt: bool, fl: Charset, pcommit: int, ghost c0: Code, ghost te: Code, ghost ch: Code, ghost c1: Code)
      requires Chains.NestedStop(env, p2, d)
      requires code == c0 + te + (ch + (c1 + Emit(ICommit))) && pcommit == |c0 + te + ch + c1|
      modifies this
      ensures var c2 := Gen(env, p2, opt, None, fl, d);
              code == c0 + (te + ch + c1 + EmitTo(ICommit, 2 + |c2|) + c2)
      decreases TChoice(p1, p2), -1
    {
      hide Gen, EmitTo, Emit, Patched, Chains.NestedStop;
      ghost var pre, c2 := c0 + te + ch + c1, Gen(env, p2, opt, None, fl, d);
      Assoc5(c0, te, ch, c1, Emit(ICommit));
      assert code == pre + Emit(ICommit);
      CodeGen(env, p2, opt, NOINST, fl);
      Patch(pre, ICommit, c2, 2 + |c2|);
      JumpToHere(pcommit);
      Assoc6(c0, te, ch, c1, EmitTo(ICommit, 2 + |c2|), c2);
    }

    // ----- repetition -----

    /** closeloop: jump back to the test and send the test here. */
    method CloseLoop(test: int, ghost c0: Code, ghost ti: Instr, ghost body: Code)
      requires ti.HasOffset() && test == |c0| && code == c0 + Emit(ti) + body
      modifies this
      ensures code == c0 + TestLoop(ti, body)
    {
      hide EmitTo, Emit;
      var jmp := Add(IJmp);
      assert code == c0 + Emit(ti) + (body + Emit(IJmp));
      PatchTest(c0, Some(ti), body + Emit(IJmp));
      JumpToHere(test);
      ghost var te := EmitTo(ti, ti.Size() + |body| + 2);
      assert code == (c0 + te + body) + Emit(IJmp) + [];
      Patch(c0 + te + body, IJmp, [], -(ti.Size() + |body|));
      JumpToThere(jmp, test);
      assert code == c0 + (te + body + EmitTo(IJmp, -(ti.Size() + |body|)));
    }

    /** coderepcharset */
    method CodeRepCharset(p: Tree)
      requires ToCharset(p).Some?
      modifies this
      ensures code == old(code) + RepCharset(p)
    {
      hide EmitTo, Emit, TestLoop;
      ghost var c0 := code;
      match p {
        case TFalse =>
        case TAny =>
          var test := Add(ITestAny);
          var any := Add(IAny);
          CloseLoop(test, c0, ITestAny, Emit(IAny));
        case TChar(c) =>
          var test := Add(ITestChar(c));
          var any := Add(IAny);
          CloseLoop(test, c0, ITestChar(c), Emit(IAny));
        case TSet(info) =>
          var span := Add(ISpan(Operand(info)));
      }
    }

    /** coderep */
    method CodeRep(env: Rules, p: Tree, opt: bool, fl: Charset)
      requires Chains.NestedStop(env, p, d)
      modifies this
      ensures code == old(code) + Gen(env, TRep(p), opt, None, fl, d)
      decreases TRep(p), 1
    {
      hide TestInstr, EmitTo, Emit, TestLoop, GetFirst, LoopByTest, ChoiceLoop, RepCharset, TestFor, Gen,
        ToCharset, Chains.NestedStop;
      GenOfRep(env, p, opt, None, fl, d);
      if ToCharset(p).Some? {
        CodeRepCharset(p);
        return;
      }
      var f := GetFirst(env, p, FullSet(), d);
      if LoopByTest(env, p, fl, d) {
        ghost var c0, ti := code, TestInstr(f.set_);
        var test := CodeTestSet(f.set_, false);
        TestAtAdded(c0, ti, []);
        assert code == c0 + Emit(ti) + [];
        CodeGen(env, p, false, test, FullSet());
        CloseLoop(test, c0, ti, Gen(env, p, false, Some(ti), FullSet(), d));
      } else {
        CodeRepByStack(env, p, opt, f);
      }
    }

    method CodeRepByStack(env: Rules, p: Tree, opt: bool, f: First)
      requires Chains.NestedStop(env, p, d)
      modifies this
      ensures code == old(code) + ChoiceLoop(TestFor(f), opt, Gen(env, p, false, None, FullSet(), d))
      decreases TRep(p), 0
    {
      hide TestInstr, Gen, EmitTo, Emit, TestCode, TestFor, TestOpen, Patched, Chains.NestedStop;
      ghost var c0, tt, body := code, TestFor(f), Gen(env, p, false, None, FullSet(), d);
      ghost var to := TestOpen(tt);
      var test := CodeFirstTest(f);
      var pchoice := NOINST;
      if opt { AddPartial(); } else { pchoice := Add(IChoice); }
      ghost var ch := if opt then EmitTo(IPartialCommit, 2) else Emit(IChoice);
      var l2 := |code|;
      CodeGen(env, p, false, NOINST, FullSet());
      AddLoopBack(l2, c0 + to + ch, body);
      ghost var rest := body + EmitTo(IPartialCommit, -|body|);
      Assoc(c0 + to, ch, rest);
      LandLoop(opt, test, pchoice, c0, tt, rest);
      ghost var te := TestCode(tt, 4 + |body|);
      ch := if opt then ch else EmitTo(IChoice, 4 + |body|);
      LoopAssoc(c0, te, ch, body, EmitTo(IPartialCommit, -|body|));
    }

    /** The same for a loop, which may begin with a partial commit instead. */
    method LandLoop(opt: bool, test: int, pchoice: int, ghost c0: Code, ghost tt: Option<Instr>, ghost rest: Code)
      requires tt.Some? ==> tt.value.HasOffset()
      requires test == (if tt.Some? then |c0| else NOINST) && pchoice == (if opt then NOINST else |c0 + TestOpen(tt)|)
      requires code == c0 + TestOpen(tt) + ((if opt then EmitTo(IPartialCommit, 2) else Emit(IChoice)) + rest)
      modifies this
      ensures code == c0 + TestCode(tt, 2 + |rest|)
                      + ((if opt then EmitTo(IPartialCommit, 2) else EmitTo(IChoice, 2 + |rest|)) + rest)
    {
      hide Emit, EmitTo, TestOpen, TestCode, Patched;
      if opt {
        PatchTest(c0, tt, EmitTo(IPartialCommit, 2) + rest);
        JumpToHere(pchoice);
        JumpToHere(test);
      } else {
        LandChoice(test, pchoice, c0, tt, rest);
      }
    }

    /** The partial commit that closes a loop whose body starts at l2. */
    method AddLoopBack(l2: int, ghost pre: Code, ghost body: Code)
      requires code == pre + body && l2 == |pre|
      modifies this
      ensures code == pre + (body + EmitTo(IPartialCommit, -|body|))
    {
      hide EmitTo, Emit, Patched;
      var commit := Add(IPartialCommit);
      Append0(code);
      Patch(pre + body, IPartialCommit, [], -|body|);
      JumpToThere(commit, l2);
      Append0(pre + body + EmitTo(IPartialCommit, -|body|));
      Assoc(pre, body, EmitTo(IPartialCommit, -|body|));
    }

    // ----- predicates -----

    /** codenot */
    method CodeNot(env: Rules, p: Tree)
      requires HeadFail(env, p, d) || Chains.NestedStop(env, p, d)
      modifies this
      ensures var test := TestFor(GetFirst(env, p, FullSet(), d));
              code == old(code) + if HeadFail(env, p, d) then NotByTest(test)
                                  else NotByStack(test, Gen(env, p, false, None, FullSet(), d))
      decreases TNot(p), 1
    {
      hide TestInstr, EmitTo, Emit, TestCode, GetFirst, HeadFail, TestFor, NotByStack, Gen;
      var f := GetFirst(env, p, FullSet(), d);
      if HeadFail(env, p, d) {
        ghost var c0, tt := code, TestFor(f);
        var test := CodeFirstTest(f);
        var fail := Add(IFail);
        PatchTest(c0, tt, Emit(IFail));
        JumpToHere(test);
        Assoc(c0, TestCode(tt, 1), Emit(IFail));
      } else {
        CodeNotByStack(env, p, f);
      }
    }

    method CodeNotByStack(env: Rules, p: Tree, f: First)
      requires Chains.NestedStop(env, p, d)
      modifies this
      ensures code == old(code) + NotByStack(TestFor(f), Gen(env, p, false, None, FullSet(), d))
      decreases TNot(p), 0
    {
      hide TestInstr, EmitTo, Emit, TestCode, TestFor, Gen, TestOpen, Patched, Chains.NestedStop;
      ghost var c0, tt, body := code, TestFor(f), Gen(env, p, false, None, FullSet(), d);
      ghost var to := TestOpen(tt);
      var test := CodeFirstTest(f);
      var pchoice := Add(IChoice);
      CodeGen(env, p, false, NOINST, FullSet());
      var twice := Add(IFailTwice);
      ghost var tw := Emit(IFailTwice);
      Assoc4(c0 + to, Emit(IChoice), body, tw);
      Assoc(Emit(IChoice), body, tw);
      LandChoice(test, pchoice, c0, tt, body + tw);
      Assoc5(c0, TestCode(tt, 3 + |body|), EmitTo(IChoice, 3 + |body|), body, tw);
      Assoc(EmitTo(IChoice, 3 + |body|), body, tw);
    }

    /** codeand */
    method CodeAnd(env: Rules, p: Tree, tt: int)
      requires Chains.NestedStop(env, p, d)
      requires tt < |code|
      modifies this
      ensures var n, c := FixedLen(env, p, d), Gen(env, p, false, TestAt(old(code), tt), FullSet(), d);
              code == old(code) + if 0 <= n <= MAXBEHIND then c + (if n > 0 then Emit(IBehind(n)) else []) else AndByStack(c)
      decreases TAnd(p), 1
    {
      hide EmitTo, Emit, FixedLen, AndByStack, Gen, TestAt, Chains.NestedStop;
      var n := FixedLen(env, p, d);
      if 0 <= n <= MAXBEHIND {
        ghost var c0, body := code, Gen(env, p, false, TestAt(code, tt), FullSet(), d);
        CodeGen(env, p, false, tt, FullSet());
        if n > 0 { var behind := Add(IBehind(n)); }
        assert code == c0 + (body + (if n > 0 then Emit(IBehind(n)) else []));
      } else {
        CodeAndByStack(env, p, tt);
      }
    }

    method CodeAndByStack(env: Rules, p: Tree, tt: int)
      requires Chains.NestedStop(env, p, d)
      requires tt < |code|
      modifies this
      ensures code == old(code) + AndByStack(Gen(env, p, false, TestAt(old(code), tt), FullSet(), d))
      decreases TAnd(p), 0
    {
      hide EmitTo, Emit, Gen, Patched, TestAt, TestOpen, TestCode, Chains.NestedStop;
      ghost var c0, body := code, Gen(env, p, false, TestAt(code, tt), FullSet(), d);
      TestAtKept(code, tt, Emit(IChoice));
      var pchoice := Add(IChoice);
      CodeGen(env, p, false, tt, FullSet());
      var pcommit := Add(IBackCommit);
      ghost var bo := Emit(IBackCommit);
      Assoc4(c0, Emit(IChoice), body, bo);
      Assoc(Emit(IChoice), body, bo);
      NoTestCode(4 + |body|);
      Append0(c0);
      LandChoice(NOINST, pchoice, c0, None, body + bo);
      FinishAnd(pcommit, c0, EmitTo(IChoice, 4 + |body|), body);
    }

    /** The failure after the predicate's code, and the commit that skips it. */
    method FinishAnd(pcommit: int, ghost c0: Code, ghost ch: Code, ghost body: Code)
      requires code == c0 + (ch + (body + Emit(IBackCommit))) && pcommit == |c0 + ch + body|
      modifies this
      ensures code == c0 + (ch + body + EmitTo(IBackCommit, 3) + Emit(IFail))
    {
      hide EmitTo, Emit, Patched;
      ghost var pre := c0 + ch + body;
      Assoc4(c0, ch, body, Emit(IBackCommit));
      Assoc(ch, body, Emit(IBackCommit));
      var fail := Add(IFail);
      Patch(pre, IBackCommit, Emit(IFail), 3);
      JumpToHere(pcommit);
      Assoc5(c0, ch, body, EmitTo(IBackCommit, 3), Emit(IFail));
    }

    /** codebehind */
    method CodeBehind(n: nat, p: Tree)
      requires Chains.NestedStop([], p, d)
      modifies this
      ensures code == old(code) + ((if n > 0 then Emit(IBehind(n)) else []) + Gen([], p, false, None, FullSet(), d))
      decreases TBehind(n, p), 0
    {
      hide Emit, Gen, TestAt, Chains.NestedStop;
      NoTest(code);
      NoTest(code + Emit(IBehind(n)));
      if n > 0 { var behind := Add(IBehind(n)); }
      CodeGen([], p, false, NOINST, FullSet());
    }

    // ----- grammars -----

    /** correctcalls on the block that starts at base: the instructions from `from` on. The source's loop over
        jumps ends each time, as no chain of the finished block is endless. */
    method CorrectCalls(positions: seq<int>, base: nat, from: nat)
      requires base <= from <= |code| && Shaped(code[base..]) && Tidy(code[base..], |positions|)
      requires AllStop(FixCalls(code[base..], Shift(positions, 0 - base), from - base))
      requires forall m :: 0 <= m < |positions| ==> base <= positions[m]
      modifies this
      ensures code == old(code)[..base] + FixCalls(old(code)[base..], Shift(positions, 0 - base), from - base)
    {
      hide FinalTarget, Shaped, Tidy, AllStop, FixCalls, FixCall;
      ghost var pre, rel := code[..base], Shift(positions, 0 - base);
      ghost var want := FixCalls(code[base..], rel, from - base);
      var i := from;
      while i < |code|
        invariant from <= i <= |code|
        invariant code[..base] == pre && Shaped(code[base..]) && Tidy(code[base..], |positions|)
        invariant FixCalls(code[base..], rel, i - base) == want
        decreases |code| - i
      {
        i := CorrectCall(positions, base, i);
      }
      FixCallsEnd(code[base..], rel);
    }

    /** One iteration: an open call becomes a call of its rule, or a jump when a return follows. */
    method CorrectCall(positions: seq<int>, base: nat, i: nat) returns (next: nat)
      requires base <= i < |code| && Shaped(code[base..]) && Tidy(code[base..], |positions|)
      requires AllStop(FixCalls(code[base..], Shift(positions, 0 - base), i - base))
      requires forall m :: 0 <= m < |positions| ==> base <= positions[m]
      modifies this
      ensures |code| == |old(code)| && i < next <= |code|
      ensures code[..base] == old(code)[..base] && Shaped(code[base..]) && Tidy(code[base..], |positions|)
      ensures var rel := Shift(positions, 0 - base);
              FixCalls(code[base..], rel, next - base) == FixCalls(old(code)[base..], rel, i - base)
    {
      hide FinalTarget, Shaped, Tidy, AllStop, FixCalls, FixCall;
      ghost var pre, x, rel := code[..base], code[base..], Shift(positions, 0 - base);
      Chains.StageStops(x, rel, i - base);
      CorrectSlot(positions, base, i);
      ghost var y := FixCall(x, rel, i - base);
      assert code[..base] == pre && code[base..] == y;
      FixCallShaped(x, rel, i - base);
      FixCallTidy(x, rel, i - base);
      FixCallsStep(x, rel, i - base);
      next := if code[i].Op? then i + code[i].op.Size() else i + 1;
      SkipInstruction(y, rel, i - base);
    }

    method CorrectSlot(positions: seq<int>, base: nat, i: nat)
      requires base <= i < |code| && Shaped(code[base..]) && AllStop(code[base..])
      modifies this
      ensures code == old(code)[..base] + FixCall(old(code)[base..], Shift(positions, 0 - base), i - base)
    {
      hide FinalTarget, Shaped, IsRet, Stops;
      ghost var pre, x := code[..base], code[base..];
      assert code == pre + x;
      if code[i].Op? && code[i].op.IOpenCall? && code[i].op.rule < |positions| && i + 1 < |code| {
        var rule := positions[code[i].op.rule];
        ChainFollowed(pre, x, i + 2 - base);
        var ft := FollowJumps(code, i + 2);
        code := code[i := Op(if IsRet(code, ft) then IJmp else ICall)];
        JumpToThere(i, rule);
      }
    }

    /** codegrammar */
    method CodeGrammar(rules: seq<Tree>)
      requires forall k :: 0 <= k < |rules| ==> Chains.NestedStop(rules, rules[k], d)
      requires Tidy(GrammarRaw(rules, d), |rules|)
      requires AllStop(FixCalls(GrammarRaw(rules, d), Positions(rules, rules, 4, d), 4))
      modifies this
      ensures code == old(code) + FixCalls(GrammarRaw(rules, d), Positions(rules, rules, 4, d), 4)
      decreases TGrammar(rules), 0
    {
      hide Gen, GenRules, FixCalls, Emit, EmitTo, Patched, Shaped, Positions, Chains.NestedStop;
      ghost var c0, bodies := code, GenRules(rules, rules, d);
      var firstcall := Add(ICall);
      var jumptoend := Add(IJmp);
      var start := |code|;
      Patch(c0, ICall, Emit(IJmp), 4);
      JumpToHere(firstcall);
      ghost var pre := c0 + EmitTo(ICall, 4);
      assert code == pre + Emit(IJmp);
      var positions := CodeRules(rules);
      Patch(pre, IJmp, bodies, 2 + |bodies|);
      JumpToHere(jumptoend);
      ghost var raw := GrammarRaw(rules, d);
      Assoc4(c0, EmitTo(ICall, 4), EmitTo(IJmp, 2 + |bodies|), bodies);
      assert code == c0 + raw;
      assert code[..|c0|] == c0 && code[|c0|..] == raw;
      RawShaped(rules, d);
      PositionsFrom(rules, rules, start, d);
      PositionsShift(rules, rules, 4, |c0|, d);
      CorrectCalls(positions, firstcall, start);
    }

    /** codegrammar's loop over the rules. */
    method CodeRules(rules: seq<Tree>) returns (positions: seq<int>)
      requires forall k :: 0 <= k < |rules| ==> Chains.NestedStop(rules, rules[k], d)
      modifies this
      ensures code == old(code) + GenRules(rules, rules, d)
      ensures positions == Positions(rules, rules, |old(code)|, d)
      decreases TGrammar(rules), -1
    {
      hide Gen, Emit, GenRules, Positions, Chains.NestedStop;
      ghost var all, places := code + GenRules(rules, rules, d), Positions(rules, rules, |code|, d);
      positions := [];
      var k := 0;
      while k < |rules|
        invariant 0 <= k <= |rules|
        invariant code + GenRules(rules, rules[k..], d) == all
        invariant positions + Positions(rules, rules[k..], |code|, d) == places
      {
        var start := |code|;
        ghost var c, b := code, Gen(rules, rules[k], false, None, FullSet(), d);
        FirstRule(rules, k, start, d);
        ghost var before := positions;
        CodeGen(rules, rules[k], false, NOINST, FullSet());
        var ret := Add(IRet);
        Assoc4(c, b, Emit(IRet), GenRules(rules, rules[k + 1..], d));
        Assoc(b, Emit(IRet), GenRules(rules, rules[k + 1..], d));
        positions := positions + [start];
        Prepend(before, start, Positions(rules, rules[k + 1..], |code|, d));
        k := k + 1;
      }
      NoRules(rules, |code|, d);
      Append0(code);
    }

    /** codegen: what is appended is the code the functions of Codegen describe. */
    method CodeGen(env: Rules, tree: Tree, opt: bool, tt: int, fl: Charset)
      requires Chains.NestedStop(env, tree, d)
      requires tt < |code|
      modifies this
      ensures code == old(code) + Gen(env, tree, opt, TestAt(old(code), tt), fl, d)
      decreases tree, 2
    {
      hide Emit, FixedLen, GetFirst, TestDecides, LoopByTest, HeadFail, Gen, TestAt, FixCalls, GrammarRaw, Positions,
        NotByTest, NotByStack, AndByStack, TestFor, CodeChar, CodeCharset, ToCharset, ChoiceByTest, ChoiceByStack,
        TestLoop, ChoiceLoop, RepCharset, NeedFollow;
      GenOfLeaf(env, opt, TestAt(code, tt), fl, d);
      match tree
      case TChar(c) => var i := Add(CodeChar(c, TestAt(code, tt)));
      case TAny => var i := Add(IAny);
      case TSet(info) => var i := Add(CodeCharset(info, TestAt(code, tt)));
      case TTrue => Append0(code);
      case TFalse => var i := Add(IFail);
      case TChoice(p1, p2) =>
        GenOfChoice(env, p1, p2, opt, TestAt(code, tt), fl, d);
        GenOfChoice(env, p1, p2, opt, None, fl, d);
        CodeChoice(env, p1, p2, opt, fl);
      case TRep(p) =>
        GenOfRep(env, p, opt, TestAt(code, tt), fl, d);
        GenOfRep(env, p, opt, None, fl, d);
        CodeRep(env, p, opt, fl);
      case TBehind(n, p) =>
        GenOfBehind(env, n, p, opt, TestAt(code, tt), fl, d);
        CodeBehind(n, p);
      case TNot(p) =>
        GenOfNot(env, p, opt, TestAt(code, tt), fl, d);
        CodeNot(env, p);
      case TAnd(p) =>
        GenOfAnd(env, p, opt, TestAt(code, tt), fl, d);
        CodeAnd(env, p, tt);
      case TCall(n) => var i := Add(IOpenCall(n));
      case TGrammar(rules) =>
        GenOfGrammar(env, rules, opt, TestAt(code, tt), fl, d);
        CodeGrammar(rules);
      case TSeq(p1, p2) => CodeSeq(env, p1, p2, opt, tt, fl);
    }

    /** codeseq1 and the second child, coded in place. */
    method CodeSeq(env: Rules, p1: Tree, p2: Tree, opt: bool, tt: int, fl: Charset)
      requires Chains.NestedStop(env, p1, d) && Chains.NestedStop(env, p2, d)
      requires tt < |code|
      modifies this
      ensures code == old(code) + Gen(env, TSeq(p1, p2), opt, TestAt(old(code), tt), fl, d)
      decreases TSeq(p1, p2), 1
    {
      hide Emit, FixedLen, GetFirst, Gen, NeedFollow, TestAt, Chains.NestedStop;
      GenOfSeq(env, p1, p2, opt, TestAt(code, tt), fl, d);
      var fl1 := if NeedFollow(p1) then GetFirst(env, p2, fl, d).set_ else FullSet();
      ghost var c0, t0 := code, TestAt(code, tt);
      ghost var c1 := Gen(env, p1, false, t0, fl1, d);
      TestAtKept(code, tt, c1);
      NoTest(code + c1);
      CodeGen(env, p1, false, tt, fl1);
      var tt2 := if FixedLen(env, p1, d) != 0 then NOINST else tt;
      CodeGen(env, p2, opt, tt2, fl);
      Assoc(c0, c1, Gen(env, p2, opt, if FixedLen(env, p1, d) != 0 then None else t0, fl, d));
    }

    // ----- the peephole pass -----

    /** One turn of peephole's loop, with its redo. */
    method PeepInstruction(i: nat)
      requires IsOp(code, i) && AllStop(code)
      modifies this
      ensures code == Peepholes.PeepAt(old(code), i)
    {
      hide FinalTarget, Stops;
      if !HasTarget(code, i) { return; }
      if Peepholes.Labelled(code[i].op) {
        var last := FollowJumps(code, Target(code, i));
        JumpToThere(i, last);
      } else if code[i].op.IJmp? {
        var ft := FollowJumps(code, i);
        if IsOp(code, ft) && Peepholes.LeavesAway(code[ft].op) {
          code := code[i := code[ft]];
          code := code[i + 1 := Op(IEmpty)];
        } else if IsOp(code, ft) && Peepholes.CommitsAway(code[ft].op) && HasTarget(code, ft) {
          var fft := FollowJumps(code, Target(code, ft));
          Peepholes.CommitStops(code, i, ft);
          code := code[i := code[ft]];
          JumpToThere(i, fft);
          var last := FollowJumps(code, Target(code, i));
          JumpToThere(i, last);
        } else {
          JumpToThere(i, ft);
        }
      }
    }

    /** peephole: in place, from the first instruction to the last. */
    method Peephole()
      requires AllStop(code)
      modifies this
      ensures code == Peepholes.Peephole(old(code), 0)
    {
      hide Peepholes.PeepAt, AllStop;
      var i: nat := 0;
      while i < |code|
        invariant Peepholes.Peephole(code, i) == Peepholes.Peephole(old(code), 0) && AllStop(code)
        decreases |code| - i
      {
        if code[i].Op? {
          Peepholes.PeepAtStops(code, i);
          PeepInstruction(i);
          i := i + code[i].op.Size();
        } else {
          i := i + 1;
        }
      }
    }

    /** compile, which comes back exactly on these patterns. */
    method CompilePattern(t: Tree, ghost w: nat)
      requires code == [] && WellFormed(t, 0, w) && AllStop(GenPattern(t, d))
      modifies this
      ensures code == Peepholes.Compile(t, d)
    {
      hide Gen, Emit, Peepholes.Peephole, AllStop, WellFormed, Chains.NestedStop;
      Chains.StopsNested(t, w, d);
      CodeGen([], t, false, NOINST, FullSet());
      var end := Add(IEnd);
      assert code == GenPattern(t, d);
      Peephole();
    }
  }

  // ----- when the compiler comes back -----

  /** compile comes back exactly when all chains of jumps end in the code it has before its last pass. Then
      correctcalls has come back as well, by Chains.StopsNested. */
  lemma CompileReturns(t: Tree, d: nat)
    ensures Peepholes.PassReturns(GenPattern(t, d), 0) <==> AllStop(GenPattern(t, d))
  {
    hide Gen, Emit, AllStop, Peepholes.PassReturns, Shaped;
    GenShaped([], t, false, None, FullSet(), d);
    EmitShaped(IEnd);
    ShapedConcat(Gen([], t, false, None, FullSet(), d), Emit(IEnd));
    ShapedSpaced(GenPattern(t, d));
    Peepholes.PassReturnsExactly(GenPattern(t, d));
  }

  lemma ShapedSpaced(x: Code)
    requires Shaped(x)
    ensures Peepholes.Spaced(x, 0)
  {
  }

  /** On the grammar Looping, which the checker accepts and which has an answer, compile does not come back. */
  lemma LoopingNotCompiled(d: nat)
    ensures !Peepholes.PassReturns(GenPattern(TGrammar(Chains.Looping), d), 0)
  {
    hide GenPattern, AllStop, Peepholes.PassReturns;
    CompileReturns(TGrammar(Chains.Looping), d);
    Chains.LoopingNeverStops(d);
  }

  lemma NoTest(c: Code)
    ensures TestAt(c, NOINST) == None
  {
  }

  /** Appending code does not move a test. */
  lemma TestAtKept(c0: Code, tt: int, c1: Code)
    requires tt < |c0|
    ensures TestAt(c0 + c1, tt) == TestAt(c0, tt)
  {
  }
}
