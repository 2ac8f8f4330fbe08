/** The shape of generated blocks: no jump leaves a block backwards, and the slots of an instruction's
    operands hold no instruction. The passes over finished code (correctcalls, peephole) rely on it. */
module Shapes {
  import opened Wrappers
  import opened Charsets
  import opened Trees
  import opened Analysis
  import opened Machine
  import opened Codegen

  ghost predicate Shaped(x: Code) {
    && (forall k :: 0 <= k < |x| && x[k].Off? ==> 0 <= k - 1 + x[k].n)
    && (forall k :: 0 <= k < |x| && x[k].Op? ==> k + x[k].op.Size() <= |x|)
    && (forall k, j :: 0 <= k < j < |x| && x[k].Op? && j < k + x[k].op.Size() ==> !x[j].Op?)
  }

  lemma ShapedConcat(x: Code, y: Code)
    requires Shaped(x) && Shaped(y)
    ensures Shaped(x + y)
  {
  }

  lemma ShapedConcat4(w: Code, x: Code, y: Code, z: Code)
    requires Shaped(w) && Shaped(x) && Shaped(y) && Shaped(z)
    ensures Shaped(w + x + y) && Shaped(w + x + y + z)
  {
    hide Shaped;
    ShapedConcat(w, x);
    ShapedConcat(w + x, y);
    ShapedConcat(w + x + y, z);
  }

  /** A block followed by an instruction that jumps back at most to the block's start. */
  lemma ShapedBack(x: Code, i: Instr, offset: int)
    requires Shaped(x) && i.HasOffset() && -|x| <= offset
    ensures Shaped(x + EmitTo(i, offset))
  {
  }

  lemma EmitShaped(i: Instr)
    ensures Shaped(Emit(i))
    ensures i.HasOffset() ==> forall offset: nat :: Shaped(EmitTo(i, offset))
  {
    hide Payload;
    PayloadData(i);
    assert Emit(i)[0] == Op(i);
    if i.HasOffset() {
      forall offset: nat ensures Shaped(EmitTo(i, offset)) { assert EmitTo(i, offset)[0] == Op(i); }
    }
  }

  lemma PayloadData(i: Instr)
    ensures forall k :: 0 <= k < |Payload(i)| ==> Payload(i)[k] == Data
    ensures |Payload(i)| == i.Size() - (if i.HasOffset() then 2 else 1)
  {
  }

  lemma TestShaped(test: Option<Instr>, skip: nat)
    requires test.Some? ==> test.value.HasOffset()
    ensures Shaped(TestCode(test, skip))
  {
    if test.Some? { EmitShaped(test.value); }
  }

  lemma TestLoopShaped(test: Instr, body: Code)
    requires test.HasOffset() && Shaped(body)
    ensures Shaped(TestLoop(test, body))
  {
    hide Shaped, Emit, EmitTo;
    EmitShaped(test);
    var te := EmitTo(test, test.Size() + |body| + 2);
    ShapedConcat(te, body);
    ShapedBack(te + body, IJmp, -(test.Size() + |body|));
  }

  lemma ChoiceLoopShaped(test: Option<Instr>, opt: bool, body: Code)
    requires (test.Some? ==> test.value.HasOffset()) && Shaped(body)
    ensures Shaped(ChoiceLoop(test, opt, body))
  {
    hide Shaped, Emit, EmitTo, TestCode;
    var te, ch := TestCode(test, 4 + |body|), if opt then EmitTo(IPartialCommit, 2) else EmitTo(IChoice, 4 + |body|);
    TestShaped(test, 4 + |body|);
    EmitShaped(IPartialCommit);
    EmitShaped(IChoice);
    ShapedConcat4(te, ch, body, body);
    ShapedBack(te + ch + body, IPartialCommit, -|body|);
  }

  lemma ChoiceByTestShaped(test: Instr, c1: Code, emptyp2: bool, c2: Code)
    requires test.HasOffset() && Shaped(c1) && Shaped(c2)
    ensures Shaped(ChoiceByTest(test, c1, emptyp2, c2))
  {
    hide Shaped, Emit, EmitTo;
    EmitShaped(test);
    EmitShaped(IJmp);
    EmptyShaped();
    var jmp := if emptyp2 then [] else EmitTo(IJmp, 2 + |c2|);
    ShapedConcat4(EmitTo(test, test.Size() + |c1| + |jmp|), c1, jmp, c2);
  }

  lemma ChoiceByStackShaped(test: Option<Instr>, c1: Code, c2: Code)
    requires (test.Some? ==> test.value.HasOffset()) && Shaped(c1) && Shaped(c2)
    ensures Shaped(ChoiceByStack(test, c1, c2))
  {
    hide Shaped, Emit, EmitTo, TestCode;
    var te, ch, co := TestCode(test, 4 + |c1|), EmitTo(IChoice, 4 + |c1|), EmitTo(ICommit, 2 + |c2|);
    TestShaped(test, 4 + |c1|);
    EmitShaped(IChoice);
    EmitShaped(ICommit);
    ShapedConcat4(te, ch, c1, co);
    ShapedConcat(te + ch + c1 + co, c2);
  }

  lemma {:induction false} ChoiceShaped(env: Rules, p1: Tree, p2: Tree, opt: bool, tt: Option<Instr>, fl: Charset, d: nat)
    ensures Shaped(Gen(env, TChoice(p1, p2), opt, tt, fl, d))
    decreases TChoice(p1, p2), 0
  {
    hide Shaped, TestFor, TestInstr, TestDecides, EmitTo, GetFirst, Emit, ChoiceByTest, ChoiceByStack, Gen;
    GenOfChoice(env, p1, p2, opt, tt, fl, d);
    var f := GetFirst(env, p1, FullSet(), d);
    GenShaped(env, p2, opt, None, fl, d);
    var c2 := Gen(env, p2, opt, None, fl, d);
    if TestDecides(env, p1, p2, fl, d) {
      var test := TestInstr(f.set_);
      GenShaped(env, p1, false, Some(test), fl, d);
      ChoiceByTestShaped(test, Gen(env, p1, false, Some(test), fl, d), p2.TTrue?, c2);
    } else if opt && p2.TTrue? {
      EmitShaped(IPartialCommit);
      GenShaped(env, p1, true, None, FullSet(), d);
      ShapedConcat(EmitTo(IPartialCommit, 2), Gen(env, p1, true, None, FullSet(), d));
    } else {
      GenShaped(env, p1, p2.TTrue?, TestFor(f), FullSet(), d);
      ChoiceByStackShaped(TestFor(f), Gen(env, p1, p2.TTrue?, TestFor(f), FullSet(), d), c2);
    }
  }

  lemma EmptyShaped()
    ensures Shaped([])
  {
  }

  lemma {:induction false} RepShaped(env: Rules, p: Tree, opt: bool, tt: Option<Instr>, fl: Charset, d: nat)
    ensures Shaped(Gen(env, TRep(p), opt, tt, fl, d))
    decreases TRep(p), 0
  {
    hide Shaped, TestFor, LoopByTest, EmitTo, TestCode, GetFirst, Emit, TestLoop, ChoiceLoop, CharsetType, Gen;
    GenOfRep(env, p, opt, tt, fl, d);
    var f := GetFirst(env, p, FullSet(), d);
    EmitShaped(IAny);
    if ToCharset(p).Some? {
      match p {
        case TFalse => EmptyShaped();
        case TAny => TestLoopShaped(ITestAny, Emit(IAny));
        case TChar(c) => TestLoopShaped(ITestChar(c), Emit(IAny));
        case TSet(info) => EmitShaped(ISpan(Operand(info)));
      }
    } else if LoopByTest(env, p, fl, d) {
      GenShaped(env, p, false, Some(TestInstr(f.set_)), FullSet(), d);
      TestLoopShaped(TestInstr(f.set_), Gen(env, p, false, Some(TestInstr(f.set_)), FullSet(), d));
    } else {
      GenShaped(env, p, false, None, FullSet(), d);
      var body := Gen(env, p, false, None, FullSet(), d);
      ChoiceLoopShaped(TestFor(f), opt, body);
    }
  }

  lemma {:induction false} NotShaped(env: Rules, p: Tree, opt: bool, tt: Option<Instr>, fl: Charset, d: nat)
    ensures Shaped(Gen(env, TNot(p), opt, tt, fl, d))
    decreases TNot(p), 0
  {
    hide Shaped, TestFor, EmitTo, TestCode, GetFirst, Emit, HeadFail, TestInstr, CharsetType, Gen;
    GenOfNot(env, p, opt, tt, fl, d);
    var f := GetFirst(env, p, FullSet(), d);
    EmitShaped(IChoice); EmitShaped(IFail); EmitShaped(IFailTwice);
    GenShaped(env, p, false, None, FullSet(), d);
    var b := Gen(env, p, false, None, FullSet(), d);
    TestShaped(TestFor(f), 1);
    TestShaped(TestFor(f), 3 + |b|);
    ShapedConcat(TestCode(TestFor(f), 1), Emit(IFail));
    ShapedConcat4(TestCode(TestFor(f), 3 + |b|), EmitTo(IChoice, 3 + |b|), b, Emit(IFailTwice));
  }

  lemma {:induction false} AndShaped(env: Rules, p: Tree, opt: bool, tt: Option<Instr>, fl: Charset, d: nat)
    ensures Shaped(Gen(env, TAnd(p), opt, tt, fl, d))
    decreases TAnd(p), 0
  {
    hide Shaped, EmitTo, Emit, FixedLen, Gen;
    GenOfAnd(env, p, opt, tt, fl, d);
    var n := FixedLen(env, p, d);
    EmitShaped(IChoice); EmitShaped(IBackCommit); EmitShaped(IFail);
    EmptyShaped();
    GenShaped(env, p, false, tt, FullSet(), d);
    var b := Gen(env, p, false, tt, FullSet(), d);
    if n > 0 { EmitShaped(IBehind(n)); }
    ShapedConcat(b, if n > 0 then Emit(IBehind(n)) else []);
    ShapedConcat4(EmitTo(IChoice, 4 + |b|), b, EmitTo(IBackCommit, 3), Emit(IFail));
  }

  lemma {:induction false} GenShaped(env: Rules, t: Tree, opt: bool, tt: Option<Instr>, fl: Charset, d: nat)
    ensures Shaped(Gen(env, t, opt, tt, fl, d))
    decreases t, 1
  {
    hide Shaped, GetFirst, FixedLen, CharsetType, Emit, NeedFollow;
    match t
    case TChar(c) => EmitShaped(CodeChar(c, tt));
    case TAny => EmitShaped(IAny);
    case TSet(info) => EmitShaped(CodeCharset(info, tt));
    case TTrue => EmptyShaped();
    case TFalse => EmitShaped(IFail);
    case TChoice(p1, p2) => ChoiceShaped(env, p1, p2, opt, tt, fl, d);
    case TRep(p) => RepShaped(env, p, opt, tt, fl, d);
    case TNot(p) => NotShaped(env, p, opt, tt, fl, d);
    case TAnd(p) => AndShaped(env, p, opt, tt, fl, d);
    case TBehind(n, p) =>
      GenShaped([], p, false, None, FullSet(), d);
      EmptyShaped();
      if n > 0 { EmitShaped(IBehind(n)); }
      ShapedConcat(if n > 0 then Emit(IBehind(n)) else [], Gen([], p, false, None, FullSet(), d));
    case TSeq(p1, p2) =>
      var fl1 := if NeedFollow(p1) then GetFirst(env, p2, fl, d).set_ else FullSet();
      var tt2 := if FixedLen(env, p1, d) != 0 then None else tt;
      GenShaped(env, p1, false, tt, fl1, d);
      GenShaped(env, p2, opt, tt2, fl, d);
      ShapedConcat(Gen(env, p1, false, tt, fl1, d), Gen(env, p2, opt, tt2, fl, d));
    case TCall(n) => EmitShaped(IOpenCall(n));
    case TGrammar(rs) =>
      RawShaped(rs, d);
      PositionsFrom(rs, rs, 4, d);
      FixCallsShaped(GrammarRaw(rs, d), Positions(rs, rs, 4, d), 4);
  }

  lemma {:induction false} RulesShaped(env: Rules, rs: seq<Tree>, d: nat)
    ensures Shaped(GenRules(env, rs, d))
    decreases rs, 0
  {
    hide Shaped, Emit;
    if rs == [] { EmptyShaped(); }
    else {
      GenShaped(env, rs[0], false, None, FullSet(), d);
      RulesShaped(env, rs[1..], d);
      EmitShaped(IRet);
      ShapedConcat4(Gen(env, rs[0], false, None, FullSet(), d), Emit(IRet), GenRules(env, rs[1..], d), Emit(IRet));
    }
  }

  lemma {:induction false} RawShaped(rs: seq<Tree>, d: nat)
    ensures Shaped(GrammarRaw(rs, d))
    decreases rs, 1
  {
    hide Shaped, EmitTo;
    RulesShaped(rs, rs, d);
    EmitShaped(ICall);
    EmitShaped(IJmp);
    var bodies := GenRules(rs, rs, d);
    ShapedConcat4(EmitTo(ICall, 4), EmitTo(IJmp, 2 + |bodies|), bodies, bodies);
  }

  lemma PositionsFrom(env: Rules, rs: seq<Tree>, start: nat, d: nat)
    ensures forall k :: 0 <= k < |rs| ==> start <= Positions(env, rs, start, d)[k]
    decreases rs, 0
  {
  }

  lemma FixCallShaped(x: Code, pos: seq<int>, k: nat)
    requires Shaped(x) && k < |x| && forall m :: 0 <= m < |pos| ==> 0 <= pos[m]
    ensures Shaped(FixCall(x, pos, k))
    ensures x[k].Op? ==> FixCall(x, pos, k)[k].Op? && FixCall(x, pos, k)[k].op.Size() == x[k].op.Size()
  {
    hide FinalTarget;
    var y := FixCall(x, pos, k);
    forall m | 0 <= m < |y| ensures y[m].Op? ==> x[m].Op? && y[m].op.Size() == x[m].op.Size() {
      if m == k + 1 && y[m] != x[m] { assert x[k].op.Size() == 2; }
    }
  }

  lemma FixCallsShaped(x: Code, pos: seq<int>, k: nat)
    requires Shaped(x) && forall m :: 0 <= m < |pos| ==> 0 <= pos[m]
    ensures Shaped(FixCalls(x, pos, k))
    decreases |x| - k
  {
    hide Shaped;
    if k < |x| {
      FixCallShaped(x, pos, k);
      FixCallsShaped(FixCall(x, pos, k), pos, k + 1);
    }
  }

  // ----- correctcalls on the whole code -----

  /** A chain of jumps in the last block of the code is the chain in the block. */
  lemma ChainInBlock(pre: Code, x: Code, p: nat, bound: nat)
    requires Shaped(x)
    ensures FinalTarget(pre + x, |pre| + p, bound) == |pre| + FinalTarget(x, p, bound) && FinalTarget(x, p, bound) >= 0
    decreases bound
  {
    if bound > 0 && IsOp(x, p) && x[p].op.IJmp? && HasTarget(x, p) {
      assert (pre + x)[|pre| + p + 1] == x[p + 1];
      ChainInBlock(pre, x, Target(x, p), bound - 1);
    }
  }

  /** The operand slots of an instruction are passed over. */
  lemma SkipOperands(x: Code, pos: seq<int>, k: nat, n: nat)
    requires k <= n <= |x| && forall m :: k <= m < n ==> !x[m].Op?
    ensures FixCalls(x, pos, k) == FixCalls(x, pos, n)
    decreases n - k
  {
    if k < n { SkipOperands(x, pos, k + 1, n); }
  }
}
