/** Chains of jumps in generated code. The compiler follows them when it corrects calls and in its last pass, in a
    loop without a bound: that it comes back is a property of the grammar. */
module Chains {
  import opened Wrappers
  import opened Charsets
  import opened Trees
  import opened Analysis
  import opened Machine
  import opened Codegen
  import opened Layout
  import opened CompilerProof
  import opened Jumps
  import opened GrammarCheck

  // ----- where chains lead -----

  /** The chain from p ends, or it comes to e. */
  ghost predicate Leaves(code: Code, p: int, e: int) { Stops(code, p) || JumpsTo(code, p, e) }

  ghost predicate Flow(code: Code, a: int, b: int, e: int) { forall p :: a <= p < b ==> Leaves(code, p, e) }

  lemma LeavesOn(code: Code, p: int, m: int, e: int)
    requires Leaves(code, p, m) && Leaves(code, m, e)
    ensures Leaves(code, p, e)
  {
    hide FinalTarget, Stops;
    if !Stops(code, p) {
      var bound: nat :| FinalTarget(code, p, bound) == m;
      if Stops(code, m) { StopsBack(code, p, bound); } else { JumpsMore(code, p, bound, e); }
    }
  }

  lemma FlowOn(code: Code, a: int, b: int, m: int, e: int)
    requires Flow(code, a, b, m) && Leaves(code, m, e)
    ensures Flow(code, a, b, e)
  {
    hide Leaves;
    forall p | a <= p < b ensures Leaves(code, p, e) { LeavesOn(code, p, m, e); }
  }

  lemma FlowJoin(code: Code, a: int, m: int, b: int, e: int)
    requires Flow(code, a, m, e) && Flow(code, m, b, e)
    ensures Flow(code, a, b, e)
  {
    hide Leaves;
  }

  lemma LeavesSelf(code: Code, e: int)
    ensures Leaves(code, e, e)
  {
    JumpsToSelf(code, e);
  }

  /** The first position of a block, which may be empty. */
  lemma FlowFirst(code: Code, a: int, e: int)
    requires a <= e && Flow(code, a, e, e)
    ensures Leaves(code, a, e)
  {
    hide Leaves;
    if a == e { LeavesSelf(code, e); }
  }

  lemma SlotStops(code: Code, p: int, e: int)
    requires !(IsOp(code, p) && code[p].op.IJmp?)
    ensures Leaves(code, p, e)
  {
    NoJump(code, p);
  }

  lemma EmitFlow(c: Context, a: int, i: Instr, e: int)
    requires Fits(c.code, a, Emit(i), c.pos) && !i.IOpenCall? && !i.HasOffset()
    ensures Flow(c.code, a, a + i.Size(), e) && !IsJump(c.code, a)
  {
    FitsEmit(c.code, a, i, c.pos);
    forall p | a <= p < a + i.Size() ensures Leaves(c.code, p, e) {
      if p > a { assert Emit(i)[p - a] == Data && SlotFits(c.code, a + (p - a), Emit(i)[p - a], c.pos); }
      SlotStops(c.code, p, e);
    }
  }

  /** An instruction with a label: only a jump goes on from it, and to its label. */
  lemma EmitToFlow(c: Context, a: int, i: Instr, offset: int, e: int)
    requires i.HasOffset() && !i.IOpenCall? && Fits(c.code, a, EmitTo(i, offset), c.pos)
    requires i.IJmp? ==> Leaves(c.code, a + offset, e)
    ensures Flow(c.code, a, a + i.Size(), e)
  {
    hide Leaves;
    FitsEmitTo(c.code, a, i, offset, c.pos);
    LabelFront(c, a, i, offset);
    forall p | a <= p < a + i.Size() ensures Leaves(c.code, p, e) {
      if p > a {
        assert !EmitTo(i, offset)[p - a].Op? && SlotFits(c.code, a + (p - a), EmitTo(i, offset)[p - a], c.pos);
        SlotStops(c.code, p, e);
      } else if i.IJmp? {
        LeavesOn(c.code, a, a + offset, e);
      } else {
        SlotStops(c.code, a, e);
      }
    }
  }

  lemma LabelFront(c: Context, a: int, i: Instr, offset: int)
    requires i.HasOffset() && !i.IOpenCall? && Fits(c.code, a, EmitTo(i, offset), c.pos)
    ensures Leaves(c.code, a, a + offset)
    ensures !i.IJmp? ==> Stops(c.code, a)
  {
    FitsEmitTo(c.code, a, i, offset, c.pos);
    if i.IJmp? {
      JumpsToSelf(c.code, a + offset);
      JumpsFirst(c.code, a, a + offset);
    } else {
      NoJump(c.code, a);
    }
  }

  // ----- constructions -----

  lemma TestFlow(c: Context, f: First, a: int, skip: int, e: int)
    requires Fits(c.code, a, TestCode(TestFor(f), skip), c.pos)
    requires TestFor(f).Some? ==> Leaves(c.code, a + |TestCode(TestFor(f), skip)| + skip, e)
    ensures Flow(c.code, a, a + |TestCode(TestFor(f), skip)|, e)
  {
    hide Leaves, CharsetType, EmitTo;
    if TestFor(f).Some? {
      var i := TestInstr(f.set_);
      assert !i.IOpenCall?;
      assert a + (i.Size() + skip) == a + i.Size() + skip;
      EmitToFlow(c, a, i, i.Size() + skip, e);
    }
  }

  lemma ChoiceByTestFlow(c: Context, test: Instr, c1: Code, emptyp2: bool, c2: Code, a: int)
    requires test.HasOffset() && !test.IOpenCall? && (emptyp2 ==> c2 == [])
    requires Fits(c.code, a, ChoiceByTest(test, c1, emptyp2, c2), c.pos)
    requires var m := a + test.Size() + |c1|;
             var l1 := m + (if emptyp2 then 0 else 2);
             Flow(c.code, a + test.Size(), m, m) && Flow(c.code, l1, l1 + |c2|, l1 + |c2|)
    ensures var e := a + |ChoiceByTest(test, c1, emptyp2, c2)|; Flow(c.code, a, e, e)
  {
    hide Flow, Leaves, Fits, ChoiceByTest;
    ChoiceByTestLayout(c, test, c1, emptyp2, c2, a);
    var m := a + test.Size() + |c1|;
    var l1 := m + (if emptyp2 then 0 else 2);
    var e := l1 + |c2|;
    FlowFirst(c.code, l1, e);
    if emptyp2 {
      LeavesSelf(c.code, e);
    } else {
      LeavesSelf(c.code, e);
      EmitToFlow(c, m, IJmp, 2 + |c2|, e);
      FlowHead(c.code, m, m + 2, e);
      FlowJoin(c.code, m, l1, e, e);
    }
    FlowOn(c.code, a + test.Size(), m, m, e);
    FlowJoin(c.code, a + test.Size(), m, e, e);
    EmitToFlow(c, a, test, l1 - a, e);
    FlowJoin(c.code, a, a + test.Size(), e, e);
  }

  lemma FlowHead(code: Code, a: int, b: int, e: int)
    requires a < b && Flow(code, a, b, e)
    ensures Leaves(code, a, e)
  {
    hide Leaves;
  }

  lemma ChoiceByStackFlow(c: Context, f: First, c1: Code, c2: Code, a: int)
    requires Fits(c.code, a, ChoiceByStack(TestFor(f), c1, c2), c.pos)
    requires var a1 := a + |TestCode(TestFor(f), 4 + |c1|)|;
             Flow(c.code, a1 + 2, a1 + 2 + |c1|, a1 + 2 + |c1|)
             && Flow(c.code, a1 + 4 + |c1|, a1 + 4 + |c1| + |c2|, a1 + 4 + |c1| + |c2|)
    ensures var e := a + |ChoiceByStack(TestFor(f), c1, c2)|; Flow(c.code, a, e, e)
  {
    hide Flow, Leaves, Fits, ChoiceByStack, TestFor, TestCode;
    ChoiceByStackLayout(c, f, c1, c2, a);
    var a1 := a + |TestCode(TestFor(f), 4 + |c1|)|;
    var m, l1 := a1 + 2 + |c1|, a1 + 4 + |c1|;
    var e := l1 + |c2|;
    FlowFirst(c.code, l1, e);
    EmitToFlow(c, m, ICommit, 2 + |c2|, e);
    FlowHead(c.code, m, l1, e);
    FlowJoin(c.code, m, l1, e, e);
    FlowOn(c.code, a1 + 2, m, m, e);
    FlowJoin(c.code, a1 + 2, m, e, e);
    EmitToFlow(c, a1, IChoice, 4 + |c1|, e);
    FlowJoin(c.code, a1, a1 + 2, e, e);
    TestFlow(c, f, a, 4 + |c1|, e);
    FlowJoin(c.code, a, a1, e, e);
  }

  lemma TestLoopFlow(c: Context, test: Instr, body: Code, a: int)
    requires test.HasOffset() && !test.IOpenCall? && Fits(c.code, a, TestLoop(test, body), c.pos)
    requires var m := a + test.Size() + |body|; Flow(c.code, a + test.Size(), m, m)
    ensures var e := a + |TestLoop(test, body)|; Flow(c.code, a, e, e)
  {
    hide Flow, Leaves, Fits, TestLoop;
    TestLoopLayout(c, test, body, a);
    var n := test.Size() + |body|;
    var m, e := a + n, a + n + 2;
    LabelFront(c, a, test, n + 2);
    assert a + (n + 2) == e;
    LeavesSelf(c.code, e);
    EmitToFlow(c, a, test, n + 2, e);
    EmitToFlow(c, m, IJmp, -n, e);
    FlowHead(c.code, m, e, e);
    FlowOn(c.code, a + test.Size(), m, m, e);
    FlowJoin(c.code, a + test.Size(), m, e, e);
    FlowJoin(c.code, a, a + test.Size(), e, e);
  }

  lemma ChoiceLoopFlow(c: Context, f: First, opt: bool, body: Code, a: int)
    requires Fits(c.code, a, ChoiceLoop(TestFor(f), opt, body), c.pos)
    requires var a1 := a + |TestCode(TestFor(f), 4 + |body|)|; Flow(c.code, a1 + 2, a1 + 2 + |body|, a1 + 2 + |body|)
    ensures var e := a + |ChoiceLoop(TestFor(f), opt, body)|; Flow(c.code, a, e, e)
  {
    hide Flow, Leaves, Fits, ChoiceLoop, TestFor, TestCode;
    ChoiceLoopLayout(c, f, opt, body, a);
    var a1 := a + |TestCode(TestFor(f), 4 + |body|)|;
    var m, e := a1 + 2 + |body|, a1 + 4 + |body|;
    EmitToFlow(c, m, IPartialCommit, -|body|, e);
    FlowHead(c.code, m, e, e);
    FlowOn(c.code, a1 + 2, m, m, e);
    FlowJoin(c.code, a1 + 2, m, e, e);
    if opt { EmitToFlow(c, a1, IPartialCommit, 2, e); } else { EmitToFlow(c, a1, IChoice, 4 + |body|, e); }
    FlowJoin(c.code, a1, a1 + 2, e, e);
    LeavesSelf(c.code, e);
    TestFlow(c, f, a, 4 + |body|, e);
    FlowJoin(c.code, a, a1, e, e);
  }

  lemma NotFlow(c: Context, f: First, byTest: bool, body: Code, a: int)
    requires Fits(c.code, a, if byTest then NotByTest(TestFor(f)) else NotByStack(TestFor(f), body), c.pos)
    requires var a1 := a + |TestCode(TestFor(f), 3 + |body|)|;
             !byTest ==> Flow(c.code, a1 + 2, a1 + 2 + |body|, a1 + 2 + |body|)
    ensures var e := a + |if byTest then NotByTest(TestFor(f)) else NotByStack(TestFor(f), body)|;
            Flow(c.code, a, e, e)
  {
    hide Flow, Leaves, Fits, TestFor, TestCode, Emit, EmitTo;
    if byTest {
      FitsSplit(c.code, a, TestCode(TestFor(f), 1), Emit(IFail), c.pos);
      var a1 := a + |TestCode(TestFor(f), 1)|;
      EmitFlow(c, a1, IFail, a1 + 1);
      LeavesSelf(c.code, a1 + 1);
      TestFlow(c, f, a, 1, a1 + 1);
      FlowJoin(c.code, a, a1, a1 + 1, a1 + 1);
    } else {
      var test, ch, two := TestCode(TestFor(f), 3 + |body|), EmitTo(IChoice, 3 + |body|), Emit(IFailTwice);
      FitsSplit4(c.code, a, test, ch, body, two, c.pos);
      var a1 := a + |test|;
      var m := a1 + 2 + |body|;
      EmitFlow(c, m, IFailTwice, m + 1);
      FlowHead(c.code, m, m + 1, m + 1);
      FlowOn(c.code, a1 + 2, m, m, m + 1);
      FlowJoin(c.code, a1 + 2, m, m + 1, m + 1);
      EmitToFlow(c, a1, IChoice, 3 + |body|, m + 1);
      FlowJoin(c.code, a1, a1 + 2, m + 1, m + 1);
      LeavesSelf(c.code, m + 1);
      TestFlow(c, f, a, 3 + |body|, m + 1);
      FlowJoin(c.code, a, a1, m + 1, m + 1);
    }
  }

  /** A block and the step back behind it, which may be missing. */
  lemma BackFlow(c: Context, body: Code, n: int, a: int)
    requires Fits(c.code, a, body + (if n > 0 then Emit(IBehind(n)) else []), c.pos)
    requires Flow(c.code, a, a + |body|, a + |body|)
    ensures var e := a + |body + (if n > 0 then Emit(IBehind(n)) else [])|; Flow(c.code, a, e, e)
    ensures n > 0 ==> Stops(c.code, a + |body|)
  {
    hide Flow, Leaves, Fits, Emit;
    var m := a + |body|;
    if n > 0 {
      FitsSplit(c.code, a, body, Emit(IBehind(n)), c.pos);
      EmitFlow(c, m, IBehind(n), m + 1);
      NoJump(c.code, m);
      FlowHead(c.code, m, m + 1, m + 1);
      FlowOn(c.code, a, m, m, m + 1);
      FlowJoin(c.code, a, m, m + 1, m + 1);
    }
  }

  lemma AndByStackFlow(c: Context, body: Code, a: int)
    requires Fits(c.code, a, AndByStack(body), c.pos) && Flow(c.code, a + 2, a + 2 + |body|, a + 2 + |body|)
    ensures var e := a + |AndByStack(body)|; Flow(c.code, a, e, e)
  {
    hide Flow, Leaves, Fits, Emit, EmitTo;
    FitsSplit4(c.code, a, EmitTo(IChoice, 4 + |body|), body, EmitTo(IBackCommit, 3), Emit(IFail), c.pos);
    var m := a + 2 + |body|;
    var e := m + 3;
    EmitFlow(c, m + 2, IFail, e);
    EmitToFlow(c, m, IBackCommit, 3, e);
    FlowHead(c.code, m, m + 2, e);
    FlowJoin(c.code, m, m + 2, e, e);
    FlowOn(c.code, a + 2, m, m, e);
    FlowJoin(c.code, a + 2, m, e, e);
    EmitToFlow(c, a, IChoice, 4 + |body|, e);
    FlowJoin(c.code, a, a + 2, e, e);
  }

  lemma RepCharsetFlow(c: Context, p: Tree, a: int)
    requires ToCharset(p).Some? && Fits(c.code, a, RepCharset(p), c.pos)
    ensures var e := a + |RepCharset(p)|; Flow(c.code, a, e, e)
  {
    hide Fits, Leaves, TestLoop, Emit;
    match p {
      case TFalse =>
      case TAny => TightLoopFlow(c, ITestAny, a);
      case TChar(ch) => TightLoopFlow(c, ITestChar(ch), a);
      case TSet(info) => EmitFlow(c, a, ISpan(Operand(info)), a + |RepCharset(p)|);
    }
  }

  lemma TightLoopFlow(c: Context, test: Instr, a: int)
    requires test.ITestAny? || test.ITestChar?
    requires Fits(c.code, a, TestLoop(test, Emit(IAny)), c.pos)
    ensures var e := a + |TestLoop(test, Emit(IAny))|; Flow(c.code, a, e, e)
  {
    hide Fits, Leaves, Flow, TestLoop, Emit, EmitTo;
    TestLoopLayout(c, test, Emit(IAny), a);
    EmitFlow(c, a + 2, IAny, a + 3);
    TestLoopFlow(c, test, Emit(IAny), a);
  }

  // ----- the front of a block -----

  lemma Via(code: Code, a: int, m: int, e: int)
    requires Leaves(code, a, m) && !Stops(code, a)
    ensures !Stops(code, m) && (JumpsTo(code, m, e) ==> JumpsTo(code, a, e))
  {
    hide FinalTarget, Stops;
    var bound: nat :| FinalTarget(code, a, bound) == m;
    if Stops(code, m) { StopsBack(code, a, bound); }
    if JumpsTo(code, m, e) { JumpsMore(code, a, bound, e); }
  }

  lemma TestFront(c: Context, f: First, a: int, skip: int)
    requires Fits(c.code, a, TestCode(TestFor(f), skip), c.pos) && TestFor(f).Some?
    ensures Leaves(c.code, a, a + |TestCode(TestFor(f), skip)| + skip)
  {
    hide Leaves, CharsetType, EmitTo;
    var i := TestInstr(f.set_);
    assert !i.IOpenCall?;
    assert a + (i.Size() + skip) == a + i.Size() + skip;
    LabelFront(c, a, i, i.Size() + skip);
  }

  /** A chain from the front of a choice ends, or goes to the second alternative. */
  lemma ChoiceFront(c: Context, p1: Tree, p2: Tree, opt: bool, tt: Option<Instr>, fl: Charset, a: int) returns (a2: int)
    requires Fits(c.code, a, c.Block(TChoice(p1, p2), opt, tt, fl), c.pos)
    ensures Leaves(c.code, a, a2) && Fits(c.code, a2, c.Block(p2, opt, None, fl), c.pos)
    ensures a2 + |c.Block(p2, opt, None, fl)| == a + |c.Block(TChoice(p1, p2), opt, tt, fl)|
  {
    hide Leaves, Fits, Gen, TestFor, TestCode, GetFirst, TestDecides, TestInstr, EmitTo, ChoiceByTest, ChoiceByStack, WellFormed;
    OpenChoice(c, p1, p2, opt, tt, fl);
    var c2, f := c.Block(p2, opt, None, fl), GetFirst(c.env, p1, FullSet(), c.d);
    if p2.TTrue? { EmptyBlock(c, opt, fl); }
    if TestDecides(c.env, p1, p2, fl, c.d) {
      var test := TestInstr(f.set_);
      NoOpenTest(f);
      var c1 := c.Block(p1, false, Some(test), fl);
      ChoiceByTestLayout(c, test, c1, p2.TTrue?, c2, a);
      a2 := a + test.Size() + |c1| + (if p2.TTrue? then 0 else 2);
      LabelFront(c, a, test, a2 - a);
    } else if opt && p2.TTrue? {
      FitsSplit(c.code, a, EmitTo(IPartialCommit, 2), c.Block(p1, true, None, FullSet()), c.pos);
      LabelFront(c, a, IPartialCommit, 2);
      a2 := a + |c.Block(TChoice(p1, p2), opt, tt, fl)|;
      StopLeaves(c.code, a, a2);
      FitsEmpty(c, a, c.Block(TChoice(p1, p2), opt, tt, fl));
    } else {
      var c1 := FirstBlock(c, p1, p2);
      ChoiceByStackLayout(c, f, c1, c2, a);
      a2 := a + |TestCode(TestFor(f), 4 + |c1|)| + 4 + |c1|;
      if TestFor(f).Some? {
        TestFront(c, f, a, 4 + |c1|);
      } else {
        NoTestSize(4 + |c1|);
        LabelFront(c, a, IChoice, 4 + |c1|);
        StopLeaves(c.code, a, a2);
      }
    }
  }

  lemma NoOpenTest(f: First)
    ensures !TestInstr(f.set_).IOpenCall?
  {
    hide CharsetType;
  }

  lemma NoTestSize(skip: int)
    ensures |TestCode(None, skip)| == 0
  {
  }

  lemma StopLeaves(code: Code, a: int, e: int)
    requires Stops(code, a)
    ensures Leaves(code, a, e)
  {
  }

  lemma FitsEmpty(c: Context, a: int, b: Code)
    requires Fits(c.code, a, b, c.pos)
    ensures Fits(c.code, a + |b|, [], c.pos)
  {
  }

  /** A chain from the front of a repetition ends, or goes to its end. */
  lemma RepFront(c: Context, p: Tree, opt: bool, tt: Option<Instr>, fl: Charset, a: int)
    requires Fits(c.code, a, c.Block(TRep(p), opt, tt, fl), c.pos)
    ensures Leaves(c.code, a, a + |c.Block(TRep(p), opt, tt, fl)|)
  {
    hide Leaves, Fits, Gen, TestFor, TestCode, GetFirst, LoopByTest, TestInstr, EmitTo, TestLoop, ChoiceLoop, WellFormed;
    OpenRep(c, p, opt, tt, fl);
    var f := GetFirst(c.env, p, FullSet(), c.d);
    if ToCharset(p).Some? {
      RepCharsetFlow(c, p, a);
      FlowFirst(c.code, a, a + |RepCharset(p)|);
    } else if LoopByTest(c.env, p, fl, c.d) {
      var test := TestInstr(f.set_);
      NoOpenTest(f);
      var body := c.Block(p, false, Some(test), FullSet());
      TestLoopLayout(c, test, body, a);
      LabelFront(c, a, test, test.Size() + |body| + 2);
      assert a + (test.Size() + |body| + 2) == a + |TestLoop(test, body)|;
    } else {
      var body := c.Block(p, false, None, FullSet());
      ChoiceLoopLayout(c, f, opt, body, a);
      if TestFor(f).Some? {
        TestFront(c, f, a, 4 + |body|);
      } else {
        NoTestSize(4 + |body|);
        if opt { LabelFront(c, a, IPartialCommit, 2); } else { LabelFront(c, a, IChoice, 4 + |body|); }
        StopLeaves(c.code, a, a + |ChoiceLoop(TestFor(f), opt, body)|);
      }
    }
  }

  /** And so it does from the front of a negation. */
  lemma NotFront(c: Context, p: Tree, opt: bool, tt: Option<Instr>, fl: Charset, a: int)
    requires Fits(c.code, a, c.Block(TNot(p), opt, tt, fl), c.pos)
    ensures Leaves(c.code, a, a + |c.Block(TNot(p), opt, tt, fl)|)
  {
    hide Leaves, Fits, Gen, TestFor, TestCode, GetFirst, HeadFail, EmitTo, Emit;
    GenOfNot(c.env, p, opt, tt, fl, c.d);
    var f, body := GetFirst(c.env, p, FullSet(), c.d), c.Block(p, false, None, FullSet());
    if HeadFail(c.env, p, c.d) {
      var test := TestCode(TestFor(f), 1);
      FitsSplit(c.code, a, test, Emit(IFail), c.pos);
      if TestFor(f).Some? {
        TestFront(c, f, a, 1);
      } else {
        NoTestSize(1);
        EmitFlow(c, a, IFail, a + 1);
        FlowHead(c.code, a, a + 1, a + 1);
      }
    } else {
      var test := TestCode(TestFor(f), 3 + |body|);
      FitsSplit4(c.code, a, test, EmitTo(IChoice, 3 + |body|), body, Emit(IFailTwice), c.pos);
      if TestFor(f).Some? {
        TestFront(c, f, a, 3 + |body|);
      } else {
        NoTestSize(3 + |body|);
        LabelFront(c, a, IChoice, 3 + |body|);
        StopLeaves(c.code, a, a + |NotByStack(TestFor(f), body)|);
      }
    }
  }

  /** From the front of a predicate it ends, or goes through the whole body with nothing behind it. */
  lemma AndFront(c: Context, p: Tree, opt: bool, tt: Option<Instr>, fl: Charset, a: int)
    requires Fits(c.code, a, c.Block(TAnd(p), opt, tt, fl), c.pos)
    ensures var body := c.Block(p, false, tt, FullSet());
            Stops(c.code, a)
            || (Fits(c.code, a, body, c.pos)
                && (Stops(c.code, a + |body|) || |c.Block(TAnd(p), opt, tt, fl)| == |body|))
  {
    hide Leaves, Fits, Gen, FixedLen, EmitTo, Emit, Stops;
    GenOfAnd(c.env, p, opt, tt, fl, c.d);
    var n, body := FixedLen(c.env, p, c.d), c.Block(p, false, tt, FullSet());
    if 0 <= n <= MAXBEHIND {
      FitsSplit(c.code, a, body, if n > 0 then Emit(IBehind(n)) else [], c.pos);
      if n > 0 {
        EmitFlow(c, a + |body|, IBehind(n), 0);
        NoJump(c.code, a + |body|);
      }
    } else {
      FitsSplit4(c.code, a, EmitTo(IChoice, 4 + |body|), body, EmitTo(IBackCommit, 3), Emit(IFail), c.pos);
      LabelFront(c, a, IChoice, 4 + |body|);
    }
  }

  lemma BehindFront(c: Context, n: nat, p: Tree, opt: bool, tt: Option<Instr>, fl: Charset, a: int)
    requires Fits(c.code, a, c.Block(TBehind(n, p), opt, tt, fl), c.pos) && WellFormed(p, 0, c.w)
    ensures var c0 := c.(env := [], pos := []);
            Stops(c.code, a)
            || (Fits(c.code, a, c0.Block(p, false, None, FullSet()), [])
                && |c.Block(TBehind(n, p), opt, tt, fl)| == |c0.Block(p, false, None, FullSet())|)
  {
    hide Leaves, Fits, Gen, Emit, Stops, WellFormed;
    GenOfBehind(c.env, n, p, opt, tt, fl, c.d);
    var body := Gen([], p, false, None, FullSet(), c.d);
    FitsSplit(c.code, a, if n > 0 then Emit(IBehind(n)) else [], body, c.pos);
    if n > 0 {
      EmitFlow(c, a, IBehind(n), 0);
      NoJump(c.code, a);
    } else {
      GenTidy([], p, false, None, FullSet(), c.d, 0, c.w);
      FitsClosed(c.code, a, body, c.pos);
    }
  }

  lemma GrammarFront(c: Context, rs: seq<Tree>, opt: bool, tt: Option<Instr>, fl: Charset, a: int)
    requires WellFormed(TGrammar(rs), |c.env|, c.w)
    requires Fits(c.code, a, c.Block(TGrammar(rs), opt, tt, fl), c.pos)
    ensures Stops(c.code, a)
  {
    hide Leaves, Fits, Gen, EmitTo, Stops, WellFormed, Context.Valid;
    GrammarSetting(c, rs, opt, tt, fl, a);
    var c1, bodies := Inside(c, rs, a), GenRules(rs, rs, c.d);
    FitsSplit(c.code, a, EmitTo(ICall, 4) + EmitTo(IJmp, 2 + |bodies|), bodies, c1.pos);
    FitsSplit(c.code, a, EmitTo(ICall, 4), EmitTo(IJmp, 2 + |bodies|), c1.pos);
    LabelFront(c1, a, ICall, 4);
  }

  lemma LeafFront(c: Context, t: Tree, opt: bool, tt: Option<Instr>, fl: Charset, a: int)
    requires t.TChar? || t.TSet? || t.TAny? || t.TFalse?
    requires Fits(c.code, a, c.Block(t, opt, tt, fl), c.pos)
    ensures Stops(c.code, a)
  {
    hide Leaves, Fits, Gen, Emit, Stops;
    GenOfLeaf(c.env, opt, tt, fl, c.d);
    match t {
      case TChar(ch) => EmitFlow(c, a, CodeChar(ch, tt), 0);
      case TAny => EmitFlow(c, a, IAny, 0);
      case TSet(info) => EmitFlow(c, a, CodeCharset(info, tt), 0);
      case TFalse => EmitFlow(c, a, IFail, 0);
    }
    NoJump(c.code, a);
  }

  /** A chain from the front of a block without calls ends, or goes to the block's end. */
  lemma {:induction false} FrontLeaves(c: Context, t: Tree, opt: bool, tt: Option<Instr>, fl: Charset, a: int)
    requires c.env == [] && c.pos == [] && WellFormed(t, 0, c.w)
    requires Fits(c.code, a, c.Block(t, opt, tt, fl), c.pos)
    ensures Leaves(c.code, a, a + |c.Block(t, opt, tt, fl)|)
    decreases t
  {
    hide Leaves, Fits, Gen, GetFirst, FixedLen;
    var e := a + |c.Block(t, opt, tt, fl)|;
    match t
    case TTrue => EmptyBlock(c, opt, fl); GenOfLeaf(c.env, opt, tt, fl, c.d); LeavesSelf(c.code, a);
    case TSeq(p1, p2) =>
      OpenSeq(c, p1, p2, opt, tt, fl, 0, 0);
      var c1 := c.Block(p1, false, tt, FirstFollow(c, p1, p2, fl));
      FitsSplit(c.code, a, c1, c.Block(p2, opt, SecondTest(c, p1, tt), fl), c.pos);
      FrontLeaves(c, p1, false, tt, FirstFollow(c, p1, p2, fl), a);
      FrontLeaves(c, p2, opt, SecondTest(c, p1, tt), fl, a + |c1|);
      LeavesOn(c.code, a, a + |c1|, e);
    case TChoice(p1, p2) =>
      var a2 := ChoiceFront(c, p1, p2, opt, tt, fl, a);
      FrontLeaves(c, p2, opt, None, fl, a2);
      LeavesOn(c.code, a, a2, e);
    case TRep(p) => RepFront(c, p, opt, tt, fl, a);
    case TNot(p) => NotFront(c, p, opt, tt, fl, a);
    case TAnd(p) =>
      AndFront(c, p, opt, tt, fl, a);
      if Stops(c.code, a) {
        StopLeaves(c.code, a, e);
      } else {
        var m := a + |c.Block(p, false, tt, FullSet())|;
        FrontLeaves(c, p, false, tt, FullSet(), a);
        if Stops(c.code, m) { StopLeaves(c.code, m, e); LeavesOn(c.code, a, m, e); }
      }
    case TBehind(n, p) =>
      BehindFront(c, n, p, opt, tt, fl, a);
      if Stops(c.code, a) { StopLeaves(c.code, a, e); } else { FrontLeaves(c, p, false, None, FullSet(), a); }
    case TGrammar(rs) => GrammarFront(c, rs, opt, tt, fl, a); StopLeaves(c.code, a, e);
    case _ => LeafFront(c, t, opt, tt, fl, a); StopLeaves(c.code, a, e);
  }

  /** What verifyrule knows of a part's code: a chain from its front ends, or it goes through the whole part and
      verifyrule answers that the part may match without consuming. */
  ghost predicate Front(c: Context, t: Tree, opt: bool, tt: Option<Instr>, fl: Charset, a: int, np: nat, nb: bool)
    requires np <= MAXRULES
  {
    Stops(c.code, a)
    || (JumpsTo(c.code, a, a + |c.Block(t, opt, tt, fl)|) && VerifyRule(c.env, t, np, nb, c.w) == Some(true))
  }

  /** Each call a chain passes is one verifyrule goes into, and that is no more than MAXRULES deep. */
  lemma {:induction false} FrontStops(c: Context, t: Tree, opt: bool, tt: Option<Instr>, fl: Charset, a: int,
                    np: nat, nb: bool)
    requires c.Valid() && WellFormed(t, |c.env|, c.w) && Fits(c.code, a, c.Block(t, opt, tt, fl), c.pos)
    requires np <= MAXRULES && VerifyRule(c.env, t, np, nb, c.w).Some? && KeepsNb(c.env, t, np, nb, c.w)
    ensures Front(c, t, opt, tt, fl, a, np, nb)
    decreases MAXRULES - np, t
  {
    hide Leaves, Fits, Gen, GetFirst, FixedLen, Stops, JumpsTo, Context.Valid;
    var e := a + |c.Block(t, opt, tt, fl)|;
    match t
    case TTrue => EmptyBlock(c, opt, fl); GenOfLeaf(c.env, opt, tt, fl, c.d); JumpsToSelf(c.code, a);
    case TSeq(p1, p2) => SeqFront(c, p1, p2, opt, tt, fl, a, np, nb);
    case TChoice(p1, p2) =>
      var r1 := VerifyRule(c.env, p1, np, nb, c.w).value;
      var a2 := ChoiceFront(c, p1, p2, opt, tt, fl, a);
      FrontStops(c, p2, opt, None, fl, a2, np, r1);
      if !Stops(c.code, a) {
        Via(c.code, a, a2, e);
        assert a2 + |c.Block(p2, opt, None, fl)| == e && JumpsTo(c.code, a2, e);
      }
    case TRep(p) =>
      RepFront(c, p, opt, tt, fl, a);
      NbSet(c, t, np, nb);
      LeavesIs(c.code, a, e);
    case TNot(p) =>
      NotFront(c, p, opt, tt, fl, a);
      NbSet(c, t, np, nb);
      LeavesIs(c.code, a, e);
    case TAnd(p) =>
      AndFront(c, p, opt, tt, fl, a);
      if !Stops(c.code, a) {
        var m := a + |c.Block(p, false, tt, FullSet())|;
        FrontStops(c, p, false, tt, FullSet(), a, np, true);
        if Stops(c.code, m) { JumpsStop(c.code, a, m); }
      }
    case TBehind(n, p) =>
      BehindFront(c, n, p, opt, tt, fl, a);
      if !Stops(c.code, a) {
        FrontLeaves(c.(env := [], pos := []), p, false, None, FullSet(), a);
        LeavesIs(c.code, a, e);
      }
    case TCall(n) => CallFront(c, n, opt, tt, fl, a, np, nb);
    case TGrammar(rs) => GrammarFront(c, rs, opt, tt, fl, a);
    case _ => LeafFront(c, t, opt, tt, fl, a);
  }

  lemma NbSet(c: Context, t: Tree, np: nat, nb: bool)
    requires np <= MAXRULES && (t.TRep? || t.TNot?)
    requires VerifyRule(c.env, t, np, nb, c.w).Some? && KeepsNb(c.env, t, np, nb, c.w)
    ensures VerifyRule(c.env, t, np, nb, c.w) == Some(true)
  {
    var r := VerifyRule(c.env, t, np, nb, c.w);
    assert r != Some(false) by { NbKept(c.env, t.p, np, c.w); }
    assert r == Some(r.value);
    assert r.value;
  }

  lemma LeavesIs(code: Code, a: int, e: int)
    requires Leaves(code, a, e)
    ensures Stops(code, a) || JumpsTo(code, a, e)
  {
  }

  lemma JumpsStop(code: Code, a: int, m: int)
    requires JumpsTo(code, a, m) && Stops(code, m)
    ensures Stops(code, a)
  {
    var bound: nat :| FinalTarget(code, a, bound) == m;
    StopsBack(code, a, bound);
  }

  lemma JumpsOn(code: Code, a: int, m: int, e: int)
    requires JumpsTo(code, a, m) && JumpsTo(code, m, e)
    ensures JumpsTo(code, a, e)
  {
    var bound: nat :| FinalTarget(code, a, bound) == m;
    JumpsMore(code, a, bound, e);
  }

  lemma {:induction false} SeqFront(c: Context, p1: Tree, p2: Tree, opt: bool, tt: Option<Instr>, fl: Charset,
                    a: int, np: nat, nb: bool)
    requires c.Valid() && WellFormed(TSeq(p1, p2), |c.env|, c.w)
    requires Fits(c.code, a, c.Block(TSeq(p1, p2), opt, tt, fl), c.pos)
    requires np <= MAXRULES
    requires VerifyRule(c.env, TSeq(p1, p2), np, nb, c.w).Some? && KeepsNb(c.env, TSeq(p1, p2), np, nb, c.w)
    ensures Front(c, TSeq(p1, p2), opt, tt, fl, a, np, nb)
    decreases MAXRULES - np, TSeq(p1, p2), 0
  {
    hide Leaves, Fits, Gen, GetFirst, FixedLen, Stops, JumpsTo, Context.Valid;
    OpenSeq(c, p1, p2, opt, tt, fl, 0, 0);
    var fl1, tt2 := FirstFollow(c, p1, p2, fl), SecondTest(c, p1, tt);
    var m := a + |c.Block(p1, false, tt, fl1)|;
    FitsSplit(c.code, a, c.Block(p1, false, tt, fl1), c.Block(p2, opt, tt2, fl), c.pos);
    FrontStops(c, p1, false, tt, fl1, a, np, false);
    if !Stops(c.code, a) {
      FrontStops(c, p2, opt, tt2, fl, m, np, nb);
      if Stops(c.code, m) {
        JumpsStop(c.code, a, m);
      } else {
        JumpsOn(c.code, a, m, a + |c.Block(TSeq(p1, p2), opt, tt, fl)|);
      }
    }
  }

  lemma {:induction false} CallFront(c: Context, n: nat, opt: bool, tt: Option<Instr>, fl: Charset, a: int,
                    np: nat, nb: bool)
    requires c.Valid() && WellFormed(TCall(n), |c.env|, c.w) && Fits(c.code, a, c.Block(TCall(n), opt, tt, fl), c.pos)
    requires np <= MAXRULES && VerifyRule(c.env, TCall(n), np, nb, c.w).Some? && KeepsNb(c.env, TCall(n), np, nb, c.w)
    ensures Stops(c.code, a)
    decreases MAXRULES - np, TCall(n), 0
  {
    hide Leaves, Fits, Gen, GetFirst, FixedLen, Stops, JumpsTo;
    CallBlock(c, n, opt, tt, fl, a);
    assert c.RuleAt(n);
    var b := c.Block(c.env[n], false, None, FullSet());
    var rule, ret := c.pos[n], c.pos[n] + |b|;
    if c.code[a].op.ICall? {
      NoJump(c.code, a);
    } else {
      FrontStops(c, c.env[n], false, None, FullSet(), rule, np + 1, nb);
      NoJump(c.code, ret);
      if !Stops(c.code, rule) { JumpsStop(c.code, rule, ret); }
      StopsFirst(c.code, a);
    }
  }

  // ----- every chain -----

  /** The rules a part calls: chains from their starts end. */
  ghost predicate CallsStop(c: Context, t: Tree) {
    |c.pos| == |c.env| && forall n: nat :: n < |c.env| && Calls(t, n) ==> Stops(c.code, c.pos[n])
  }

  /** A chain from anywhere in the code of a part ends, or goes to the end of that code. */
  lemma {:induction false} GenFlow(c: Context, t: Tree, opt: bool, tt: Option<Instr>, fl: Charset, a: int)
    requires c.Valid() && WellFormed(t, |c.env|, c.w) && Built(t, c.w) && CallsStop(c, t)
    requires Fits(c.code, a, c.Block(t, opt, tt, fl), c.pos)
    ensures var e := a + |c.Block(t, opt, tt, fl)|; Flow(c.code, a, e, e)
    decreases t, 2
  {
    hide Leaves, Flow, Fits, Gen, Stops, Context.Valid;
    match t
    case TTrue => EmptyBlock(c, opt, fl); GenOfLeaf(c.env, opt, tt, fl, c.d); NoFlow(c.code, a);
    case TSeq(p1, p2) => SeqGenFlow(c, p1, p2, opt, tt, fl, a);
    case TChoice(p1, p2) => ChoiceGenFlow(c, p1, p2, opt, tt, fl, a);
    case TRep(p) => RepGenFlow(c, p, opt, tt, fl, a);
    case TNot(p) => NotGenFlow(c, p, opt, tt, fl, a);
    case TAnd(p) => AndGenFlow(c, p, opt, tt, fl, a);
    case TBehind(n, p) => BehindGenFlow(c, n, p, opt, tt, fl, a);
    case TCall(n) => CallFlow(c, n, opt, tt, fl, a);
    case TGrammar(rs) => GrammarGenFlow(c, rs, opt, tt, fl, a);
    case _ => LeafFlow(c, t, opt, tt, fl, a);
  }

  lemma LeafFlow(c: Context, t: Tree, opt: bool, tt: Option<Instr>, fl: Charset, a: int)
    requires t.TChar? || t.TSet? || t.TAny? || t.TFalse?
    requires Fits(c.code, a, c.Block(t, opt, tt, fl), c.pos)
    ensures var e := a + |c.Block(t, opt, tt, fl)|; Flow(c.code, a, e, e)
  {
    hide Leaves, Flow, Fits, Gen, Emit;
    GenOfLeaf(c.env, opt, tt, fl, c.d);
    var e := a + |c.Block(t, opt, tt, fl)|;
    match t {
      case TChar(ch) => EmitFlow(c, a, CodeChar(ch, tt), e);
      case TAny => EmitFlow(c, a, IAny, e);
      case TSet(info) => EmitFlow(c, a, CodeCharset(info, tt), e);
      case TFalse => EmitFlow(c, a, IFail, e);
    }
  }

  lemma {:induction false} SeqGenFlow(c: Context, p1: Tree, p2: Tree, opt: bool, tt: Option<Instr>, fl: Charset, a: int)
    requires c.Valid() && WellFormed(TSeq(p1, p2), |c.env|, c.w) && Built(TSeq(p1, p2), c.w)
    requires CallsStop(c, TSeq(p1, p2)) && Fits(c.code, a, c.Block(TSeq(p1, p2), opt, tt, fl), c.pos)
    ensures var e := a + |c.Block(TSeq(p1, p2), opt, tt, fl)|; Flow(c.code, a, e, e)
    decreases TSeq(p1, p2), 0
  {
    hide Leaves, Flow, Fits, Gen, GetFirst, FixedLen, Stops, Context.Valid, NeedFollow;
    OpenSeq(c, p1, p2, opt, tt, fl, 0, 0);
    var c1, c2 := c.Block(p1, false, tt, FirstFollow(c, p1, p2, fl)), c.Block(p2, opt, SecondTest(c, p1, tt), fl);
    var m := a + |c1|;
    FitsSplit(c.code, a, c1, c2, c.pos);
    GenFlow(c, p1, false, tt, FirstFollow(c, p1, p2, fl), a);
    GenFlow(c, p2, opt, SecondTest(c, p1, tt), fl, m);
    FlowFirst(c.code, m, m + |c2|);
    FlowOn(c.code, a, m, m, m + |c2|);
    FlowJoin(c.code, a, m, m + |c2|, m + |c2|);
  }

  lemma {:induction false} BehindGenFlow(c: Context, n: nat, p: Tree, opt: bool, tt: Option<Instr>, fl: Charset, a: int)
    requires c.Valid() && WellFormed(TBehind(n, p), |c.env|, c.w) && Built(TBehind(n, p), c.w)
    requires Fits(c.code, a, c.Block(TBehind(n, p), opt, tt, fl), c.pos)
    ensures var e := a + |c.Block(TBehind(n, p), opt, tt, fl)|; Flow(c.code, a, e, e)
    decreases TBehind(n, p), 0
  {
    hide Leaves, Flow, Fits, Gen, FixedLen, Stops, Context.Valid, Emit;
    OpenBehind(c, n, p, opt, tt, fl, 0, 0);
    var c0, back := c.(env := [], pos := []), if n > 0 then Emit(IBehind(n)) else [];
    var body := c0.Block(p, false, None, FullSet());
    FitsSplit(c.code, a, back, body, c.pos);
    GenTidy([], p, false, None, FullSet(), c.d, 0, c.w);
    FitsClosed(c.code, a + |back|, body, c.pos);
    NoRulesValid(c0);
    GenFlow(c0, p, false, None, FullSet(), a + |back|);
    var e := a + |back| + |body|;
    if n > 0 {
      EmitFlow(c, a, IBehind(n), e);
      FlowJoin(c.code, a, a + 1, e, e);
    }
  }

  lemma NoFlow(code: Code, a: int)
    ensures Flow(code, a, a, a)
  {
  }

  lemma NoRulesValid(c: Context)
    requires c.env == [] && c.pos == []
    ensures c.Valid() && forall t: Tree :: CallsStop(c, t)
  {
  }

  lemma FlowTwo(code: Code, a: int, e: int)
    requires Leaves(code, a, e) && Leaves(code, a + 1, e)
    ensures Flow(code, a, a + 2, e)
  {
    hide Leaves;
  }

  lemma CallFlow(c: Context, n: nat, opt: bool, tt: Option<Instr>, fl: Charset, a: int)
    requires n < |c.env| && CallsStop(c, TCall(n)) && Fits(c.code, a, c.Block(TCall(n), opt, tt, fl), c.pos)
    ensures |c.Block(TCall(n), opt, tt, fl)| == 2 && Flow(c.code, a, a + 2, a + 2)
  {
    hide Leaves, Fits, Gen, Stops;
    CallBlock(c, n, opt, tt, fl, a);
    assert Calls(TCall(n), n);
    if c.code[a].op.ICall? { NoJump(c.code, a); } else { StopsFirst(c.code, a); }
    StopLeaves(c.code, a, a + 2);
    SlotStops(c.code, a + 1, a + 2);
    FlowTwo(c.code, a, a + 2);
  }

  lemma {:induction false} ChoiceGenFlow(c: Context, p1: Tree, p2: Tree, opt: bool, tt: Option<Instr>, fl: Charset,
                    a: int)
    requires c.Valid() && WellFormed(TChoice(p1, p2), |c.env|, c.w) && Built(TChoice(p1, p2), c.w)
    requires CallsStop(c, TChoice(p1, p2))
    requires Fits(c.code, a, c.Block(TChoice(p1, p2), opt, tt, fl), c.pos)
    ensures var e := a + |c.Block(TChoice(p1, p2), opt, tt, fl)|; Flow(c.code, a, e, e)
    decreases TChoice(p1, p2), 0
  {
    hide Leaves, Flow, Fits, Gen, GetFirst, FixedLen, Stops, Context.Valid, TestFor, TestCode, TestDecides, TestInstr,
      EmitTo, ChoiceByTest, ChoiceByStack;
    OpenChoice(c, p1, p2, opt, tt, fl);
    var c2, f := c.Block(p2, opt, None, fl), GetFirst(c.env, p1, FullSet(), c.d);
    if p2.TTrue? { EmptyBlock(c, opt, fl); }
    if TestDecides(c.env, p1, p2, fl, c.d) {
      var test := TestInstr(f.set_);
      NoOpenTest(f);
      var c1 := c.Block(p1, false, Some(test), fl);
      ChoiceByTestLayout(c, test, c1, p2.TTrue?, c2, a);
      GenFlow(c, p1, false, Some(test), fl, a + test.Size());
      GenFlow(c, p2, opt, None, fl, a + test.Size() + |c1| + (if p2.TTrue? then 0 else 2));
      ChoiceByTestFlow(c, test, c1, p2.TTrue?, c2, a);
    } else if opt && p2.TTrue? {
      var c1 := c.Block(p1, true, None, FullSet());
      FitsSplit(c.code, a, EmitTo(IPartialCommit, 2), c1, c.pos);
      GenFlow(c, p1, true, None, FullSet(), a + 2);
      EmitToFlow(c, a, IPartialCommit, 2, a + 2 + |c1|);
      FlowJoin(c.code, a, a + 2, a + 2 + |c1|, a + 2 + |c1|);
    } else {
      var c1 := FirstBlock(c, p1, p2);
      ChoiceByStackLayout(c, f, c1, c2, a);
      var a1 := a + |TestCode(TestFor(f), 4 + |c1|)|;
      GenFlow(c, p1, p2.TTrue?, TestFor(f), FullSet(), a1 + 2);
      GenFlow(c, p2, opt, None, fl, a1 + 4 + |c1|);
      ChoiceByStackFlow(c, f, c1, c2, a);
    }
  }

  lemma {:induction false} RepGenFlow(c: Context, p: Tree, opt: bool, tt: Option<Instr>, fl: Charset, a: int)
    requires c.Valid() && WellFormed(TRep(p), |c.env|, c.w) && Built(TRep(p), c.w) && CallsStop(c, TRep(p))
    requires Fits(c.code, a, c.Block(TRep(p), opt, tt, fl), c.pos)
    ensures var e := a + |c.Block(TRep(p), opt, tt, fl)|; Flow(c.code, a, e, e)
    decreases TRep(p), 0
  {
    hide Leaves, Flow, Fits, Gen, GetFirst, Stops, Context.Valid, TestFor, TestCode, LoopByTest, TestInstr, EmitTo,
      TestLoop, ChoiceLoop, RepCharset;
    OpenRep(c, p, opt, tt, fl);
    var f := GetFirst(c.env, p, FullSet(), c.d);
    if ToCharset(p).Some? {
      RepCharsetFlow(c, p, a);
    } else if LoopByTest(c.env, p, fl, c.d) {
      var test := TestInstr(f.set_);
      NoOpenTest(f);
      var body := c.Block(p, false, Some(test), FullSet());
      TestLoopLayout(c, test, body, a);
      GenFlow(c, p, false, Some(test), FullSet(), a + test.Size());
      TestLoopFlow(c, test, body, a);
    } else {
      var body := c.Block(p, false, None, FullSet());
      ChoiceLoopLayout(c, f, opt, body, a);
      GenFlow(c, p, false, None, FullSet(), a + |TestCode(TestFor(f), 4 + |body|)| + 2);
      ChoiceLoopFlow(c, f, opt, body, a);
    }
  }

  lemma {:induction false} NotGenFlow(c: Context, p: Tree, opt: bool, tt: Option<Instr>, fl: Charset, a: int)
    requires c.Valid() && WellFormed(TNot(p), |c.env|, c.w) && Built(TNot(p), c.w) && CallsStop(c, TNot(p))
    requires Fits(c.code, a, c.Block(TNot(p), opt, tt, fl), c.pos)
    ensures var e := a + |c.Block(TNot(p), opt, tt, fl)|; Flow(c.code, a, e, e)
    decreases TNot(p), 0
  {
    hide Leaves, Flow, Fits, Gen, GetFirst, Stops, Context.Valid, TestFor, TestCode, HeadFail, EmitTo, Emit;
    GenOfNot(c.env, p, opt, tt, fl, c.d);
    var f, body := GetFirst(c.env, p, FullSet(), c.d), c.Block(p, false, None, FullSet());
    if HeadFail(c.env, p, c.d) {
      NotFlow(c, f, true, body, a);
    } else {
      var test := TestCode(TestFor(f), 3 + |body|);
      FitsSplit4(c.code, a, test, EmitTo(IChoice, 3 + |body|), body, Emit(IFailTwice), c.pos);
      GenFlow(c, p, false, None, FullSet(), a + |test| + 2);
      NotFlow(c, f, false, body, a);
    }
  }

  lemma {:induction false} AndGenFlow(c: Context, p: Tree, opt: bool, tt: Option<Instr>, fl: Charset, a: int)
    requires c.Valid() && WellFormed(TAnd(p), |c.env|, c.w) && Built(TAnd(p), c.w) && CallsStop(c, TAnd(p))
    requires Fits(c.code, a, c.Block(TAnd(p), opt, tt, fl), c.pos)
    ensures var e := a + |c.Block(TAnd(p), opt, tt, fl)|; Flow(c.code, a, e, e)
    decreases TAnd(p), 0
  {
    hide Leaves, Flow, Fits, Gen, FixedLen, Stops, Context.Valid, EmitTo, Emit;
    GenOfAnd(c.env, p, opt, tt, fl, c.d);
    var n, body := FixedLen(c.env, p, c.d), c.Block(p, false, tt, FullSet());
    if 0 <= n <= MAXBEHIND {
      FitsSplit(c.code, a, body, if n > 0 then Emit(IBehind(n)) else [], c.pos);
      GenFlow(c, p, false, tt, FullSet(), a);
      BackFlow(c, body, n, a);
    } else {
      FitsSplit4(c.code, a, EmitTo(IChoice, 4 + |body|), body, EmitTo(IBackCommit, 3), Emit(IFail), c.pos);
      GenFlow(c, p, false, tt, FullSet(), a + 2);
      AndByStackFlow(c, body, a);
    }
  }

  lemma {:induction false} GrammarGenFlow(c: Context, rs: seq<Tree>, opt: bool, tt: Option<Instr>, fl: Charset, a: int)
    requires WellFormed(TGrammar(rs), |c.env|, c.w) && Built(TGrammar(rs), c.w)
    requires Fits(c.code, a, c.Block(TGrammar(rs), opt, tt, fl), c.pos)
    ensures var e := a + |c.Block(TGrammar(rs), opt, tt, fl)|; Flow(c.code, a, e, e)
    decreases TGrammar(rs), 0
  {
    hide Leaves, Flow, Fits, Gen, Stops, Context.Valid, EmitTo, GenRules;
    GrammarSetting(c, rs, opt, tt, fl, a);
    var c1, bodies := Inside(c, rs, a), GenRules(rs, rs, c.d);
    var e := a + 4 + |bodies|;
    FitsSplit(c.code, a, EmitTo(ICall, 4) + EmitTo(IJmp, 2 + |bodies|), bodies, c1.pos);
    FitsSplit(c.code, a, EmitTo(ICall, 4), EmitTo(IJmp, 2 + |bodies|), c1.pos);
    UsedStop(c1, rs);
    RulesFlow(c1, rs, a + 4, e);
    LeavesSelf(c.code, e);
    EmitToFlow(c1, a + 2, IJmp, 2 + |bodies|, e);
    FlowJoin(c.code, a + 2, a + 4, e, e);
    EmitToFlow(c1, a, ICall, 4, e);
    FlowJoin(c.code, a, a + 2, e, e);
  }

  /** Chains from the starts of the rules that are called end. */
  lemma UsedStop(c: Context, rs: seq<Tree>)
    requires c.Valid() && c.env == rs && VerifyGrammar(rs, c.w) && GrammarKeepsNb(rs, c.w)
    ensures forall k :: 0 <= k < |rs| ==> CallsStop(c, rs[k])
  {
    hide Leaves, Fits, Gen, Stops, VerifyRule, KeepsNb, Calls;
    forall k, n: nat | 0 <= k < |rs| && n < |rs| && Calls(rs[k], n) ensures Stops(c.code, c.pos[n]) {
      assert Used(rs, n) && c.RuleAt(n);
      FrontStops(c, rs[n], false, None, FullSet(), c.pos[n], 0, false);
      var ret := c.pos[n] + |c.Block(rs[n], false, None, FullSet())|;
      NoJump(c.code, ret);
      if !Stops(c.code, c.pos[n]) { JumpsStop(c.code, c.pos[n], ret); }
    }
  }

  lemma {:induction false} RulesFlow(c: Context, rest: seq<Tree>, at: int, e: int)
    requires c.Valid() && e == at + |GenRules(c.env, rest, c.d)|
    requires forall k :: 0 <= k < |rest| ==>
               WellFormed(rest[k], |c.env|, c.w) && Built(rest[k], c.w) && CallsStop(c, rest[k])
    requires Fits(c.code, at, GenRules(c.env, rest, c.d), c.pos)
    ensures Flow(c.code, at, e, e)
    decreases rest, 1
  {
    hide Leaves, Flow, Fits, Gen, Stops, Context.Valid, Emit, WellFormed, Built, CallsStop;
    if rest != [] {
      var b := c.Block(rest[0], false, None, FullSet());
      FitsSplit(c.code, at, b + Emit(IRet), GenRules(c.env, rest[1..], c.d), c.pos);
      FitsSplit(c.code, at, b, Emit(IRet), c.pos);
      var m := at + |b|;
      GenFlow(c, rest[0], false, None, FullSet(), at);
      RulesFlow(c, rest[1..], m + 1, e);
      EmitFlow(c, m, IRet, e);
      FlowHead(c.code, m, m + 1, e);
      FlowOn(c.code, at, m, m, e);
      FlowJoin(c.code, at, m, m + 1, e);
      FlowJoin(c.code, at, m + 1, e, e);
    } else {
      NoFlow(c.code, at);
    }
  }

  // ----- whole patterns -----

  /** For an accepted pattern every chain of jumps in its code ends, so the compiler comes back. */
  lemma AcceptedStops(t: Tree, w: nat, d: nat)
    requires Accepted(t, w)
    ensures AllStop(GenPattern(t, d))
  {
    hide Leaves, Flow, Fits, Gen, Stops, Tidy, WellFormed, Built;
    var code, b := GenPattern(t, d), Gen([], t, false, None, FullSet(), d);
    var c := Context(code, [], [], [], w, d);
    GenTidy([], t, false, None, FullSet(), d, 0, w);
    PatternFits(b);
    NoRulesValid(c);
    GenFlow(c, t, false, None, FullSet(), 0);
    forall i: int ensures Stops(code, i) {
      if 0 <= i < |b| {
        NoJump(code, |b|);
        FlowStops(code, 0, |b|, i);
      } else {
        NoJump(code, i);
      }
    }
  }

  lemma FlowStops(code: Code, a: int, e: int, i: int)
    requires Flow(code, a, e, e) && Stops(code, e) && a <= i < e
    ensures Stops(code, i)
  {
    hide FinalTarget, Stops;
    assert Leaves(code, i, e);
    if !Stops(code, i) { JumpsStop(code, i, e); }
  }

  // ----- the grammars inside -----

  /** In every grammar that is compiled inside t the calls name its rules, and all chains end once they are
      corrected. The code of a negated pattern that a test decides is never made. */
  ghost predicate NestedStop(env: Rules, t: Tree, d: nat)
    decreases t
  {
    match t
    case TSeq(p1, p2) => NestedStop(env, p1, d) && NestedStop(env, p2, d)
    case TChoice(p1, p2) => NestedStop(env, p1, d) && NestedStop(env, p2, d)
    case TRep(p) => NestedStop(env, p, d)
    case TNot(p) => HeadFail(env, p, d) || NestedStop(env, p, d)
    case TAnd(p) => NestedStop(env, p, d)
    case TBehind(_, p) => NestedStop([], p, d)
    case TGrammar(rs) =>
      Tidy(GrammarRaw(rs, d), |rs|) && AllStop(FixCalls(GrammarRaw(rs, d), Positions(rs, rs, 4, d), 4))
      && forall k :: 0 <= k < |rs| ==> NestedStop(rs, rs[k], d)
    case _ => true
  }

  lemma Within(pre: Code, x: Code, post: Code)
    ensures JumpsIn(x, pre + x + post, |pre|)
  {
    var y, a := pre + x + post, |pre|;
    forall i: int | IsJump(x, i) ensures IsJump(y, a + i) && Target(y, a + i) == a + Target(x, i) {
      assert y[a + i] == x[i] && y[a + i + 1] == x[i + 1];
    }
  }

  lemma Inner(x: Code, y: Code, z: Code, a: int, b: int)
    requires JumpsIn(x, y, a) && JumpsIn(y, z, b)
    ensures JumpsIn(x, z, b + a)
  {
    forall i: int | IsJump(x, i) ensures IsJump(z, b + a + i) && Target(z, b + a + i) == b + a + Target(x, i) {
      assert IsJump(y, a + i);
    }
  }

  /** A part of a block, as it stands in the whole code. */
  lemma Part(pre: Code, x: Code, post: Code, z: Code, b: int)
    requires JumpsIn(pre + x + post, z, b)
    ensures JumpsIn(x, z, b + |pre|)
  {
    hide JumpsIn;
    Within(pre, x, post);
    Inner(x, pre + x + post, z, |pre|, b);
  }

  lemma PartStops(x: Code, z: Code, b: int)
    requires JumpsIn(x, z, b) && AllStop(z)
    ensures AllStop(x)
  {
    forall i: int ensures Stops(x, i) {
      assert Stops(z, b + i);
      var n: nat :| Ends(z, b + i, n);
      FewerJumps(x, z, b, i, n);
    }
  }

  /** Where all chains of the whole code end, so do those of the grammars inside. */
  lemma {:induction false} NestedStopIn(env: Rules, t: Tree, opt: bool, tt: Option<Instr>, fl: Charset, d: nat,
                    w: nat, z: Code, b: int)
    requires WellFormed(t, |env|, w) && JumpsIn(Gen(env, t, opt, tt, fl, d), z, b) && AllStop(z)
    ensures NestedStop(env, t, d)
    decreases t, 1
  {
    hide JumpsIn, AllStop, Gen, HeadFail;
    match t
    case TSeq(p1, p2) => SeqNestedStop(env, p1, p2, opt, tt, fl, d, w, z, b);
    case TChoice(p1, p2) => ChoiceNestedStop(env, p1, p2, opt, tt, fl, d, w, z, b);
    case TRep(p) => RepNestedStop(env, p, opt, tt, fl, d, w, z, b);
    case TNot(p) => if !HeadFail(env, p, d) { NotNestedStop(env, p, opt, tt, fl, d, w, z, b); }
    case TAnd(p) => AndNestedStop(env, p, opt, tt, fl, d, w, z, b);
    case TBehind(n, p) => BehindNestedStop(env, n, p, opt, tt, fl, d, w, z, b);
    case TGrammar(rs) =>
      GenOfGrammar(env, rs, opt, tt, fl, d);
      GrammarNestedStop(rs, d, w, z, b);
    case _ =>
  }

  lemma {:induction false} SeqNestedStop(env: Rules, p1: Tree, p2: Tree, opt: bool, tt: Option<Instr>, fl: Charset,
                    d: nat, w: nat, z: Code, b: int)
    requires WellFormed(TSeq(p1, p2), |env|, w) && AllStop(z)
    requires JumpsIn(Gen(env, TSeq(p1, p2), opt, tt, fl, d), z, b)
    ensures NestedStop(env, p1, d) && NestedStop(env, p2, d)
    decreases TSeq(p1, p2), 0
  {
    hide JumpsIn, AllStop, Gen, GetFirst, FixedLen, NeedFollow;
    GenOfSeq(env, p1, p2, opt, tt, fl, d);
    var fl1 := if NeedFollow(p1) then GetFirst(env, p2, fl, d).set_ else FullSet();
    var tt2 := if FixedLen(env, p1, d) != 0 then None else tt;
    var c1, c2 := Gen(env, p1, false, tt, fl1, d), Gen(env, p2, opt, tt2, fl, d);
    assert c1 + c2 == [] + c1 + c2 == c1 + c2 + [];
    Part([], c1, c2, z, b);
    Part(c1, c2, [], z, b);
    NestedStopIn(env, p1, false, tt, fl1, d, w, z, b);
    NestedStopIn(env, p2, opt, tt2, fl, d, w, z, b + |c1|);
  }

  lemma {:induction false} NotNestedStop(env: Rules, p: Tree, opt: bool, tt: Option<Instr>, fl: Charset, d: nat,
                    w: nat, z: Code, b: int)
    requires WellFormed(TNot(p), |env|, w) && AllStop(z) && !HeadFail(env, p, d)
    requires JumpsIn(Gen(env, TNot(p), opt, tt, fl, d), z, b)
    ensures NestedStop(env, p, d)
    decreases TNot(p), 0
  {
    hide JumpsIn, AllStop, Gen, GetFirst, HeadFail, Emit, EmitTo, TestFor, TestCode;
    GenOfNot(env, p, opt, tt, fl, d);
    var c, test := Gen(env, p, false, None, FullSet(), d), TestFor(GetFirst(env, p, FullSet(), d));
    var pre := TestCode(test, 3 + |c|) + EmitTo(IChoice, 3 + |c|);
    Part(pre, c, Emit(IFailTwice), z, b);
    NestedStopIn(env, p, false, None, FullSet(), d, w, z, b + |pre|);
  }

  lemma {:induction false} AndNestedStop(env: Rules, p: Tree, opt: bool, tt: Option<Instr>, fl: Charset, d: nat,
                    w: nat, z: Code, b: int)
    requires WellFormed(TAnd(p), |env|, w) && AllStop(z) && JumpsIn(Gen(env, TAnd(p), opt, tt, fl, d), z, b)
    ensures NestedStop(env, p, d)
    decreases TAnd(p), 0
  {
    hide JumpsIn, AllStop, Gen, FixedLen, Emit, EmitTo;
    GenOfAnd(env, p, opt, tt, fl, d);
    var n, c := FixedLen(env, p, d), Gen(env, p, false, tt, FullSet(), d);
    if 0 <= n <= MAXBEHIND {
      var back := if n > 0 then Emit(IBehind(n)) else [];
      assert c + back == [] + c + back;
      Part([], c, back, z, b);
      NestedStopIn(env, p, false, tt, FullSet(), d, w, z, b);
    } else {
      var pre, post := EmitTo(IChoice, 4 + |c|), EmitTo(IBackCommit, 3) + Emit(IFail);
      assert AndByStack(c) == pre + c + post;
      Part(pre, c, post, z, b);
      NestedStopIn(env, p, false, tt, FullSet(), d, w, z, b + |pre|);
    }
  }

  lemma {:induction false} BehindNestedStop(env: Rules, n: nat, p: Tree, opt: bool, tt: Option<Instr>, fl: Charset,
                    d: nat, w: nat, z: Code, b: int)
    requires WellFormed(TBehind(n, p), |env|, w) && AllStop(z)
    requires JumpsIn(Gen(env, TBehind(n, p), opt, tt, fl, d), z, b)
    ensures NestedStop([], p, d)
    decreases TBehind(n, p), 0
  {
    hide JumpsIn, AllStop, Gen, FixedLen, Emit;
    GenOfBehind(env, n, p, opt, tt, fl, d);
    var back, c := if n > 0 then Emit(IBehind(n)) else [], Gen([], p, false, None, FullSet(), d);
    assert back + c == back + c + [];
    Part(back, c, [], z, b);
    NestedStopIn([], p, false, None, FullSet(), d, w, z, b + |back|);
  }

  lemma {:induction false} ChoiceNestedStop(env: Rules, p1: Tree, p2: Tree, opt: bool, tt: Option<Instr>,
                    fl: Charset, d: nat, w: nat, z: Code, b: int)
    requires WellFormed(TChoice(p1, p2), |env|, w) && AllStop(z)
    requires JumpsIn(Gen(env, TChoice(p1, p2), opt, tt, fl, d), z, b)
    ensures NestedStop(env, p1, d) && NestedStop(env, p2, d)
    decreases TChoice(p1, p2), 0
  {
    hide JumpsIn, AllStop, Gen, GetFirst, TestDecides, Emit, EmitTo, TestInstr, TestCode;
    GenOfChoice(env, p1, p2, opt, tt, fl, d);
    var f, c2 := GetFirst(env, p1, FullSet(), d), Gen(env, p2, opt, None, fl, d);
    if TestDecides(env, p1, p2, fl, d) {
      var test := TestInstr(f.set_);
      var c1 := Gen(env, p1, false, Some(test), fl, d);
      var jmp := if p2.TTrue? then [] else EmitTo(IJmp, 2 + |c2|);
      var pre := EmitTo(test, test.Size() + |c1| + |jmp|);
      assert ChoiceByTest(test, c1, p2.TTrue?, c2) == pre + c1 + (jmp + c2) == (pre + c1 + jmp) + c2 + [];
      Part(pre, c1, jmp + c2, z, b);
      Part(pre + c1 + jmp, c2, [], z, b);
      NestedStopIn(env, p1, false, Some(test), fl, d, w, z, b + |pre|);
      NestedStopIn(env, p2, opt, None, fl, d, w, z, b + |pre + c1 + jmp|);
    } else if opt && p2.TTrue? {
      var pre, c1 := EmitTo(IPartialCommit, 2), Gen(env, p1, true, None, FullSet(), d);
      assert pre + c1 == pre + c1 + [];
      Part(pre, c1, [], z, b);
      NestedStopIn(env, p1, true, None, FullSet(), d, w, z, b + |pre|);
    } else {
      var c1 := Gen(env, p1, p2.TTrue?, TestFor(f), FullSet(), d);
      var pre, co := TestCode(TestFor(f), 4 + |c1|) + EmitTo(IChoice, 4 + |c1|), EmitTo(ICommit, 2 + |c2|);
      assert ChoiceByStack(TestFor(f), c1, c2) == pre + c1 + (co + c2) == (pre + c1 + co) + c2 + [];
      Part(pre, c1, co + c2, z, b);
      Part(pre + c1 + co, c2, [], z, b);
      NestedStopIn(env, p1, p2.TTrue?, TestFor(f), FullSet(), d, w, z, b + |pre|);
      NestedStopIn(env, p2, opt, None, fl, d, w, z, b + |pre + c1 + co|);
    }
  }

  lemma {:induction false} RepNestedStop(env: Rules, p: Tree, opt: bool, tt: Option<Instr>, fl: Charset, d: nat,
                    w: nat, z: Code, b: int)
    requires WellFormed(TRep(p), |env|, w) && AllStop(z)
    requires JumpsIn(Gen(env, TRep(p), opt, tt, fl, d), z, b)
    ensures NestedStop(env, p, d)
    decreases TRep(p), 0
  {
    hide JumpsIn, AllStop, Gen, GetFirst, LoopByTest, Emit, EmitTo, TestInstr, TestCode;
    GenOfRep(env, p, opt, tt, fl, d);
    var f := GetFirst(env, p, FullSet(), d);
    if ToCharset(p).Some? {
    } else if LoopByTest(env, p, fl, d) {
      var test := TestInstr(f.set_);
      var c := Gen(env, p, false, Some(test), FullSet(), d);
      var pre, post := EmitTo(test, test.Size() + |c| + 2), EmitTo(IJmp, -(test.Size() + |c|));
      Part(pre, c, post, z, b);
      NestedStopIn(env, p, false, Some(test), FullSet(), d, w, z, b + |pre|);
    } else {
      var c := Gen(env, p, false, None, FullSet(), d);
      var pre := TestCode(TestFor(f), 4 + |c|) + (if opt then EmitTo(IPartialCommit, 2) else EmitTo(IChoice, 4 + |c|));
      Part(pre, c, EmitTo(IPartialCommit, -|c|), z, b);
      NestedStopIn(env, p, false, None, FullSet(), d, w, z, b + |pre|);
    }
  }

  lemma {:induction false} GrammarNestedStop(rs: seq<Tree>, d: nat, w: nat, z: Code, b: int)
    requires (forall k :: 0 <= k < |rs| ==> WellFormed(rs[k], |rs|, w)) && AllStop(z)
    requires JumpsIn(FixCalls(GrammarRaw(rs, d), Positions(rs, rs, 4, d), 4), z, b)
    ensures NestedStop([], TGrammar(rs), d)
    decreases TGrammar(rs), 0
  {
    hide JumpsIn, AllStop, Gen, FixCalls, Tidy, WellFormed, EmitTo, GenRules;
    var raw, rel := GrammarRaw(rs, d), Positions(rs, rs, 4, d);
    PartStops(FixCalls(raw, rel, 4), z, b);
    RawTidy(rs, d, w);
    FixKeeps(raw, rel, 4);
    KeptJumps(raw, FixCalls(raw, rel, 4));
    Inner(raw, FixCalls(raw, rel, 4), z, 0, b);
    var bodies := GenRules(rs, rs, d);
    var head := EmitTo(ICall, 4) + EmitTo(IJmp, 2 + |bodies|);
    assert raw == head + bodies + [];
    Part(head, bodies, [], z, b);
    RulesNestedStop(rs, rs, d, w, z, b + |head|);
  }

  /** Correcting calls leaves the jumps that are there. */
  lemma KeptJumps(x: Code, y: Code)
    requires Keeps(x, y)
    ensures JumpsIn(x, y, 0)
  {
  }

  /** While calls are being corrected there are fewer jumps than in the end. */
  lemma StageStops(x: Code, pos: seq<int>, k: nat)
    requires Tidy(x, |pos|) && AllStop(FixCalls(x, pos, k))
    ensures AllStop(x)
  {
    hide JumpsIn, AllStop, FixCalls, Tidy;
    FixKeeps(x, pos, k);
    KeptJumps(x, FixCalls(x, pos, k));
    PartStops(x, FixCalls(x, pos, k), 0);
  }

  lemma {:induction false} RulesNestedStop(env: Rules, rest: seq<Tree>, d: nat, w: nat, z: Code, b: int)
    requires (forall k :: 0 <= k < |rest| ==> WellFormed(rest[k], |env|, w)) && AllStop(z)
    requires JumpsIn(GenRules(env, rest, d), z, b)
    ensures forall k :: 0 <= k < |rest| ==> NestedStop(env, rest[k], d)
    decreases rest, 0
  {
    hide JumpsIn, AllStop, Gen, WellFormed, Emit, NestedStop;
    if rest != [] {
      var c, more := Gen(env, rest[0], false, None, FullSet(), d), GenRules(env, rest[1..], d);
      assert c + Emit(IRet) + more == [] + c + (Emit(IRet) + more) == (c + Emit(IRet)) + more + [];
      Part([], c, Emit(IRet) + more, z, b);
      Part(c + Emit(IRet), more, [], z, b);
      NestedStopIn(env, rest[0], false, None, FullSet(), d, w, z, b);
      RulesNestedStop(env, rest[1..], d, w, z, b + |c + Emit(IRet)|);
      forall k | 0 <= k < |rest| ensures NestedStop(env, rest[k], d) {
        if k > 0 { assert rest[k] == rest[1..][k - 1]; }
      }
    }
  }

  /** What the last pass needs is also what correctcalls needs. */
  lemma StopsNested(t: Tree, w: nat, d: nat)
    requires WellFormed(t, 0, w) && AllStop(GenPattern(t, d))
    ensures NestedStop([], t, d)
  {
    hide JumpsIn, AllStop, Gen, NestedStop, WellFormed, Emit;
    var b := Gen([], t, false, None, FullSet(), d);
    assert GenPattern(t, d) == [] + b + Emit(IEnd);
    Within([], b, Emit(IEnd));
    NestedStopIn([], t, false, None, FullSet(), d, w, GenPattern(t, d), 0);
  }

  // ----- where it does not come back -----

  /** S <- 'a' / A; A <- !G A, with G the one-rule grammar that fails. */
  const Looping: Rules := [TChoice(TChar(97), TCall(1)), TSeq(TNot(TGrammar([TFalse])), TCall(1))]

  /** The checker accepts it, though A is left recursive, and it matches. */
  lemma LoopingAccepted(d: nat)
    ensures VerifyGrammar(Looping, d) && VerifyGrammar([TFalse], d)
    ensures Answers([], TGrammar(Looping), [97], 0, Ok(1))
  {
    var g, a := TGrammar([TFalse]), Looping[1];
    assert a == TSeq(TNot(g), TCall(1)) && Looping[0] == TChoice(TChar(97), TCall(1));
    assert !CheckAux([TFalse], TFalse, PEnullable, d) && !Nullable(Looping, g, d);
    assert VerifyRule(Looping, g, 0, true, d) == Some(false) == VerifyRule(Looping, g, 1, true, d);
    assert VerifyRule(Looping, a, 0, false, d) == Some(false) == VerifyRule(Looping, a, 1, false, d);
    assert VerifyRule(Looping, TChar(97), 0, false, d) == Some(false);
    assert VerifyRule(Looping, TCall(1), 0, false, d) == Some(false);
    assert Eval(Looping, TChar(97), [97], 0, 0) == Ok(1);
    assert Eval([], TGrammar(Looping), [97], 0, 0) == Ok(1);
  }

  /** Its calls are in scope. */
  lemma LoopingWellFormed(d: nat)
    ensures WellFormed(TGrammar(Looping), 0, d)
  {
    var g := TGrammar([TFalse]);
    assert WellFormed(g, 2, d) by { assert WellFormed(TFalse, 1, d); }
    assert WellFormed(TCall(1), 2, d) && WellFormed(TChar(97), 2, d) && WellFormed(TNot(g), 2, d);
    assert Looping[0] == TChoice(TChar(97), TCall(1)) && Looping[1] == TSeq(TNot(g), TCall(1));
    assert WellFormed(Looping[0], 2, d) && WellFormed(Looping[1], 2, d);
  }

  /** Two jumps to each other. */
  lemma {:induction false} NeverEnds(code: Code, p: int, q: int, n: nat)
    requires IsJump(code, p) && Target(code, p) == q && IsJump(code, q) && Target(code, q) == p
    ensures !Ends(code, p, n)
    decreases n
  {
    if n >= 2 { NeverEnds(code, p, q, n - 2); }
  }

  /** An open call before a return becomes a jump. */
  lemma {:induction false} TailFixed(x: Code, pos: seq<int>, k: nat, m: nat)
    requires Tidy(x, |pos|) && k <= m && m + 2 < |x| && Open(x[m]) && x[m + 2] == Op(IRet)
    ensures var y := FixCalls(x, pos, k); y[m] == Op(IJmp) && y[m + 1] == Off(pos[x[m].op.rule] - m)
    decreases m - k
  {
    hide Tidy, FixCalls;
    FixCallTidy(x, pos, k);
    var x1 := FixCall(x, pos, k);
    FixStep(x, pos, k);
    if k == m {
      assert x1[m] == Op(IJmp) && x1[m + 1] == Off(pos[x[m].op.rule] - m) by { ReturnBehind(x, m); }
      FixKeeps(x1, pos, m + 1);
    } else {
      TailFixed(x1, pos, k + 1, m);
    }
  }

  lemma FixStep(x: Code, pos: seq<int>, k: nat)
    requires k < |x|
    ensures FixCalls(x, pos, k) == FixCalls(FixCall(x, pos, k), pos, k + 1)
  {
    hide FixCall;
  }

  lemma ReturnBehind(x: Code, m: nat)
    requires m + 2 < |x| && x[m + 2] == Op(IRet)
    ensures IsRet(x, FinalTarget(x, m + 2, |x|))
  {
  }

  /** The code of the second rule: a jump over a failure, and the call. */
  lemma LoopingRule(d: nat)
    ensures Gen(Looping, Looping[1], false, None, FullSet(), d)
            == [Op(IJmp), Off(3), Op(IFail), Op(IOpenCall(1)), Hole]
  {
    hide CharsetType, Gen;
    var g := TGrammar([TFalse]);
    assert Looping[1] == TSeq(TNot(g), TCall(1));
    assert HeadFail([TFalse], TFalse, d) && HeadFail(Looping, g, d);
    assert GetFirst([TFalse], TFalse, FullSet(), d) == First(EmptySet(), false);
    assert GetFirst(Looping, g, FullSet(), d) == First(EmptySet(), false);
    EmptyTest();
    GenOfSeq(Looping, TNot(g), TCall(1), false, None, FullSet(), d);
    GenOfNot(Looping, g, false, None, FullSet(), d);
    assert !NeedFollow(TNot(g));
    GenOfLeaf(Looping, false, if FixedLen(Looping, TNot(g), d) != 0 then None else None, FullSet(), d);
    assert TestCode(Some(IJmp), 1) == [Op(IJmp), Off(3)];
    assert Emit(IFail) == [Op(IFail)] && Emit(IOpenCall(1)) == [Op(IOpenCall(1)), Hole];
  }

  lemma EmptyTest()
    ensures TestInstr(EmptySet()) == IJmp
  {
    CharsetTypeCorrect(EmptySet());
  }

  /** In its code a jump leads to the call, corrected to a jump, which leads back to it: a chain from there
      has no end. */
  lemma LoopingNeverStops(d: nat)
    ensures !AllStop(GenPattern(TGrammar(Looping), d))
  {
    hide Gen, FixCalls, Emit, GrammarRaw, Positions, AllStop;
    var q := LoopingJumps(d);
    GenOfGrammar([], Looping, false, None, FullSet(), d);
    var code := GenPattern(TGrammar(Looping), d);
    LoopForever(code, q);
  }

  lemma LoopingJumps(d: nat) returns (q: nat)
    ensures var y := FixCalls(GrammarRaw(Looping, d), Positions(Looping, Looping, 4, d), 4);
            q + 5 < |y| && y[q] == Op(IJmp) && y[q + 1] == Off(3) && y[q + 3] == Op(IJmp) && y[q + 4] == Off(-3)
  {
    hide Gen, FixCalls, Emit, EmitTo, WellFormed, Tidy, GrammarRaw, Positions;
    LoopingWellFormed(d);
    RawTidy(Looping, d, d);
    LoopingLayout(d);
    q := 4 + |Gen(Looping, Looping[0], false, None, FullSet(), d)| + 1;
    var raw, rel := GrammarRaw(Looping, d), Positions(Looping, Looping, 4, d);
    FixKeeps(raw, rel, 4);
    TailFixed(raw, rel, 4, q + 3);
  }

  lemma LoopForever(code: Code, q: int)
    requires IsJump(code, q) && Target(code, q) == q + 3 && IsJump(code, q + 3) && Target(code, q + 3) == q
    ensures !AllStop(code)
  {
    forall n: nat ensures !Ends(code, q, n) { NeverEnds(code, q, q + 3, n); }
    assert !Stops(code, q);
  }

  /** Where the second rule's code stands, before its call is corrected. */
  lemma LoopingLayout(d: nat)
    ensures var raw, pos := GrammarRaw(Looping, d), Positions(Looping, Looping, 4, d);
            var q := 4 + |Gen(Looping, Looping[0], false, None, FullSet(), d)| + 1;
            && q + 5 < |raw| && |pos| == 2 && pos[1] == q
            && raw[q] == Op(IJmp) && raw[q + 1] == Off(3) && raw[q + 3] == Op(IOpenCall(1)) && raw[q + 5] == Op(IRet)
  {
    hide Gen, GenRules, Positions;
    LoopingRule(d);
    TwoRules(Looping, d);
    var b, c := Gen(Looping, Looping[0], false, None, FullSet(), d), Gen(Looping, Looping[1], false, None, FullSet(), d);
    var h := GrammarRaw(Looping, d)[..4];
    assert GrammarRaw(Looping, d) == h + b + [Op(IRet)] + c + [Op(IRet)];
  }

  lemma TwoRules(rs: Rules, d: nat)
    requires |rs| == 2
    ensures var b, c := Gen(rs, rs[0], false, None, FullSet(), d), Gen(rs, rs[1], false, None, FullSet(), d);
            && GenRules(rs, rs, d) == b + [Op(IRet)] + (c + [Op(IRet)])
            && Positions(rs, rs, 4, d) == [4, 4 + |b| + 1]
  {
    hide Gen;
    var last := rs[1..];
    assert last == [rs[1]] && last[1..] == [];
    assert GenRules(rs, last, d) == Gen(rs, rs[1], false, None, FullSet(), d) + [Op(IRet)];
  }
}
