/** Blocks of generated code placed inside larger code, and the calls of a grammar corrected in place. */
module Layout {
  import opened Wrappers
  import opened Charsets
  import opened Trees
  import opened Analysis
  import opened Machine
  import opened Codegen

  // ----- blocks inside code -----

  ghost predicate ToRet(code: Code, p: int) {
    exists bound: nat :: IsRet(code, FinalTarget(code, p, bound))
  }

  /** A corrected call to the rule at `rule`: a call, or a jump when a return follows it. */
  ghost predicate CallSite(code: Code, c: int, rule: int) {
    && IsOp(code, c) && HasTarget(code, c) && Target(code, c) == rule
    && (code[c].op.ICall? || (code[c].op.IJmp? && ToRet(code, c + 2)))
  }

  ghost predicate SlotFits(code: Code, c: int, slot: Slot, pos: seq<int>)
    requires 0 <= c < |code|
  {
    if slot.Op? && slot.op.IOpenCall? then slot.op.rule < |pos| && CallSite(code, c, pos[slot.op.rule])
    else slot.Hole? || code[c] == slot
  }

  /** Block b sits at address a of code, its open calls corrected to the rule addresses `pos`. */
  ghost predicate Fits(code: Code, a: int, b: Code, pos: seq<int>) {
    && 0 <= a && a + |b| <= |code|
    && forall k :: 0 <= k < |b| ==> SlotFits(code, a + k, b[k], pos)
  }

  lemma FitsSplit(code: Code, a: int, b1: Code, b2: Code, pos: seq<int>)
    requires Fits(code, a, b1 + b2, pos)
    ensures Fits(code, a, b1, pos) && Fits(code, a + |b1|, b2, pos)
  {
    var b := b1 + b2;
    forall k | 0 <= k < |b1| ensures SlotFits(code, a + k, b1[k], pos) {
      assert b[k] == b1[k];
    }
    forall k | 0 <= k < |b2| ensures SlotFits(code, a + |b1| + k, b2[k], pos) {
      assert b[|b1| + k] == b2[k];
      assert SlotFits(code, a + (|b1| + k), b[|b1| + k], pos);
    }
  }

  lemma FitsSplit4(code: Code, a: int, b1: Code, b2: Code, b3: Code, b4: Code, pos: seq<int>)
    requires Fits(code, a, b1 + b2 + b3 + b4, pos)
    ensures Fits(code, a, b1, pos) && Fits(code, a + |b1|, b2, pos)
    ensures Fits(code, a + |b1| + |b2|, b3, pos) && Fits(code, a + |b1| + |b2| + |b3|, b4, pos)
  {
    hide Fits;
    FitsSplit(code, a, b1 + b2 + b3, b4, pos);
    FitsSplit(code, a, b1 + b2, b3, pos);
    FitsSplit(code, a, b1, b2, pos);
  }

  lemma FitsEmit(code: Code, a: int, i: Instr, pos: seq<int>)
    requires Fits(code, a, Emit(i), pos) && !i.IOpenCall?
    ensures IsOp(code, a) && code[a].op == i
  {
    assert Emit(i)[0] == Op(i);
    assert SlotFits(code, a + 0, Emit(i)[0], pos);
  }

  lemma FitsEmitTo(code: Code, a: int, i: Instr, offset: int, pos: seq<int>)
    requires i.HasOffset() && !i.IOpenCall? && Fits(code, a, EmitTo(i, offset), pos)
    ensures IsOp(code, a) && code[a].op == i && HasTarget(code, a) && Target(code, a) == a + offset
  {
    var b := EmitTo(i, offset);
    assert b[0] == Op(i) && b[1] == Off(offset);
    assert SlotFits(code, a + 0, b[0], pos) && SlotFits(code, a + 1, b[1], pos);
  }

  // ----- open calls -----

  predicate Open(slot: Slot) { slot.Op? && slot.op.IOpenCall? }

  /** Every open call names one of `rules` rules and has its offset slot still open. */
  ghost predicate Tidy(b: Code, rules: nat) {
    forall k :: 0 <= k < |b| && Open(b[k]) ==> b[k].op.rule < rules && k + 1 < |b| && b[k + 1].Hole?
  }

  ghost predicate Closed(b: Code) { forall k :: 0 <= k < |b| ==> !Open(b[k]) }

  lemma TidyConcat(b1: Code, b2: Code, rules: nat)
    requires Tidy(b1, rules) && Tidy(b2, rules)
    ensures Tidy(b1 + b2, rules)
  {
    var b := b1 + b2;
    forall k | 0 <= k < |b| && Open(b[k]) ensures b[k].op.rule < rules && k + 1 < |b| && b[k + 1].Hole? {
      if k < |b1| { assert b[k] == b1[k] && b[k + 1] == b1[k + 1]; }
      else { assert b[k] == b2[k - |b1|] && b[k + 1] == b2[k - |b1| + 1]; }
    }
  }

  lemma TidyConcat4(b1: Code, b2: Code, b3: Code, b4: Code, rules: nat)
    requires Tidy(b1, rules) && Tidy(b2, rules) && Tidy(b3, rules) && Tidy(b4, rules)
    ensures Tidy(b1 + b2 + b3 + b4, rules)
  {
    hide Tidy;
    TidyConcat(b1, b2, rules);
    TidyConcat(b1 + b2, b3, rules);
    TidyConcat(b1 + b2 + b3, b4, rules);
  }

  /** A closed block is tidy, whatever the rules. */
  lemma ClosedTidy(b: Code, rules: nat)
    requires Closed(b)
    ensures Tidy(b, rules)
  {
  }

  lemma EmitTidy(i: Instr, rules: nat)
    requires !i.IOpenCall?
    ensures Tidy(Emit(i), rules)
    ensures i.HasOffset() ==> forall offset: int :: Tidy(EmitTo(i, offset), rules)
  {
    assert Closed(Emit(i));
    if i.HasOffset() {
      forall offset: int ensures Tidy(EmitTo(i, offset), rules) { assert Closed(EmitTo(i, offset)); }
    }
  }

  lemma TestTidy(f: First, skip: int, rules: nat)
    ensures Tidy(TestCode(TestFor(f), skip), rules)
    ensures Tidy(EmitTo(TestInstr(f.set_), skip), rules)
  {
    EmitTidy(TestInstr(f.set_), rules);
  }

  lemma {:induction false} ChoiceTidy(env: Rules, p1: Tree, p2: Tree, opt: bool, tt: Option<Instr>, fl: Charset, d: nat, rules: nat, w: nat)
    requires WellFormed(p1, rules, w) && WellFormed(p2, rules, w)
    ensures Tidy(Gen(env, TChoice(p1, p2), opt, tt, fl, d), rules)
    decreases TChoice(p1, p2), 0
  {
    hide Tidy, WellFormed, TestFor, TestInstr, TestDecides, EmitTo, TestCode, GetFirst, Emit, FixedLen,
      NeedFollow, ToCharset, HeadFail, Gen;
    GenOfChoice(env, p1, p2, opt, tt, fl, d);
    var f := GetFirst(env, p1, FullSet(), d);
    EmitTidy(IJmp, rules); EmitTidy(IPartialCommit, rules); EmitTidy(IChoice, rules); EmitTidy(ICommit, rules);
    GenTidy(env, p2, opt, None, fl, d, rules, w);
    var c2 := Gen(env, p2, opt, None, fl, d);
    if TestDecides(env, p1, p2, fl, d) {
      var test := TestInstr(f.set_);
      GenTidy(env, p1, false, Some(test), fl, d, rules, w);
      var c1 := Gen(env, p1, false, Some(test), fl, d);
      var jmp := if p2.TTrue? then [] else EmitTo(IJmp, 2 + |c2|);
      ClosedTidy([], rules);
      TestTidy(f, test.Size() + |c1| + |jmp|, rules);
      TidyConcat4(EmitTo(test, test.Size() + |c1| + |jmp|), c1, jmp, c2, rules);
    } else if opt && p2.TTrue? {
      GenTidy(env, p1, true, None, FullSet(), d, rules, w);
      TidyConcat(EmitTo(IPartialCommit, 2), Gen(env, p1, true, None, FullSet(), d), rules);
    } else {
      GenTidy(env, p1, p2.TTrue?, TestFor(f), FullSet(), d, rules, w);
      var c1 := Gen(env, p1, p2.TTrue?, TestFor(f), FullSet(), d);
      TestTidy(f, 4 + |c1|, rules);
      TidyConcat4(TestCode(TestFor(f), 4 + |c1|), EmitTo(IChoice, 4 + |c1|), c1, EmitTo(ICommit, 2 + |c2|), rules);
      TidyConcat(TestCode(TestFor(f), 4 + |c1|) + EmitTo(IChoice, 4 + |c1|) + c1 + EmitTo(ICommit, 2 + |c2|), c2, rules);
    }
  }

  lemma TestLoopTidy(test: Instr, body: Code, rules: nat)
    requires test.HasOffset() && !test.IOpenCall? && Tidy(body, rules)
    ensures Tidy(TestLoop(test, body), rules)
  {
    hide Tidy;
    EmitTidy(test, rules);
    EmitTidy(IJmp, rules);
    TidyConcat(EmitTo(test, test.Size() + |body| + 2), body, rules);
    TidyConcat(EmitTo(test, test.Size() + |body| + 2) + body, EmitTo(IJmp, -(test.Size() + |body|)), rules);
  }

  lemma {:induction false} RepTidy(env: Rules, p: Tree, opt: bool, tt: Option<Instr>, fl: Charset, d: nat, rules: nat, w: nat)
    requires WellFormed(p, rules, w)
    ensures Tidy(Gen(env, TRep(p), opt, tt, fl, d), rules)
    decreases TRep(p), 0
  {
    hide Tidy, WellFormed, TestFor, LoopByTest, EmitTo, TestCode, GetFirst, Emit, TestLoop, CharsetType, Gen;
    GenOfRep(env, p, opt, tt, fl, d);
    var f := GetFirst(env, p, FullSet(), d);
    EmitTidy(IAny, rules); EmitTidy(IPartialCommit, rules); EmitTidy(IChoice, rules);
    if ToCharset(p).Some? {
      match p {
        case TFalse => ClosedTidy([], rules);
        case TAny => TestLoopTidy(ITestAny, Emit(IAny), rules);
        case TChar(c) => TestLoopTidy(ITestChar(c), Emit(IAny), rules);
        case TSet(info) => EmitTidy(ISpan(Operand(info)), rules);
      }
    } else if LoopByTest(env, p, fl, d) {
      GenTidy(env, p, false, Some(TestInstr(f.set_)), FullSet(), d, rules, w);
      TestLoopTidy(TestInstr(f.set_), Gen(env, p, false, Some(TestInstr(f.set_)), FullSet(), d), rules);
    } else {
      GenTidy(env, p, false, None, FullSet(), d, rules, w);
      var body := Gen(env, p, false, None, FullSet(), d);
      TestTidy(f, 4 + |body|, rules);
      TidyConcat4(TestCode(TestFor(f), 4 + |body|),
                  if opt then EmitTo(IPartialCommit, 2) else EmitTo(IChoice, 4 + |body|),
                  body, EmitTo(IPartialCommit, -|body|), rules);
    }
  }

  lemma {:induction false} NotTidy(env: Rules, p: Tree, opt: bool, tt: Option<Instr>, fl: Charset, d: nat, rules: nat, w: nat)
    requires WellFormed(p, rules, w)
    ensures Tidy(Gen(env, TNot(p), opt, tt, fl, d), rules)
    decreases TNot(p), 0
  {
    hide Tidy, WellFormed, TestFor, EmitTo, TestCode, GetFirst, Emit, HeadFail, TestInstr, CharsetType, Gen;
    GenOfNot(env, p, opt, tt, fl, d);
    var f := GetFirst(env, p, FullSet(), d);
    EmitTidy(IChoice, rules); EmitTidy(IFail, rules); EmitTidy(IFailTwice, rules);
    GenTidy(env, p, false, None, FullSet(), d, rules, w);
    var b := Gen(env, p, false, None, FullSet(), d);
    TestTidy(f, 1, rules);
    TestTidy(f, 3 + |b|, rules);
    TidyConcat(TestCode(TestFor(f), 1), Emit(IFail), rules);
    TidyConcat4(TestCode(TestFor(f), 3 + |b|), EmitTo(IChoice, 3 + |b|), b, Emit(IFailTwice), rules);
  }

  lemma {:induction false} AndTidy(env: Rules, p: Tree, opt: bool, tt: Option<Instr>, fl: Charset, d: nat, rules: nat, w: nat)
    requires WellFormed(p, rules, w)
    ensures Tidy(Gen(env, TAnd(p), opt, tt, fl, d), rules)
    decreases TAnd(p), 0
  {
    hide Tidy, WellFormed, EmitTo, Emit, FixedLen, Gen;
    GenOfAnd(env, p, opt, tt, fl, d);
    var n := FixedLen(env, p, d);
    EmitTidy(IChoice, rules); EmitTidy(IBackCommit, rules); EmitTidy(IFail, rules);
    ClosedTidy([], rules);
    GenTidy(env, p, false, tt, FullSet(), d, rules, w);
    var b := Gen(env, p, false, tt, FullSet(), d);
    if n > 0 { EmitTidy(IBehind(n), rules); }
    TidyConcat(b, if n > 0 then Emit(IBehind(n)) else [], rules);
    TidyConcat4(EmitTo(IChoice, 4 + |b|), b, EmitTo(IBackCommit, 3), Emit(IFail), rules);
  }

  /** The open calls of a block are the calls of its tree to the rules in scope. */
  lemma {:induction false} GenTidy(env: Rules, t: Tree, opt: bool, tt: Option<Instr>, fl: Charset, d: nat, rules: nat, w: nat)
    requires WellFormed(t, rules, w)
    ensures Tidy(Gen(env, t, opt, tt, fl, d), rules)
    decreases t, 1
  {
    hide Tidy, GetFirst, FixedLen, CharsetType, Emit, NeedFollow;
    match t
    case TChar(c) => EmitTidy(CodeChar(c, tt), rules);
    case TAny => EmitTidy(IAny, rules);
    case TSet(info) => EmitTidy(CodeCharset(info, tt), rules);
    case TTrue => ClosedTidy([], rules);
    case TFalse => EmitTidy(IFail, rules);
    case TChoice(p1, p2) => ChoiceTidy(env, p1, p2, opt, tt, fl, d, rules, w);
    case TRep(p) => RepTidy(env, p, opt, tt, fl, d, rules, w);
    case TNot(p) => NotTidy(env, p, opt, tt, fl, d, rules, w);
    case TAnd(p) => AndTidy(env, p, opt, tt, fl, d, rules, w);
    case TBehind(n, p) =>
      GenTidy([], p, false, None, FullSet(), d, 0, w);
      TidyMore(Gen([], p, false, None, FullSet(), d), 0, rules);
      ClosedTidy([], rules);
      if n > 0 { EmitTidy(IBehind(n), rules); }
      TidyConcat(if n > 0 then Emit(IBehind(n)) else [], Gen([], p, false, None, FullSet(), d), rules);
    case TSeq(p1, p2) =>
      var fl1 := if NeedFollow(p1) then GetFirst(env, p2, fl, d).set_ else FullSet();
      var tt2 := if FixedLen(env, p1, d) != 0 then None else tt;
      GenTidy(env, p1, false, tt, fl1, d, rules, w);
      GenTidy(env, p2, opt, tt2, fl, d, rules, w);
      TidyConcat(Gen(env, p1, false, tt, fl1, d), Gen(env, p2, opt, tt2, fl, d), rules);
    case TCall(n) => CallTidy(n, rules);
    case TGrammar(rs) => GrammarTidy(rs, d, w); ClosedTidy(FixCalls(GrammarRaw(rs, d), Positions(rs, rs, 4, d), 4), rules);
  }

  lemma TidyMore(b: Code, few: nat, rules: nat)
    requires Tidy(b, few) && few <= rules
    ensures Tidy(b, rules)
  {
  }

  lemma CallTidy(n: nat, rules: nat)
    requires n < rules
    ensures Tidy(Emit(IOpenCall(n)), rules)
  {
  }
  lemma {:induction false} RulesTidy(env: Rules, rs: seq<Tree>, d: nat, w: nat)
    requires forall k :: 0 <= k < |rs| ==> WellFormed(rs[k], |env|, w)
    ensures Tidy(GenRules(env, rs, d), |env|)
    decreases rs, 0
  {
    hide Tidy, WellFormed, Emit;
    if rs == [] { ClosedTidy([], |env|); }
    else {
      GenTidy(env, rs[0], false, None, FullSet(), d, |env|, w);
      RulesTidy(env, rs[1..], d, w);
      EmitTidy(IRet, |env|);
      var b := Gen(env, rs[0], false, None, FullSet(), d);
      TidyConcat(b, Emit(IRet), |env|);
      TidyConcat(b + Emit(IRet), GenRules(env, rs[1..], d), |env|);
    }
  }

  lemma {:induction false} RawTidy(rs: seq<Tree>, d: nat, w: nat)
    requires forall k :: 0 <= k < |rs| ==> WellFormed(rs[k], |rs|, w)
    ensures Tidy(GrammarRaw(rs, d), |rs|)
    decreases rs, 1
  {
    hide Tidy, WellFormed;
    RulesTidy(rs, rs, d, w);
    EmitTidy(ICall, |rs|);
    EmitTidy(IJmp, |rs|);
    var bodies := GenRules(rs, rs, d);
    TidyConcat(EmitTo(ICall, 4), EmitTo(IJmp, 2 + |bodies|), |rs|);
    TidyConcat(EmitTo(ICall, 4) + EmitTo(IJmp, 2 + |bodies|), bodies, |rs|);
  }

  lemma {:induction false} GrammarTidy(rs: seq<Tree>, d: nat, w: nat)
    requires forall k :: 0 <= k < |rs| ==> WellFormed(rs[k], |rs|, w)
    ensures Closed(FixCalls(GrammarRaw(rs, d), Positions(rs, rs, 4, d), 4))
    decreases rs, 2
  {
    RawTidy(rs, d, w);
    var raw := GrammarRaw(rs, d);
    assert raw[0] == Op(ICall) && raw[1] == Off(4) && raw[2] == Op(IJmp) && raw[3].Off?;
    FixCloses(raw, Positions(rs, rs, 4, d), 4);
  }

  // ----- correcting calls -----

  /** y differs from x at most where x still has an open call or an open offset. */
  ghost predicate Keeps(x: Code, y: Code) {
    |x| == |y| && forall m :: 0 <= m < |x| && !Open(x[m]) && !x[m].Hole? ==> y[m] == x[m]
  }

  lemma FixKeeps(x: Code, pos: seq<int>, k: nat)
    requires Tidy(x, |pos|)
    ensures Keeps(x, FixCalls(x, pos, k))
    decreases |x| - k
  {
    if k < |x| {
      FixCallTidy(x, pos, k);
      FixKeeps(FixCall(x, pos, k), pos, k + 1);
    }
  }

  lemma FixCallTidy(x: Code, pos: seq<int>, k: nat)
    requires Tidy(x, |pos|) && k < |x|
    ensures Tidy(FixCall(x, pos, k), |pos|) && Keeps(x, FixCall(x, pos, k))
    ensures !Open(FixCall(x, pos, k)[k])
    ensures forall m :: 0 <= m < |x| && m != k ==> Open(FixCall(x, pos, k)[m]) == Open(x[m])
    ensures forall m :: 0 <= m < |x| && m != k && Open(x[m]) ==> FixCall(x, pos, k)[m] == x[m]
  {
    hide FinalTarget;
    var y := FixCall(x, pos, k);
    forall m | 0 <= m < |y| && Open(y[m]) ensures y[m].op.rule < |pos| && m + 1 < |y| && y[m + 1].Hole? {
      assert Open(x[m]) && x[m + 1].Hole?;
    }
  }

  /** After the pass no open call is left from slot k on. */
  lemma FixCloses(x: Code, pos: seq<int>, k: nat)
    requires Tidy(x, |pos|) && forall m :: 0 <= m < k && m < |x| ==> !Open(x[m])
    ensures Closed(FixCalls(x, pos, k))
    decreases |x| - k
  {
    if k < |x| {
      FixCallTidy(x, pos, k);
      FixCloses(FixCall(x, pos, k), pos, k + 1);
    }
  }

  /** A chain of jumps to a return is untouched by later corrections. */
  lemma ChainKept(x: Code, y: Code, p: int, bound: nat)
    requires Keeps(x, y) && IsRet(x, FinalTarget(x, p, bound))
    ensures FinalTarget(y, p, bound) == FinalTarget(x, p, bound) && IsRet(y, FinalTarget(y, p, bound))
    decreases bound
  {
    if bound > 0 && IsOp(x, p) && x[p].op.IJmp? && HasTarget(x, p) {
      ChainKept(x, y, Target(x, p), bound - 1);
    }
  }

  /** Every open call ends up calling its rule. */
  lemma FixCallSite(x: Code, pos: seq<int>, k: nat, m: nat)
    requires Tidy(x, |pos|) && k <= m < |x| && Open(x[m])
    ensures CallSite(FixCalls(x, pos, k), m, pos[x[m].op.rule])
    decreases |x| - k
  {
    FixCallTidy(x, pos, k);
    var y := FixCall(x, pos, k);
    if m == k {
      var f := FixCalls(y, pos, k + 1);
      FixKeeps(y, pos, k + 1);
      assert f[m] == y[m] && f[m + 1] == y[m + 1];
      if y[m].op.IJmp? {
        ChainKept(x, f, m + 2, |x|) by { KeepsTrans(x, y, f); }
      }
    } else {
      assert x[m] == y[m];
      FixCallSite(y, pos, k + 1, m);
    }
  }

  lemma KeepsTrans(x: Code, y: Code, z: Code)
    requires Keeps(x, y) && Keeps(y, z)
    requires forall m :: 0 <= m < |x| && Open(y[m]) ==> Open(x[m])
    requires forall m :: 0 <= m < |x| && y[m].Hole? ==> x[m].Hole?
    ensures Keeps(x, z)
  {
  }

  // ----- the rules of a grammar -----

  /** A chain of jumps inside a block placed at a stays inside it. */
  lemma ChainMoved(code: Code, a: int, f: Code, pos: seq<int>, p: int, bound: nat)
    requires Fits(code, a, f, pos) && IsRet(f, FinalTarget(f, p, bound))
    ensures IsRet(code, FinalTarget(code, a + p, bound))
    decreases bound
  {
    if 0 <= p < |f| { assert SlotFits(code, a + p, f[p], pos); }
    if bound > 0 && IsOp(f, p) && f[p].op.IJmp? && HasTarget(f, p) {
      assert SlotFits(code, a + (p + 1), f[p + 1], pos);
      ChainMoved(code, a, f, pos, Target(f, p), bound - 1);
    }
  }

  lemma CallSiteMoved(code: Code, a: int, f: Code, pos: seq<int>, m: int, rule: int)
    requires Fits(code, a, f, pos) && CallSite(f, m, rule)
    ensures CallSite(code, a + m, a + rule)
  {
    hide FinalTarget;
    assert SlotFits(code, a + m, f[m], pos) && SlotFits(code, a + (m + 1), f[m + 1], pos);
    if f[m].op.IJmp? {
      var bound: nat :| IsRet(f, FinalTarget(f, m + 2, bound));
      ChainMoved(code, a, f, pos, m + 2, bound);
    }
  }

  function Shift(pos: seq<int>, a: int): (r: seq<int>)
    ensures |r| == |pos| && forall k :: 0 <= k < |pos| ==> r[k] == pos[k] + a
  {
    seq(|pos|, k requires 0 <= k < |pos| => pos[k] + a)
  }

  /** Where the corrected code fits, the uncorrected one fits with its calls corrected. */
  lemma RawFits(code: Code, a: int, raw: Code, rel: seq<int>, k: nat, pos: seq<int>)
    requires Tidy(raw, |rel|) && Fits(code, a, FixCalls(raw, rel, k), pos)
    requires forall m :: 0 <= m < k && m < |raw| ==> !Open(raw[m])
    ensures Fits(code, a, raw, Shift(rel, a))
  {
    hide FixCalls;
    var f := FixCalls(raw, rel, k);
    FixKeeps(raw, rel, k);
    forall m | 0 <= m < |raw| ensures SlotFits(code, a + m, raw[m], Shift(rel, a)) {
      if Open(raw[m]) {
        FixCallSite(raw, rel, k, m);
        CallSiteMoved(code, a, f, pos, m, rel[raw[m].op.rule]);
      } else if !raw[m].Hole? {
        assert f[m] == raw[m];
        assert SlotFits(code, a + m, f[m], pos);
      }
    }
  }

  /** Rule n's block, followed by a return, sits at its position. */
  ghost predicate RulePlaced(code: Code, at: int, env: Rules, t: Tree, pos: seq<int>, d: nat) {
    var b := Gen(env, t, false, None, FullSet(), d);
    Fits(code, at, b, pos) && IsRet(code, at + |b|)
  }

  lemma RulesPlaced(code: Code, a: int, start: nat, env: Rules, rs: seq<Tree>, pos: seq<int>, d: nat, n: nat)
    requires Fits(code, a + start, GenRules(env, rs, d), pos) && n < |rs|
    ensures RulePlaced(code, a + Positions(env, rs, start, d)[n], env, rs[n], pos, d)
    decreases n
  {
    hide Fits, Emit, Gen;
    var b := Gen(env, rs[0], false, None, FullSet(), d);
    FitsSplit(code, a + start, b + Emit(IRet), GenRules(env, rs[1..], d), pos);
    FitsSplit(code, a + start, b, Emit(IRet), pos);
    FitsEmit(code, a + start + |b|, IRet, pos);
    if n > 0 { RulesPlaced(code, a, start + |b| + 1, env, rs[1..], pos, d, n - 1); }
  }
}
