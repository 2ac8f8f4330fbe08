/** Compiler correctness: generated blocks do on the machine what their trees mean. */
module CompilerProof {
  import opened Wrappers
  import opened Charsets
  import opened Trees
  import opened Analysis
  import opened Machine
  import opened Codegen
  import opened Layout

  // ----- the setting -----

  /** The code, the rules in scope and their addresses, and the bounds w (well-formedness) and d (analyses). */
  datatype Context = Context(code: Code, subj: seq<Byte>, env: Rules, pos: seq<int>, w: nat, d: nat)
  {
    function Block(t: Tree, opt: bool, tt: Option<Instr>, fl: Charset): Code {
      Gen(env, t, opt, tt, fl, d)
    }

    ghost predicate RuleAt(n: nat)
      requires n < |env| == |pos|
    {
      RulePlaced(code, pos[n], env, env[n], pos, d)
    }

    ghost predicate Valid() {
      && |pos| == |env| && WellFormedRules(env, w)
      && forall n :: 0 <= n < |env| ==> RuleAt(n)
    }

    ghost predicate J(x: State, y: State) { Joins(code, subj, x, y) }

    function Next(x: State): State { Step(code, subj, x) }

    lemma Refl(x: State)
      ensures J(x, x)
    {
      JoinRefl(code, subj, x);
    }

    lemma Sym(x: State, y: State)
      requires J(x, y)
      ensures J(y, x)
    {
      JoinSym(code, subj, x, y);
    }

    lemma Trans(x: State, y: State, z: State)
      requires J(x, y) && J(y, z)
      ensures J(x, z)
    {
      JoinTrans(code, subj, x, y, z);
    }

    /** A step, then whatever its successor joins. */
    lemma Then(x: State, z: State)
      requires J(Next(x), z)
      ensures J(x, z)
    {
      JoinStep(code, subj, x, z);
    }

    lemma One(x: State)
      ensures J(x, Next(x))
    {
      Refl(Next(x));
      Then(x, Next(x));
    }
  }

  /** The test tt has succeeded at i. */
  predicate Tested(tt: Option<Instr>, subj: seq<Byte>, i: nat) {
    match tt
    case Some(ITestChar(c)) => i < |subj| && subj[i] == c
    case Some(ITestSet(o)) => InOperand(o, subj, i)
    case _ => true
  }

  /** Every continuation pc with the top choice in place does what that choice's target does without it:
      what `opt` means. */
  ghost predicate ReusesChoice(c: Context, pc: int, st: Stack) {
    && st.Push? && st.top.Choice?
    && forall x: nat, j: nat ::
         c.J(Run(pc, j, Push(Choice(st.top.p, x), st.rest)), Run(st.top.p, j, st.rest))
  }

  /** Where a block generated with `opt` leads on success at j. */
  function After(opt: bool, pc: int, st: Stack, j: nat): State {
    if opt && st.Push? then Run(st.top.p, j, st.rest) else Run(pc, j, st)
  }

  /** What follows fails on a character outside fl: what the follow set means. */
  ghost predicate FollowHolds(c: Context, pc: int, st: Stack, j: nat, fl: Charset) {
    j < |c.subj| && !Has(fl, c.subj[j]) ==> c.J(Run(pc, j, st), Backtrack(st))
  }

  /** What the caller of a block guarantees. */
  ghost predicate Assumes(c: Context, pc: int, opt: bool, fl: Charset, st: Stack, r: Result) {
    if opt then fl == FullSet() && ReusesChoice(c, pc, st)
    else r.Ok? ==> FollowHolds(c, pc, st, r.j, fl)
  }

  /** What running a block from x with stack st then promises. */
  ghost predicate Behaves(c: Context, x: State, pc: int, opt: bool, st: Stack, r: Result) {
    && (r.Ok? ==> c.J(x, After(opt, pc, st, r.j)))
    && (r.Fail? ==> c.J(x, Backtrack(st)))
  }

  // ----- combining runs -----

  /** A block that reaches its end behaves, whether or not its choice is reused. */
  lemma Reaches(c: Context, x: State, pc: int, opt: bool, fl: Charset, st: Stack, r: Result)
    requires Assumes(c, pc, opt, fl, st, r) && r.Ok? && c.J(x, Run(pc, r.j, st))
    ensures Behaves(c, x, pc, opt, st, r)
  {
    if opt {
      assert st == Push(Choice(st.top.p, st.top.s), st.rest);
      c.Trans(x, Run(pc, r.j, st), After(opt, pc, st, r.j));
    }
  }

  /** Behaviour is kept by anything that joins. */
  lemma Precede(c: Context, x: State, y: State, pc: int, opt: bool, st: Stack, r: Result)
    requires c.J(x, y) && Behaves(c, y, pc, opt, st, r)
    ensures Behaves(c, x, pc, opt, st, r)
  {
    if r.Ok? { c.Trans(x, y, After(opt, pc, st, r.j)); }
    if r.Fail? { c.Trans(x, y, Backtrack(st)); }
  }

  predicate NextIn(cs: Charset, subj: seq<Byte>, i: nat) {
    i < |subj| && Has(cs, subj[i])
  }

  /** The test instruction accepts exactly the characters of the set. */
  ghost predicate Decides(test: Instr, cs: Charset) {
    match test
    case ITestAny => forall ch: Byte :: Has(cs, ch)
    case ITestChar(c) => forall ch: Byte :: Has(cs, ch) <==> ch == c
    case ITestSet(o) => forall ch: Byte :: Has(cs, ch) <==> CharInSet(o, ch)
    case IJmp => forall ch: Byte :: !Has(cs, ch)
    case _ => false
  }

  lemma TestInstrDecides(cs: Charset)
    ensures Decides(TestInstr(cs), cs)
  {
    hide Has, CharsetType, CharInSet;
    CharsetTypeCorrect(cs);
    if CharsetType(cs).KSet? {
      forall ch: Byte ensures Has(cs, ch) <==> CharInSet(Operand(CharsetType(cs).info), ch) {
        CharInSetCorrect(CharsetType(cs).info, ch);
      }
    }
  }

  /** A test instruction falls through exactly on the characters of its set, and jumps otherwise. */
  lemma TestRuns(c: Context, test: Instr, cs: Charset, a: int, offset: int, i: nat, st: Stack)
    requires test.HasOffset() && Decides(test, cs) && Fits(c.code, a, EmitTo(test, offset), c.pos)
    ensures NextIn(cs, c.subj, i) ==>
              c.J(Run(a, i, st), Run(a + test.Size(), i, st)) && Tested(Some(test), c.subj, i)
    ensures !NextIn(cs, c.subj, i) ==> c.J(Run(a, i, st), Run(a + offset, i, st))
  {
    hide Has, CharInSet;
    FitsEmitTo(c.code, a, test, offset, c.pos);
    c.One(Run(a, i, st));
  }

  /** The test may pass at i: either it was not generated, or the next character is in its set. */
  predicate Passes(f: First, subj: seq<Byte>, i: nat) {
    f.empty || NextIn(f.set_, subj, i)
  }

  lemma OptionalTestRuns(c: Context, f: First, a: int, skip: nat, i: nat, st: Stack)
    requires Fits(c.code, a, TestCode(TestFor(f), skip), c.pos)
    ensures Passes(f, c.subj, i) ==>
              c.J(Run(a, i, st), Run(a + |TestCode(TestFor(f), skip)|, i, st)) && Tested(TestFor(f), c.subj, i)
    ensures !Passes(f, c.subj, i) ==>
              c.J(Run(a, i, st), Run(a + |TestCode(TestFor(f), skip)| + skip, i, st))
  {
    hide Has, CharsetType, CharInSet;
    if f.empty {
      c.Refl(Run(a, i, st));
    } else {
      var size := TestInstr(f.set_).Size();
      TestInstrDecides(f.set_);
      TestRuns(c, TestInstr(f.set_), f.set_, a, size + skip, i, st);
      assert a + (size + skip) == a + size + skip;
    }
  }

  /** A jump goes to its target. */
  lemma JumpRuns(c: Context, a: int, offset: int, i: nat, st: Stack)
    requires Fits(c.code, a, EmitTo(IJmp, offset), c.pos)
    ensures c.J(Run(a, i, st), Run(a + offset, i, st))
  {
    FitsEmitTo(c.code, a, IJmp, offset, c.pos);
    c.One(Run(a, i, st));
  }

  /** A commit at `a` that goes to `target` makes a choice for that target reusable. */
  lemma CommitReuses(c: Context, a: int, offset: int, s: nat, st: Stack)
    requires Fits(c.code, a, EmitTo(ICommit, offset), c.pos)
    ensures ReusesChoice(c, a, Push(Choice(a + offset, s), st))
  {
    FitsEmitTo(c.code, a, ICommit, offset, c.pos);
    var q := a + offset;
    forall x: nat, j: nat ensures c.J(Run(a, j, Push(Choice(q, x), st)), Run(q, j, st)) {
      c.One(Run(a, j, Push(Choice(q, x), st)));
    }
  }

  // ----- one construction at a time -----

  /** What every case below is given: t's block sits at a and t answers. */
  ghost predicate Given(c: Context, t: Tree, opt: bool, tt: Option<Instr>, fl: Charset, a: int, i: nat, st: Stack, fuel: nat) {
    && c.Valid() && WellFormed(t, |c.env|, c.w)
    && i <= |c.subj| && Tested(tt, c.subj, i)
    && Fits(c.code, a, c.Block(t, opt, tt, fl), c.pos)
    && !Eval(c.env, t, c.subj, i, fuel).Out?
    && Assumes(c, a + |c.Block(t, opt, tt, fl)|, opt, fl, st, Eval(c.env, t, c.subj, i, fuel))
  }

  ghost predicate Shown(c: Context, t: Tree, opt: bool, tt: Option<Instr>, fl: Charset, a: int, i: nat, st: Stack, fuel: nat)
    requires i <= |c.subj|
  {
    Behaves(c, Run(a, i, st), a + |c.Block(t, opt, tt, fl)|, opt, st, Eval(c.env, t, c.subj, i, fuel))
  }

  // What a construction is made of: its code, its meaning and its well-formedness.

  lemma OpenSeq(c: Context, p1: Tree, p2: Tree, opt: bool, tt: Option<Instr>, fl: Charset, i: nat, fuel: nat)
    requires i <= |c.subj|
    ensures c.Block(TSeq(p1, p2), opt, tt, fl)
            == c.Block(p1, false, tt, FirstFollow(c, p1, p2, fl)) + c.Block(p2, opt, SecondTest(c, p1, tt), fl)
    ensures WellFormed(TSeq(p1, p2), |c.env|, c.w) == (WellFormed(p1, |c.env|, c.w) && WellFormed(p2, |c.env|, c.w))
  {
    hide Gen;
    GenOfSeq(c.env, p1, p2, opt, tt, fl, c.d);
  }

  lemma OpenChoice(c: Context, p1: Tree, p2: Tree, opt: bool, tt: Option<Instr>, fl: Charset)
    ensures TestDecides(c.env, p1, p2, fl, c.d) ==>
              var test := TestInstr(GetFirst(c.env, p1, FullSet(), c.d).set_);
              c.Block(TChoice(p1, p2), opt, tt, fl)
              == ChoiceByTest(test, c.Block(p1, false, Some(test), fl), p2.TTrue?, c.Block(p2, opt, None, fl))
    ensures !TestDecides(c.env, p1, p2, fl, c.d) && opt && p2.TTrue? ==>
              c.Block(TChoice(p1, p2), opt, tt, fl) == EmitTo(IPartialCommit, 2) + c.Block(p1, true, None, FullSet())
    ensures !TestDecides(c.env, p1, p2, fl, c.d) && !(opt && p2.TTrue?) ==>
              c.Block(TChoice(p1, p2), opt, tt, fl)
              == ChoiceByStack(TestFor(GetFirst(c.env, p1, FullSet(), c.d)), FirstBlock(c, p1, p2), c.Block(p2, opt, None, fl))
    ensures WellFormed(TChoice(p1, p2), |c.env|, c.w) == (WellFormed(p1, |c.env|, c.w) && WellFormed(p2, |c.env|, c.w))
  {
    hide Gen, TestDecides, GetFirst, TestFor, TestInstr, ChoiceByTest, ChoiceByStack, EmitTo;
    GenOfChoice(c.env, p1, p2, opt, tt, fl, c.d);
  }

  lemma OpenRep(c: Context, p: Tree, opt: bool, tt: Option<Instr>, fl: Charset)
    ensures var f := GetFirst(c.env, p, FullSet(), c.d);
            c.Block(TRep(p), opt, tt, fl)
            == if ToCharset(p).Some? then RepCharset(p)
               else if LoopByTest(c.env, p, fl, c.d) then
                 var test := TestInstr(f.set_);
                 TestLoop(test, c.Block(p, false, Some(test), FullSet()))
               else ChoiceLoop(TestFor(f), opt, c.Block(p, false, None, FullSet()))
    ensures WellFormed(TRep(p), |c.env|, c.w) == WellFormed(p, |c.env|, c.w)
  {
    hide Gen, LoopByTest, GetFirst, TestFor, TestInstr, TestLoop, ChoiceLoop, RepCharset;
    GenOfRep(c.env, p, opt, tt, fl, c.d);
  }

  lemma OpenNot(c: Context, p: Tree, opt: bool, tt: Option<Instr>, fl: Charset, i: nat, fuel: nat)
    requires i <= |c.subj|
    ensures var test := TestFor(GetFirst(c.env, p, FullSet(), c.d));
            c.Block(TNot(p), opt, tt, fl)
            == if HeadFail(c.env, p, c.d) then NotByTest(test) else NotByStack(test, c.Block(p, false, None, FullSet()))
    ensures WellFormed(TNot(p), |c.env|, c.w) == WellFormed(p, |c.env|, c.w)
    ensures var r := Eval(c.env, p, c.subj, i, fuel);
            Eval(c.env, TNot(p), c.subj, i, fuel) == if r.Fail? then Ok(i) else if r.Ok? then Fail else Out
  {
    hide Gen, GetFirst, TestFor, HeadFail, NotByTest, NotByStack;
    GenOfNot(c.env, p, opt, tt, fl, c.d);
  }

  lemma OpenAnd(c: Context, p: Tree, opt: bool, tt: Option<Instr>, fl: Charset, i: nat, fuel: nat)
    requires i <= |c.subj|
    ensures var n, b := FixedLen(c.env, p, c.d), c.Block(p, false, tt, FullSet());
            c.Block(TAnd(p), opt, tt, fl)
            == if 0 <= n <= MAXBEHIND then b + (if n > 0 then Emit(IBehind(n)) else []) else AndByStack(b)
    ensures WellFormed(TAnd(p), |c.env|, c.w) == WellFormed(p, |c.env|, c.w)
    ensures var r := Eval(c.env, p, c.subj, i, fuel);
            Eval(c.env, TAnd(p), c.subj, i, fuel) == if r.Ok? then Ok(i) else r
  {
    hide Gen, FixedLen, AndByStack, Emit;
    GenOfAnd(c.env, p, opt, tt, fl, c.d);
  }

  lemma OpenBehind(c: Context, n: nat, p: Tree, opt: bool, tt: Option<Instr>, fl: Charset, i: nat, fuel: nat)
    requires i <= |c.subj|
    ensures c.Block(TBehind(n, p), opt, tt, fl)
            == (if n > 0 then Emit(IBehind(n)) else []) + c.(env := [], pos := []).Block(p, false, None, FullSet())
    ensures WellFormed(TBehind(n, p), |c.env|, c.w) ==> WellFormed(p, 0, c.w)
    ensures Eval(c.env, TBehind(n, p), c.subj, i, fuel) == if i < n then Fail else Eval([], p, c.subj, i - n, fuel)
  {
    hide Gen, FixedLen, Emit;
    GenOfBehind(c.env, n, p, opt, tt, fl, c.d);
  }

  lemma LeafCase(c: Context, t: Tree, opt: bool, tt: Option<Instr>, fl: Charset, a: int, i: nat, st: Stack, fuel: nat)
    requires Given(c, t, opt, tt, fl, a, i, st, fuel)
    requires t.TChar? || t.TSet? || t.TAny? || t.TTrue? || t.TFalse?
    ensures Shown(c, t, opt, tt, fl, a, i, st, fuel)
  {
    hide Has, CharInSet, Fits, Emit, WellFormed, Gen, Context.RuleAt, SlotFits, Joins;
    GenOfLeaf(c.env, opt, tt, fl, c.d);
    var r := Eval(c.env, t, c.subj, i, fuel);
    match t {
      case TChar(ch) => FitsEmit(c.code, a, CodeChar(ch, tt), c.pos);
      case TAny => FitsEmit(c.code, a, IAny, c.pos);
      case TSet(info) =>
        FitsEmit(c.code, a, CodeCharset(info, tt), c.pos);
        if i < |c.subj| { CharInSetCorrect(info, c.subj[i]); }
      case TTrue => c.Refl(Run(a, i, st));
      case TFalse => FitsEmit(c.code, a, IFail, c.pos);
    }
    if !t.TTrue? { c.One(Run(a, i, st)); }
    if r.Ok? { Reaches(c, Run(a, i, st), a + |c.Block(t, opt, tt, fl)|, opt, fl, st, r); }
  }

  lemma SeqCase(c: Context, p1: Tree, p2: Tree, opt: bool, tt: Option<Instr>, fl: Charset, a: int, i: nat, st: Stack, fuel: nat)
    requires Given(c, TSeq(p1, p2), opt, tt, fl, a, i, st, fuel)
    ensures Shown(c, TSeq(p1, p2), opt, tt, fl, a, i, st, fuel)
    decreases fuel, TSeq(p1, p2), 2
  {
    hide Has, GetFirst, FixedLen, Fits, NeedFollow, CheckAux, Assumes, Behaves, Tested, Joins, Backtrack,
      HeadFail, Gen, Eval, WellFormed;
    OpenSeq(c, p1, p2, opt, tt, fl, i, fuel);
    var fl1 := FirstFollow(c, p1, p2, fl);
    var b1, b2 := c.Block(p1, false, tt, fl1), c.Block(p2, opt, SecondTest(c, p1, tt), fl);
    FitsSplit(c.code, a, b1, b2, c.pos);
    SeqRuns(c, p1, p2, opt, tt, fl, a, i, st, fuel);
  }

  /** codeseq1: the follow set of the first child, and the test that still protects the second. */
  function FirstFollow(c: Context, p1: Tree, p2: Tree, fl: Charset): Charset {
    if NeedFollow(p1) then GetFirst(c.env, p2, fl, c.d).set_ else FullSet()
  }

  function SecondTest(c: Context, p1: Tree, tt: Option<Instr>): Option<Instr> {
    if FixedLen(c.env, p1, c.d) != 0 then None else tt
  }

  lemma SeqRuns(c: Context, p1: Tree, p2: Tree, opt: bool, tt: Option<Instr>, fl: Charset, a: int, i: nat, st: Stack, fuel: nat)
    requires c.Valid() && WellFormed(p1, |c.env|, c.w) && WellFormed(p2, |c.env|, c.w)
    requires i <= |c.subj| && Tested(tt, c.subj, i)
    requires var b1 := c.Block(p1, false, tt, FirstFollow(c, p1, p2, fl));
             var b2 := c.Block(p2, opt, SecondTest(c, p1, tt), fl);
             && Fits(c.code, a, b1, c.pos) && Fits(c.code, a + |b1|, b2, c.pos)
             && Assumes(c, a + |b1| + |b2|, opt, fl, st, Eval(c.env, TSeq(p1, p2), c.subj, i, fuel))
    requires !Eval(c.env, TSeq(p1, p2), c.subj, i, fuel).Out?
    ensures Behaves(c, Run(a, i, st),
                    a + |c.Block(p1, false, tt, FirstFollow(c, p1, p2, fl))| + |c.Block(p2, opt, SecondTest(c, p1, tt), fl)|,
                    opt, st, Eval(c.env, TSeq(p1, p2), c.subj, i, fuel))
    decreases fuel, TSeq(p1, p2), 1
  {
    hide Has, GetFirst, FixedLen, Fits, NeedFollow, CheckAux, Gen, WellFormed, Joins, Backtrack;
    var fl1, tt2 := FirstFollow(c, p1, p2, fl), SecondTest(c, p1, tt);
    var b1, b2 := c.Block(p1, false, tt, fl1), c.Block(p2, opt, tt2, fl);
    var pc1, pc := a + |b1|, a + |b1| + |b2|;
    var r1 := Eval(c.env, p1, c.subj, i, fuel);
    if r1.Ok? {
      ProgressSound(c.env, p1, c.w, c.subj, i, fuel, c.d);
      var r2 := Eval(c.env, p2, c.subj, r1.j, fuel);
      GenCorrect(c, p2, opt, tt2, fl, pc1, r1.j, st, fuel);
      if r1.j < |c.subj| && !Has(fl1, c.subj[r1.j]) {
        SecondFails(c, p2, opt, fl, pc1, pc, r1.j, st, fuel);
      }
      GenCorrect(c, p1, false, tt, fl1, a, i, st, fuel);
      Precede(c, Run(a, i, st), Run(pc1, r1.j, st), pc, opt, st, r2);
    } else {
      GenCorrect(c, p1, false, tt, fl1, a, i, st, fuel);
    }
  }

  /** A character outside first(p, fl) makes p and what follows it fail: first(p, fl) is a sound follow
      set for what comes before p. */
  lemma SecondFails(c: Context, p: Tree, opt: bool, fl: Charset, a: int, pc: int, i: nat, st: Stack, fuel: nat)
    requires c.Valid() && WellFormed(p, |c.env|, c.w) && i < |c.subj|
    requires !Has(GetFirst(c.env, p, fl, c.d).set_, c.subj[i])
    requires !Eval(c.env, p, c.subj, i, fuel).Out?
    requires Assumes(c, pc, opt, fl, st, Eval(c.env, p, c.subj, i, fuel))
    requires Behaves(c, Run(a, i, st), pc, opt, st, Eval(c.env, p, c.subj, i, fuel))
    ensures c.J(Run(a, i, st), Backtrack(st))
  {
    hide Has;
    var r := Eval(c.env, p, c.subj, i, fuel);
    if r.Ok? {
      ProgressSound(c.env, p, c.w, c.subj, i, fuel, c.d);
      if r.j > i || Has(fl, c.subj[i]) { FirstSound(c.env, p, c.w, c.subj, i, fuel, fl, c.d); }
      c.Trans(Run(a, i, st), Run(pc, r.j, st), Backtrack(st));
    }
  }

  /** Where the pieces of a choice without a choice entry lie. */
  lemma ChoiceByTestLayout(c: Context, test: Instr, c1: Code, emptyp2: bool, c2: Code, a: int)
    requires test.HasOffset() && (emptyp2 ==> c2 == [])
    requires Fits(c.code, a, ChoiceByTest(test, c1, emptyp2, c2), c.pos)
    ensures var mid := a + test.Size() + |c1|;
            var l1 := mid + (if emptyp2 then 0 else 2);
            && Fits(c.code, a, EmitTo(test, l1 - a), c.pos)
            && Fits(c.code, a + test.Size(), c1, c.pos)
            && Fits(c.code, l1, c2, c.pos)
            && |ChoiceByTest(test, c1, emptyp2, c2)| == l1 + |c2| - a
            && (emptyp2 || Fits(c.code, mid, EmitTo(IJmp, 2 + |c2|), c.pos))
  {
    hide Fits;
    var jmp := if emptyp2 then [] else EmitTo(IJmp, 2 + |c2|);
    var e := EmitTo(test, test.Size() + |c1| + |jmp|);
    FitsSplit4(c.code, a, e, c1, jmp, c2, c.pos);
  }

  /** From the end of p1 to the end of the choice, over the jump when there is one. */
  lemma LeaveFirst(c: Context, mid: int, emptyp2: bool, n: nat, j: nat, st: Stack)
    requires if emptyp2 then n == 0 else Fits(c.code, mid, EmitTo(IJmp, 2 + n), c.pos)
    ensures c.J(Run(mid, j, st), Run(mid + (if emptyp2 then 0 else 2) + n, j, st))
  {
    if emptyp2 { c.Refl(Run(mid, j, st)); }
    else { JumpRuns(c, mid, 2 + n, j, st); }
  }

  lemma ChoiceTestCase(c: Context, p1: Tree, p2: Tree, opt: bool, tt: Option<Instr>, fl: Charset, a: int, i: nat, st: Stack, fuel: nat)
    requires Given(c, TChoice(p1, p2), opt, tt, fl, a, i, st, fuel)
    requires TestDecides(c.env, p1, p2, fl, c.d)
    ensures Shown(c, TChoice(p1, p2), opt, tt, fl, a, i, st, fuel)
    decreases fuel, TChoice(p1, p2), 2
  {
    hide Has, CheckAux, ChoiceByTest, EmitTo, TestInstr, GetFirst, Fits, ToCharset, FixedLen, NeedFollow,
      Assumes, Behaves, Gen, Eval, WellFormed;
    OpenChoice(c, p1, p2, opt, tt, fl);
    var test := TestInstr(GetFirst(c.env, p1, FullSet(), c.d).set_);
    var c1, c2 := c.Block(p1, false, Some(test), fl), c.Block(p2, opt, None, fl);
    if p2.TTrue? { EmptyBlock(c, opt, fl); }
    ChoiceByTestLayout(c, test, c1, p2.TTrue?, c2, a);
    ChoiceTestRuns(c, p1, p2, opt, fl, test, a, i, st, fuel);
  }

  /** The address after a choice compiled with a test alone, and that of its second alternative. */
  function SecondAt(c: Context, p1: Tree, p2: Tree, fl: Charset, test: Instr, a: int): int {
    a + test.Size() + |c.Block(p1, false, Some(test), fl)| + (if p2.TTrue? then 0 else 2)
  }

  lemma ChoiceTestRuns(c: Context, p1: Tree, p2: Tree, opt: bool, fl: Charset, test: Instr, a: int, i: nat, st: Stack, fuel: nat)
    requires c.Valid() && WellFormed(p1, |c.env|, c.w) && WellFormed(p2, |c.env|, c.w) && i <= |c.subj|
    requires TestDecides(c.env, p1, p2, fl, c.d) && test == TestInstr(GetFirst(c.env, p1, FullSet(), c.d).set_)
    requires !Eval(c.env, TChoice(p1, p2), c.subj, i, fuel).Out?
    requires var c1, c2 := c.Block(p1, false, Some(test), fl), c.Block(p2, opt, None, fl);
             var mid, l1 := a + test.Size() + |c1|, SecondAt(c, p1, p2, fl, test, a);
             && Fits(c.code, a, EmitTo(test, l1 - a), c.pos)
             && Fits(c.code, a + test.Size(), c1, c.pos)
             && (p2.TTrue? || Fits(c.code, mid, EmitTo(IJmp, 2 + |c2|), c.pos))
             && Fits(c.code, l1, c2, c.pos)
             && Assumes(c, l1 + |c2|, opt, fl, st, Eval(c.env, TChoice(p1, p2), c.subj, i, fuel))
    ensures Behaves(c, Run(a, i, st), SecondAt(c, p1, p2, fl, test, a) + |c.Block(p2, opt, None, fl)|, opt, st,
                    Eval(c.env, TChoice(p1, p2), c.subj, i, fuel))
    decreases fuel, TChoice(p1, p2), 1
  {
    hide Has, CheckAux, EmitTo, TestInstr, GetFirst, Fits, Gen, WellFormed, Joins, Backtrack, TestDecides, Decides;
    var f1 := GetFirst(c.env, p1, FullSet(), c.d);
    var l1 := SecondAt(c, p1, p2, fl, test, a);
    var pc := l1 + |c.Block(p2, opt, None, fl)|;
    var r2 := Eval(c.env, p2, c.subj, i, fuel);
    TestInstrDecides(f1.set_);
    TestRuns(c, test, f1.set_, a, l1 - a, i, st);
    if NextIn(f1.set_, c.subj, i) {
      var start, mid := a + test.Size(), a + test.Size() + |c.Block(p1, false, Some(test), fl)|;
      assert !p2.TTrue? ==> pc - mid == 2 + |c.Block(p2, opt, None, fl)|;
      assert p2.TTrue? ==> c.Block(p2, opt, None, fl) == [] by { EmptyBlock(c, opt, fl); }
      FirstRuns(c, p1, p2, opt, fl, test, a, pc, i, st, fuel);
      if Eval(c.env, p1, c.subj, i, fuel).Fail? {
        ChoiceTestNoSecond(c, p1, p2, opt, fl, pc, i, st, fuel);
        Precede(c, Run(start, i, st), Backtrack(st), pc, opt, st, r2);
      }
      Precede(c, Run(a, i, st), Run(start, i, st), pc, opt, st, Eval(c.env, TChoice(p1, p2), c.subj, i, fuel));
    } else {
      FirstTestFails(c, p1, p2, fl, i, fuel);
      GenCorrect(c, p2, opt, None, fl, l1, i, st, fuel);
      Precede(c, Run(a, i, st), Run(l1, i, st), pc, opt, st, r2);
    }
  }

  lemma EmptyBlock(c: Context, opt: bool, fl: Charset)
    ensures c.Block(TTrue, opt, None, fl) == []
  {
  }

  /** The first alternative after its test succeeded: to the end of the choice, or back. */
  lemma FirstRuns(c: Context, p1: Tree, p2: Tree, opt: bool, fl: Charset, test: Instr, a: int, pc: int, i: nat, st: Stack, fuel: nat)
    requires c.Valid() && WellFormed(p1, |c.env|, c.w) && i <= |c.subj| && Tested(Some(test), c.subj, i)
    requires !Eval(c.env, p1, c.subj, i, fuel).Out?
    requires var c1 := c.Block(p1, false, Some(test), fl);
             && Fits(c.code, a + test.Size(), c1, c.pos)
             && pc >= SecondAt(c, p1, p2, fl, test, a)
             && (if p2.TTrue? then pc == SecondAt(c, p1, p2, fl, test, a)
                 else Fits(c.code, a + test.Size() + |c1|, EmitTo(IJmp, pc - (a + test.Size() + |c1|)), c.pos))
    requires Eval(c.env, p1, c.subj, i, fuel).Ok? ==> Assumes(c, pc, opt, fl, st, Eval(c.env, p1, c.subj, i, fuel))
    ensures var r1 := Eval(c.env, p1, c.subj, i, fuel);
            && (r1.Ok? ==> Behaves(c, Run(a + test.Size(), i, st), pc, opt, st, r1))
            && (r1.Fail? ==> c.J(Run(a + test.Size(), i, st), Backtrack(st)))
    decreases fuel, p1, 4
  {
    hide Has, EmitTo, Fits, Gen, WellFormed, Joins, Backtrack, Tested;
    var start, mid := a + test.Size(), a + test.Size() + |c.Block(p1, false, Some(test), fl)|;
    var r1 := Eval(c.env, p1, c.subj, i, fuel);
    if r1.Ok? {
      LeaveFirst(c, mid, p2.TTrue?, pc - SecondAt(c, p1, p2, fl, test, a), r1.j, st);
      if !opt && r1.j < |c.subj| && !Has(fl, c.subj[r1.j]) {
        c.Trans(Run(mid, r1.j, st), Run(pc, r1.j, st), Backtrack(st));
      }
    }
    GenCorrect(c, p1, false, Some(test), fl, start, i, st, fuel);
    if r1.Ok? {
      c.Trans(Run(start, i, st), Run(mid, r1.j, st), Run(pc, r1.j, st));
      Reaches(c, Run(start, i, st), pc, opt, fl, st, r1);
    }
  }

  lemma FirstTestFails(c: Context, p1: Tree, p2: Tree, fl: Charset, i: nat, fuel: nat)
    requires c.Valid() && WellFormed(p1, |c.env|, c.w) && i <= |c.subj|
    requires TestDecides(c.env, p1, p2, fl, c.d)
    requires !NextIn(GetFirst(c.env, p1, FullSet(), c.d).set_, c.subj, i)
    ensures !Eval(c.env, p1, c.subj, i, fuel).Ok?
  {
    hide Has, HeadFail, CheckAux;
    if HeadFail(c.env, p1, c.d) { HeadFailNotEmpty(c.env, p1, FullSet(), c.d); }
    TestSound(c.env, p1, c.w, c.subj, i, fuel, c.d);
  }

  /** When the test let p1 in and p1 failed, giving up at once is what p2 and its continuation do. */
  lemma ChoiceTestNoSecond(c: Context, p1: Tree, p2: Tree, opt: bool, fl: Charset, pc: int, i: nat, st: Stack, fuel: nat)
    requires c.Valid() && WellFormed(p2, |c.env|, c.w) && i <= |c.subj|
    requires TestDecides(c.env, p1, p2, fl, c.d)
    requires NextIn(GetFirst(c.env, p1, FullSet(), c.d).set_, c.subj, i)
    requires Eval(c.env, p1, c.subj, i, fuel).Fail? && !Eval(c.env, p2, c.subj, i, fuel).Out?
    requires Assumes(c, pc, opt, fl, st, Eval(c.env, p2, c.subj, i, fuel))
    ensures Behaves(c, Backtrack(st), pc, opt, st, Eval(c.env, p2, c.subj, i, fuel))
  {
    hide Has, Backtrack, Joins, HeadFail, CheckAux;
    var r := Eval(c.env, p2, c.subj, i, fuel);
    if HeadFail(c.env, p1, c.d) { HeadFailSound(c.env, p1, c.subj, i, fuel, c.d); }
    assert !Has(GetFirst(c.env, p2, fl, c.d).set_, c.subj[i]);
    if r.Ok? {
      ProgressSound(c.env, p2, c.w, c.subj, i, fuel, c.d);
      if r.j > i || Has(fl, c.subj[i]) { FirstSound(c.env, p2, c.w, c.subj, i, fuel, fl, c.d); }
      c.Sym(Run(pc, i, st), Backtrack(st));
    } else {
      c.Refl(Backtrack(st));
    }
  }

  lemma ChoicePartialCase(c: Context, p1: Tree, opt: bool, tt: Option<Instr>, fl: Charset, a: int, i: nat, st: Stack, fuel: nat)
    requires Given(c, TChoice(p1, TTrue), opt, tt, fl, a, i, st, fuel)
    requires !TestDecides(c.env, p1, TTrue, fl, c.d) && opt
    ensures Shown(c, TChoice(p1, TTrue), opt, tt, fl, a, i, st, fuel)
    decreases fuel, TChoice(p1, TTrue), 0
  {
    hide Has, SlotFits, CheckAux, Joins, HeadFail, EmitTo, CharsetType, GetFirst, Fits, TestDecides, Gen,
      WellFormed;
    OpenChoice(c, p1, TTrue, opt, tt, fl);
    var c1 := c.Block(p1, true, None, FullSet());
    FitsSplit(c.code, a, EmitTo(IPartialCommit, 2), c1, c.pos);
    FitsEmitTo(c.code, a, IPartialCommit, 2, c.pos);
    var st1 := Push(Choice(st.top.p, i), st.rest);
    c.One(Run(a, i, st));
    GenCorrect(c, p1, true, None, FullSet(), a + 2, i, st1, fuel);
    var r1 := Eval(c.env, p1, c.subj, i, fuel);
    if r1.Ok? { c.Trans(Run(a, i, st), Run(a + 2, i, st1), Run(st.top.p, r1.j, st.rest)); }
    else {
      assert Eval(c.env, TTrue, c.subj, i, fuel) == Ok(i);
      c.Trans(Run(a, i, st), Run(a + 2, i, st1), Run(st.top.p, i, st.rest));
    }
  }

  /** Where the pieces of a choice with a choice entry lie. */
  lemma ChoiceByStackLayout(c: Context, f: First, c1: Code, c2: Code, a: int)
    requires Fits(c.code, a, ChoiceByStack(TestFor(f), c1, c2), c.pos)
    ensures var test := TestCode(TestFor(f), 4 + |c1|);
            var a1 := a + |test|;
            && Fits(c.code, a, test, c.pos)
            && Fits(c.code, a1, EmitTo(IChoice, 4 + |c1|), c.pos)
            && Fits(c.code, a1 + 2, c1, c.pos)
            && Fits(c.code, a1 + 2 + |c1|, EmitTo(ICommit, 2 + |c2|), c.pos)
            && Fits(c.code, a1 + 4 + |c1|, c2, c.pos)
            && |ChoiceByStack(TestFor(f), c1, c2)| == |test| + 4 + |c1| + |c2|
  {
    hide Fits, EmitTo, TestCode, TestFor;
    var test := TestCode(TestFor(f), 4 + |c1|);
    var choice, commit := EmitTo(IChoice, 4 + |c1|), EmitTo(ICommit, 2 + |c2|);
    FitsSplit(c.code, a, test + choice + c1 + commit, c2, c.pos);
    FitsSplit4(c.code, a, test, choice, c1, commit, c.pos);
  }

  /** A choice instruction saves its target and the position. */
  lemma ChoiceRuns(c: Context, a: int, offset: int, i: nat, st: Stack)
    requires Fits(c.code, a, EmitTo(IChoice, offset), c.pos)
    ensures c.J(Run(a, i, st), Run(a + 2, i, Push(Choice(a + offset, i), st)))
  {
    FitsEmitTo(c.code, a, IChoice, offset, c.pos);
    c.One(Run(a, i, st));
  }

  lemma CommitRuns(c: Context, a: int, offset: int, i: nat, e: Entry, st: Stack)
    requires Fits(c.code, a, EmitTo(ICommit, offset), c.pos) && e.Choice?
    ensures c.J(Run(a, i, Push(e, st)), Run(a + offset, i, st))
  {
    FitsEmitTo(c.code, a, ICommit, offset, c.pos);
    c.One(Run(a, i, Push(e, st)));
  }

  /** p1 run between its choice and its commit: it goes on after the commit, or to the alternative. */
  lemma GuardedFirst(c: Context, p1: Tree, opt: bool, tt: Option<Instr>, a1: int, skip: nat, i: nat, st: Stack, fuel: nat)
    requires c.Valid() && WellFormed(p1, |c.env|, c.w) && i <= |c.subj| && Tested(tt, c.subj, i)
    requires !Eval(c.env, p1, c.subj, i, fuel).Out?
    requires var c1 := c.Block(p1, opt, tt, FullSet());
             && Fits(c.code, a1, EmitTo(IChoice, 4 + |c1|), c.pos)
             && Fits(c.code, a1 + 2, c1, c.pos)
             && Fits(c.code, a1 + 2 + |c1|, EmitTo(ICommit, 2 + skip), c.pos)
    requires opt ==> skip == 0
    ensures var r1 := Eval(c.env, p1, c.subj, i, fuel);
            var l1 := a1 + 4 + |c.Block(p1, opt, tt, FullSet())|;
            && (r1.Ok? ==> c.J(Run(a1, i, st), Run(l1 + skip, r1.j, st)))
            && (r1.Fail? ==> c.J(Run(a1, i, st), Run(l1, i, st)))
    decreases fuel, p1, 4
  {
    hide Has, SlotFits, Joins, EmitTo, Fits, Gen, WellFormed, Eval, Tested, Context.RuleAt;
    var c1 := c.Block(p1, opt, tt, FullSet());
    var commit, l1 := a1 + 2 + |c1|, a1 + 4 + |c1|;
    var st1 := Push(Choice(l1, i), st);
    ChoiceRuns(c, a1, 4 + |c1|, i, st);
    if opt { CommitReuses(c, commit, 2 + skip, i, st); }
    GenCorrect(c, p1, opt, tt, FullSet(), a1 + 2, i, st1, fuel);
    var r1 := Eval(c.env, p1, c.subj, i, fuel);
    if r1.Fail? {
      c.Trans(Run(a1, i, st), Run(a1 + 2, i, st1), Run(l1, i, st));
    } else {
      if !opt {
        CommitRuns(c, commit, 2 + skip, r1.j, Choice(l1, i), st);
        c.Trans(Run(a1 + 2, i, st1), Run(commit, r1.j, st1), Run(l1 + skip, r1.j, st));
      }
      c.Trans(Run(a1, i, st), Run(a1 + 2, i, st1), Run(l1 + skip, r1.j, st));
    }
  }

  lemma ChoiceStackCase(c: Context, p1: Tree, p2: Tree, opt: bool, tt: Option<Instr>, fl: Charset, a: int, i: nat, st: Stack, fuel: nat)
    requires Given(c, TChoice(p1, p2), opt, tt, fl, a, i, st, fuel)
    requires !TestDecides(c.env, p1, p2, fl, c.d) && !(opt && p2.TTrue?)
    ensures Shown(c, TChoice(p1, p2), opt, tt, fl, a, i, st, fuel)
    decreases fuel, TChoice(p1, p2), 2
  {
    hide Has, CheckAux, HeadFail, EmitTo, GetFirst, Fits, ToCharset, FixedLen, NeedFollow, TestCode, TestFor,
      ChoiceByStack, TestDecides, Assumes, Behaves, Tested, Joins, Backtrack, Gen, Eval, WellFormed;
    OpenChoice(c, p1, p2, opt, tt, fl);
    var f1 := GetFirst(c.env, p1, FullSet(), c.d);
    ChoiceByStackLayout(c, f1, FirstBlock(c, p1, p2), c.Block(p2, opt, None, fl), a);
    ChoiceStackRuns(c, p1, p2, opt, fl, a, i, st, fuel);
  }

  function FirstBlock(c: Context, p1: Tree, p2: Tree): Code {
    c.Block(p1, p2.TTrue?, TestFor(GetFirst(c.env, p1, FullSet(), c.d)), FullSet())
  }

  /** The choice instruction of a choice compiled with one. */
  function ChoiceAt(c: Context, p1: Tree, p2: Tree, a: int): int {
    a + |TestCode(TestFor(GetFirst(c.env, p1, FullSet(), c.d)), 4 + |FirstBlock(c, p1, p2)|)|
  }

  lemma ChoiceStackRuns(c: Context, p1: Tree, p2: Tree, opt: bool, fl: Charset, a: int, i: nat, st: Stack, fuel: nat)
    requires c.Valid() && WellFormed(p1, |c.env|, c.w) && WellFormed(p2, |c.env|, c.w) && i <= |c.subj|
    requires !Eval(c.env, TChoice(p1, p2), c.subj, i, fuel).Out?
    requires var f1 := GetFirst(c.env, p1, FullSet(), c.d);
             var c1, c2 := FirstBlock(c, p1, p2), c.Block(p2, opt, None, fl);
             var a1 := ChoiceAt(c, p1, p2, a);
             && Fits(c.code, a, TestCode(TestFor(f1), 4 + |c1|), c.pos)
             && Fits(c.code, a1, EmitTo(IChoice, 4 + |c1|), c.pos)
             && Fits(c.code, a1 + 2, c1, c.pos)
             && Fits(c.code, a1 + 2 + |c1|, EmitTo(ICommit, 2 + |c2|), c.pos)
             && Fits(c.code, a1 + 4 + |c1|, c2, c.pos)
             && Assumes(c, a1 + 4 + |c1| + |c2|, opt, fl, st, Eval(c.env, TChoice(p1, p2), c.subj, i, fuel))
    ensures Behaves(c, Run(a, i, st), ChoiceAt(c, p1, p2, a) + 4 + |FirstBlock(c, p1, p2)| + |c.Block(p2, opt, None, fl)|,
                    opt, st, Eval(c.env, TChoice(p1, p2), c.subj, i, fuel))
    decreases fuel, TChoice(p1, p2), 1
  {
    hide Has, CheckAux, EmitTo, GetFirst, Fits, Gen, WellFormed, Joins, Backtrack, TestFor, TestCode, Tested;
    var f1 := GetFirst(c.env, p1, FullSet(), c.d);
    var c1, c2 := FirstBlock(c, p1, p2), c.Block(p2, opt, None, fl);
    var a1 := ChoiceAt(c, p1, p2, a);
    var l1 := a1 + 4 + |c1|;
    var pc := l1 + |c2|;
    OptionalTestRuns(c, f1, a, 4 + |c1|, i, st);
    if p2.TTrue? { EmptyBlock(c, opt, fl); }
    var r1, r2 := Eval(c.env, p1, c.subj, i, fuel), Eval(c.env, p2, c.subj, i, fuel);
    if Passes(f1, c.subj, i) {
      GuardedFirst(c, p1, p2.TTrue?, TestFor(f1), a1, |c2|, i, st, fuel);
      if r1.Ok? {
        c.Trans(Run(a, i, st), Run(a1, i, st), Run(pc, r1.j, st));
        Reaches(c, Run(a, i, st), pc, opt, fl, st, r1);
        return;
      }
      c.Trans(Run(a, i, st), Run(a1, i, st), Run(l1, i, st));
    } else {
      TestSound(c.env, p1, c.w, c.subj, i, fuel, c.d);
    }
    EmptyTested(c, i);
    GenCorrect(c, p2, opt, None, fl, l1, i, st, fuel);
    Precede(c, Run(a, i, st), Run(l1, i, st), pc, opt, st, r2);
  }

  lemma EmptyTested(c: Context, i: nat)
    ensures Tested(None, c.subj, i)
  {
  }

  // ----- loops -----

  lemma TestLoopLayout(c: Context, test: Instr, body: Code, a: int)
    requires test.HasOffset() && Fits(c.code, a, TestLoop(test, body), c.pos)
    ensures var n := test.Size() + |body|;
            && Fits(c.code, a, EmitTo(test, n + 2), c.pos)
            && Fits(c.code, a + test.Size(), body, c.pos)
            && Fits(c.code, a + n, EmitTo(IJmp, -n), c.pos)
            && |TestLoop(test, body)| == n + 2
  {
    hide Fits;
    var n := test.Size() + |body|;
    FitsSplit(c.code, a, EmitTo(test, n + 2) + body, EmitTo(IJmp, -n), c.pos);
    FitsSplit(c.code, a, EmitTo(test, n + 2), body, c.pos);
  }

  /** The loop on a test matches the repetition. */
  lemma TestLoopCase(c: Context, p: Tree, test: Instr, opt: bool, fl: Charset, a: int, i: nat, st: Stack, fuel: nat)
    requires c.Valid() && WellFormed(p, |c.env|, c.w) && i <= |c.subj|
    requires test.HasOffset() && Decides(test, GetFirst(c.env, p, FullSet(), c.d).set_)
    requires LoopByTest(c.env, p, fl, c.d)
    requires Fits(c.code, a, TestLoop(test, c.Block(p, false, Some(test), FullSet())), c.pos)
    requires !Eval(c.env, TRep(p), c.subj, i, fuel).Out?
    requires Assumes(c, a + |TestLoop(test, c.Block(p, false, Some(test), FullSet()))|, opt, fl, st, Eval(c.env, TRep(p), c.subj, i, fuel))
    ensures Behaves(c, Run(a, i, st), a + |TestLoop(test, c.Block(p, false, Some(test), FullSet()))|, opt, st,
                    Eval(c.env, TRep(p), c.subj, i, fuel))
    decreases fuel, TRep(p), 0
  {
    hide Has, SlotFits, Backtrack, CheckAux, Joins, HeadFail, EmitTo, CharsetType, GetFirst, Intersect, Fits,
      ToCharset, FixedLen, NeedFollow, Emit, FixCalls, TestCode, ChoiceLoop, TestLoop, ChoiceByStack, ChoiceByTest, Gen, WellFormed, LoopByTest, Decides, Tested;
    var f := GetFirst(c.env, p, FullSet(), c.d);
    var body := c.Block(p, false, Some(test), FullSet());
    TestLoopLayout(c, test, body, a);
    var start, n := a + test.Size(), test.Size() + |body|;
    var pc := a + n + 2;
    var r1, r := Eval(c.env, p, c.subj, i, fuel), Eval(c.env, TRep(p), c.subj, i, fuel);
    TestRuns(c, test, f.set_, a, n + 2, i, st);
    if NextIn(f.set_, c.subj, i) {
      GenCorrect(c, p, false, Some(test), FullSet(), start, i, st, fuel);
      if r1.Ok? {
        JumpRuns(c, a + n, -n, r1.j, st);
        c.Trans(Run(start, i, st), Run(a + n, r1.j, st), Run(a, r1.j, st));
        c.Trans(Run(a, i, st), Run(start, i, st), Run(a, r1.j, st));
        TestLoopCase(c, p, test, opt, fl, a, r1.j, st, fuel - 1);
        Precede(c, Run(a, i, st), Run(a, r1.j, st), pc, opt, st, r);
      } else {
        LoopTestNoMore(c, p, opt, fl, pc, i, st, fuel);
        c.Trans(Run(start, i, st), Backtrack(st), Run(pc, i, st));
        c.Trans(Run(a, i, st), Run(start, i, st), Run(pc, i, st));
        Reaches(c, Run(a, i, st), pc, opt, fl, st, r);
      }
    } else {
      LoopTestEnds(c, p, fl, i, fuel);
      Reaches(c, Run(a, i, st), pc, opt, fl, st, r);
    }
  }

  /** When the loop's test fails, so does its body. */
  lemma LoopTestEnds(c: Context, p: Tree, fl: Charset, i: nat, fuel: nat)
    requires c.Valid() && WellFormed(p, |c.env|, c.w) && i <= |c.subj|
    requires LoopByTest(c.env, p, fl, c.d)
    requires !NextIn(GetFirst(c.env, p, FullSet(), c.d).set_, c.subj, i)
    ensures !Eval(c.env, p, c.subj, i, fuel).Ok?
  {
    hide Has, HeadFail, CheckAux;
    if HeadFail(c.env, p, c.d) { HeadFailNotEmpty(c.env, p, FullSet(), c.d); }
    TestSound(c.env, p, c.w, c.subj, i, fuel, c.d);
  }

  /** When the test let the body in and it failed, giving up is what the continuation does. */
  lemma LoopTestNoMore(c: Context, p: Tree, opt: bool, fl: Charset, pc: int, i: nat, st: Stack, fuel: nat)
    requires i <= |c.subj| && LoopByTest(c.env, p, fl, c.d)
    requires NextIn(GetFirst(c.env, p, FullSet(), c.d).set_, c.subj, i)
    requires Eval(c.env, p, c.subj, i, fuel).Fail?
    requires Assumes(c, pc, opt, fl, st, Ok(i))
    ensures c.J(Backtrack(st), Run(pc, i, st))
  {
    hide Has, Backtrack, Joins, HeadFail, CheckAux;
    if HeadFail(c.env, p, c.d) { HeadFailSound(c.env, p, c.subj, i, fuel, c.d); }
    assert !Has(fl, c.subj[i]);
    c.Sym(Run(pc, i, st), Backtrack(st));
  }

  /** A span instruction matches the repetition of its set. */
  lemma SpanIsRep(c: Context, info: SetInfo, i: nat, fuel: nat)
    requires i <= |c.subj| && !Eval(c.env, TRep(TSet(info)), c.subj, i, fuel).Out?
    ensures Eval(c.env, TRep(TSet(info)), c.subj, i, fuel) == Ok(SpanEnd(Operand(info), c.subj, i))
    decreases fuel
  {
    hide Has, CharInSet;
    if i < |c.subj| { CharInSetCorrect(info, c.subj[i]); }
    if NextIn(info.Expand(), c.subj, i) { SpanIsRep(c, info, i + 1, fuel - 1); }
  }

  /** Singleton and full bodies of a loop: the test of the source's tight loop decides their sets. */
  lemma TightTestDecides(c: Context, p: Tree, test: Instr)
    requires (p.TAny? && test == ITestAny) || (p.TChar? && test == ITestChar(p.c))
    ensures Decides(test, GetFirst(c.env, p, FullSet(), c.d).set_)
    ensures c.Block(p, false, Some(test), FullSet()) == Emit(IAny)
  {
    hide Has;
  }

  lemma SpanCase(c: Context, info: SetInfo, opt: bool, tt: Option<Instr>, fl: Charset, a: int, i: nat, st: Stack, fuel: nat)
    requires Given(c, TRep(TSet(info)), opt, tt, fl, a, i, st, fuel)
    ensures Shown(c, TRep(TSet(info)), opt, tt, fl, a, i, st, fuel)
  {
    hide Has, Fits, Emit, GetFirst, CheckAux, FixedLen, CharInSet, ToCharset;
    SpanIsRep(c, info, i, fuel);
    FitsEmit(c.code, a, ISpan(Operand(info)), c.pos);
    c.One(Run(a, i, st));
    Reaches(c, Run(a, i, st), a + |Emit(ISpan(Operand(info)))|, opt, fl, st, Eval(c.env, TRep(TSet(info)), c.subj, i, fuel));
  }

  lemma RepCharsetCase(c: Context, p: Tree, opt: bool, tt: Option<Instr>, fl: Charset, a: int, i: nat, st: Stack, fuel: nat)
    requires Given(c, TRep(p), opt, tt, fl, a, i, st, fuel) && ToCharset(p).Some?
    ensures Shown(c, TRep(p), opt, tt, fl, a, i, st, fuel)
    decreases fuel, TRep(p), 1
  {
    hide Has, Backtrack, CheckAux, Joins, EmitTo, Emit, CharsetType, Fits, TestLoop, CharInSet, FixedLen,
      NeedFollow, Gen, WellFormed;
    OpenRep(c, p, opt, tt, fl);
    match p {
      case TFalse =>
        c.Refl(Run(a, i, st));
        Reaches(c, Run(a, i, st), a, opt, fl, st, Ok(i));
      case TSet(info) =>
        SpanCase(c, info, opt, tt, fl, a, i, st, fuel);
      case TAny =>
        TightTestDecides(c, p, ITestAny);
        TestLoopCase(c, p, ITestAny, opt, fl, a, i, st, fuel);
      case TChar(ch) =>
        TightTestDecides(c, p, ITestChar(ch));
        TestLoopCase(c, p, ITestChar(ch), opt, fl, a, i, st, fuel);
    }
  }

  /** The body of a loop under a choice entry: it runs as long as the body matches, saving each position,
      and leaves to the choice's target at the last one. */
  lemma PartialLoop(c: Context, p: Tree, a: int, q: int, i: nat, st: Stack, fuel: nat)
    requires c.Valid() && WellFormed(p, |c.env|, c.w) && i <= |c.subj|
    requires var body := c.Block(p, false, None, FullSet());
             Fits(c.code, a, body, c.pos) && Fits(c.code, a + |body|, EmitTo(IPartialCommit, -|body|), c.pos)
    requires Eval(c.env, TRep(p), c.subj, i, fuel).Ok?
    ensures c.J(Run(a, i, Push(Choice(q, i), st)), Run(q, Eval(c.env, TRep(p), c.subj, i, fuel).j, st))
    decreases fuel, TRep(p), 0
  {
    hide Has, SlotFits, CheckAux, Joins, EmitTo, CharsetType, Fits, Gen, WellFormed;
    var body := c.Block(p, false, None, FullSet());
    var st1 := Push(Choice(q, i), st);
    GenCorrect(c, p, false, None, FullSet(), a, i, st1, fuel);
    var r1, r := Eval(c.env, p, c.subj, i, fuel), Eval(c.env, TRep(p), c.subj, i, fuel);
    if r1.Ok? {
      FitsEmitTo(c.code, a + |body|, IPartialCommit, -|body|, c.pos);
      c.One(Run(a + |body|, r1.j, st1));
      PartialLoop(c, p, a, q, r1.j, st, fuel - 1);
      var again := Run(a, r1.j, Push(Choice(q, r1.j), st));
      c.Trans(Run(a + |body|, r1.j, st1), again, Run(q, r.j, st));
      c.Trans(Run(a, i, st1), Run(a + |body|, r1.j, st1), Run(q, r.j, st));
    }
  }

  lemma ChoiceLoopLayout(c: Context, f: First, opt: bool, body: Code, a: int)
    requires Fits(c.code, a, ChoiceLoop(TestFor(f), opt, body), c.pos)
    ensures var test := TestCode(TestFor(f), 4 + |body|);
            var a1 := a + |test|;
            && Fits(c.code, a, test, c.pos)
            && Fits(c.code, a1, if opt then EmitTo(IPartialCommit, 2) else EmitTo(IChoice, 4 + |body|), c.pos)
            && Fits(c.code, a1 + 2, body, c.pos)
            && Fits(c.code, a1 + 2 + |body|, EmitTo(IPartialCommit, -|body|), c.pos)
            && |ChoiceLoop(TestFor(f), opt, body)| == |test| + 4 + |body|
  {
    hide Fits, EmitTo, TestCode, TestFor;
    FitsSplit4(c.code, a, TestCode(TestFor(f), 4 + |body|),
               if opt then EmitTo(IPartialCommit, 2) else EmitTo(IChoice, 4 + |body|),
               body, EmitTo(IPartialCommit, -|body|), c.pos);
  }

  /** A partial commit to the next instruction saves the current position in the outer choice. */
  lemma PartialCommitRuns(c: Context, a: int, i: nat, st: Stack)
    requires Fits(c.code, a, EmitTo(IPartialCommit, 2), c.pos) && st.Push? && st.top.Choice?
    ensures c.J(Run(a, i, st), Run(a + 2, i, Push(Choice(st.top.p, i), st.rest)))
  {
    FitsEmitTo(c.code, a, IPartialCommit, 2, c.pos);
    c.One(Run(a, i, st));
  }

  lemma ChoiceLoopCase(c: Context, p: Tree, opt: bool, tt: Option<Instr>, fl: Charset, a: int, i: nat, st: Stack, fuel: nat)
    requires Given(c, TRep(p), opt, tt, fl, a, i, st, fuel)
    requires ToCharset(p).None? && !LoopByTest(c.env, p, fl, c.d)
    ensures Shown(c, TRep(p), opt, tt, fl, a, i, st, fuel)
    decreases fuel, TRep(p), 1
  {
    hide Has, SlotFits, Backtrack, CheckAux, Joins, HeadFail, EmitTo, CharsetType, GetFirst, Intersect, Fits,
      ToCharset, FixedLen, NeedFollow, Emit, FixCalls, TestCode, ChoiceLoop, TestLoop, ChoiceByStack,
      ChoiceByTest, LoopByTest, TestFor, Gen, WellFormed;
    OpenRep(c, p, opt, tt, fl);
    var f := GetFirst(c.env, p, FullSet(), c.d);
    var body := c.Block(p, false, None, FullSet());
    ChoiceLoopLayout(c, f, opt, body, a);
    var a1 := a + |TestCode(TestFor(f), 4 + |body|)|;
    var pc := a1 + 4 + |body|;
    var r := Eval(c.env, TRep(p), c.subj, i, fuel);
    NoFailSound(c.env, TRep(p), c.subj, i, fuel, c.d);
    OptionalTestRuns(c, f, a, 4 + |body|, i, st);
    if !Passes(f, c.subj, i) {
      TestSound(c.env, p, c.w, c.subj, i, fuel, c.d);
      Reaches(c, Run(a, i, st), pc, opt, fl, st, r);
    } else {
      var q, rest := if opt then st.top.p else pc, if opt then st.rest else st;
      if opt { PartialCommitRuns(c, a1, i, st); } else { ChoiceRuns(c, a1, 4 + |body|, i, st); }
      PartialLoop(c, p, a1 + 2, q, i, rest, fuel);
      c.Trans(Run(a1, i, st), Run(a1 + 2, i, Push(Choice(q, i), rest)), Run(q, r.j, rest));
      c.Trans(Run(a, i, st), Run(a1, i, st), Run(q, r.j, rest));
    }
  }

  lemma RepByTestCase(c: Context, p: Tree, opt: bool, tt: Option<Instr>, fl: Charset, a: int, i: nat, st: Stack, fuel: nat)
    requires Given(c, TRep(p), opt, tt, fl, a, i, st, fuel)
    requires ToCharset(p).None? && LoopByTest(c.env, p, fl, c.d)
    ensures Shown(c, TRep(p), opt, tt, fl, a, i, st, fuel)
    decreases fuel, TRep(p), 1
  {
    hide Has, CharsetType, GetFirst, Fits, LoopByTest, TestLoop, Decides, CheckAux, ToCharset, Gen, WellFormed;
    OpenRep(c, p, opt, tt, fl);
    var cs := GetFirst(c.env, p, FullSet(), c.d).set_;
    TestInstrDecides(cs);
    TestLoopCase(c, p, TestInstr(cs), opt, fl, a, i, st, fuel);
  }

  // ----- predicates -----

  lemma NotByTestCase(c: Context, p: Tree, opt: bool, tt: Option<Instr>, fl: Charset, a: int, i: nat, st: Stack, fuel: nat)
    requires Given(c, TNot(p), opt, tt, fl, a, i, st, fuel)
    requires HeadFail(c.env, p, c.d)
    ensures Shown(c, TNot(p), opt, tt, fl, a, i, st, fuel)
  {
    hide Has, SlotFits, CheckAux, Joins, EmitTo, CharsetType, GetFirst, Fits, FixedLen, Emit, TestCode,
      ChoiceLoop, TestLoop, ChoiceByStack, ChoiceByTest, HeadFail, TestFor, Gen, Eval, WellFormed;
    OpenNot(c, p, opt, tt, fl, i, fuel);
    var f := GetFirst(c.env, p, FullSet(), c.d);
    var test := TestCode(TestFor(f), 1);
    FitsSplit(c.code, a, test, Emit(IFail), c.pos);
    var a1 := a + |test|;
    FitsEmit(c.code, a1, IFail, c.pos);
    OptionalTestRuns(c, f, a, 1, i, st);
    HeadFailNotEmpty(c.env, p, FullSet(), c.d);
    if Passes(f, c.subj, i) {
      HeadFailSound(c.env, p, c.subj, i, fuel, c.d);
      c.One(Run(a1, i, st));
      c.Trans(Run(a, i, st), Run(a1, i, st), Backtrack(st));
    } else {
      TestSound(c.env, p, c.w, c.subj, i, fuel, c.d);
      Reaches(c, Run(a, i, st), a1 + 1, opt, fl, st, Ok(i));
    }
  }

  lemma NotByStackCase(c: Context, p: Tree, opt: bool, tt: Option<Instr>, fl: Charset, a: int, i: nat, st: Stack, fuel: nat)
    requires Given(c, TNot(p), opt, tt, fl, a, i, st, fuel)
    requires !HeadFail(c.env, p, c.d)
    ensures Shown(c, TNot(p), opt, tt, fl, a, i, st, fuel)
    decreases fuel, TNot(p), 0
  {
    hide Has, SlotFits, CheckAux, Joins, EmitTo, CharsetType, GetFirst, Fits, FixedLen, Emit, TestCode,
      ChoiceLoop, TestLoop, ChoiceByStack, ChoiceByTest, TestFor, Gen, Eval, WellFormed;
    OpenNot(c, p, opt, tt, fl, i, fuel);
    var f := GetFirst(c.env, p, FullSet(), c.d);
    var body := c.Block(p, false, None, FullSet());
    var test := TestCode(TestFor(f), 3 + |body|);
    FitsSplit4(c.code, a, test, EmitTo(IChoice, 3 + |body|), body, Emit(IFailTwice), c.pos);
    var a1 := a + |test|;
    var pc := a1 + 3 + |body|;
    OptionalTestRuns(c, f, a, 3 + |body|, i, st);
    if Passes(f, c.subj, i) {
      NegatedBody(c, p, a1, i, st, fuel);
      if Eval(c.env, p, c.subj, i, fuel).Ok? {
        c.Trans(Run(a, i, st), Run(a1, i, st), Backtrack(st));
      } else {
        c.Trans(Run(a, i, st), Run(a1, i, st), Run(pc, i, st));
        Reaches(c, Run(a, i, st), pc, opt, fl, st, Ok(i));
      }
    } else {
      TestSound(c.env, p, c.w, c.subj, i, fuel, c.d);
      Reaches(c, Run(a, i, st), pc, opt, fl, st, Ok(i));
    }
  }

  /** choice L1; p; failtwice; L1: -- goes on at L1 exactly when p fails. */
  lemma NegatedBody(c: Context, p: Tree, a: int, i: nat, st: Stack, fuel: nat)
    requires c.Valid() && WellFormed(p, |c.env|, c.w) && i <= |c.subj|
    requires var body := c.Block(p, false, None, FullSet());
             && Fits(c.code, a, EmitTo(IChoice, 3 + |body|), c.pos)
             && Fits(c.code, a + 2, body, c.pos)
             && Fits(c.code, a + 2 + |body|, Emit(IFailTwice), c.pos)
    requires !Eval(c.env, p, c.subj, i, fuel).Out?
    ensures var r1 := Eval(c.env, p, c.subj, i, fuel);
            && (r1.Ok? ==> c.J(Run(a, i, st), Backtrack(st)))
            && (r1.Fail? ==> c.J(Run(a, i, st), Run(a + 3 + |c.Block(p, false, None, FullSet())|, i, st)))
    decreases fuel, p, 4
  {
    hide Has, SlotFits, CheckAux, Joins, EmitTo, CharsetType, Fits, Gen, WellFormed, Emit;
    var body := c.Block(p, false, None, FullSet());
    var pc := a + 3 + |body|;
    var st1 := Push(Choice(pc, i), st);
    ChoiceRuns(c, a, 3 + |body|, i, st);
    GenCorrect(c, p, false, None, FullSet(), a + 2, i, st1, fuel);
    var r1 := Eval(c.env, p, c.subj, i, fuel);
    if r1.Ok? {
      FitsEmit(c.code, a + 2 + |body|, IFailTwice, c.pos);
      c.One(Run(a + 2 + |body|, r1.j, st1));
      c.Trans(Run(a + 2, i, st1), Run(a + 2 + |body|, r1.j, st1), Backtrack(st));
      c.Trans(Run(a, i, st), Run(a + 2, i, st1), Backtrack(st));
    } else {
      c.Trans(Run(a, i, st), Run(a + 2, i, st1), Run(pc, i, st));
    }
  }

  /** A look-behind step: back n characters, or failure. */
  lemma BehindRuns(c: Context, a: int, n: nat, j: nat, st: Stack)
    requires Fits(c.code, a, if n > 0 then Emit(IBehind(n)) else [], c.pos)
    ensures j >= n ==> c.J(Run(a, j, st), Run(a + (if n > 0 then 1 else 0), j - n, st))
    ensures j < n ==> c.J(Run(a, j, st), Backtrack(st))
  {
    if n > 0 {
      FitsEmit(c.code, a, IBehind(n), c.pos);
      c.One(Run(a, j, st));
    } else {
      c.Refl(Run(a, j, st));
    }
  }

  lemma AndFixedCase(c: Context, p: Tree, opt: bool, tt: Option<Instr>, fl: Charset, a: int, i: nat, st: Stack, fuel: nat)
    requires Given(c, TAnd(p), opt, tt, fl, a, i, st, fuel)
    requires 0 <= FixedLen(c.env, p, c.d) <= MAXBEHIND
    ensures Shown(c, TAnd(p), opt, tt, fl, a, i, st, fuel)
    decreases fuel, TAnd(p), 0
  {
    hide Has, CheckAux, Joins, GetFirst, Fits, FixedLen, Emit, Tested, Backtrack, ToCharset, NeedFollow, Gen,
      Eval, WellFormed, Context.RuleAt;
    OpenAnd(c, p, opt, tt, fl, i, fuel);
    var n := FixedLen(c.env, p, c.d);
    var body := c.Block(p, false, tt, FullSet());
    var back := if n > 0 then Emit(IBehind(n)) else [];
    FitsSplit(c.code, a, body, back, c.pos);
    GenCorrect(c, p, false, tt, FullSet(), a, i, st, fuel);
    var r1 := Eval(c.env, p, c.subj, i, fuel);
    if r1.Ok? {
      ProgressSound(c.env, p, c.w, c.subj, i, fuel, c.d);
      var a1, pc := a + |body|, a + |body| + |back|;
      BehindRuns(c, a1, n, r1.j, st);
      c.Trans(Run(a, i, st), Run(a1, r1.j, st), Run(pc, i, st));
      Reaches(c, Run(a, i, st), pc, opt, fl, st, Ok(i));
    }
  }

  lemma AndByStackCase(c: Context, p: Tree, opt: bool, tt: Option<Instr>, fl: Charset, a: int, i: nat, st: Stack, fuel: nat)
    requires Given(c, TAnd(p), opt, tt, fl, a, i, st, fuel)
    requires !(0 <= FixedLen(c.env, p, c.d) <= MAXBEHIND)
    ensures Shown(c, TAnd(p), opt, tt, fl, a, i, st, fuel)
    decreases fuel, TAnd(p), 0
  {
    hide Has, EmitTo, Fits, Emit, FixedLen, GetFirst, CheckAux, Backtrack, Tested, Gen, Eval, WellFormed;
    OpenAnd(c, p, opt, tt, fl, i, fuel);
    var body := c.Block(p, false, tt, FullSet());
    FitsSplit4(c.code, a, EmitTo(IChoice, 4 + |body|), body, EmitTo(IBackCommit, 3), Emit(IFail), c.pos);
    AndedBody(c, p, tt, a, i, st, fuel);
    if Eval(c.env, p, c.subj, i, fuel).Ok? {
      Reaches(c, Run(a, i, st), a + 5 + |body|, opt, fl, st, Ok(i));
    }
  }

  /** choice L1; p; backcommit L2; L1: fail; L2: -- goes on at L2 and i exactly when p succeeds. */
  lemma AndedBody(c: Context, p: Tree, tt: Option<Instr>, a: int, i: nat, st: Stack, fuel: nat)
    requires c.Valid() && WellFormed(p, |c.env|, c.w) && i <= |c.subj| && Tested(tt, c.subj, i)
    requires var body := c.Block(p, false, tt, FullSet());
             && Fits(c.code, a, EmitTo(IChoice, 4 + |body|), c.pos)
             && Fits(c.code, a + 2, body, c.pos)
             && Fits(c.code, a + 2 + |body|, EmitTo(IBackCommit, 3), c.pos)
             && Fits(c.code, a + 4 + |body|, Emit(IFail), c.pos)
    requires !Eval(c.env, p, c.subj, i, fuel).Out?
    ensures var r1 := Eval(c.env, p, c.subj, i, fuel);
            && (r1.Ok? ==> c.J(Run(a, i, st), Run(a + 5 + |c.Block(p, false, tt, FullSet())|, i, st)))
            && (r1.Fail? ==> c.J(Run(a, i, st), Backtrack(st)))
    decreases fuel, p, 4
  {
    hide Has, EmitTo, Fits, Emit, Gen, WellFormed, Joins, Tested;
    var body := c.Block(p, false, tt, FullSet());
    var back, l1 := a + 2 + |body|, a + 4 + |body|;
    var st1 := Push(Choice(l1, i), st);
    ChoiceRuns(c, a, 4 + |body|, i, st);
    GenCorrect(c, p, false, tt, FullSet(), a + 2, i, st1, fuel);
    var r1 := Eval(c.env, p, c.subj, i, fuel);
    if r1.Ok? {
      FitsEmitTo(c.code, back, IBackCommit, 3, c.pos);
      c.One(Run(back, r1.j, st1));
      c.Trans(Run(a + 2, i, st1), Run(back, r1.j, st1), Run(l1 + 1, i, st));
      c.Trans(Run(a, i, st), Run(a + 2, i, st1), Run(l1 + 1, i, st));
    } else {
      FitsEmit(c.code, l1, IFail, c.pos);
      c.One(Run(l1, i, st));
      c.Trans(Run(a + 2, i, st1), Run(l1, i, st), Backtrack(st));
      c.Trans(Run(a, i, st), Run(a + 2, i, st1), Backtrack(st));
    }
  }

  // ----- look-behind and calls -----

  lemma BehindCase(c: Context, n: nat, p: Tree, opt: bool, tt: Option<Instr>, fl: Charset, a: int, i: nat, st: Stack, fuel: nat)
    requires Given(c, TBehind(n, p), opt, tt, fl, a, i, st, fuel)
    ensures Shown(c, TBehind(n, p), opt, tt, fl, a, i, st, fuel)
    decreases fuel, TBehind(n, p), 0
  {
    hide Has, Fits, Emit, GetFirst, CheckAux, FixedLen, Joins, Backtrack, CharsetType, Gen, Eval, WellFormed;
    OpenBehind(c, n, p, opt, tt, fl, i, fuel);
    var back := if n > 0 then Emit(IBehind(n)) else [];
    var c0 := c.(env := [], pos := []);
    var body := c0.Block(p, false, None, FullSet());
    FitsSplit(c.code, a, back, body, c.pos);
    GenTidy([], p, false, None, FullSet(), c.d, 0, c.w);
    FitsClosed(c.code, a + |back|, body, c.pos);
    BehindRuns(c, a, n, i, st);
    if i >= n {
      var a1 := a + |back|;
      var r := Eval([], p, c.subj, i - n, fuel);
      GenCorrect(c0, p, false, None, FullSet(), a1, i - n, st, fuel);
      if r.Ok? {
        c.Trans(Run(a, i, st), Run(a1, i - n, st), Run(a1 + |body|, r.j, st));
        Reaches(c, Run(a, i, st), a1 + |body|, opt, fl, st, r);
      } else {
        c.Trans(Run(a, i, st), Run(a1, i - n, st), Backtrack(st));
      }
    }
  }

  /** A closed block fits whatever the rules in scope are. */
  lemma FitsClosed(code: Code, a: int, b: Code, pos: seq<int>)
    requires Fits(code, a, b, pos) && Tidy(b, 0)
    ensures Fits(code, a, b, [])
  {
    forall k | 0 <= k < |b| ensures SlotFits(code, a + k, b[k], []) {
      assert SlotFits(code, a + k, b[k], pos);
    }
  }

  /** Jumps join their targets. */
  lemma JumpsJoin(c: Context, p: int, bound: nat, j: nat, st: Stack)
    ensures c.J(Run(p, j, st), Run(FinalTarget(c.code, p, bound), j, st))
    decreases bound
  {
    c.Refl(Run(p, j, st));
    if bound > 0 && IsOp(c.code, p) && c.code[p].op.IJmp? && HasTarget(c.code, p) {
      JumpsJoin(c, Target(c.code, p), bound - 1, j, st);
      c.One(Run(p, j, st));
      c.Trans(Run(p, j, st), Run(Target(c.code, p), j, st), Run(FinalTarget(c.code, p, bound), j, st));
    }
  }

  /** Two returns do the same, so a tail call may return straight to its caller's caller. */
  lemma ReturnsJoin(c: Context, p: int, q: int, j: nat, st: Stack)
    requires IsRet(c.code, p) && IsRet(c.code, q)
    ensures c.J(Run(p, j, st), Run(q, j, st))
  {
    c.One(Run(p, j, st));
    c.One(Run(q, j, st));
    c.Sym(Run(q, j, st), c.Next(Run(q, j, st)));
    c.Trans(Run(p, j, st), c.Next(Run(p, j, st)), Run(q, j, st));
  }

  lemma CallCase(c: Context, n: nat, opt: bool, tt: Option<Instr>, fl: Charset, a: int, i: nat, st: Stack, fuel: nat)
    requires Given(c, TCall(n), opt, tt, fl, a, i, st, fuel)
    ensures Shown(c, TCall(n), opt, tt, fl, a, i, st, fuel)
    decreases fuel, TCall(n), 0
  {
    hide Has, GetFirst, CheckAux, FixedLen, Joins, CharsetType, Tested, Gen;
    var r := Eval(c.env, c.env[n], c.subj, i, fuel - 1);
    CallBlock(c, n, opt, tt, fl, a);
    assert c.RuleAt(n);
    var b := c.Block(c.env[n], false, None, FullSet());
    var rule, ret := c.pos[n], c.pos[n] + |b|;
    if c.code[a].op.ICall? {
      var st1 := Push(Ret(a + 2), st);
      c.One(Run(a, i, st));
      EmptyTested(c, i);
      GenCorrect(c, c.env[n], false, None, FullSet(), rule, i, st1, fuel - 1);
      if r.Ok? {
        c.One(Run(ret, r.j, st1));
        c.Trans(Run(rule, i, st1), Run(ret, r.j, st1), Run(a + 2, r.j, st));
        c.Trans(Run(a, i, st), Run(rule, i, st1), Run(a + 2, r.j, st));
      } else {
        c.Trans(Run(a, i, st), Run(rule, i, st1), Backtrack(st));
      }
    } else {
      TailCall(c, n, a, i, st, fuel);
    }
    if r.Ok? { Reaches(c, Run(a, i, st), a + 2, opt, fl, st, r); }
  }

  lemma CallBlock(c: Context, n: nat, opt: bool, tt: Option<Instr>, fl: Charset, a: int)
    requires Fits(c.code, a, c.Block(TCall(n), opt, tt, fl), c.pos)
    ensures n < |c.pos| && CallSite(c.code, a, c.pos[n]) && |c.Block(TCall(n), opt, tt, fl)| == 2
  {
    assert c.Block(TCall(n), opt, tt, fl)[0] == Op(IOpenCall(n));
    assert SlotFits(c.code, a + 0, c.Block(TCall(n), opt, tt, fl)[0], c.pos);
  }

  lemma TailCall(c: Context, n: nat, a: int, i: nat, st: Stack, fuel: nat)
    requires c.Valid() && n < |c.env| && i <= |c.subj| && fuel > 0
    requires CallSite(c.code, a, c.pos[n]) && c.code[a].op.IJmp?
    requires !Eval(c.env, c.env[n], c.subj, i, fuel - 1).Out?
    ensures var r := Eval(c.env, c.env[n], c.subj, i, fuel - 1);
            && (r.Ok? ==> c.J(Run(a, i, st), Run(a + 2, r.j, st)))
            && (r.Fail? ==> c.J(Run(a, i, st), Backtrack(st)))
    decreases fuel - 1, c.env[n], 4
  {
    hide Has, GetFirst, CheckAux, FixedLen, Joins, CharsetType, Tested, Gen, FinalTarget;
    var r := Eval(c.env, c.env[n], c.subj, i, fuel - 1);
    assert c.RuleAt(n);
    var rule, ret := c.pos[n], c.pos[n] + |c.Block(c.env[n], false, None, FullSet())|;
    c.One(Run(a, i, st));
    EmptyTested(c, i);
    GenCorrect(c, c.env[n], false, None, FullSet(), rule, i, st, fuel - 1);
    if r.Ok? {
      var bound: nat :| IsRet(c.code, FinalTarget(c.code, a + 2, bound));
      var q := FinalTarget(c.code, a + 2, bound);
      JumpsJoin(c, a + 2, bound, r.j, st);
      c.Sym(Run(a + 2, r.j, st), Run(q, r.j, st));
      ReturnsJoin(c, ret, q, r.j, st);
      c.Trans(Run(ret, r.j, st), Run(q, r.j, st), Run(a + 2, r.j, st));
      c.Trans(Run(rule, i, st), Run(ret, r.j, st), Run(a + 2, r.j, st));
      c.Trans(Run(a, i, st), Run(rule, i, st), Run(a + 2, r.j, st));
    } else {
      c.Trans(Run(a, i, st), Run(rule, i, st), Backtrack(st));
    }
  }

  // ----- grammars -----

  /** The setting inside a grammar whose block sits at a. */
  function Inside(c: Context, rs: seq<Tree>, a: int): Context {
    c.(env := rs, pos := Shift(Positions(rs, rs, 4, c.d), a))
  }

  lemma GrammarSetting(c: Context, rs: seq<Tree>, opt: bool, tt: Option<Instr>, fl: Charset, a: int)
    requires WellFormed(TGrammar(rs), |c.env|, c.w)
    requires Fits(c.code, a, c.Block(TGrammar(rs), opt, tt, fl), c.pos)
    ensures Inside(c, rs, a).Valid()
    ensures Fits(c.code, a, GrammarRaw(rs, c.d), Inside(c, rs, a).pos)
    ensures |c.Block(TGrammar(rs), opt, tt, fl)| == |GrammarRaw(rs, c.d)|
  {
    hide Fits, Tidy, FixCalls, Gen, EmitTo;
    var raw, rel := GrammarRaw(rs, c.d), Positions(rs, rs, 4, c.d);
    RawBlock(c, rs, opt, tt, fl);
    RawTidy(rs, c.d, c.w);
    RawHead(rs, c.d);
    RawFits(c.code, a, raw, rel, 4, c.pos);
    var c1 := Inside(c, rs, a);
    var bodies := GenRules(rs, rs, c.d);
    FitsSplit(c.code, a, EmitTo(ICall, 4) + EmitTo(IJmp, 2 + |bodies|), bodies, c1.pos);
    forall n | 0 <= n < |rs| ensures c1.RuleAt(n) {
      RulesPlaced(c.code, a, 4, rs, rs, c1.pos, c.d, n);
    }
  }

  lemma RawBlock(c: Context, rs: seq<Tree>, opt: bool, tt: Option<Instr>, fl: Charset)
    ensures c.Block(TGrammar(rs), opt, tt, fl) == FixCalls(GrammarRaw(rs, c.d), Positions(rs, rs, 4, c.d), 4)
  {
  }

  lemma RawHead(rs: seq<Tree>, d: nat)
    ensures forall m :: 0 <= m < 4 && m < |GrammarRaw(rs, d)| ==> !Open(GrammarRaw(rs, d)[m])
  {
    var raw := GrammarRaw(rs, d);
    assert raw[0] == Op(ICall) && raw[1] == Off(4) && raw[2] == Op(IJmp) && raw[3].Off?;
  }

  lemma GrammarCase(c: Context, rs: seq<Tree>, opt: bool, tt: Option<Instr>, fl: Charset, a: int, i: nat, st: Stack, fuel: nat)
    requires Given(c, TGrammar(rs), opt, tt, fl, a, i, st, fuel)
    ensures Shown(c, TGrammar(rs), opt, tt, fl, a, i, st, fuel)
    decreases fuel, TGrammar(rs), 0
  {
    hide Has, Fits, Gen, FixCalls, EmitTo, Joins, GetFirst, Tested;
    GrammarSetting(c, rs, opt, tt, fl, a);
    var c1 := Inside(c, rs, a);
    var bodies := GenRules(rs, rs, c.d);
    FitsSplit4(c.code, a, EmitTo(ICall, 4), EmitTo(IJmp, 2 + |bodies|), bodies, [], c1.pos) by {
      assert EmitTo(ICall, 4) + EmitTo(IJmp, 2 + |bodies|) + bodies + [] == GrammarRaw(rs, c.d);
    }
    FitsEmitTo(c.code, a, ICall, 4, c1.pos);
    assert c1.RuleAt(0) && c1.pos[0] == a + 4;
    var b := c1.Block(rs[0], false, None, FullSet());
    var ret, st1 := a + 4 + |b|, Push(Ret(a + 2), st);
    var r := Eval(rs, rs[0], c.subj, i, fuel);
    c.One(Run(a, i, st));
    EmptyTested(c, i);
    GenCorrect(c1, rs[0], false, None, FullSet(), a + 4, i, st1, fuel);
    if r.Ok? {
      var pc := a + 4 + |bodies|;
      c.One(Run(ret, r.j, st1));
      JumpRuns(c1, a + 2, 2 + |bodies|, r.j, st);
      c.Trans(Run(ret, r.j, st1), Run(a + 2, r.j, st), Run(pc, r.j, st));
      c.Trans(Run(a + 4, i, st1), Run(ret, r.j, st1), Run(pc, r.j, st));
      c.Trans(Run(a, i, st), Run(a + 4, i, st1), Run(pc, r.j, st));
      Reaches(c, Run(a, i, st), pc, opt, fl, st, r);
    } else {
      c.Trans(Run(a, i, st), Run(a + 4, i, st1), Backtrack(st));
    }
  }

  /** The code of a pattern, wherever it lies and whatever follows it: from its first instruction the machine comes
      to the end of the code at j when the pattern matches up to j, and backtracks when it fails. What follows is
      assumed to fail outside the follow set, or the choice on top of the stack to lead to what follows. */
  lemma GenCorrect(c: Context, t: Tree, opt: bool, tt: Option<Instr>, fl: Charset, a: int, i: nat, st: Stack, fuel: nat)
    requires Given(c, t, opt, tt, fl, a, i, st, fuel)
    ensures Shown(c, t, opt, tt, fl, a, i, st, fuel)
    decreases fuel, t, 3
  {
    hide Assumes, Behaves, Fits, Gen, Has, GetFirst, CheckAux, FixedLen, CharsetType, Tested;
    match t
    case TSeq(p1, p2) => SeqCase(c, p1, p2, opt, tt, fl, a, i, st, fuel);
    case TRep(p) =>
      if ToCharset(p).Some? { RepCharsetCase(c, p, opt, tt, fl, a, i, st, fuel); }
      else if LoopByTest(c.env, p, fl, c.d) {
        RepByTestCase(c, p, opt, tt, fl, a, i, st, fuel);
      }
      else { ChoiceLoopCase(c, p, opt, tt, fl, a, i, st, fuel); }
    case TChoice(p1, p2) =>
      if TestDecides(c.env, p1, p2, fl, c.d) { ChoiceTestCase(c, p1, p2, opt, tt, fl, a, i, st, fuel); }
      else if opt && p2.TTrue? { ChoicePartialCase(c, p1, opt, tt, fl, a, i, st, fuel); }
      else { ChoiceStackCase(c, p1, p2, opt, tt, fl, a, i, st, fuel); }
    case TNot(p) =>
      if HeadFail(c.env, p, c.d) { NotByTestCase(c, p, opt, tt, fl, a, i, st, fuel); }
      else { NotByStackCase(c, p, opt, tt, fl, a, i, st, fuel); }
    case TAnd(p) =>
      if 0 <= FixedLen(c.env, p, c.d) <= MAXBEHIND { AndFixedCase(c, p, opt, tt, fl, a, i, st, fuel); }
      else { AndByStackCase(c, p, opt, tt, fl, a, i, st, fuel); }
    case TBehind(n, p) => BehindCase(c, n, p, opt, tt, fl, a, i, st, fuel);
    case TCall(n) => CallCase(c, n, opt, tt, fl, a, i, st, fuel);
    case TGrammar(rules) => GrammarCase(c, rules, opt, tt, fl, a, i, st, fuel);
    case _ => LeafCase(c, t, opt, tt, fl, a, i, st, fuel);
  }

  // ----- whole patterns -----

  /** The generated code of a pattern, before the peephole pass, answers on every subject what the
      pattern means there: it halts at IEnd at j when the pattern matches up to j, and at IGiveup when it fails. */
  lemma GenPatternCorrect(t: Tree, w: nat, d: nat, subj: seq<Byte>, i: nat, fuel: nat)
    requires WellFormed(t, 0, w) && i <= |subj| && !Eval([], t, subj, i, fuel).Out?
    ensures Halts(GenPattern(t, d), subj, Start(i), Eval([], t, subj, i, fuel))
  {
    hide Joins, Tidy, Gen;
    var code := GenPattern(t, d);
    var c := Context(code, subj, [], [], w, d);
    var st := Push(Choice(GIVEUP, i), Empty);
    var b := Gen([], t, false, None, FullSet(), d);
    GenTidy([], t, false, None, FullSet(), d, 0, w);
    PatternFits(b);
    EmptyTested(c, i);
    GenCorrect(c, t, false, None, FullSet(), 0, i, st, fuel);
    var r := Eval([], t, subj, i, fuel);
    if r.Ok? {
      c.One(Run(|b|, r.j, st));
      c.Trans(Start(i), Run(|b|, r.j, st), Done(r));
    } else {
      c.One(Run(GIVEUP, i, Empty));
      c.Trans(Start(i), Run(GIVEUP, i, Empty), Done(r));
    }
    JoinDone(code, subj, Start(i), r);
  }

  lemma PatternFits(b: Code)
    requires Tidy(b, 0)
    ensures Fits(b + Emit(IEnd), 0, b, []) && IsOp(b + Emit(IEnd), |b|) && (b + Emit(IEnd))[|b|].op == IEnd
  {
    var code := b + Emit(IEnd);
    forall k | 0 <= k < |b| ensures SlotFits(code, 0 + k, b[k], []) { assert code[k] == b[k]; }
  }
}
