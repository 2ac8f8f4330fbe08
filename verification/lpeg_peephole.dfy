/** The peephole pass of lpcode.c, and why the code it rewrites means the same. */
module Peepholes {
  import opened Charsets
  import opened Trees
  import opened Analysis
  import opened Machine
  import opened Codegen
  import opened Jumps
  import CompilerProof

  /** finallabel */
  function FinalLabel(code: Code, i: int): int
    requires HasTarget(code, i)
  {
    FinalTarget(code, Target(code, i), |code|)
  }

  /** Instructions with an unconditional implicit jump, and with an unconditional explicit one. */
  predicate LeavesAway(i: Instr) { i.IRet? || i.IFail? || i.IFailTwice? || i.IEnd? }

  predicate CommitsAway(i: Instr) { i.ICommit? || i.IPartialCommit? || i.IBackCommit? }

  predicate Labelled(i: Instr) {
    CommitsAway(i) || i.IChoice? || i.ICall? || i.ITestChar? || i.ITestSet? || i.ITestAny?
  }

  /** Send the label of the instruction at i to its final destination. */
  function Relabel(code: Code, i: nat): (r: Code)
    requires HasTarget(code, i)
    ensures |r| == |code|
  {
    code[i + 1 := Off(FinalLabel(code, i) - i)]
  }

  /** The jump at i replaced by the commit at ft it leads to. */
  function Committed(code: Code, i: nat, ft: int): Code
    requires IsOp(code, i) && HasTarget(code, i) && IsOp(code, ft) && HasTarget(code, ft)
  {
    code[i := code[ft]][i + 1 := Off(FinalLabel(code, ft) - i)]
  }

  /** One iteration of the pass, with its redo: a jump to a commit becomes that commit, whose label is
      then optimized again. */
  function PeepAt(code: Code, i: nat): (r: Code)
    requires IsOp(code, i)
    ensures |r| == |code| && IsOp(r, i)
  {
    if !HasTarget(code, i) then code
    else if Labelled(code[i].op) then Relabel(code, i)
    else if code[i].op.IJmp? then
      var ft := FinalTarget(code, i, |code|);
      if IsOp(code, ft) && LeavesAway(code[ft].op) then code[i := code[ft]][i + 1 := Op(IEmpty)]
      else if IsOp(code, ft) && CommitsAway(code[ft].op) && HasTarget(code, ft) then
        Relabel(Committed(code, i, ft), i)
      else code[i + 1 := Off(ft - i)]
    else code
  }

  /** peephole, from instruction i on. */
  function Peephole(code: Code, i: nat): (r: Code)
    ensures |r| == |code|
    decreases |code| - i
  {
    if i >= |code| then code
    else if !code[i].Op? then Peephole(code, i + 1)
    else
      var c := PeepAt(code, i);
      Peephole(c, i + c[i].op.Size())
  }

  /** compile */
  function Compile(t: Tree, d: nat): Code {
    Peephole(GenPattern(t, d), 0)
  }

  // ----- states that differ by pending jumps -----

  ghost predicate EntryRel(code: Code, e: Entry, f: Entry) {
    match (e, f)
    case (Choice(p, s), Choice(q, u)) => s == u && JumpsTo(code, p, q)
    case (Ret(p), Ret(q)) => JumpsTo(code, p, q)
    case _ => false
  }

  ghost predicate StackRel(code: Code, x: Stack, y: Stack) {
    match (x, y)
    case (Empty, Empty) => true
    case (Push(e, r), Push(f, u)) => EntryRel(code, e, f) && StackRel(code, r, u)
    case _ => false
  }

  ghost predicate StateRel(code: Code, x: State, y: State) {
    match (x, y)
    case (Run(p, s, st), Run(q, u, su)) => JumpsTo(code, p, q) && s == u && StackRel(code, st, su)
    case (Done(a), Done(b)) => a == b
    case (Stuck, Stuck) => true
    case _ => false
  }

  lemma StackSelf(code: Code, st: Stack)
    ensures StackRel(code, st, st)
  {
    if st.Push? {
      JumpsToSelf(code, st.top.p);
      StackSelf(code, st.rest);
    }
  }

  lemma BacktrackRel(code: Code, x: Stack, y: Stack)
    requires StackRel(code, x, y)
    ensures StateRel(code, Backtrack(x), Backtrack(y))
  {
  }

  /** The instruction at q of c2 does what the one at p of code does, up to pending jumps of code. */
  ghost predicate SameOp(code: Code, p: int, c2: Code, q: int) {
    && IsOp(code, p) && IsOp(c2, q) && c2[q].op == code[p].op
    && (LeavesAway(code[p].op)
        || (&& HasTarget(c2, q) == HasTarget(code, p)
            && (HasTarget(code, p) ==> JumpsTo(code, Target(code, p), Target(c2, q)))
            && (p == q || CommitsAway(code[p].op))))
  }

  lemma ExecuteRel(code: Code, p: int, c2: Code, q: int, subj: seq<Byte>, s: nat, st: Stack, su: Stack)
    requires SameOp(code, p, c2, q) && StackRel(code, st, su)
    ensures StateRel(code, Execute(code, subj, p, s, st), Execute(c2, subj, q, s, su))
  {
    hide CharInSet, JumpsTo;
    BacktrackRel(code, st, su);
    if st.Push? { BacktrackRel(code, st.rest, su.rest); }
    forall k: int ensures JumpsTo(code, k, k) { JumpsToSelf(code, k); }
  }

  // ----- one rewrite -----

  /** c2 is code with the instruction at i replaced by the one jumps lead to from i (at ft), or
      with its label moved along jumps. */
  ghost predicate Rewrite(code: Code, c2: Code, i: int, ft: int) {
    && |c2| == |code| && JumpsTo(code, i, ft)
    && SameOp(code, ft, c2, i)
    && IsOp(code, i) && HasTarget(code, i)
    && (c2[i + 1].Off? || c2[i + 1] == Op(IEmpty))
    && forall k :: 0 <= k < |code| && k != i && k != i + 1 ==> c2[k] == code[k]
  }

  lemma RewriteElsewhere(code: Code, c2: Code, i: int, ft: int, p: int, subj: seq<Byte>, s: nat, st: Stack)
    requires Rewrite(code, c2, i, ft) && p != i
    ensures Step(c2, subj, Run(p, s, st)) == Step(code, subj, Run(p, s, st))
  {
    hide CharInSet, JumpsTo, FinalTarget, SpanEnd, InOperand, Backtrack;
    if p != GIVEUP && IsOp(code, p) {
      assert IsOp(c2, p) && c2[p] == code[p];
      assert HasTarget(code, p) == HasTarget(c2, p);
      assert HasTarget(code, p) ==> code[p + 1] == c2[p + 1];
    }
  }

  /** Away from the rewrite, related states step to related states. */
  lemma StepRel(code: Code, c2: Code, i: int, ft: int, p: int, subj: seq<Byte>, s: nat, st: Stack, su: Stack)
    requires Rewrite(code, c2, i, ft) && StackRel(code, st, su) && p != i
    ensures StateRel(code, Step(code, subj, Run(p, s, st)), Step(c2, subj, Run(p, s, su)))
  {
    hide Execute, Rewrite;
    RewriteElsewhere(code, c2, i, ft, p, subj, s, su);
    if p != GIVEUP && IsOp(code, p) {
      if HasTarget(code, p) { JumpsToSelf(code, Target(code, p)); }
      ExecuteRel(code, p, code, p, subj, s, st, su);
    }
  }

  /** Pending jumps can be taken first. */
  lemma SkipJumps(code: Code, subj: seq<Byte>, p: int, bound: nat, s: nat, st: Stack, n: nat, r: Result) returns (m: nat)
    requires Steps(code, subj, Run(p, s, st), n) == Done(r)
    ensures m <= n && Steps(code, subj, Run(FinalTarget(code, p, bound), s, st), m) == Done(r)
    decreases bound
  {
    if bound > 0 && IsJump(code, p) {
      m := SkipJumps(code, subj, Target(code, p), bound - 1, s, st, n - 1, r);
    } else {
      m := n;
    }
  }

  lemma TakeJumps(code: Code, subj: seq<Byte>, p: int, bound: nat, s: nat, st: Stack, r: Result)
    requires Halts(code, subj, Run(FinalTarget(code, p, bound), s, st), r)
    ensures Halts(code, subj, Run(p, s, st), r)
    decreases bound
  {
    if bound > 0 && IsJump(code, p) {
      TakeJumps(code, subj, Target(code, p), bound - 1, s, st, r);
      Before(code, subj, Run(p, s, st), r);
    }
  }

  lemma Before(code: Code, subj: seq<Byte>, x: State, r: Result)
    requires Halts(code, subj, Step(code, subj, x), r)
    ensures Halts(code, subj, x, r)
  {
    var n: nat :| Steps(code, subj, Step(code, subj, x), n) == Done(r);
    assert Steps(code, subj, x, n + 1) == Done(r);
  }

  lemma AtOnce(code: Code, subj: seq<Byte>, r: Result)
    ensures Halts(code, subj, Done(r), r)
  {
    assert Steps(code, subj, Done(r), 0) == Done(r);
  }

  /** A halting run of the original is matched by the rewritten code. */
  lemma Forward(code: Code, c2: Code, i: int, ft: int, subj: seq<Byte>, x: State, y: State, n: nat, r: Result)
    requires Rewrite(code, c2, i, ft) && StateRel(code, x, y) && Steps(code, subj, x, n) == Done(r)
    ensures Halts(c2, subj, y, r)
    decreases n
  {
    hide Execute, Rewrite, SameOp, FinalTarget, StackRel, Backtrack;
    if !x.Run? {
      AtOnce(c2, subj, r);
    } else {
      var bound: nat :| FinalTarget(code, x.p, bound) == y.p;
      var m := SkipJumps(code, subj, x.p, bound, x.s, x.st, n, r);
      var q := y.p;
      if q != i {
        StepRel(code, c2, i, ft, q, subj, x.s, x.st, y.st);
        Forward(code, c2, i, ft, subj, Step(code, subj, Run(q, x.s, x.st)), Step(c2, subj, y), m - 1, r);
      } else {
        ForwardAt(code, c2, i, ft, subj, x.s, x.st, y.st, m, r);
      }
      if q != i { Before(c2, subj, y, r); }
    }
  }

  lemma ForwardAt(code: Code, c2: Code, i: int, ft: int, subj: seq<Byte>, s: nat, st: Stack, su: Stack, n: nat, r: Result)
    requires Rewrite(code, c2, i, ft) && StackRel(code, st, su) && Steps(code, subj, Run(i, s, st), n) == Done(r)
    ensures Halts(c2, subj, Run(i, s, su), r)
    decreases n, 0
  {
    hide Execute, FinalTarget, StackRel, Backtrack;
    var bound: nat :| FinalTarget(code, i, bound) == ft;
    var m := SkipJumps(code, subj, i, bound, s, st, n, r);
    ExecuteRel(code, ft, c2, i, subj, s, st, su);
    Forward(code, c2, i, ft, subj, Execute(code, subj, ft, s, st), Execute(c2, subj, i, s, su), m - 1, r);
    Before(c2, subj, Run(i, s, su), r);
  }

  /** And the other way round. */
  lemma Backward(code: Code, c2: Code, i: int, ft: int, subj: seq<Byte>, x: State, y: State, n: nat, r: Result)
    requires Rewrite(code, c2, i, ft) && StateRel(code, x, y) && Steps(c2, subj, y, n) == Done(r)
    ensures Halts(code, subj, x, r)
    decreases n
  {
    hide Execute, FinalTarget, StackRel, Backtrack;
    if !x.Run? {
      AtOnce(code, subj, r);
    } else {
      var q := y.p;
      var next := Step(c2, subj, y);
      var bound: nat :| FinalTarget(code, x.p, bound) == q;
      if q != i {
        StepRel(code, c2, i, ft, q, subj, x.s, x.st, y.st);
        Backward(code, c2, i, ft, subj, Step(code, subj, Run(q, x.s, x.st)), next, n - 1, r);
        Before(code, subj, Run(q, x.s, x.st), r);
      } else {
        ExecuteRel(code, ft, c2, i, subj, x.s, x.st, y.st);
        Backward(code, c2, i, ft, subj, Execute(code, subj, ft, x.s, x.st), next, n - 1, r);
        Before(code, subj, Run(ft, x.s, x.st), r);
        var jumps: nat :| FinalTarget(code, i, jumps) == ft;
        TakeJumps(code, subj, i, jumps, x.s, x.st, r);
      }
      TakeJumps(code, subj, x.p, bound, x.s, x.st, r);
    }
  }

  /** Two programs that halt alike from the start, on every subject. */
  ghost predicate Equivalent(code: Code, c2: Code) {
    forall subj: seq<Byte>, i: nat, r: Result :: Halts(code, subj, Start(i), r) <==> Halts(c2, subj, Start(i), r)
  }

  lemma RewriteEquivalent(code: Code, c2: Code, i: int, ft: int)
    requires Rewrite(code, c2, i, ft)
    ensures Equivalent(code, c2)
  {
    hide Rewrite;
    forall subj: seq<Byte>, k: nat, r: Result ensures Halts(code, subj, Start(k), r) <==> Halts(c2, subj, Start(k), r) {
      StackSelf(code, Start(k).st);
      JumpsToSelf(code, 0);
      if Halts(code, subj, Start(k), r) {
        var n: nat :| Steps(code, subj, Start(k), n) == Done(r);
        Forward(code, c2, i, ft, subj, Start(k), Start(k), n, r);
      }
      if Halts(c2, subj, Start(k), r) {
        var n: nat :| Steps(c2, subj, Start(k), n) == Done(r);
        Backward(code, c2, i, ft, subj, Start(k), Start(k), n, r);
      }
    }
  }

  // ----- the whole pass -----

  /** Jumps compose. */
  lemma JumpsOnce(code: Code, i: int, bound: nat)
    requires IsJump(code, i)
    ensures JumpsTo(code, Target(code, i), FinalTarget(code, i, bound + 1))
  {
    assert FinalTarget(code, i, bound + 1) == FinalTarget(code, Target(code, i), bound);
  }

  lemma RelabelRewrite(code: Code, i: nat)
    requires IsOp(code, i) && HasTarget(code, i)
    ensures Rewrite(code, Relabel(code, i), i, i)
  {
    JumpsToSelf(code, i);
  }

  lemma PeepAtEquivalent(code: Code, i: nat)
    requires IsOp(code, i)
    ensures Equivalent(code, PeepAt(code, i))
  {
    hide Equivalent, Rewrite, JumpsTo, FinalTarget;
    if !HasTarget(code, i) {
      EquivalentSelf(code);
    } else if Labelled(code[i].op) {
      RelabelRewrite(code, i);
      RewriteEquivalent(code, Relabel(code, i), i, i);
    } else if code[i].op.IJmp? {
      PeepJump(code, i);
    } else {
      EquivalentSelf(code);
    }
  }

  lemma PeepJump(code: Code, i: nat)
    requires IsJump(code, i)
    ensures Equivalent(code, PeepAt(code, i))
  {
    hide Equivalent, FinalTarget;
    var ft := FinalTarget(code, i, |code|);
    assert JumpsTo(code, i, ft);
    if IsOp(code, ft) && LeavesAway(code[ft].op) {
      RewriteEquivalent(code, PeepAt(code, i), i, ft);
    } else if IsOp(code, ft) && CommitsAway(code[ft].op) && HasTarget(code, ft) {
      var c1 := Committed(code, i, ft);
      assert JumpsTo(code, Target(code, ft), FinalLabel(code, ft));
      assert Rewrite(code, c1, i, ft);
      RewriteEquivalent(code, c1, i, ft);
      RelabelRewrite(c1, i);
      RewriteEquivalent(c1, Relabel(c1, i), i, i);
      EquivalentTrans(code, c1, Relabel(c1, i));
    } else {
      var c1 := code[i + 1 := Off(ft - i)];
      JumpsOnce(code, i, |code| - 1);
      JumpsToSelf(code, i);
      assert Rewrite(code, c1, i, i);
      RewriteEquivalent(code, c1, i, i);
    }
  }

  lemma EquivalentSelf(code: Code)
    ensures Equivalent(code, code)
  {
  }

  lemma EquivalentTrans(x: Code, y: Code, z: Code)
    requires Equivalent(x, y) && Equivalent(y, z)
    ensures Equivalent(x, z)
  {
    hide Halts;
  }

  /** The pass changes the result of no run. */
  lemma PeepholeEquivalent(code: Code, i: nat)
    ensures Equivalent(code, Peephole(code, i))
    decreases |code| - i
  {
    hide Equivalent;
    if i >= |code| { EquivalentSelf(code); }
    else if !code[i].Op? { PeepholeEquivalent(code, i + 1); }
    else {
      var c := PeepAt(code, i);
      PeepAtEquivalent(code, i);
      PeepholeEquivalent(c, i + c[i].op.Size());
      EquivalentTrans(code, c, Peephole(c, i + c[i].op.Size()));
    }
  }

  /** Compiler correctness. Wherever the pattern has an answer, the compiled code halts with that answer
      and no other: at IEnd at j when the pattern matches up to j, at IGiveup when it fails. */
  lemma CompileCorrect(t: Tree, w: nat, d: nat, subj: seq<Byte>, i: nat, answer: Result)
    requires WellFormed(t, 0, w) && i <= |subj| && Answers([], t, subj, i, answer)
    ensures forall r: Result :: Halts(Compile(t, d), subj, Start(i), r) <==> r == answer
  {
    hide Eval, WellFormed, Halts;
    var fuel: nat :| Eval([], t, subj, i, fuel) == answer;
    CompilerProof.GenPatternCorrect(t, w, d, subj, i, fuel);
    PeepholeEquivalent(GenPattern(t, d), 0);
    forall r: Result ensures Halts(Compile(t, d), subj, Start(i), r) ==> r == answer {
      if Halts(Compile(t, d), subj, Start(i), r) { HaltsUnique(Compile(t, d), subj, Start(i), r, answer); }
    }
  }

  // ----- the chains it follows -----

  lemma RewriteStops(x: Code, y: Code, at: int)
    requires AllStop(x) && Stops(y, at) && forall p: int :: p != at ==> SameJump(x, y, p)
    ensures AllStop(y)
  {
    forall i: int ensures Stops(y, i) {
      assert Stops(x, i);
      var n: nat :| Ends(x, i, n);
      RewrittenStops(x, y, at, i, n);
    }
  }

  /** One turn changes no other jump, and a chain that ended at i still does. */
  lemma TurnKeeps(code: Code, i: nat)
    requires IsOp(code, i) && Stops(code, i)
    ensures Stops(PeepAt(code, i), i)
    ensures forall p: int :: p != i ==> SameJump(code, PeepAt(code, i), p)
  {
    var ft, y := FinalTarget(code, i, |code|), PeepAt(code, i);
    StopsExactly(code, i);
    hide FinalTarget, Stops;
    if !IsJump(y, i) {
      NoJump(y, i);
    } else {
      assert Target(y, i) == ft && !IsJump(y, ft);
      NoJump(y, ft);
      StopsFirst(y, i);
    }
  }

  /** Where all chains of jumps end they still do after one turn. */
  lemma PeepAtStops(code: Code, i: nat)
    requires IsOp(code, i) && AllStop(code)
    ensures AllStop(PeepAt(code, i))
  {
    hide PeepAt, Stops, SameJump;
    TurnKeeps(code, i);
    RewriteStops(code, PeepAt(code, i), i);
  }

  /** The jump to a commit, already replaced by the commit, whose label is yet to be sent on. */
  lemma CommitStops(code: Code, i: nat, ft: int)
    requires IsJump(code, i) && AllStop(code) && IsOp(code, ft) && CommitsAway(code[ft].op) && HasTarget(code, ft)
    ensures AllStop(Committed(code, i, ft))
  {
    hide FinalTarget, AllStop, Stops;
    NoJump(Committed(code, i, ft), i);
    RewriteStops(code, Committed(code, i, ft), i);
  }

  /** The source's loop in finaltarget ends each time the turn at i calls it. */
  ghost predicate TurnReturns(code: Code, i: nat)
    requires IsOp(code, i)
  {
    HasTarget(code, i) ==>
      && (Labelled(code[i].op) ==> Stops(code, Target(code, i)))
      && (code[i].op.IJmp? ==>
        && Stops(code, i)
        && var ft := FinalTarget(code, i, |code|);
           (IsOp(code, ft) && CommitsAway(code[ft].op) && HasTarget(code, ft) ==>
             Stops(code, Target(code, ft)) && Stops(Committed(code, i, ft), Target(Committed(code, i, ft), i))))
  }

  /** The pass comes back from instruction i on. */
  ghost predicate PassReturns(code: Code, i: nat)
    decreases |code| - i
  {
    if i >= |code| then true
    else if !code[i].Op? then PassReturns(code, i + 1)
    else
      var c := PeepAt(code, i);
      TurnReturns(code, i) && PassReturns(c, i + c[i].op.Size())
  }

  /** From slot i on, the operand slots of an instruction hold none. */
  ghost predicate Spaced(code: Code, i: nat) {
    forall k, j :: i <= k < j < |code| && code[k].Op? && j < k + code[k].op.Size() ==> !code[j].Op?
  }

  lemma PassStops(code: Code, i: nat)
    requires AllStop(code)
    ensures PassReturns(code, i)
    decreases |code| - i
  {
    hide FinalTarget, Stops, PeepAt;
    if i >= |code| {
    } else if !code[i].Op? {
      PassStops(code, i + 1);
    } else {
      var ft := FinalTarget(code, i, |code|);
      if IsJump(code, i) && IsOp(code, ft) && CommitsAway(code[ft].op) && HasTarget(code, ft) {
        CommitStops(code, i, ft);
      }
      PeepAtStops(code, i);
      PassStops(PeepAt(code, i), i + PeepAt(code, i)[i].op.Size());
    }
  }

  /** After a turn the instructions from the next one on are spaced as before. */
  lemma TurnSpaced(code: Code, i: nat)
    requires IsOp(code, i) && Spaced(code, i)
    ensures var c := PeepAt(code, i);
            var next := i + c[i].op.Size();
            Spaced(c, next) && forall p :: i < p < next && p < |c| ==> !c[p].Op?
  {
    hide FinalTarget;
  }

  /** The pass visits every jump, and finds it as it was. */
  lemma PassVisits(code: Code, i: nat)
    requires Spaced(code, i) && PassReturns(code, i) && forall p: int :: p < i ==> Stops(code, p)
    ensures AllStop(code)
    decreases |code| - i
  {
    hide FinalTarget, Stops, Spaced, PeepAt, SameJump;
    if i >= |code| {
      forall p: int ensures Stops(code, p) { if p >= i { NoJump(code, p); } }
    } else if !code[i].Op? {
      NoJump(code, i);
      SpacedOn(code, i, i + 1);
      PassVisits(code, i + 1);
    } else {
      if !IsJump(code, i) { NoJump(code, i); }
      var c := PeepAt(code, i);
      var next := i + c[i].op.Size();
      TurnKeeps(code, i);
      TurnSpaced(code, i);
      forall p: int | p < next ensures Stops(c, p) {
        if p < i { StopsAfter(code, c, i, p); } else if p > i { NoJump(c, p); }
      }
      PassVisits(c, next);
      forall p: int | p != i ensures SameJump(c, code, p) { SameJumpBack(code, c, p); }
      RewriteStops(c, code, i);
    }
  }

  lemma SameJumpBack(x: Code, y: Code, p: int)
    requires SameJump(x, y, p)
    ensures SameJump(y, x, p)
  {
  }

  lemma SpacedOn(code: Code, i: nat, j: nat)
    requires Spaced(code, i) && i <= j
    ensures Spaced(code, j)
  {
  }

  lemma StopsAfter(x: Code, y: Code, at: int, p: int)
    requires Stops(x, p) && Stops(y, at) && forall q: int :: q != at ==> SameJump(x, y, q)
    ensures Stops(y, p)
  {
    var n: nat :| Ends(x, p, n);
    RewrittenStops(x, y, at, p, n);
  }

  /** Exactly when the pass comes back: every chain of jumps in the code ends. */
  lemma PassReturnsExactly(code: Code)
    requires Spaced(code, 0)
    ensures PassReturns(code, 0) <==> AllStop(code)
  {
    hide Spaced, PassReturns, Stops;
    if AllStop(code) { PassStops(code, 0); }
    if PassReturns(code, 0) {
      forall p: int | p < 0 ensures Stops(code, p) { NoJump(code, p); }
      PassVisits(code, 0);
    }
  }
}
