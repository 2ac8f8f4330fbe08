/** match() of lpvm.c as the loop it is, and the library's promise from the grammar check to the result. */
module Matching {
  import opened Charsets
  import opened Trees
  import opened Analysis
  import opened Machine
  import opened Codegen
  import Jumps
  import Chains
  import Peepholes
  import Compiling
  import GrammarCheck

  /** ISpan's loop. */
  method Span(o: Operands, subj: seq<Byte>, s: nat) returns (e: nat)
    ensures e == SpanEnd(o, subj, s)
  {
    hide CharInSet;
    e := s;
    while e < |subj|
      invariant s <= e && (s <= |subj| ==> e <= |subj|) && SpanEnd(o, subj, e) == SpanEnd(o, subj, s)
      decreases |subj| - e
    {
      if !CharInSet(o, subj[e]) { break; }
      e := e + 1;
    }
  }

  /** The `fail` label: pending calls are removed from the stack up to the last choice. */
  method Fail(stack: Stack) returns (p: int, s: nat, st: Stack)
    requires Backtrack(stack).Run?
    ensures Run(p, s, st) == Backtrack(stack)
  {
    st := stack;
    while st.top.Ret?
      invariant st.Push? && Backtrack(st) == Backtrack(stack)
      decreases st
    {
      st := st.rest;
    }
    p, s, st := st.top.p, st.top.s, st.rest;
  }

  /** One case of the switch other than IEnd and IGiveup. The assertions are the source's: with a matching
      run ahead none of them fails. */
  method Dispatch(code: Code, subj: seq<Byte>, p0: int, s0: nat, st0: Stack) returns (fail: bool, p: int, s: nat, st: Stack)
    requires IsOp(code, p0) && Execute(code, subj, p0, s0, st0).Run?
    ensures Execute(code, subj, p0, s0, st0) == if fail then Backtrack(st) else Run(p, s, st)
  {
    hide CharInSet, SpanEnd;
    fail, p, s, st := false, p0, s0, st0;
    match code[p].op {
      case IRet =>
        assert st.Push? && st.top.Ret?;
        p, st := st.top.p, st.rest;
      case IAny => if s < |subj| { p, s := p + 1, s + 1; } else { fail := true; }
      case ITestAny => if s < |subj| { p := p + 2; } else { p := Target(code, p); }
      case IChar(c) => if s < |subj| && subj[s] == c { p, s := p + 1, s + 1; } else { fail := true; }
      case ITestChar(c) => if s < |subj| && subj[s] == c { p := p + 2; } else { p := Target(code, p); }
      case ISet(o) =>
        if s < |subj| && CharInSet(o, subj[s]) { p, s := p + 1 + o.size, s + 1; } else { fail := true; }
      case ITestSet(o) =>
        if s < |subj| && CharInSet(o, subj[s]) { p := p + 2 + o.size; } else { p := Target(code, p); }
      case IBehind(n) => if n > s { fail := true; } else { s, p := s - n, p + 1; }
      case ISpan(o) =>
        s := Span(o, subj, s);
        p := p + 1 + o.size;
      case IJmp => p := Target(code, p);
      case IChoice => st, p := Push(Choice(Target(code, p), s), st), p + 2;
      case ICall => st, p := Push(Ret(p + 2), st), Target(code, p);
      case ICommit =>
        assert st.Push? && st.top.Choice?;
        st, p := st.rest, Target(code, p);
      case IPartialCommit =>
        assert st.Push? && st.top.Choice?;
        st, p := Push(Choice(st.top.p, s), st.rest), Target(code, p);
      case IBackCommit =>
        assert st.Push? && st.top.Choice?;
        s, st, p := st.top.s, st.rest, Target(code, p);
      case IFailTwice =>
        assert st.Push?;
        st, fail := st.rest, true;
      case IFail => fail := true;
    }
  }

  /** match: on code whose run halts, the loop ends with that result and none of its assertions fails. */
  method Match(code: Code, subj: seq<Byte>, start: nat, ghost answer: Result) returns (r: Result)
    requires Halts(code, subj, Start(start), answer)
    ensures r == answer
  {
    hide Execute, Backtrack;
    var p, s, st := 0, start, Push(Choice(GIVEUP, start), Empty);
    ghost var left: nat :| Steps(code, subj, Start(start), left) == Done(answer);
    while true
      invariant Steps(code, subj, Run(p, s, st), left) == Done(answer)
      decreases left
    {
      left := left - 1;
      StepHalts(code, subj, Run(p, s, st), left, answer);
      if p == GIVEUP {
        assert st == Empty;
        DoneStays(code, subj, Done(Result.Fail), left);
        return Result.Fail;
      } else if code[p].op.IEnd? {
        EndStep(code, subj, p, s, st);
        assert st.Push? && st.rest == Empty;
        DoneStays(code, subj, Done(Ok(s)), left);
        return Ok(s);
      } else {
        NotEnd(code, subj, p, s, st);
        var fail;
        fail, p, s, st := Dispatch(code, subj, p, s, st);
        if fail { p, s, st := Fail(st); }
      }
    }
  }

  lemma StepHalts(code: Code, subj: seq<Byte>, x: State, n: nat, r: Result)
    requires x.Run? && Steps(code, subj, x, n + 1) == Done(r)
    ensures Steps(code, subj, Step(code, subj, x), n) == Done(r)
    ensures !Step(code, subj, x).Stuck?
  {
    hide Execute;
    var y := Step(code, subj, x);
    if y.Stuck? { DoneStays(code, subj, y, n); }
  }

  lemma EndStep(code: Code, subj: seq<Byte>, p: int, s: nat, st: Stack)
    requires IsOp(code, p) && code[p].op.IEnd?
    ensures Execute(code, subj, p, s, st) == if st.Push? && st.rest.Empty? then Done(Ok(s)) else Stuck
  {
  }

  lemma BacktrackRuns(st: Stack)
    ensures !Backtrack(st).Done?
  {
  }

  lemma NotEnd(code: Code, subj: seq<Byte>, p: int, s: nat, st: Stack)
    requires IsOp(code, p) && !code[p].op.IEnd?
    ensures !Execute(code, subj, p, s, st).Done?
  {
    hide CharInSet, SpanEnd;
    BacktrackRuns(st);
    if st.Push? { BacktrackRuns(st.rest); }
  }

  /** From the grammar check to the match. For every pattern lp_verify accepts and every subject, the compiler
      comes back, and matching the compiled pattern ends, with the answer the parsing expression has there, and
      it has only one. */
  lemma PatternMatches(t: Tree, d: nat, subj: seq<Byte>, i: nat) returns (r: Result)
    requires GrammarCheck.Accepted(t, d) && i <= |subj|
    ensures Jumps.AllStop(GenPattern(t, d))
    ensures Answers([], t, subj, i, r)
    ensures Halts(Peepholes.Compile(t, d), subj, Start(i), r)
    ensures forall q: Result :: Answers([], t, subj, i, q) || Halts(Peepholes.Compile(t, d), subj, Start(i), q) ==> q == r
  {
    hide Eval, Halts, GrammarCheck.CheckLoops, Peepholes.Compile, WellFormed, Jumps.AllStop;
    Chains.AcceptedStops(t, d, d);
    GrammarCheck.AcceptedTerminates(t, d, subj, i);
    r :| Answers([], t, subj, i, r);
    Peepholes.CompileCorrect(t, d, d, subj, i, r);
    assert Halts(Peepholes.Compile(t, d), subj, Start(i), r);
    forall q: Result | Answers([], t, subj, i, q) ensures q == r { AnswerUnique([], t, subj, i, q, r); }
  }

  /** The whole library on an accepted pattern: check passed, compile, match. */
  method RunPattern(t: Tree, d: nat, subj: seq<Byte>, i: nat) returns (r: Result)
    requires GrammarCheck.Accepted(t, d) && i <= |subj|
    ensures Answers([], t, subj, i, r)
  {
    hide Halts, Peepholes.Compile, Answers, WellFormed, Jumps.AllStop;
    ghost var answer := PatternMatches(t, d, subj, i);
    var state := new Compiling.CompileState(d);
    state.CompilePattern(t, d);
    r := Match(state.code, subj, i, answer);
  }
}
