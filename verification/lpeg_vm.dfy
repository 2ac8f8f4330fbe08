/** The LPeg virtual machine (lpvm.c). */
module Machine {
  import opened Charsets
  import opened Trees

  type Operands = o: SetOperand | o.Valid() witness SetOperand(0, 0, 0, [])

  datatype Instr =
    | IAny | IChar(c: Byte) | ISet(set_: Operands)
    | ITestAny | ITestChar(c: Byte) | ITestSet(set_: Operands)
    | ISpan(set_: Operands) | IBehind(n: nat)
    | IRet | IEnd | IChoice | IJmp | ICall | IOpenCall(rule: nat)
    | ICommit | IPartialCommit | IBackCommit | IFailTwice | IFail
    | IEmpty
  {
    /** sizei: slots taken by the instruction, with its offset and its set payload. */
    function Size(): (n: nat)
      ensures n >= 1
    {
      match this
      case ISet(o) => 1 + o.size
      case ISpan(o) => 1 + o.size
      case ITestSet(o) => 2 + o.size
      case ITestChar(_) => 2
      case ITestAny => 2
      case IChoice => 2
      case IJmp => 2
      case ICall => 2
      case IOpenCall(_) => 2
      case ICommit => 2
      case IPartialCommit => 2
      case IBackCommit => 2
      case _ => 1
    }

    /** Instructions with a label in their second slot. */
    predicate HasOffset() {
      ITestSet? || ITestChar? || ITestAny? || IChoice? || IJmp? || ICall? || IOpenCall?
      || ICommit? || IPartialCommit? || IBackCommit?
    }
  }

  /** One slot of code: an instruction, its offset (relative to the instruction's address), an offset not
      yet set, or a slot of set payload (whose bytes are kept with the instruction). */
  datatype Slot = Op(op: Instr) | Off(n: int) | Hole | Data

  type Code = seq<Slot>

  /** Address of the IGiveup instruction, which lies outside every code block. */
  const GIVEUP: int := -1

  /** Backtrack stack, top first. A saved call has no saved position. */
  datatype Entry = Choice(p: int, s: nat) | Ret(p: int)
  datatype Stack = Empty | Push(top: Entry, rest: Stack)

  datatype State = Run(p: int, s: nat, st: Stack) | Done(r: Result) | Stuck

  predicate IsOp(code: Code, p: int) { 0 <= p < |code| && code[p].Op? }

  predicate HasTarget(code: Code, p: int) { 0 <= p && p + 1 < |code| && code[p + 1].Off? }

  /** target(code, i) */
  function Target(code: Code, p: int): int
    requires HasTarget(code, p)
  {
    p + code[p + 1].n
  }

  function Jump(code: Code, p: int, s: nat, st: Stack): State {
    if HasTarget(code, p) then Run(Target(code, p), s, st) else Stuck
  }

  /** The `fail` label: drop pending calls and go back to the last choice. */
  function Backtrack(st: Stack): State {
    match st
    case Empty => Stuck
    case Push(Ret(_), rest) => Backtrack(rest)
    case Push(Choice(p, s), rest) => Run(p, s, rest)
  }

  predicate InOperand(o: Operands, subj: seq<Byte>, s: nat) {
    s < |subj| && CharInSet(o, subj[s])
  }

  /** ISpan's loop. */
  function SpanEnd(o: Operands, subj: seq<Byte>, s: nat): (e: nat)
    ensures s <= e && (s <= |subj| ==> e <= |subj|)
    ensures forall k :: s <= k < e ==> InOperand(o, subj, k)
    ensures !InOperand(o, subj, e)
    decreases |subj| - s
  {
    if InOperand(o, subj, s) then SpanEnd(o, subj, s + 1) else s
  }

  /** One turn of the interpreter loop. Stuck stands for a failed assertion of the source. */
  function Step(code: Code, subj: seq<Byte>, x: State): State {
    if !x.Run? then x
    else
      var Run(p, s, st) := x;
      if p == GIVEUP then (if st.Empty? then Done(Fail) else Stuck)
      else if !IsOp(code, p) then Stuck
      else Execute(code, subj, p, s, st)
  }

  function Execute(code: Code, subj: seq<Byte>, p: int, s: nat, st: Stack): State
    requires IsOp(code, p)
  {
    match code[p].op
    case IEnd => if st.Push? && st.rest.Empty? then Done(Ok(s)) else Stuck
    case IRet => if st.Push? && st.top.Ret? then Run(st.top.p, s, st.rest) else Stuck
    case IAny => if s < |subj| then Run(p + 1, s + 1, st) else Backtrack(st)
    case ITestAny => if s < |subj| then Run(p + 2, s, st) else Jump(code, p, s, st)
    case IChar(c) => if s < |subj| && subj[s] == c then Run(p + 1, s + 1, st) else Backtrack(st)
    case ITestChar(c) => if s < |subj| && subj[s] == c then Run(p + 2, s, st) else Jump(code, p, s, st)
    case ISet(o) => if InOperand(o, subj, s) then Run(p + 1 + o.size, s + 1, st) else Backtrack(st)
    case ITestSet(o) => if InOperand(o, subj, s) then Run(p + 2 + o.size, s, st) else Jump(code, p, s, st)
    case IBehind(n) => if n > s then Backtrack(st) else Run(p + 1, s - n, st)
    case ISpan(o) => Run(p + 1 + o.size, SpanEnd(o, subj, s), st)
    case IJmp => Jump(code, p, s, st)
    case IChoice => if HasTarget(code, p) then Run(p + 2, s, Push(Choice(Target(code, p), s), st)) else Stuck
    case ICall => Jump(code, p, s, Push(Ret(p + 2), st))
    case ICommit => if st.Push? && st.top.Choice? then Jump(code, p, s, st.rest) else Stuck
    case IPartialCommit =>
      if st.Push? && st.top.Choice? then Jump(code, p, s, Push(Choice(st.top.p, s), st.rest)) else Stuck
    case IBackCommit => if st.Push? && st.top.Choice? then Jump(code, p, st.top.s, st.rest) else Stuck
    case IFailTwice => if st.Push? then Backtrack(st.rest) else Stuck
    case IFail => Backtrack(st)
    case IOpenCall(_) => Stuck
    case IEmpty => Stuck
  }

  function Steps(code: Code, subj: seq<Byte>, x: State, n: nat): State
    decreases n
  {
    if n == 0 then x else Steps(code, subj, Step(code, subj, x), n - 1)
  }

  /** The machine as match() starts it at position i. */
  function Start(i: nat): State { Run(0, i, Push(Choice(GIVEUP, i), Empty)) }

  ghost predicate Halts(code: Code, subj: seq<Byte>, x: State, r: Result) {
    exists n: nat :: Steps(code, subj, x, n) == Done(r)
  }

  // ----- runs -----

  lemma StepsAdd(code: Code, subj: seq<Byte>, x: State, m: nat, n: nat)
    ensures Steps(code, subj, x, m + n) == Steps(code, subj, Steps(code, subj, x, m), n)
    decreases m
  {
    if m > 0 { StepsAdd(code, subj, Step(code, subj, x), m - 1, n); }
  }

  lemma DoneStays(code: Code, subj: seq<Byte>, x: State, n: nat)
    requires !x.Run?
    ensures Steps(code, subj, x, n) == x
  {
  }

  /** A run has at most one result. */
  lemma HaltsUnique(code: Code, subj: seq<Byte>, x: State, r1: Result, r2: Result)
    requires Halts(code, subj, x, r1) && Halts(code, subj, x, r2)
    ensures r1 == r2
  {
    var m: nat :| Steps(code, subj, x, m) == Done(r1);
    var n: nat :| Steps(code, subj, x, n) == Done(r2);
    StepsAdd(code, subj, x, m, n);
    StepsAdd(code, subj, x, n, m);
    DoneStays(code, subj, Done(r1), n);
    DoneStays(code, subj, Done(r2), m);
  }

  /** Two states from which the runs meet. */
  ghost predicate Joins(code: Code, subj: seq<Byte>, x: State, y: State) {
    exists m: nat, n: nat :: Steps(code, subj, x, m) == Steps(code, subj, y, n)
  }

  lemma JoinRefl(code: Code, subj: seq<Byte>, x: State)
    ensures Joins(code, subj, x, x)
  {
    assert Steps(code, subj, x, 0) == Steps(code, subj, x, 0);
  }

  lemma JoinSym(code: Code, subj: seq<Byte>, x: State, y: State)
    requires Joins(code, subj, x, y)
    ensures Joins(code, subj, y, x)
  {
    var m: nat, n: nat :| Steps(code, subj, x, m) == Steps(code, subj, y, n);
    assert Steps(code, subj, y, n) == Steps(code, subj, x, m);
  }

  lemma JoinTrans(code: Code, subj: seq<Byte>, x: State, y: State, z: State)
    requires Joins(code, subj, x, y) && Joins(code, subj, y, z)
    ensures Joins(code, subj, x, z)
  {
    var m: nat, n: nat :| Steps(code, subj, x, m) == Steps(code, subj, y, n);
    var k: nat, l: nat :| Steps(code, subj, y, k) == Steps(code, subj, z, l);
    StepsAdd(code, subj, x, m, k);
    StepsAdd(code, subj, y, n, k);
    StepsAdd(code, subj, y, k, n);
    StepsAdd(code, subj, z, l, n);
    assert Steps(code, subj, x, m + k) == Steps(code, subj, z, l + n);
  }

  /** A step joins what it leads to. */
  lemma JoinStep(code: Code, subj: seq<Byte>, x: State, y: State)
    requires Joins(code, subj, Step(code, subj, x), y)
    ensures Joins(code, subj, x, y)
  {
    var m: nat, n: nat :| Steps(code, subj, Step(code, subj, x), m) == Steps(code, subj, y, n);
    assert Steps(code, subj, x, m + 1) == Steps(code, subj, y, n);
  }

  /** A state that joins a final one halts there. */
  lemma JoinDone(code: Code, subj: seq<Byte>, x: State, r: Result)
    requires Joins(code, subj, x, Done(r))
    ensures Halts(code, subj, x, r)
  {
    var m: nat, n: nat :| Steps(code, subj, x, m) == Steps(code, subj, Done(r), n);
    DoneStays(code, subj, Done(r), n);
  }
}
