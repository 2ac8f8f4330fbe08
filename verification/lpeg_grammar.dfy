/** The grammar checker of lptree.c (verifyrule, checkloops) and the termination of matching. */
module GrammarCheck {
  import opened Wrappers
  import opened Charsets
  import opened Trees
  import opened Analysis

  /** verifyrule: None is the error (possible left recursion); otherwise whether the pattern may match
      without consuming. `np` rules were entered since the rule under check; `nb` is the accumulator.
      As in the source, the case of a nested grammar ignores nb. */
  function VerifyRule(env: Rules, t: Tree, np: nat, nb: bool, d: nat): Option<bool>
    requires np <= MAXRULES
    decreases MAXRULES - np, t
  {
    match t
    case TChar(_) => Some(nb)
    case TSet(_) => Some(nb)
    case TAny => Some(nb)
    case TFalse => Some(nb)
    case TTrue => Some(true)
    case TBehind(_, _) => Some(true)
    case TNot(p) => VerifyRule(env, p, np, true, d)
    case TAnd(p) => VerifyRule(env, p, np, true, d)
    case TRep(p) => VerifyRule(env, p, np, true, d)
    case TCall(n) =>
      if n >= |env| || np >= MAXRULES then None else VerifyRule(env, env[n], np + 1, nb, d)
    case TSeq(p1, p2) =>
      var r := VerifyRule(env, p1, np, false, d);
      if r.None? then None else if !r.value then Some(nb) else VerifyRule(env, p2, np, nb, d)
    case TChoice(p1, p2) =>
      var r := VerifyRule(env, p1, np, nb, d);
      if r.None? then None else VerifyRule(env, p2, np, r.value, d)
    case TGrammar(_) => Some(Nullable(env, t, d))
  }

  /** checkloops: some loop body may match the empty string. */
  predicate CheckLoops(env: Rules, t: Tree, d: nat)
    decreases t
  {
    match t
    case TRep(p) => Nullable(env, p, d) || CheckLoops(env, p, d)
    case TNot(p) => CheckLoops(env, p, d)
    case TAnd(p) => CheckLoops(env, p, d)
    case TBehind(_, p) => CheckLoops([], p, d)
    case TSeq(p1, p2) => CheckLoops(env, p1, d) || CheckLoops(env, p2, d)
    case TChoice(p1, p2) => CheckLoops(env, p1, d) || CheckLoops(env, p2, d)
    case _ => false
  }

  /** t calls rule n of the grammar it belongs to. */
  predicate Calls(t: Tree, n: nat) {
    match t
    case TCall(m) => m == n
    case TRep(p) => Calls(p, n)
    case TNot(p) => Calls(p, n)
    case TAnd(p) => Calls(p, n)
    case TBehind(_, p) => Calls(p, n)
    case TSeq(p1, p2) => Calls(p1, n) || Calls(p2, n)
    case TChoice(p1, p2) => Calls(p1, n) || Calls(p2, n)
    case _ => false
  }

  /** Rules with a key: the initial rule and every rule some call names. The checker skips the others. */
  predicate Used(env: Rules, n: nat) {
    n < |env| && (n == 0 || exists k :: 0 <= k < |env| && Calls(env[k], n))
  }

  /** verifygrammar raises no error. */
  predicate VerifyGrammar(env: Rules, d: nat) {
    forall n: nat :: n < |env| && Used(env, n) ==>
      VerifyRule(env, env[n], 0, false, d).Some? && !CheckLoops(env, env[n], d)
  }

  /** What verifyrule meets on its way never drops a set accumulator: every nested grammar reached with
      nb set is nullable, so that returning its nullability loses nothing. */
  predicate KeepsNb(env: Rules, t: Tree, np: nat, nb: bool, d: nat)
    requires np <= MAXRULES
    decreases MAXRULES - np, t
  {
    match t
    case TNot(p) => KeepsNb(env, p, np, true, d)
    case TAnd(p) => KeepsNb(env, p, np, true, d)
    case TRep(p) => KeepsNb(env, p, np, true, d)
    case TCall(n) => n >= |env| || np >= MAXRULES || KeepsNb(env, env[n], np + 1, nb, d)
    case TSeq(p1, p2) =>
      var r := VerifyRule(env, p1, np, false, d);
      KeepsNb(env, p1, np, false, d) && (r == Some(true) ==> KeepsNb(env, p2, np, nb, d))
    case TChoice(p1, p2) =>
      var r := VerifyRule(env, p1, np, nb, d);
      KeepsNb(env, p1, np, nb, d) && (r.Some? ==> KeepsNb(env, p2, np, r.value, d))
    case TGrammar(_) => nb ==> Nullable(env, t, d)
    case _ => true
  }

  predicate GrammarKeepsNb(env: Rules, d: nat) {
    forall n: nat :: n < |env| && Used(env, n) ==> KeepsNb(env, env[n], 0, false, d)
  }

  /** Every grammar inside t was accepted when it was built, and keeps nb. */
  predicate Built(t: Tree, d: nat) {
    match t
    case TRep(p) => Built(p, d)
    case TNot(p) => Built(p, d)
    case TAnd(p) => Built(p, d)
    case TBehind(_, p) => Built(p, d)
    case TSeq(p1, p2) => Built(p1, d) && Built(p2, d)
    case TChoice(p1, p2) => Built(p1, d) && Built(p2, d)
    case TGrammar(rs) =>
      VerifyGrammar(rs, d) && GrammarKeepsNb(rs, d) && forall k :: 0 <= k < |rs| ==> Built(rs[k], d)
    case _ => true
  }

  /** A pattern the library accepts: built from accepted parts, without empty loops, its calls in scope. */
  predicate Accepted(t: Tree, d: nat) {
    WellFormed(t, 0, d) && Built(t, d) && !CheckLoops([], t, d)
  }

  // ----- the flag -----

  /** When verifyrule answers that a pattern consumes, nb was clear and every match consumes. */
  lemma {:induction false} FlagSound(env: Rules, t: Tree, np: nat, nb: bool, d: nat, s: seq<Byte>, i: nat, fuel: nat)
    requires np <= MAXRULES && i <= |s| && WellFormed(t, |env|, d) && WellFormedRules(env, d)
    requires VerifyRule(env, t, np, nb, d) == Some(false) && KeepsNb(env, t, np, nb, d)
    ensures !nb && (Eval(env, t, s, i, fuel).Ok? ==> Eval(env, t, s, i, fuel).j > i)
    decreases fuel, MAXRULES - np, t
  {
    match t
    case TNot(p) => FlagSound(env, p, np, true, d, s, i, fuel);
    case TAnd(p) => FlagSound(env, p, np, true, d, s, i, fuel);
    case TRep(p) => FlagSound(env, p, np, true, d, s, i, fuel);
    case TCall(n) => FlagSound(env, env[n], np + 1, nb, d, s, i, if fuel > 0 then fuel - 1 else 0);
    case TSeq(p1, p2) =>
      var r := VerifyRule(env, p1, np, false, d);
      var r1 := Eval(env, p1, s, i, fuel);
      if !r.value { FlagSound(env, p1, np, false, d, s, i, fuel); }
      else { FlagSound(env, p2, np, nb, d, s, if r1.Ok? then r1.j else i, fuel); }
      if r1.Ok? {
        ProgressSound(env, p1, d, s, i, fuel, d);
        if Eval(env, p2, s, r1.j, fuel).Ok? { ProgressSound(env, p2, d, s, r1.j, fuel, d); }
      }
    case TChoice(p1, p2) =>
      FlagSound(env, p2, np, VerifyRule(env, p1, np, nb, d).value, d, s, i, fuel);
      FlagSound(env, p1, np, nb, d, s, i, fuel);
    case TGrammar(rs) =>
      if Eval(env, t, s, i, fuel).Ok? { ProgressSound(env, t, d, s, i, fuel, d); }
    case _ =>
  }

  // ----- termination -----

  /** Matching t at i comes to an answer. */
  ghost predicate Terminates(env: Rules, t: Tree, s: seq<Byte>, i: nat) {
    i <= |s| && exists fuel: nat :: !Eval(env, t, s, i, fuel).Out?
  }

  /** Grammars and look-behinds nest at most depth deep. */
  predicate DepthWithin(t: Tree, depth: nat) {
    match t
    case TRep(p) => DepthWithin(p, depth)
    case TNot(p) => DepthWithin(p, depth)
    case TAnd(p) => DepthWithin(p, depth)
    case TSeq(p1, p2) => DepthWithin(p1, depth) && DepthWithin(p2, depth)
    case TChoice(p1, p2) => DepthWithin(p1, depth) && DepthWithin(p2, depth)
    case TBehind(_, p) => depth > 0 && DepthWithin(p, depth - 1)
    case TGrammar(rs) => depth > 0 && forall k :: 0 <= k < |rs| ==> DepthWithin(rs[k], depth - 1)
    case _ => true
  }

  /** A part of some pattern: its calls name rules of env, and the grammars inside it are accepted. */
  ghost predicate Scoped(env: Rules, t: Tree, depth: nat, d: nat) {
    && WellFormed(t, |env|, d) && Built(t, d) && DepthWithin(t, depth)
    && forall n: nat :: Calls(t, n) ==> Used(env, n)
  }

  /** What a part of an accepted pattern or grammar satisfies. */
  ghost predicate Part(env: Rules, t: Tree, depth: nat, d: nat) {
    Scoped(env, t, depth, d) && !CheckLoops(env, t, d)
  }

  ghost predicate GoodRules(env: Rules, depth: nat, d: nat) {
    && WellFormedRules(env, d)
    && forall n: nat :: Used(env, n) ==>
         Part(env, env[n], depth, d) && VerifyRule(env, env[n], 0, false, d).Some? && KeepsNb(env, env[n], 0, false, d)
  }

  /** Every part terminates at every position after i. */
  ghost predicate LaterTerminate(env: Rules, s: seq<Byte>, i: nat, depth: nat, d: nat) {
    forall t: Tree, k: nat :: i < k <= |s| && Part(env, t, depth, d) ==> Terminates(env, t, s, k)
  }

  lemma SeqTerminates(env: Rules, p1: Tree, p2: Tree, s: seq<Byte>, i: nat)
    requires Terminates(env, p1, s, i)
    requires forall fuel: nat :: Eval(env, p1, s, i, fuel).Ok? ==> Terminates(env, p2, s, Eval(env, p1, s, i, fuel).j)
    ensures Terminates(env, TSeq(p1, p2), s, i)
  {
    hide Has;
    var f1: nat :| !Eval(env, p1, s, i, f1).Out?;
    var r := Eval(env, p1, s, i, f1);
    if r.Ok? {
      var f2: nat :| !Eval(env, p2, s, r.j, f2).Out?;
      EvalMonotone(env, p1, s, i, f1, f1 + f2);
      EvalMonotone(env, p2, s, r.j, f2, f1 + f2);
      assert !Eval(env, TSeq(p1, p2), s, i, f1 + f2).Out?;
    } else {
      assert !Eval(env, TSeq(p1, p2), s, i, f1).Out?;
    }
  }

  lemma ChoiceTerminates(env: Rules, p1: Tree, p2: Tree, s: seq<Byte>, i: nat)
    requires Terminates(env, p1, s, i) && Terminates(env, p2, s, i)
    ensures Terminates(env, TChoice(p1, p2), s, i)
  {
    hide Eval;
    var f1: nat :| !Eval(env, p1, s, i, f1).Out?;
    var f2: nat :| !Eval(env, p2, s, i, f2).Out?;
    EvalOfChoice(env, p1, p2, s, i, f1 + f2);
    EvalMonotone(env, p1, s, i, f1, f1 + f2);
    EvalMonotone(env, p2, s, i, f2, f1 + f2);
    assert !Eval(env, TChoice(p1, p2), s, i, f1 + f2).Out?;
  }

  lemma PredicateTerminates(env: Rules, p: Tree, s: seq<Byte>, i: nat)
    requires Terminates(env, p, s, i)
    ensures Terminates(env, TNot(p), s, i) && Terminates(env, TAnd(p), s, i)
  {
    var f: nat :| !Eval(env, p, s, i, f).Out?;
    assert !Eval(env, TNot(p), s, i, f).Out?;
    assert !Eval(env, TAnd(p), s, i, f).Out?;
  }

  /** A loop whose body consumes terminates when its body does here and the loop does farther on. */
  lemma RepTerminates(env: Rules, p: Tree, s: seq<Byte>, i: nat)
    requires Terminates(env, p, s, i)
    requires forall fuel: nat :: Eval(env, p, s, i, fuel).Ok? ==> Terminates(env, TRep(p), s, Eval(env, p, s, i, fuel).j)
    ensures Terminates(env, TRep(p), s, i)
  {
    var f1: nat :| !Eval(env, p, s, i, f1).Out?;
    var r := Eval(env, p, s, i, f1);
    if r.Ok? {
      var f2: nat :| !Eval(env, TRep(p), s, r.j, f2).Out?;
      EvalMonotone(env, p, s, i, f1, f1 + f2 + 1);
      EvalMonotone(env, TRep(p), s, r.j, f2, f1 + f2);
      assert !Eval(env, TRep(p), s, i, f1 + f2 + 1).Out?;
    } else {
      assert !Eval(env, TRep(p), s, i, f1).Out?;
    }
  }

  lemma CallTerminates(env: Rules, n: nat, s: seq<Byte>, i: nat)
    requires n < |env| && Terminates(env, env[n], s, i)
    ensures Terminates(env, TCall(n), s, i)
  {
    var f: nat :| !Eval(env, env[n], s, i, f).Out?;
    assert Eval(env, TCall(n), s, i, f + 1) == Eval(env, env[n], s, i, f);
  }

  lemma BehindTerminates(env: Rules, n: nat, p: Tree, s: seq<Byte>, i: nat)
    requires i <= |s| && (i >= n ==> Terminates([], p, s, i - n))
    ensures Terminates(env, TBehind(n, p), s, i)
  {
    if i >= n {
      var f: nat :| !Eval([], p, s, i - n, f).Out?;
      assert !Eval(env, TBehind(n, p), s, i, f).Out?;
    } else {
      assert !Eval(env, TBehind(n, p), s, i, 0).Out?;
    }
  }

  lemma GrammarTerminates(env: Rules, rs: seq<Tree>, s: seq<Byte>, i: nat)
    requires rs != [] && Terminates(rs, rs[0], s, i)
    ensures Terminates(env, TGrammar(rs), s, i)
  {
    var f: nat :| !Eval(rs, rs[0], s, i, f).Out?;
    assert !Eval(env, TGrammar(rs), s, i, f).Out?;
  }

  lemma LeafTerminates(env: Rules, t: Tree, s: seq<Byte>, i: nat)
    requires i <= |s| && (t.TChar? || t.TSet? || t.TAny? || t.TTrue? || t.TFalse?)
    ensures Terminates(env, t, s, i)
  {
    assert !Eval(env, t, s, i, 0).Out?;
  }

  /** A nested grammar is an accepted one. */
  lemma NestedGood(env: Rules, rs: seq<Tree>, depth: nat, d: nat)
    requires Part(env, TGrammar(rs), depth, d)
    ensures depth > 0 && GoodRules(rs, depth - 1, d) && Part(rs, rs[0], depth - 1, d)
  {
    forall n: nat | Used(rs, n) ensures Part(rs, rs[n], depth - 1, d) {
      forall m: nat | Calls(rs[n], m) ensures Used(rs, m) {
        if m >= |rs| { CallsInScope(rs[n], |rs|, d, m); }
      }
    }
    assert Used(rs, 0);
  }

  /** Calls name rules in scope. */
  lemma {:induction false} CallsInScope(t: Tree, rules: nat, d: nat, n: nat)
    requires WellFormed(t, rules, d) && n >= rules
    ensures !Calls(t, n)
  {
    match t
    case TRep(p) => CallsInScope(p, rules, d, n);
    case TNot(p) => CallsInScope(p, rules, d, n);
    case TAnd(p) => CallsInScope(p, rules, d, n);
    case TBehind(_, p) => CallsInScope(p, 0, d, n);
    case TSeq(p1, p2) => CallsInScope(p1, rules, d, n); CallsInScope(p2, rules, d, n);
    case TChoice(p1, p2) => CallsInScope(p1, rules, d, n); CallsInScope(p2, rules, d, n);
    case _ =>
  }

  lemma BehindPart(env: Rules, n: nat, p: Tree, depth: nat, d: nat)
    requires Part(env, TBehind(n, p), depth, d)
    ensures depth > 0 && Part([], p, depth - 1, d)
  {
    forall m: nat ensures !Calls(p, m) { CallsInScope(p, 0, d, m); }
  }

  /** Children lie inside too. */
  lemma ScopedParts(env: Rules, t: Tree, depth: nat, d: nat)
    requires Scoped(env, t, depth, d)
    ensures t.TRep? || t.TNot? || t.TAnd? ==> Scoped(env, t.p, depth, d)
    ensures t.TSeq? || t.TChoice? ==> Scoped(env, t.p1, depth, d) && Scoped(env, t.p2, depth, d)
    ensures t.TCall? ==> Used(env, t.rule)
  {
    hide Used;
    if t.TRep? || t.TNot? || t.TAnd? {
      forall n: nat | Calls(t.p, n) ensures Used(env, n) { assert Calls(t, n); }
    } else if t.TSeq? || t.TChoice? {
      forall n: nat | Calls(t.p1, n) ensures Used(env, n) { assert Calls(t, n); }
      forall n: nat | Calls(t.p2, n) ensures Used(env, n) { assert Calls(t, n); }
    } else if t.TCall? {
      assert Calls(t, t.rule);
    }
  }

  /** Children of a part are parts. */
  lemma SubParts(env: Rules, t: Tree, depth: nat, d: nat)
    requires Part(env, t, depth, d)
    ensures t.TRep? || t.TNot? || t.TAnd? ==> Part(env, t.p, depth, d)
    ensures t.TSeq? || t.TChoice? ==> Part(env, t.p1, depth, d) && Part(env, t.p2, depth, d)
    ensures t.TRep? ==> !Nullable(env, t.p, d)
    ensures t.TCall? ==> Used(env, t.rule)
    ensures WellFormed(t, |env|, d)
  {
    ScopedParts(env, t, depth, d);
  }

  /** The part verifyrule visits without consuming terminates: calls entered on the way are counted by np. */
  lemma {:induction false} VisitedTerminates(env: Rules, t: Tree, np: nat, nb: bool, depth: nat, d: nat, s: seq<Byte>, i: nat)
    requires i <= |s| && np <= MAXRULES && GoodRules(env, depth, d) && Part(env, t, depth, d)
    requires VerifyRule(env, t, np, nb, d).Some? && KeepsNb(env, t, np, nb, d)
    requires LaterTerminate(env, s, i, depth, d)
    ensures Terminates(env, t, s, i)
    decreases depth, |s| - i + 1, MAXRULES - np, t
  {
    hide LaterTerminate, Eval, WellFormed, Terminates, Part, Calls, CheckAux;
    SubParts(env, t, depth, d);
    match t
    case TNot(p) =>
      VisitedTerminates(env, p, np, true, depth, d, s, i);
      PredicateTerminates(env, p, s, i);
    case TAnd(p) =>
      VisitedTerminates(env, p, np, true, depth, d, s, i);
      PredicateTerminates(env, p, s, i);
    case TRep(p) =>
      VisitedTerminates(env, p, np, true, depth, d, s, i);
      RepStep(env, p, depth, d, s, i);
    case TCall(n) =>
      VisitedTerminates(env, env[n], np + 1, nb, depth, d, s, i);
      CallTerminates(env, n, s, i);
    case TSeq(p1, p2) =>
      VisitedTerminates(env, p1, np, false, depth, d, s, i);
      forall fuel: nat | Eval(env, p1, s, i, fuel).Ok? ensures Terminates(env, p2, s, Eval(env, p1, s, i, fuel).j) {
        var j := Eval(env, p1, s, i, fuel).j;
        SubParts(env, p1, depth, d);
        ProgressSound(env, p1, d, s, i, fuel, d);
        if j > i { Later(env, p2, s, i, j, depth, d); }
        else {
          if VerifyRule(env, p1, np, false, d) == Some(false) { FlagSound(env, p1, np, false, d, s, i, fuel); }
          VisitedTerminates(env, p2, np, nb, depth, d, s, i);
        }
      }
      SeqTerminates(env, p1, p2, s, i);
    case TChoice(p1, p2) =>
      VisitedTerminates(env, p1, np, nb, depth, d, s, i);
      VisitedTerminates(env, p2, np, VerifyRule(env, p1, np, nb, d).value, depth, d, s, i);
      ChoiceTerminates(env, p1, p2, s, i);
    case TBehind(n, p) => NestedTerminates(env, t, depth, d, s, i);
    case TGrammar(rs) => NestedTerminates(env, t, depth, d, s, i);
    case _ => LeafTerminates(env, t, s, i);
  }

  lemma Later(env: Rules, t: Tree, s: seq<Byte>, i: nat, k: nat, depth: nat, d: nat)
    requires LaterTerminate(env, s, i, depth, d) && i < k <= |s| && Part(env, t, depth, d)
    ensures Terminates(env, t, s, k)
  {
  }

  /** A loop without empty iterations: checkloops made its body consume. */
  lemma RepStep(env: Rules, p: Tree, depth: nat, d: nat, s: seq<Byte>, i: nat)
    requires i <= |s| && GoodRules(env, depth, d) && Part(env, TRep(p), depth, d)
    requires LaterTerminate(env, s, i, depth, d) && Terminates(env, p, s, i)
    ensures Terminates(env, TRep(p), s, i)
  {
    hide LaterTerminate, Eval, Terminates, Part, CheckAux;
    SubParts(env, TRep(p), depth, d);
    SubParts(env, p, depth, d);
    forall fuel: nat | Eval(env, p, s, i, fuel).Ok? ensures Terminates(env, TRep(p), s, Eval(env, p, s, i, fuel).j) {
      ProgressSound(env, p, d, s, i, fuel, d);
      Later(env, TRep(p), s, i, Eval(env, p, s, i, fuel).j, depth, d);
    }
    RepTerminates(env, p, s, i);
  }

  lemma {:induction false} NestedTerminates(env: Rules, t: Tree, depth: nat, d: nat, s: seq<Byte>, i: nat)
    requires i <= |s| && GoodRules(env, depth, d) && Part(env, t, depth, d) && (t.TBehind? || t.TGrammar?)
    ensures Terminates(env, t, s, i)
    decreases depth, 0
  {
    match t
    case TBehind(n, p) =>
      BehindPart(env, n, p, depth, d);
      if i >= n { PartTerminates([], p, depth - 1, d, s, i - n); }
      BehindTerminates(env, n, p, s, i);
    case TGrammar(rs) =>
      NestedGood(env, rs, depth, d);
      PartTerminates(rs, rs[0], depth - 1, d, s, i);
      GrammarTerminates(env, rs, s, i);
  }

  /** Every part of an accepted grammar terminates at i, given that all do farther on. */
  lemma {:induction false} PartHere(env: Rules, t: Tree, depth: nat, d: nat, s: seq<Byte>, i: nat)
    requires i <= |s| && GoodRules(env, depth, d) && Part(env, t, depth, d)
    requires LaterTerminate(env, s, i, depth, d)
    ensures Terminates(env, t, s, i)
    decreases depth, |s| - i + 1, MAXRULES + 1, t
  {
    hide LaterTerminate, Eval, WellFormed, Terminates, Part, Calls, CheckAux;
    SubParts(env, t, depth, d);
    match t
    case TNot(p) => PartHere(env, p, depth, d, s, i); PredicateTerminates(env, p, s, i);
    case TAnd(p) => PartHere(env, p, depth, d, s, i); PredicateTerminates(env, p, s, i);
    case TRep(p) => PartHere(env, p, depth, d, s, i); RepStep(env, p, depth, d, s, i);
    case TCall(n) =>
      VisitedTerminates(env, env[n], 0, false, depth, d, s, i);
      CallTerminates(env, n, s, i);
    case TSeq(p1, p2) =>
      PartHere(env, p1, depth, d, s, i);
      forall fuel: nat | Eval(env, p1, s, i, fuel).Ok? ensures Terminates(env, p2, s, Eval(env, p1, s, i, fuel).j) {
        var j := Eval(env, p1, s, i, fuel).j;
        SubParts(env, p1, depth, d);
        ProgressSound(env, p1, d, s, i, fuel, d);
        if j > i { Later(env, p2, s, i, j, depth, d); } else { PartHere(env, p2, depth, d, s, i); }
      }
      SeqTerminates(env, p1, p2, s, i);
    case TChoice(p1, p2) =>
      PartHere(env, p1, depth, d, s, i);
      PartHere(env, p2, depth, d, s, i);
      ChoiceTerminates(env, p1, p2, s, i);
    case TBehind(n, p) => NestedTerminates(env, t, depth, d, s, i);
    case TGrammar(rs) => NestedTerminates(env, t, depth, d, s, i);
    case _ => LeafTerminates(env, t, s, i);
  }

  lemma {:induction false} PartTerminates(env: Rules, t: Tree, depth: nat, d: nat, s: seq<Byte>, i: nat)
    requires i <= |s| && GoodRules(env, depth, d) && Part(env, t, depth, d)
    ensures Terminates(env, t, s, i)
    decreases depth, |s| - i + 1, MAXRULES + 2
  {
    hide GoodRules, Part, Terminates;
    forall u: Tree, k: nat | i < k <= |s| && Part(env, u, depth, d) ensures Terminates(env, u, s, k) {
      PartTerminates(env, u, depth, d, s, k);
    }
    PartHere(env, t, depth, d, s, i);
  }

  lemma {:induction false} DepthExists(t: Tree) returns (depth: nat)
    ensures DepthWithin(t, depth)
  {
    match t
    case TRep(p) => depth := DepthExists(p);
    case TNot(p) => depth := DepthExists(p);
    case TAnd(p) => depth := DepthExists(p);
    case TSeq(p1, p2) =>
      var d1 := DepthExists(p1);
      var d2 := DepthExists(p2);
      depth := d1 + d2;
      DepthMore(p1, d1, depth);
      DepthMore(p2, d2, depth);
    case TChoice(p1, p2) =>
      var d1 := DepthExists(p1);
      var d2 := DepthExists(p2);
      depth := d1 + d2;
      DepthMore(p1, d1, depth);
      DepthMore(p2, d2, depth);
    case TBehind(_, p) => depth := DepthExists(p); depth := depth + 1;
    case TGrammar(rs) =>
      depth := 0;
      for k := 0 to |rs|
        invariant forall m :: 0 <= m < k ==> DepthWithin(rs[m], depth)
      {
        var dk := DepthExists(rs[k]);
        forall m | 0 <= m <= k ensures DepthWithin(rs[m], depth + dk) {
          DepthMore(rs[m], if m < k then depth else dk, depth + dk);
        }
        depth := depth + dk;
      }
      depth := depth + 1;
    case _ => depth := 0;
  }

  lemma {:induction false} DepthMore(t: Tree, few: nat, depth: nat)
    requires DepthWithin(t, few) && few <= depth
    ensures DepthWithin(t, depth)
  {
    match t
    case TRep(p) => DepthMore(p, few, depth);
    case TNot(p) => DepthMore(p, few, depth);
    case TAnd(p) => DepthMore(p, few, depth);
    case TSeq(p1, p2) => DepthMore(p1, few, depth); DepthMore(p2, few, depth);
    case TChoice(p1, p2) => DepthMore(p1, few, depth); DepthMore(p2, few, depth);
    case TBehind(_, p) => DepthMore(p, few - 1, depth - 1);
    case TGrammar(rs) =>
      forall k | 0 <= k < |rs| ensures DepthWithin(rs[k], depth - 1) { DepthMore(rs[k], few - 1, depth - 1); }
    case _ =>
  }

  /** Accepted patterns always come to an answer. */
  lemma AcceptedTerminates(t: Tree, d: nat, s: seq<Byte>, i: nat)
    requires Accepted(t, d) && i <= |s|
    ensures exists r: Result :: Answers([], t, s, i, r)
  {
    var depth := DepthExists(t);
    forall n: nat ensures !Calls(t, n) { CallsInScope(t, 0, d, n); }
    PartTerminates([], t, depth, d, s, i);
    var fuel: nat :| !Eval([], t, s, i, fuel).Out?;
    assert Answers([], t, s, i, Eval([], t, s, i, fuel));
  }

  // ----- where the dropped accumulator matters -----

  /** A <- !G A, with G a grammar matching one 'a'. */
  const LeftRecursive: Rules := [TSeq(TNot(TGrammar([TChar(97)])), TCall(0))]

  /** The checker accepts a left-recursive rule, because below the predicate it returns that G consumes:
      the rule never answers on the empty subject. */
  lemma NbDropped(d: nat, fuel: nat)
    ensures VerifyGrammar(LeftRecursive, d) && VerifyGrammar([TChar(97)], d) && !GrammarKeepsNb(LeftRecursive, d)
    ensures Eval(LeftRecursive, LeftRecursive[0], [], 0, fuel).Out?
    decreases fuel
  {
    var g := TGrammar([TChar(97)]);
    assert LeftRecursive[0] == TSeq(TNot(g), TCall(0));
    assert !CheckAux([TChar(97)], TChar(97), PEnullable, d) && !Nullable(LeftRecursive, g, d);
    assert VerifyRule(LeftRecursive, g, 0, true, d) == Some(false);
    assert !KeepsNb(LeftRecursive, TNot(g), 0, false, d);
    assert Used(LeftRecursive, 0) && Used([TChar(97)], 0);
    assert Eval(LeftRecursive, g, [], 0, fuel).Fail?;
    assert Eval(LeftRecursive, TNot(g), [], 0, fuel) == Ok(0);
    if fuel > 0 { NbDropped(d, fuel - 1); }
  }

  /** No grammar occurs inside t. */
  predicate Flat(t: Tree) {
    match t
    case TRep(p) => Flat(p)
    case TNot(p) => Flat(p)
    case TAnd(p) => Flat(p)
    case TBehind(_, p) => Flat(p)
    case TSeq(p1, p2) => Flat(p1) && Flat(p2)
    case TChoice(p1, p2) => Flat(p1) && Flat(p2)
    case TGrammar(_) => false
    case _ => true
  }

  /** Without nested grammars nothing is dropped: there verifyrule's acceptance alone rules out left recursion. */
  lemma {:induction false} FlatKeepsNb(env: Rules, t: Tree, np: nat, nb: bool, d: nat)
    requires np <= MAXRULES && Flat(t) && forall k :: 0 <= k < |env| ==> Flat(env[k])
    ensures KeepsNb(env, t, np, nb, d)
    decreases MAXRULES - np, t
  {
    match t
    case TNot(p) => FlatKeepsNb(env, p, np, true, d);
    case TAnd(p) => FlatKeepsNb(env, p, np, true, d);
    case TRep(p) => FlatKeepsNb(env, p, np, true, d);
    case TCall(n) => if n < |env| && np < MAXRULES { FlatKeepsNb(env, env[n], np + 1, nb, d); }
    case TSeq(p1, p2) =>
      FlatKeepsNb(env, p1, np, false, d);
      FlatKeepsNb(env, p2, np, nb, d);
    case TChoice(p1, p2) =>
      FlatKeepsNb(env, p1, np, nb, d);
      var r := VerifyRule(env, p1, np, nb, d);
      if r.Some? { FlatKeepsNb(env, p2, np, r.value, d); }
    case _ =>
  }

  /** Where no flag is dropped, verifyrule answers true (or raises the error) once nb is set. */
  lemma {:induction false} NbKept(env: Rules, t: Tree, np: nat, d: nat)
    requires np <= MAXRULES && KeepsNb(env, t, np, true, d)
    ensures VerifyRule(env, t, np, true, d) != Some(false)
    decreases MAXRULES - np, t
  {
    match t
    case TNot(p) => NbKept(env, p, np, d);
    case TAnd(p) => NbKept(env, p, np, d);
    case TRep(p) => NbKept(env, p, np, d);
    case TCall(n) => if n < |env| && np < MAXRULES { NbKept(env, env[n], np + 1, d); }
    case TSeq(p1, p2) => if VerifyRule(env, p1, np, false, d) == Some(true) { NbKept(env, p2, np, d); }
    case TChoice(p1, p2) =>
      NbKept(env, p1, np, d);
      if VerifyRule(env, p1, np, true, d).Some? { NbKept(env, p2, np, d); }
    case _ =>
  }

  /** The last part verifyrule visits, where its answer comes from, is a nested grammar that is not nullable; or,
      behind an alternative where that is so, a part that consumes. */
  predicate EndsInGrammar(env: Rules, t: Tree, np: nat, d: nat)
    requires np <= MAXRULES
    decreases MAXRULES - np, t
  {
    match t
    case TNot(p) => EndsInGrammar(env, p, np, d)
    case TAnd(p) => EndsInGrammar(env, p, np, d)
    case TRep(p) => EndsInGrammar(env, p, np, d)
    case TCall(n) => n < |env| && np < MAXRULES && EndsInGrammar(env, env[n], np + 1, d)
    case TSeq(p1, p2) => VerifyRule(env, p1, np, false, d) == Some(true) && EndsInGrammar(env, p2, np, d)
    case TChoice(p1, p2) =>
      VerifyRule(env, p1, np, true, d).Some?
      && if EndsInGrammar(env, p1, np, d) then VerifyRule(env, p2, np, false, d) == Some(false)
         else EndsInGrammar(env, p2, np, d)
    case TGrammar(_) => !Nullable(env, t, d)
    case _ => false
  }

  /** The documentation of verifyrule promises that with nb set it returns true (or raises the error). This is
      exactly where it does not. */
  lemma {:induction false} NbLost(env: Rules, t: Tree, np: nat, d: nat)
    requires np <= MAXRULES
    ensures VerifyRule(env, t, np, true, d) == Some(false) <==> EndsInGrammar(env, t, np, d)
    decreases MAXRULES - np, t
  {
    match t
    case TNot(p) => NbLost(env, p, np, d);
    case TAnd(p) => NbLost(env, p, np, d);
    case TRep(p) => NbLost(env, p, np, d);
    case TCall(n) => if n < |env| && np < MAXRULES { NbLost(env, env[n], np + 1, d); }
    case TSeq(p1, p2) => NbLost(env, p2, np, d);
    case TChoice(p1, p2) =>
      NbLost(env, p1, np, d);
      NbLost(env, p2, np, d);
    case _ =>
  }
}
