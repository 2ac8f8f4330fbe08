/** The analyses of lpcode.c follow calls without a bound. In an accepted grammar they come back: beyond some
    number of calls the bound of the model is never reached, so their answers no longer depend on it, and neither
    does the code. */
module Settling {
  import opened Wrappers
  import opened Charsets
  import opened Trees
  import opened Analysis
  import opened Machine
  import opened Codegen
  import opened Jumps
  import opened GrammarCheck

  // ----- checkaux -----

  /** The recursion of checkaux ends without following more than a calls in a row. */
  predicate CheckReturns(env: Rules, t: Tree, q: Question, a: nat)
    decreases a, t
  {
    match t
    case TAnd(p) => q.PEnullable? || CheckReturns(env, p, q, a)
    case TSeq(p1, p2) => CheckReturns(env, p1, q, a) && (CheckAux(env, p1, q, a) ==> CheckReturns(env, p2, q, a))
    case TChoice(p1, p2) => CheckReturns(env, p2, q, a) && (!CheckAux(env, p2, q, a) ==> CheckReturns(env, p1, q, a))
    case TGrammar(rs) => rs == [] || CheckReturns(rs, rs[0], q, a)
    case TCall(n) => n >= |env| || (a > 0 && CheckReturns(env, env[n], q, a - 1))
    case _ => true
  }

  /** Then the bound does not matter. */
  lemma {:induction false} CheckMore(env: Rules, t: Tree, q: Question, a: nat, b: nat)
    requires CheckReturns(env, t, q, a) && a <= b
    ensures CheckReturns(env, t, q, b) && CheckAux(env, t, q, b) == CheckAux(env, t, q, a)
    decreases a, t
  {
    match t
    case TAnd(p) => if q.PEnofail? { CheckMore(env, p, q, a, b); }
    case TSeq(p1, p2) =>
      CheckMore(env, p1, q, a, b);
      if CheckAux(env, p1, q, a) { CheckMore(env, p2, q, a, b); }
    case TChoice(p1, p2) =>
      CheckMore(env, p2, q, a, b);
      if !CheckAux(env, p2, q, a) { CheckMore(env, p1, q, a, b); }
    case TGrammar(rs) => if rs != [] { CheckMore(rs, rs[0], q, a, b); }
    case TCall(n) => if n < |env| { CheckMore(env, env[n], q, a - 1, b - 1); }
    case _ =>
  }

  /** What cannot fail is nullable. */
  lemma {:induction false} NoFailNullable(env: Rules, t: Tree, a: nat)
    requires NoFail(env, t, a)
    ensures Nullable(env, t, a)
    decreases a, t
  {
    match t
    case TSeq(p1, p2) => NoFailNullable(env, p1, a); NoFailNullable(env, p2, a);
    case TChoice(p1, p2) => if NoFail(env, p1, a) { NoFailNullable(env, p1, a); } else { NoFailNullable(env, p2, a); }
    case TGrammar(rs) => NoFailNullable(rs, rs[0], a);
    case TCall(n) => NoFailNullable(env, env[n], a - 1);
    case _ =>
  }

  /** Following more calls finds fewer patterns nullable. */
  lemma {:induction false} NullableLess(env: Rules, t: Tree, a: nat, b: nat)
    requires a <= b && Nullable(env, t, b)
    ensures Nullable(env, t, a)
    decreases a, t
  {
    match t
    case TSeq(p1, p2) => NullableLess(env, p1, a, b); NullableLess(env, p2, a, b);
    case TChoice(p1, p2) => if Nullable(env, p1, b) { NullableLess(env, p1, a, b); } else { NullableLess(env, p2, a, b); }
    case TGrammar(rs) => NullableLess(rs, rs[0], a, b);
    case TCall(n) => if a > 0 { NullableLess(env, env[n], a - 1, b - 1); }
    case _ =>
  }

  /** When verifyrule answers that a pattern consumes, nullable finds that it is not nullable. */
  lemma {:induction false} FlagNullable(env: Rules, t: Tree, np: nat, nb: bool, d: nat, a: nat)
    requires np <= MAXRULES && a >= d + MAXRULES - np
    requires VerifyRule(env, t, np, nb, d) == Some(false) && KeepsNb(env, t, np, nb, d)
    ensures !nb && !Nullable(env, t, a)
    decreases MAXRULES - np, t
  {
    match t
    case TNot(p) => FlagNullable(env, p, np, true, d, a);
    case TAnd(p) => FlagNullable(env, p, np, true, d, a);
    case TRep(p) => FlagNullable(env, p, np, true, d, a);
    case TCall(n) => FlagNullable(env, env[n], np + 1, nb, d, a - 1);
    case TSeq(p1, p2) =>
      if VerifyRule(env, p1, np, false, d) == Some(false) { FlagNullable(env, p1, np, false, d, a); }
      else { FlagNullable(env, p2, np, nb, d, a); }
    case TChoice(p1, p2) =>
      FlagNullable(env, p2, np, VerifyRule(env, p1, np, nb, d).value, d, a);
      FlagNullable(env, p1, np, nb, d, a);
    case TGrammar(rs) => if Nullable(env, t, a) { NullableLess(env, t, d, a); }
    case _ =>
  }

  /** The called rules of a grammar are verified, and so are the grammars inside them. */
  ghost predicate Verified(env: Rules, depth: nat, d: nat) {
    forall n: nat :: Used(env, n) ==>
      n < |env| && Scoped(env, env[n], depth, d) && VerifyRule(env, env[n], 0, false, d).Some? && KeepsNb(env, env[n], 0, false, d)
  }

  lemma ScopedGrammar(env: Rules, rs: seq<Tree>, depth: nat, d: nat)
    requires Scoped(env, TGrammar(rs), depth, d)
    ensures rs != [] && depth > 0 && Verified(rs, depth - 1, d) && Used(rs, 0)
    ensures forall k :: 0 <= k < |rs| ==> Scoped(rs, rs[k], depth - 1, d)
  {
    forall k | 0 <= k < |rs| ensures Scoped(rs, rs[k], depth - 1, d) {
      forall m: nat | Calls(rs[k], m) ensures Used(rs, m) {
        if m >= |rs| { CallsInScope(rs[k], |rs|, d, m); }
      }
    }
  }

  /** Enough calls for the left ends of a part at which verifyrule arrives after np calls. */
  function LeftEnough(np: nat, depth: nat, d: nat): nat
    requires np <= MAXRULES
  {
    d + (MAXRULES - np) + (MAXRULES + 1) * depth
  }

  /** Where verifyrule has been, checkaux comes back. */
  lemma {:induction false} LeftCheck(env: Rules, t: Tree, q: Question, np: nat, nb: bool, depth: nat, d: nat, a: nat)
    requires np <= MAXRULES && Verified(env, depth, d) && Scoped(env, t, depth, d)
    requires VerifyRule(env, t, np, nb, d).Some? && KeepsNb(env, t, np, nb, d) && a >= LeftEnough(np, depth, d)
    ensures CheckReturns(env, t, q, a)
    decreases depth, MAXRULES - np, t
  {
    hide Verified, Scoped;
    ScopedParts(env, t, depth, d);
    match t
    case TAnd(p) => LeftCheck(env, p, q, np, true, depth, d, a);
    case TCall(n) =>
      VerifiedRule(env, n, depth, d);
      LeftCheck(env, env[n], q, np + 1, nb, depth, d, a - 1);
    case TSeq(p1, p2) =>
      LeftCheck(env, p1, q, np, false, depth, d, a);
      if CheckAux(env, p1, q, a) {
        if q.PEnofail? { NoFailNullable(env, p1, a); }
        if VerifyRule(env, p1, np, false, d) == Some(false) { FlagNullable(env, p1, np, false, d, a); }
        LeftCheck(env, p2, q, np, nb, depth, d, a);
      }
    case TChoice(p1, p2) =>
      LeftCheck(env, p1, q, np, nb, depth, d, a);
      LeftCheck(env, p2, q, np, VerifyRule(env, p1, np, nb, d).value, depth, d, a);
    case TGrammar(rs) =>
      ScopedGrammar(env, rs, depth, d);
      VerifiedRule(rs, 0, depth - 1, d);
      LeftCheck(rs, rs[0], q, 0, false, depth - 1, d, a);
    case _ =>
  }

  lemma VerifiedRule(env: Rules, n: nat, depth: nat, d: nat)
    requires Verified(env, depth, d) && Used(env, n)
    ensures n < |env| && Scoped(env, env[n], depth, d)
    ensures VerifyRule(env, env[n], 0, false, d).Some? && KeepsNb(env, env[n], 0, false, d)
  {
  }

  /** Anywhere in an accepted pattern checkaux comes back. */
  lemma {:induction false} CheckComesBack(env: Rules, t: Tree, q: Question, depth: nat, d: nat, a: nat)
    requires Verified(env, depth, d) && Scoped(env, t, depth, d) && a > LeftEnough(0, depth, d)
    ensures CheckReturns(env, t, q, a)
    decreases t
  {
    hide Verified, Scoped;
    ScopedParts(env, t, depth, d);
    match t
    case TAnd(p) => CheckComesBack(env, p, q, depth, d, a);
    case TCall(n) =>
      VerifiedRule(env, n, depth, d);
      LeftCheck(env, env[n], q, 0, false, depth, d, a - 1);
    case TSeq(p1, p2) => CheckComesBack(env, p1, q, depth, d, a); CheckComesBack(env, p2, q, depth, d, a);
    case TChoice(p1, p2) => CheckComesBack(env, p1, q, depth, d, a); CheckComesBack(env, p2, q, depth, d, a);
    case TGrammar(rs) =>
      ScopedGrammar(env, rs, depth, d);
      VerifiedRule(rs, 0, depth - 1, d);
      LeftCheck(rs, rs[0], q, 0, false, depth - 1, d, a);
    case _ =>
  }

  /** In the left-recursive grammar the checker wrongly accepts, nullable follows calls forever. */
  lemma {:induction false} NullableRecurs(a: nat)
    ensures !CheckReturns(LeftRecursive, LeftRecursive[0], PEnullable, a)
    decreases a
  {
    var g := TGrammar([TChar(97)]);
    assert LeftRecursive[0] == TSeq(TNot(g), TCall(0));
    if a > 0 { NullableRecurs(a - 1); }
  }

  // ----- getfirst -----

  /** The recursion of getfirst ends within a calls. It also visits the body of a predicate that is not a
      set, and that of a look-behind, though neither changes its answer. */
  predicate FirstReturns(env: Rules, t: Tree, a: nat)
    decreases a, t
  {
    match t
    case TRep(p) => FirstReturns(env, p, a)
    case TAnd(p) => FirstReturns(env, p, a)
    case TNot(p) => ToCharset(p).Some? || FirstReturns(env, p, a)
    case TBehind(_, p) => FirstReturns([], p, a)
    case TSeq(p1, p2) =>
      && CheckReturns(env, p1, PEnullable, a) && FirstReturns(env, p1, a)
      && (Nullable(env, p1, a) ==> FirstReturns(env, p2, a))
    case TChoice(p1, p2) => FirstReturns(env, p1, a) && FirstReturns(env, p2, a)
    case TGrammar(rs) => rs == [] || FirstReturns(rs, rs[0], a)
    case TCall(n) => n >= |env| || (a > 0 && FirstReturns(env, env[n], a - 1))
    case _ => true
  }

  lemma {:induction false} FirstMore(env: Rules, t: Tree, fl: Charset, a: nat, b: nat)
    requires FirstReturns(env, t, a) && a <= b
    ensures FirstReturns(env, t, b) && GetFirst(env, t, fl, b) == GetFirst(env, t, fl, a)
    decreases a, t
  {
    hide Has, CheckAux, CheckReturns, ToCharset;
    match t
    case TRep(p) => FirstMore(env, p, fl, a, b);
    case TAnd(p) => FirstMore(env, p, fl, a, b);
    case TNot(p) => if ToCharset(p).None? { FirstMore(env, p, fl, a, b); }
    case TBehind(_, p) => FirstMore([], p, fl, a, b);
    case TSeq(p1, p2) =>
      CheckMore(env, p1, PEnullable, a, b);
      FirstMore(env, p1, FullSet(), a, b);
      if Nullable(env, p1, a) {
        FirstMore(env, p2, fl, a, b);
        FirstMore(env, p1, GetFirst(env, p2, fl, a).set_, a, b);
      }
    case TChoice(p1, p2) => FirstMore(env, p1, fl, a, b); FirstMore(env, p2, fl, a, b);
    case TGrammar(rs) => if rs != [] { FirstMore(rs, rs[0], fl, a, b); }
    case TCall(n) => if n < |env| { FirstMore(env, env[n], fl, a - 1, b - 1); }
    case _ =>
  }

  lemma {:induction false} LeftFirst(env: Rules, t: Tree, np: nat, nb: bool, depth: nat, d: nat, a: nat)
    requires np <= MAXRULES && Verified(env, depth, d) && Scoped(env, t, depth, d)
    requires VerifyRule(env, t, np, nb, d).Some? && KeepsNb(env, t, np, nb, d) && a >= LeftEnough(np, depth, d)
    ensures FirstReturns(env, t, a)
    decreases depth, MAXRULES - np, 0, t
  {
    hide Verified, Scoped, CheckAux, CheckReturns, ToCharset;
    ScopedParts(env, t, depth, d);
    match t
    case TRep(p) => LeftFirst(env, p, np, true, depth, d, a);
    case TAnd(p) => LeftFirst(env, p, np, true, depth, d, a);
    case TNot(p) => LeftFirst(env, p, np, true, depth, d, a);
    case TBehind(n, p) =>
      BehindScoped(env, n, p, depth, d);
      FirstComesBack([], p, depth - 1, d, a);
    case TCall(n) =>
      VerifiedRule(env, n, depth, d);
      LeftFirst(env, env[n], np + 1, nb, depth, d, a - 1);
    case TSeq(p1, p2) =>
      LeftCheck(env, p1, PEnullable, np, false, depth, d, a);
      LeftFirst(env, p1, np, false, depth, d, a);
      if Nullable(env, p1, a) {
        if VerifyRule(env, p1, np, false, d) == Some(false) { FlagNullable(env, p1, np, false, d, a); }
        LeftFirst(env, p2, np, nb, depth, d, a);
      }
    case TChoice(p1, p2) =>
      LeftFirst(env, p1, np, nb, depth, d, a);
      LeftFirst(env, p2, np, VerifyRule(env, p1, np, nb, d).value, depth, d, a);
    case TGrammar(rs) =>
      ScopedGrammar(env, rs, depth, d);
      VerifiedRule(rs, 0, depth - 1, d);
      LeftFirst(rs, rs[0], 0, false, depth - 1, d, a);
    case _ =>
  }

  /** Anywhere in an accepted pattern getfirst comes back. */
  lemma {:induction false} FirstComesBack(env: Rules, t: Tree, depth: nat, d: nat, a: nat)
    requires Verified(env, depth, d) && Scoped(env, t, depth, d) && a > LeftEnough(0, depth, d)
    ensures FirstReturns(env, t, a)
    decreases depth, MAXRULES, 1, t
  {
    hide Verified, Scoped, CheckAux, CheckReturns, ToCharset;
    ScopedParts(env, t, depth, d);
    match t
    case TRep(p) => FirstComesBack(env, p, depth, d, a);
    case TAnd(p) => FirstComesBack(env, p, depth, d, a);
    case TNot(p) => FirstComesBack(env, p, depth, d, a);
    case TBehind(n, p) =>
      BehindScoped(env, n, p, depth, d);
      FirstComesBack([], p, depth - 1, d, a);
    case TCall(n) =>
      VerifiedRule(env, n, depth, d);
      LeftFirst(env, env[n], 0, false, depth, d, a - 1);
    case TSeq(p1, p2) =>
      CheckComesBack(env, p1, PEnullable, depth, d, a);
      FirstComesBack(env, p1, depth, d, a);
      FirstComesBack(env, p2, depth, d, a);
    case TChoice(p1, p2) => FirstComesBack(env, p1, depth, d, a); FirstComesBack(env, p2, depth, d, a);
    case TGrammar(rs) =>
      ScopedGrammar(env, rs, depth, d);
      VerifiedRule(rs, 0, depth - 1, d);
      LeftFirst(rs, rs[0], 0, false, depth - 1, d, a);
    case _ =>
  }

  // ----- headfail -----

  /** The recursion of headfail ends within a calls. */
  predicate HeadReturns(env: Rules, t: Tree, a: nat)
    decreases a, t
  {
    match t
    case TAnd(p) => HeadReturns(env, p, a)
    case TSeq(p1, p2) => CheckReturns(env, p2, PEnofail, a) && (NoFail(env, p2, a) ==> HeadReturns(env, p1, a))
    case TChoice(p1, p2) => HeadReturns(env, p1, a) && (HeadFail(env, p1, a) ==> HeadReturns(env, p2, a))
    case TGrammar(rs) => rs == [] || HeadReturns(rs, rs[0], a)
    case TCall(n) => n >= |env| || (a > 0 && HeadReturns(env, env[n], a - 1))
    case _ => true
  }

  lemma {:induction false} HeadMore(env: Rules, t: Tree, a: nat, b: nat)
    requires HeadReturns(env, t, a) && a <= b
    ensures HeadReturns(env, t, b) && HeadFail(env, t, b) == HeadFail(env, t, a)
    decreases a, t
  {
    hide CheckAux, CheckReturns;
    match t
    case TAnd(p) => HeadMore(env, p, a, b);
    case TSeq(p1, p2) =>
      CheckMore(env, p2, PEnofail, a, b);
      if NoFail(env, p2, a) { HeadMore(env, p1, a, b); }
    case TChoice(p1, p2) =>
      HeadMore(env, p1, a, b);
      if HeadFail(env, p1, a) { HeadMore(env, p2, a, b); }
    case TGrammar(rs) => if rs != [] { HeadMore(rs, rs[0], a, b); }
    case TCall(n) => if n < |env| { HeadMore(env, env[n], a - 1, b - 1); }
    case _ =>
  }

  lemma {:induction false} LeftHead(env: Rules, t: Tree, np: nat, nb: bool, depth: nat, d: nat, a: nat)
    requires np <= MAXRULES && Verified(env, depth, d) && Scoped(env, t, depth, d)
    requires VerifyRule(env, t, np, nb, d).Some? && KeepsNb(env, t, np, nb, d)
    requires a > LeftEnough(0, depth, d) + (MAXRULES - np)
    ensures HeadReturns(env, t, a)
    decreases depth, MAXRULES - np, t
  {
    hide Verified, Scoped, CheckAux, CheckReturns;
    ScopedParts(env, t, depth, d);
    match t
    case TAnd(p) => LeftHead(env, p, np, true, depth, d, a);
    case TCall(n) =>
      VerifiedRule(env, n, depth, d);
      LeftHead(env, env[n], np + 1, nb, depth, d, a - 1);
    case TSeq(p1, p2) =>
      CheckComesBack(env, p2, PEnofail, depth, d, a);
      LeftHead(env, p1, np, false, depth, d, a);
    case TChoice(p1, p2) =>
      LeftHead(env, p1, np, nb, depth, d, a);
      LeftHead(env, p2, np, VerifyRule(env, p1, np, nb, d).value, depth, d, a);
    case TGrammar(rs) =>
      ScopedGrammar(env, rs, depth, d);
      VerifiedRule(rs, 0, depth - 1, d);
      LeftHead(rs, rs[0], 0, false, depth - 1, d, a);
    case _ =>
  }

  /** Anywhere in an accepted pattern headfail comes back. */
  lemma {:induction false} HeadComesBack(env: Rules, t: Tree, depth: nat, d: nat, a: nat)
    requires Verified(env, depth, d) && Scoped(env, t, depth, d) && a > LeftEnough(0, depth, d) + MAXRULES + 1
    ensures HeadReturns(env, t, a)
    decreases t
  {
    hide Verified, Scoped, CheckAux, CheckReturns;
    ScopedParts(env, t, depth, d);
    match t
    case TAnd(p) => HeadComesBack(env, p, depth, d, a);
    case TCall(n) =>
      VerifiedRule(env, n, depth, d);
      LeftHead(env, env[n], 0, false, depth, d, a - 1);
    case TSeq(p1, p2) => CheckComesBack(env, p2, PEnofail, depth, d, a); HeadComesBack(env, p1, depth, d, a);
    case TChoice(p1, p2) => HeadComesBack(env, p1, depth, d, a); HeadComesBack(env, p2, depth, d, a);
    case TGrammar(rs) =>
      ScopedGrammar(env, rs, depth, d);
      VerifiedRule(rs, 0, depth - 1, d);
      LeftHead(rs, rs[0], 0, false, depth - 1, d, a);
    case _ =>
  }

  // ----- fixedlen -----

  /** A length once found is not lost. */
  lemma {:induction false} LengthMore(env: Rules, t: Tree, a: nat)
    requires FixedLen(env, t, a) >= 0
    ensures FixedLen(env, t, a + 1) == FixedLen(env, t, a)
    decreases a, t
  {
    match t
    case TSeq(p1, p2) => LengthMore(env, p1, a); LengthMore(env, p2, a);
    case TChoice(p1, p2) => LengthMore(env, p1, a); LengthMore(env, p2, a);
    case TGrammar(rs) => LengthMore(rs, rs[0], a);
    case TCall(n) => LengthMore(env, env[n], a - 1);
    case _ =>
  }

  /** One more call changes no rule's length. */
  ghost predicate SameLengths(env: Rules, a: nat) {
    forall n :: 0 <= n < |env| ==> FixedLen(env, env[n], a + 1) == FixedLen(env, env[n], a)
  }

  /** The rules whose lengths are found within a calls. */
  ghost function Known(env: Rules, a: nat): set<nat> {
    set n: nat | n < |env| && FixedLen(env, env[n], a) >= 0
  }

  lemma KnownGrows(env: Rules, a: nat)
    ensures Known(env, a) <= Known(env, a + 1)
    ensures !SameLengths(env, a) ==> |Known(env, a + 1)| > |Known(env, a)|
  {
    hide FixedLen;
    forall n: nat | n in Known(env, a) ensures n in Known(env, a + 1) { LengthMore(env, env[n], a); }
    if !SameLengths(env, a) {
      var n :| 0 <= n < |env| && FixedLen(env, env[n], a + 1) != FixedLen(env, env[n], a);
      if n in Known(env, a) { LengthMore(env, env[n], a); }
      assert n in Known(env, a + 1) - Known(env, a) by { LengthMost(env, env[n], a); }
      Larger(Known(env, a), Known(env, a + 1), n);
    }
  }

  lemma LengthMost(env: Rules, t: Tree, a: nat)
    ensures FixedLen(env, t, a + 1) == FixedLen(env, t, a) || (FixedLen(env, t, a) == -1 && FixedLen(env, t, a + 1) >= 0)
  {
    if FixedLen(env, t, a) >= 0 { LengthMore(env, t, a); }
  }

  lemma Larger(x: set<nat>, y: set<nat>, n: nat)
    requires x <= y && n in y && n !in x
    ensures |y| > |x|
  {
    assert y == x + (y - x) && |y - x| > 0;
  }

  lemma KnownCount(env: Rules, a: nat)
    ensures |Known(env, a)| <= |env|
  {
    SmallSet(Known(env, a), |env|);
  }

  /** With as many calls as there are rules left without a length, some call more changes nothing. */
  lemma {:induction false} SomeSame(env: Rules, a: nat, left: nat) returns (b: nat)
    requires |Known(env, a)| + left >= |env|
    ensures a <= b <= a + left && SameLengths(env, b)
    decreases left
  {
    hide FixedLen, Known, SameLengths;
    b := a;
    if !SameLengths(env, a) {
      KnownGrows(env, a);
      KnownCount(env, a + 1);
      b := SomeSame(env, a + 1, left - 1);
    }
  }

  /** Grammars in scope are no larger than the library allows. */
  ghost predicate Bounded(env: Rules, depth: nat, d: nat) {
    |env| <= MAXRULES && forall k :: 0 <= k < |env| ==> WellFormed(env[k], |env|, d) && DepthWithin(env[k], depth)
  }

  function LengthEnough(depth: nat): nat { (depth + 1) * (MAXRULES + 2) }

  /** When one call more changes no rule, it changes no pattern that calls them. */
  lemma {:induction false} LengthStep(env: Rules, t: Tree, depth: nat, d: nat, a: nat)
    requires WellFormed(t, |env|, d) && DepthWithin(t, depth) && SameLengths(env, a) && a + 1 >= depth * (MAXRULES + 2)
    ensures FixedLen(env, t, a + 2) == FixedLen(env, t, a + 1)
    decreases depth, 0, t
  {
    match t
    case TSeq(p1, p2) => LengthStep(env, p1, depth, d, a); LengthStep(env, p2, depth, d, a);
    case TChoice(p1, p2) => LengthStep(env, p1, depth, d, a); LengthStep(env, p2, depth, d, a);
    case TGrammar(rs) => LengthSettles(rs, rs[0], depth - 1, d, a + 1);
    case _ =>
  }

  /** So it goes on changing none. */
  lemma {:induction false} SameOn(env: Rules, depth: nat, d: nat, a: nat, b: nat)
    requires Bounded(env, depth, d) && SameLengths(env, a) && a + 1 >= depth * (MAXRULES + 2) && a <= b
    ensures SameLengths(env, b)
    decreases depth, 1, b - a
  {
    hide FixedLen;
    if a < b {
      forall n | 0 <= n < |env| ensures FixedLen(env, env[n], a + 2) == FixedLen(env, env[n], a + 1) {
        LengthStep(env, env[n], depth, d, a);
      }
      SameOn(env, depth, d, a + 1, b);
    }
  }

  /** fixedlen settles, whether or not the rules call themselves. */
  lemma {:induction false} LengthSettles(env: Rules, t: Tree, depth: nat, d: nat, a: nat)
    requires Bounded(env, depth, d) && WellFormed(t, |env|, d) && DepthWithin(t, depth) && a >= LengthEnough(depth)
    ensures FixedLen(env, t, a + 1) == FixedLen(env, t, a)
    decreases depth, 2
  {
    hide FixedLen, Known, SameLengths;
    var b := SomeSame(env, depth * (MAXRULES + 2), |env|);
    SameOn(env, depth, d, b, a - 1);
    LengthStep(env, t, depth, d, a - 1);
  }

  // ----- the code -----

  /** Where all analyses have settled. */
  function Enough(depth: nat, d: nat): nat { LeftEnough(0, depth, d) + MAXRULES + 2 + LengthEnough(depth) }

  /** What the code of a part rests on. */
  ghost predicate Ready(env: Rules, t: Tree, depth: nat, d: nat, a: nat) {
    Verified(env, depth, d) && Bounded(env, depth, d) && Scoped(env, t, depth, d) && a >= Enough(depth, d)
  }

  lemma AllSettle(env: Rules, t: Tree, fl: Charset, depth: nat, d: nat, a: nat)
    requires Ready(env, t, depth, d, a)
    ensures GetFirst(env, t, fl, a + 1) == GetFirst(env, t, fl, a)
    ensures HeadFail(env, t, a + 1) == HeadFail(env, t, a)
    ensures FixedLen(env, t, a + 1) == FixedLen(env, t, a)
  {
    hide GetFirst, HeadFail, FixedLen, Verified, Bounded;
    FirstComesBack(env, t, depth, d, a);
    FirstMore(env, t, fl, a, a + 1);
    HeadComesBack(env, t, depth, d, a);
    HeadMore(env, t, a, a + 1);
    LengthSettles(env, t, depth, d, a);
  }

  lemma ReadyParts(env: Rules, t: Tree, depth: nat, d: nat, a: nat)
    requires Ready(env, t, depth, d, a)
    ensures t.TRep? || t.TNot? || t.TAnd? ==> Ready(env, t.p, depth, d, a)
    ensures t.TSeq? || t.TChoice? ==> Ready(env, t.p1, depth, d, a) && Ready(env, t.p2, depth, d, a)
    ensures t.TBehind? ==> depth > 0 && Ready([], t.p, depth - 1, d, a)
    ensures t.TGrammar? ==> depth > 0 && forall k :: 0 <= k < |t.rules| ==> Ready(t.rules, t.rules[k], depth - 1, d, a)
  {
    hide Scoped;
    ScopedParts(env, t, depth, d);
    if t.TBehind? { BehindScoped(env, t.n, t.p, depth, d); }
    if t.TGrammar? {
      ScopedGrammar(env, t.rules, depth, d);
      ScopedBounded(env, t.rules, depth, d);
    }
  }

  lemma ScopedBounded(env: Rules, rs: seq<Tree>, depth: nat, d: nat)
    requires Scoped(env, TGrammar(rs), depth, d)
    ensures depth > 0 && Bounded(rs, depth - 1, d)
  {
  }

  lemma BehindScoped(env: Rules, n: nat, p: Tree, depth: nat, d: nat)
    requires Scoped(env, TBehind(n, p), depth, d)
    ensures depth > 0 && Scoped([], p, depth - 1, d) && Verified([], depth - 1, d) && Bounded([], depth - 1, d)
  {
    forall m: nat ensures !Calls(p, m) { CallsInScope(p, 0, d, m); }
  }

  /** Then the code settles too. */
  lemma {:induction false} GenSettles(env: Rules, t: Tree, opt: bool, tt: Option<Instr>, fl: Charset, depth: nat,
                    d: nat, a: nat)
    requires Ready(env, t, depth, d, a)
    ensures Gen(env, t, opt, tt, fl, a + 1) == Gen(env, t, opt, tt, fl, a)
    decreases t, 1
  {
    hide Ready, Gen, GetFirst, HeadFail, FixedLen, NeedFollow, FixCalls, GrammarRaw, Positions, Emit;
    ReadyParts(env, t, depth, d, a);
    GenOfLeaf(env, opt, tt, fl, a);
    GenOfLeaf(env, opt, tt, fl, a + 1);
    match t
    case TSeq(p1, p2) =>
      GenOfSeq(env, p1, p2, opt, tt, fl, a);
      GenOfSeq(env, p1, p2, opt, tt, fl, a + 1);
      AllSettle(env, p1, fl, depth, d, a);
      AllSettle(env, p2, fl, depth, d, a);
      GenSettles(env, p1, false, tt, if NeedFollow(p1) then GetFirst(env, p2, fl, a).set_ else FullSet(), depth, d, a);
      GenSettles(env, p2, opt, if FixedLen(env, p1, a) != 0 then None else tt, fl, depth, d, a);
    case TChoice(p1, p2) => ChoiceSettles(env, p1, p2, opt, tt, fl, depth, d, a);
    case TRep(p) => RepSettles(env, p, opt, tt, fl, depth, d, a);
    case TNot(p) =>
      GenOfNot(env, p, opt, tt, fl, a);
      GenOfNot(env, p, opt, tt, fl, a + 1);
      AllSettle(env, p, FullSet(), depth, d, a);
      GenSettles(env, p, false, None, FullSet(), depth, d, a);
    case TAnd(p) =>
      GenOfAnd(env, p, opt, tt, fl, a);
      GenOfAnd(env, p, opt, tt, fl, a + 1);
      AllSettle(env, p, FullSet(), depth, d, a);
      GenSettles(env, p, false, tt, FullSet(), depth, d, a);
    case TBehind(n, p) =>
      GenOfBehind(env, n, p, opt, tt, fl, a);
      GenOfBehind(env, n, p, opt, tt, fl, a + 1);
      GenSettles([], p, false, None, FullSet(), depth - 1, d, a);
    case TGrammar(rs) =>
      GenOfGrammar(env, rs, opt, tt, fl, a);
      GenOfGrammar(env, rs, opt, tt, fl, a + 1);
      RulesSettle(rs, rs, 4, depth - 1, d, a);
      RawOf(rs, a);
      RawOf(rs, a + 1);
    case _ =>
  }

  lemma RawOf(rs: seq<Tree>, a: nat)
    ensures var bodies := GenRules(rs, rs, a); GrammarRaw(rs, a) == EmitTo(ICall, 4) + EmitTo(IJmp, 2 + |bodies|) + bodies
  {
  }

  lemma {:induction false} ChoiceSettles(env: Rules, p1: Tree, p2: Tree, opt: bool, tt: Option<Instr>, fl: Charset,
                    depth: nat, d: nat, a: nat)
    requires Ready(env, p1, depth, d, a) && Ready(env, p2, depth, d, a)
    ensures Gen(env, TChoice(p1, p2), opt, tt, fl, a + 1) == Gen(env, TChoice(p1, p2), opt, tt, fl, a)
    decreases TChoice(p1, p2), 0
  {
    hide Ready, Gen, GetFirst, HeadFail, TestInstr, TestFor, ChoiceByTest, ChoiceByStack, EmitTo;
    GenOfChoice(env, p1, p2, opt, tt, fl, a);
    GenOfChoice(env, p1, p2, opt, tt, fl, a + 1);
    AllSettle(env, p1, FullSet(), depth, d, a);
    AllSettle(env, p2, fl, depth, d, a);
    var f1 := GetFirst(env, p1, FullSet(), a);
    GenSettles(env, p1, false, Some(TestInstr(f1.set_)), fl, depth, d, a);
    GenSettles(env, p1, true, None, FullSet(), depth, d, a);
    GenSettles(env, p1, p2.TTrue?, TestFor(f1), FullSet(), depth, d, a);
    GenSettles(env, p2, opt, None, fl, depth, d, a);
  }

  lemma {:induction false} RepSettles(env: Rules, p: Tree, opt: bool, tt: Option<Instr>, fl: Charset, depth: nat,
                    d: nat, a: nat)
    requires Ready(env, p, depth, d, a)
    ensures Gen(env, TRep(p), opt, tt, fl, a + 1) == Gen(env, TRep(p), opt, tt, fl, a)
    decreases TRep(p), 0
  {
    hide Ready, Gen, GetFirst, HeadFail, TestInstr, TestFor, TestLoop, ChoiceLoop, RepCharset, ToCharset;
    GenOfRep(env, p, opt, tt, fl, a);
    GenOfRep(env, p, opt, tt, fl, a + 1);
    AllSettle(env, p, FullSet(), depth, d, a);
    GenSettles(env, p, false, Some(TestInstr(GetFirst(env, p, FullSet(), a).set_)), FullSet(), depth, d, a);
    GenSettles(env, p, false, None, FullSet(), depth, d, a);
  }

  lemma {:induction false} RulesSettle(env: Rules, rest: seq<Tree>, start: nat, depth: nat, d: nat, a: nat)
    requires forall k :: 0 <= k < |rest| ==> Ready(env, rest[k], depth, d, a)
    ensures GenRules(env, rest, a + 1) == GenRules(env, rest, a)
    ensures Positions(env, rest, start, a + 1) == Positions(env, rest, start, a)
    decreases rest, 0
  {
    hide Ready, Gen, Emit;
    if rest != [] {
      GenSettles(env, rest[0], false, None, FullSet(), depth, d, a);
      RulesSettle(env, rest[1..], start + |Gen(env, rest[0], false, None, FullSet(), a)| + 1, depth, d, a);
    }
  }

  /** For an accepted pattern the code does not depend on the bound on calls followed, once that is large enough:
      it is the code the source makes. */
  lemma CodeSettles(t: Tree, d: nat) returns (a0: nat)
    requires Accepted(t, d)
    ensures forall a: nat :: a >= a0 ==> GenPattern(t, a) == GenPattern(t, a0)
  {
    hide Gen, WellFormed, Built, CheckLoops;
    var depth := DepthExists(t);
    forall n: nat ensures !Calls(t, n) { CallsInScope(t, 0, d, n); }
    a0 := Enough(depth, d);
    forall a: nat | a >= a0 ensures GenPattern(t, a) == GenPattern(t, a0) { SettledFrom(t, depth, d, a0, a); }
  }

  lemma {:induction false} SettledFrom(t: Tree, depth: nat, d: nat, a: nat, b: nat)
    requires Scoped([], t, depth, d) && Enough(depth, d) <= a <= b
    ensures GenPattern(t, b) == GenPattern(t, a)
    decreases b - a
  {
    hide Gen, Scoped, Emit;
    if a < b {
      GenSettles([], t, false, None, FullSet(), depth, d, b - 1);
      SettledFrom(t, depth, d, a, b - 1);
    }
  }
}
