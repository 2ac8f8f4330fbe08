/** The static analyses of lpcode.c (nullable, nofail, fixedlen, getfirst, headfail) and what their
    answers mean for matching.

    The C functions follow rule calls without bound. Here `d` bounds the calls followed, and a call
    beyond it gets the answer that promises nothing; every theorem holds for every d, so it holds for
    the C functions whenever they return; that they do in accepted grammars is in Settling. A call to a
    rule not in scope is an open call. */
module Analysis {
  import opened Wrappers
  import opened Charsets
  import opened Trees

  const MAXBEHIND: nat := 255
  const MAXRULES: nat := 1000

  datatype Question = PEnullable | PEnofail

  /** checkaux */
  predicate CheckAux(env: Rules, t: Tree, pred: Question, d: nat)
    decreases d, t
  {
    match t
    case TChar(_) => false
    case TSet(_) => false
    case TAny => false
    case TFalse => false
    case TRep(_) => true
    case TTrue => true
    case TNot(_) => pred.PEnullable?
    case TBehind(_, _) => pred.PEnullable?
    case TAnd(p) => pred.PEnullable? || CheckAux(env, p, pred, d)
    case TSeq(p1, p2) => CheckAux(env, p1, pred, d) && CheckAux(env, p2, pred, d)
    case TChoice(p1, p2) => CheckAux(env, p2, pred, d) || CheckAux(env, p1, pred, d)
    case TGrammar(rules) => rules != [] && CheckAux(rules, rules[0], pred, d)
    case TCall(n) =>
      if n >= |env| then false
      else if d == 0 then pred.PEnullable?
      else CheckAux(env, env[n], pred, d - 1)
  }

  predicate Nullable(env: Rules, t: Tree, d: nat) { CheckAux(env, t, PEnullable, d) }

  predicate NoFail(env: Rules, t: Tree, d: nat) { CheckAux(env, t, PEnofail, d) }

  /** fixedlen: number of characters every match consumes, or -1 when it is not known to be fixed. */
  function FixedLen(env: Rules, t: Tree, d: nat): (n: int)
    ensures n >= -1
    decreases d, t
  {
    match t
    case TChar(_) => 1
    case TSet(_) => 1
    case TAny => 1
    case TFalse => 0
    case TTrue => 0
    case TNot(_) => 0
    case TAnd(_) => 0
    case TBehind(_, _) => 0
    case TRep(_) => -1
    case TGrammar(rules) => if rules == [] then -1 else FixedLen(rules, rules[0], d)
    case TCall(n) => if n >= |env| || d == 0 then -1 else FixedLen(env, env[n], d - 1)
    case TSeq(p1, p2) =>
      var n1, n2 := FixedLen(env, p1, d), FixedLen(env, p2, d);
      if n1 < 0 || n2 < 0 then -1 else n1 + n2
    case TChoice(p1, p2) =>
      var n1, n2 := FixedLen(env, p1, d), FixedLen(env, p2, d);
      if n1 != n2 || n1 < 0 then -1 else n1
  }

  /** A first set, and whether the pattern may accept the empty string at the end of the subject. */
  datatype First = First(set_: Charset, empty: bool)

  /** getfirst, without run-time captures. */
  function GetFirst(env: Rules, t: Tree, follow: Charset, d: nat): First
    decreases d, t
  {
    match t
    case TChar(c) => First(Singleton(c), false)
    case TSet(info) => First(info.Expand(), false)
    case TAny => First(FullSet(), false)
    case TFalse => First(EmptySet(), false)
    case TTrue => First(follow, true)
    case TChoice(p1, p2) =>
      var f1, f2 := GetFirst(env, p1, follow, d), GetFirst(env, p2, follow, d);
      First(Union(f1.set_, f2.set_), f1.empty || f2.empty)
    case TSeq(p1, p2) =>
      if !Nullable(env, p1, d) then GetFirst(env, p1, FullSet(), d)
      else
        var f2 := GetFirst(env, p2, follow, d);
        var f1 := GetFirst(env, p1, f2.set_, d);
        First(f1.set_, f1.empty && f2.empty)
    case TRep(p) => First(Union(GetFirst(env, p, follow, d).set_, follow), true)
    case TGrammar(rules) => if rules == [] then First(FullSet(), true) else GetFirst(rules, rules[0], follow, d)
    case TCall(n) =>
      if n >= |env| || d == 0 then First(FullSet(), true) else GetFirst(env, env[n], follow, d - 1)
    case TAnd(p) =>
      var f := GetFirst(env, p, follow, d);
      First(Intersect(f.set_, follow), f.empty)
    case TNot(p) =>
      var cs := ToCharset(p);
      First(if cs.Some? then Complement(cs.value) else follow, true)
    case TBehind(_, _) => First(follow, true)
  }

  /** headfail: the pattern can fail only depending on the next character. */
  predicate HeadFail(env: Rules, t: Tree, d: nat)
    decreases d, t
  {
    match t
    case TChar(_) => true
    case TSet(_) => true
    case TAny => true
    case TFalse => true
    case TTrue => false
    case TRep(_) => false
    case TNot(_) => false
    case TBehind(_, _) => false
    case TGrammar(rules) => rules != [] && HeadFail(rules, rules[0], d)
    case TAnd(p) => HeadFail(env, p, d)
    case TCall(n) => n < |env| && d > 0 && HeadFail(env, env[n], d - 1)
    case TSeq(p1, p2) => NoFail(env, p2, d) && HeadFail(env, p1, d)
    case TChoice(p1, p2) => HeadFail(env, p1, d) && HeadFail(env, p2, d)
  }

  /** needfollow: whether code generation uses the follow set. */
  predicate NeedFollow(t: Tree) {
    match t
    case TChoice(_, _) => true
    case TRep(_) => true
    case TSeq(_, p2) => NeedFollow(p2)
    case _ => false
  }

  // ----- well-formed trees -----

  /** Calls are in scope, and a look-behind holds the length of its closed body (lp_behind). */
  predicate WellFormed(t: Tree, rules: nat, d: nat) {
    match t
    case TRep(p) => WellFormed(p, rules, d)
    case TSeq(p1, p2) => WellFormed(p1, rules, d) && WellFormed(p2, rules, d)
    case TChoice(p1, p2) => WellFormed(p1, rules, d) && WellFormed(p2, rules, d)
    case TNot(p) => WellFormed(p, rules, d)
    case TAnd(p) => WellFormed(p, rules, d)
    case TBehind(n, p) => WellFormed(p, 0, d) && FixedLen([], p, d) == n && n <= MAXBEHIND
    case TCall(n) => n < rules
    case TGrammar(rs) => 0 < |rs| <= MAXRULES && forall k :: 0 <= k < |rs| ==> WellFormed(rs[k], |rs|, d)
    case _ => true
  }

  predicate WellFormedRules(env: Rules, d: nat) {
    forall k :: 0 <= k < |env| ==> WellFormed(env[k], |env|, d)
  }

  // ----- what the answers mean -----

  /** A match never moves backwards, a fixed length is the length consumed, and only a nullable pattern
      can succeed without consuming. */
  lemma {:induction false} ProgressSound(env: Rules, t: Tree, w: nat, s: seq<Byte>, i: nat, fuel: nat, d: nat)
    requires i <= |s| && WellFormed(t, |env|, w) && WellFormedRules(env, w)
    requires Eval(env, t, s, i, fuel).Ok?
    ensures Eval(env, t, s, i, fuel).j >= i
    ensures FixedLen(env, t, d) >= 0 ==> Eval(env, t, s, i, fuel).j == i + FixedLen(env, t, d)
    ensures Nullable(env, t, d) || Eval(env, t, s, i, fuel).j > i
    decreases fuel, t
  {
    match t
    case TRep(p) =>
      var r := Eval(env, p, s, i, fuel);
      if r.Ok? {
        ProgressSound(env, p, w, s, i, fuel, d);
        ProgressSound(env, t, w, s, r.j, fuel - 1, d);
      }
    case TSeq(p1, p2) =>
      ProgressSound(env, p1, w, s, i, fuel, d);
      ProgressSound(env, p2, w, s, Eval(env, p1, s, i, fuel).j, fuel, d);
    case TChoice(p1, p2) =>
      if Eval(env, p1, s, i, fuel).Fail? { ProgressSound(env, p2, w, s, i, fuel, d); }
      else { ProgressSound(env, p1, w, s, i, fuel, d); }
    case TBehind(n, p) => ProgressSound([], p, w, s, i - n, fuel, w);
    case TCall(n) => ProgressSound(env, env[n], w, s, i, fuel - 1, if d == 0 then 0 else d - 1);
    case TGrammar(rules) => ProgressSound(rules, rules[0], w, s, i, fuel, d);
    case _ =>
  }

  /** A nofail pattern never fails. */
  lemma {:induction false} NoFailSound(env: Rules, t: Tree, s: seq<Byte>, i: nat, fuel: nat, d: nat)
    requires i <= |s| && NoFail(env, t, d)
    ensures !Eval(env, t, s, i, fuel).Fail?
    decreases fuel, t
  {
    match t
    case TRep(p) =>
      var r := Eval(env, p, s, i, fuel);
      if r.Ok? && fuel > 0 { NoFailSound(env, t, s, r.j, fuel - 1, d); }
    case TSeq(p1, p2) =>
      NoFailSound(env, p1, s, i, fuel, d);
      var r := Eval(env, p1, s, i, fuel);
      if r.Ok? { NoFailSound(env, p2, s, r.j, fuel, d); }
    case TChoice(p1, p2) =>
      if NoFail(env, p2, d) { NoFailSound(env, p2, s, i, fuel, d); }
      else { NoFailSound(env, p1, s, i, fuel, d); }
    case TAnd(p) => NoFailSound(env, p, s, i, fuel, d);
    case TCall(n) => if fuel > 0 { NoFailSound(env, env[n], s, i, fuel - 1, d - 1); }
    case TGrammar(rules) => NoFailSound(rules, rules[0], s, i, fuel, d);
    case _ =>
  }

  /** First-set soundness. A match at a character that either consumes something or stops before a
      character of the follow set starts with a character of the first set. */
  lemma {:induction false} FirstSound(env: Rules, t: Tree, w: nat, s: seq<Byte>, i: nat, fuel: nat, follow: Charset, d: nat)
    requires i < |s| && WellFormed(t, |env|, w) && WellFormedRules(env, w)
    requires Eval(env, t, s, i, fuel).Ok?
    requires Eval(env, t, s, i, fuel).j > i || Has(follow, s[i])
    ensures Has(GetFirst(env, t, follow, d).set_, s[i])
    decreases fuel, t
  {
    match t
    case TRep(p) =>
      if !Has(follow, s[i]) {
        var r := Eval(env, p, s, i, fuel);
        ProgressSound(env, p, w, s, i, fuel, d);
        if r.j == i { FirstSound(env, t, w, s, i, fuel - 1, follow, d); }
        else { FirstSound(env, p, w, s, i, fuel, follow, d); }
      }
    case TSeq(p1, p2) =>
      var r := Eval(env, p1, s, i, fuel);
      ProgressSound(env, p1, w, s, i, fuel, d);
      ProgressSound(env, p2, w, s, r.j, fuel, d);
      if !Nullable(env, p1, d) { FirstSound(env, p1, w, s, i, fuel, FullSet(), d); }
      else {
        if r.j == i { FirstSound(env, p2, w, s, i, fuel, follow, d); }
        FirstSound(env, p1, w, s, i, fuel, GetFirst(env, p2, follow, d).set_, d);
      }
    case TChoice(p1, p2) =>
      if Eval(env, p1, s, i, fuel).Fail? { FirstSound(env, p2, w, s, i, fuel, follow, d); }
      else { FirstSound(env, p1, w, s, i, fuel, follow, d); }
    case TAnd(p) => FirstSound(env, p, w, s, i, fuel, follow, d);
    case TNot(p) =>
      if ToCharset(p).Some? { ToCharsetCorrect(env, p, s, i, fuel); }
    case TBehind(n, p) => ProgressSound(env, t, w, s, i, fuel, d);
    case TCall(n) => if d > 0 { FirstSound(env, env[n], w, s, i, fuel - 1, follow, d - 1); }
    case TGrammar(rules) => FirstSound(rules, rules[0], w, s, i, fuel, follow, d);
    case _ =>
  }

  /** Without the empty flag a pattern does not match at the end of the subject. */
  lemma {:induction false} EmptySound(env: Rules, t: Tree, w: nat, s: seq<Byte>, fuel: nat, follow: Charset, d: nat)
    requires WellFormed(t, |env|, w) && WellFormedRules(env, w)
    requires !GetFirst(env, t, follow, d).empty
    ensures !Eval(env, t, s, |s|, fuel).Ok?
    decreases fuel, t
  {
    match t
    case TSeq(p1, p2) =>
      var r := Eval(env, p1, s, |s|, fuel);
      if r.Ok? {
        ProgressSound(env, p1, w, s, |s|, fuel, d);
        if Nullable(env, p1, d) {
          var f2 := GetFirst(env, p2, follow, d);
          if GetFirst(env, p1, f2.set_, d).empty { EmptySound(env, p2, w, s, fuel, follow, d); }
          else { EmptySound(env, p1, w, s, fuel, f2.set_, d); }
        }
      }
    case TChoice(p1, p2) =>
      EmptySound(env, p1, w, s, fuel, follow, d);
      EmptySound(env, p2, w, s, fuel, follow, d);
    case TAnd(p) => EmptySound(env, p, w, s, fuel, follow, d);
    case TCall(n) => if fuel > 0 { EmptySound(env, env[n], w, s, fuel - 1, follow, d - 1); }
    case TGrammar(rules) => EmptySound(rules, rules[0], w, s, fuel, follow, d);
    case _ =>
  }

  /** Membership in a first set, in both halves of a test: the test fails only where the pattern fails. */
  lemma TestSound(env: Rules, t: Tree, w: nat, s: seq<Byte>, i: nat, fuel: nat, d: nat)
    requires i <= |s| && WellFormed(t, |env|, w) && WellFormedRules(env, w)
    requires !GetFirst(env, t, FullSet(), d).empty
    requires i == |s| || !Has(GetFirst(env, t, FullSet(), d).set_, s[i])
    ensures !Eval(env, t, s, i, fuel).Ok?
  {
    if i == |s| { EmptySound(env, t, w, s, fuel, FullSet(), d); }
    else if Eval(env, t, s, i, fuel).Ok? { FirstSound(env, t, w, s, i, fuel, FullSet(), d); }
  }

  ghost predicate Subset(a: Charset, b: Charset) { forall c: Byte :: Has(a, c) ==> Has(b, c) }

  /** First sets grow with the follow set; the empty flag does not depend on it. */
  lemma {:induction false} FirstMonotone(env: Rules, t: Tree, f1: Charset, f2: Charset, d: nat)
    requires Subset(f1, f2)
    ensures Subset(GetFirst(env, t, f1, d).set_, GetFirst(env, t, f2, d).set_)
    ensures GetFirst(env, t, f1, d).empty == GetFirst(env, t, f2, d).empty
    decreases d, t
  {
    match t
    case TRep(p) => FirstMonotone(env, p, f1, f2, d);
    case TSeq(p1, p2) =>
      FirstMonotone(env, p2, f1, f2, d);
      FirstMonotone(env, p1, GetFirst(env, p2, f1, d).set_, GetFirst(env, p2, f2, d).set_, d);
    case TChoice(p1, p2) =>
      FirstMonotone(env, p1, f1, f2, d);
      FirstMonotone(env, p2, f1, f2, d);
    case TAnd(p) => FirstMonotone(env, p, f1, f2, d);
    case TCall(n) => if n < |env| && d > 0 { FirstMonotone(env, env[n], f1, f2, d - 1); }
    case TGrammar(rules) => if rules != [] { FirstMonotone(rules, rules[0], f1, f2, d); }
    case _ =>
  }

  /** A headfail pattern fails at the end of the subject, so its test never loses an empty match. */
  lemma {:induction false} HeadFailNotEmpty(env: Rules, t: Tree, follow: Charset, d: nat)
    requires HeadFail(env, t, d)
    ensures !GetFirst(env, t, follow, d).empty
    decreases d, t
  {
    match t
    case TSeq(p1, p2) =>
      HeadFailNotEmpty(env, p1, FullSet(), d);
      HeadFailNotEmpty(env, p1, GetFirst(env, p2, follow, d).set_, d);
    case TChoice(p1, p2) =>
      HeadFailNotEmpty(env, p1, follow, d);
      HeadFailNotEmpty(env, p2, follow, d);
    case TAnd(p) => HeadFailNotEmpty(env, p, follow, d);
    case TCall(n) => HeadFailNotEmpty(env, env[n], follow, d - 1);
    case TGrammar(rules) => HeadFailNotEmpty(rules, rules[0], follow, d);
    case _ =>
  }

  /** A headfail pattern succeeds at every character of its first set. */
  lemma {:induction false} HeadFailSound(env: Rules, t: Tree, s: seq<Byte>, i: nat, fuel: nat, d: nat)
    requires i < |s| && HeadFail(env, t, d)
    requires Has(GetFirst(env, t, FullSet(), d).set_, s[i])
    ensures !Eval(env, t, s, i, fuel).Fail?
    decreases fuel, t
  {
    match t
    case TSeq(p1, p2) =>
      FirstMonotone(env, p1, GetFirst(env, p2, FullSet(), d).set_, FullSet(), d);
      HeadFailSound(env, p1, s, i, fuel, d);
      var r := Eval(env, p1, s, i, fuel);
      if r.Ok? { NoFailSound(env, p2, s, r.j, fuel, d); }
    case TChoice(p1, p2) =>
      if Has(GetFirst(env, p1, FullSet(), d).set_, s[i]) { HeadFailSound(env, p1, s, i, fuel, d); }
      else { HeadFailSound(env, p2, s, i, fuel, d); }
    case TAnd(p) => HeadFailSound(env, p, s, i, fuel, d);
    case TCall(n) => if fuel > 0 { HeadFailSound(env, env[n], s, i, fuel - 1, d - 1); }
    case TGrammar(rules) => HeadFailSound(rules, rules[0], s, i, fuel, d);
    case _ =>
  }
}
