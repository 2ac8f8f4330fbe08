/** LPeg pattern trees (lptree.h) and the reference semantics of parsing expressions. */
module Trees {
  import opened Wrappers
  import opened Charsets

  type SetInfo = i: CharsetInfo | i.Valid() witness CharsetInfo([0], 0, 1, 0)

  /** Pattern trees without captures. A call names a rule of the innermost enclosing grammar by its
      sequential number; `TBehind(n, p)` matches p, whose length is n, ending at the current position. */
  datatype Tree =
    | TChar(c: Byte)
    | TSet(info: SetInfo)
    | TAny
    | TTrue
    | TFalse
    | TRep(p: Tree)
    | TSeq(p1: Tree, p2: Tree)
    | TChoice(p1: Tree, p2: Tree)
    | TNot(p: Tree)
    | TAnd(p: Tree)
    | TBehind(n: nat, p: Tree)
    | TCall(rule: nat)
    | TGrammar(rules: seq<Tree>)

  /** The rules calls refer to. */
  type Rules = seq<Tree>

  datatype Result = Out | Fail | Ok(j: nat)

  /** Match t at position i of s. `fuel` bounds rule calls and loop iterations; Out means it ran out,
      so a pattern that never answers is Out for every fuel. A look-behind body is closed
      (lptree.c:764-765 refuse open calls), so it is matched with no rules in scope. */
  function Eval(env: Rules, t: Tree, s: seq<Byte>, i: nat, fuel: nat): (r: Result)
    requires i <= |s|
    ensures r.Ok? ==> r.j <= |s|
    decreases fuel, t
  {
    match t
    case TChar(c) => if i < |s| && s[i] == c then Ok(i + 1) else Fail
    case TSet(info) => if i < |s| && Has(info.Expand(), s[i]) then Ok(i + 1) else Fail
    case TAny => if i < |s| then Ok(i + 1) else Fail
    case TTrue => Ok(i)
    case TFalse => Fail
    case TRep(p) =>
      var r := Eval(env, p, s, i, fuel);
      if r.Fail? then Ok(i)
      else if r.Ok? && fuel > 0 then Eval(env, t, s, r.j, fuel - 1)
      else Out
    case TSeq(p1, p2) =>
      var r := Eval(env, p1, s, i, fuel);
      if r.Ok? then Eval(env, p2, s, r.j, fuel) else r
    case TChoice(p1, p2) =>
      var r := Eval(env, p1, s, i, fuel);
      if r.Fail? then Eval(env, p2, s, i, fuel) else r
    case TNot(p) =>
      var r := Eval(env, p, s, i, fuel);
      if r.Fail? then Ok(i) else if r.Ok? then Fail else Out
    case TAnd(p) =>
      var r := Eval(env, p, s, i, fuel);
      if r.Ok? then Ok(i) else r
    case TBehind(n, p) =>
      if i < n then Fail else Eval([], p, s, i - n, fuel)
    case TCall(n) =>
      if n < |env| && fuel > 0 then Eval(env, env[n], s, i, fuel - 1) else Out
    case TGrammar(rules) =>
      if rules == [] then Out else Eval(rules, rules[0], s, i, fuel)
  }

  /** t answers r at i: the fuel-free semantics. */
  ghost predicate Answers(env: Rules, t: Tree, s: seq<Byte>, i: nat, r: Result)
    requires i <= |s|
  {
    !r.Out? && exists fuel: nat :: Eval(env, t, s, i, fuel) == r
  }

  lemma EvalOfChoice(env: Rules, p1: Tree, p2: Tree, s: seq<Byte>, i: nat, fuel: nat)
    requires i <= |s|
    ensures var r := Eval(env, p1, s, i, fuel);
            Eval(env, TChoice(p1, p2), s, i, fuel) == if r.Fail? then Eval(env, p2, s, i, fuel) else r
  {
    hide Has;
  }

  /** More fuel never changes an answer. */
  lemma {:induction false} EvalMonotone(env: Rules, t: Tree, s: seq<Byte>, i: nat, fuel: nat, more: nat)
    requires i <= |s| && fuel <= more
    requires !Eval(env, t, s, i, fuel).Out?
    ensures Eval(env, t, s, i, more) == Eval(env, t, s, i, fuel)
    decreases fuel, t
  {
    match t
    case TRep(p) =>
      EvalMonotone(env, p, s, i, fuel, more);
      var r := Eval(env, p, s, i, fuel);
      if r.Ok? { EvalMonotone(env, t, s, r.j, fuel - 1, more - 1); }
    case TSeq(p1, p2) =>
      EvalMonotone(env, p1, s, i, fuel, more);
      var r := Eval(env, p1, s, i, fuel);
      if r.Ok? { EvalMonotone(env, p2, s, r.j, fuel, more); }
    case TChoice(p1, p2) =>
      EvalMonotone(env, p1, s, i, fuel, more);
      if Eval(env, p1, s, i, fuel).Fail? { EvalMonotone(env, p2, s, i, fuel, more); }
    case TNot(p) => EvalMonotone(env, p, s, i, fuel, more);
    case TAnd(p) => EvalMonotone(env, p, s, i, fuel, more);
    case TBehind(n, p) => if i >= n { EvalMonotone([], p, s, i - n, fuel, more); }
    case TCall(n) => EvalMonotone(env, env[n], s, i, fuel - 1, more - 1);
    case TGrammar(rules) => EvalMonotone(rules, rules[0], s, i, fuel, more);
    case _ =>
  }

  /** A pattern has at most one answer at a position. */
  lemma AnswerUnique(env: Rules, t: Tree, s: seq<Byte>, i: nat, r1: Result, r2: Result)
    requires i <= |s|
    requires Answers(env, t, s, i, r1) && Answers(env, t, s, i, r2)
    ensures r1 == r2
  {
    var f1: nat :| Eval(env, t, s, i, f1) == r1;
    var f2: nat :| Eval(env, t, s, i, f2) == r2;
    EvalMonotone(env, t, s, i, f1, f1 + f2);
    EvalMonotone(env, t, s, i, f2, f1 + f2);
  }

  /** tocharset: the set a one-character pattern matches. */
  function ToCharset(t: Tree): (r: Option<Charset>)
    ensures r.Some? <==> t.TChar? || t.TSet? || t.TAny? || t.TFalse?
  {
    match t
    case TChar(c) => Some(Singleton(c))
    case TSet(info) => Some(info.Expand())
    case TAny => Some(FullSet())
    case TFalse => Some(EmptySet())
    case _ => None
  }

  /** A one-character pattern matches exactly the characters of its set, and consumes one. */
  lemma ToCharsetCorrect(env: Rules, t: Tree, s: seq<Byte>, i: nat, fuel: nat)
    requires i <= |s| && ToCharset(t).Some?
    ensures Eval(env, t, s, i, fuel) ==
            if i < |s| && Has(ToCharset(t).value, s[i]) then Ok(i + 1) else Fail
  {
  }
}
