/** The last adjustment of a pattern tree (lptree.c): nested sequences and choices are made right associative, in
    place, in the array of cells the tree is stored in. */
module Associativity {
  import opened Charsets
  import opened Trees

  datatype Op = OpSeq | OpChoice

  /** A tree node as it is stored. The first child follows its parent; `ps` is how far off the second one is. */
  datatype Cell =
    | CLeaf(t: Tree) | CRep | CNot | CAnd | CBehind(n: nat)
    | CBin(op: Op, ps: nat)
    | CGrammar(rules: seq<Tree>)

  /** The layout of a tree. A grammar's own cells play no part in what follows. */
  function Cells(t: Tree): (c: seq<Cell>)
    ensures c != []
  {
    match t
    case TRep(p) => [CRep] + Cells(p)
    case TNot(p) => [CNot] + Cells(p)
    case TAnd(p) => [CAnd] + Cells(p)
    case TBehind(n, p) => [CBehind(n)] + Cells(p)
    case TSeq(p1, p2) => [CBin(OpSeq, |Cells(p1)| + 1)] + Cells(p1) + Cells(p2)
    case TChoice(p1, p2) => [CBin(OpChoice, |Cells(p1)| + 1)] + Cells(p1) + Cells(p2)
    case TGrammar(rules) => [CGrammar(rules)]
    case _ => [CLeaf(t)]
  }

  // ----- what it does to a tree -----

  function Bin(op: Op, p1: Tree, p2: Tree): Tree { if op == OpSeq then TSeq(p1, p2) else TChoice(p1, p2) }

  predicate Is(t: Tree, op: Op) { if op == OpSeq then t.TSeq? else t.TChoice? }

  /** Op(Op(p11, p12), p2) becomes Op(p11, Op(p12, p2)), until the first child is another kind of node. */
  function Rotated(op: Op, p1: Tree, p2: Tree): (r: (Tree, Tree))
    ensures |Cells(r.0)| + |Cells(r.1)| == |Cells(p1)| + |Cells(p2)|
    ensures !Is(r.0, op)
    decreases p1
  {
    if Is(p1, op) then Rotated(op, p1.p1, Bin(op, p1.p2, p2)) else (p1, p2)
  }

  /** finalfix, as far as it rearranges: down both children, but not into a grammar inside the pattern, whose rules
      were adjusted when it was made. */
  function Fixed(t: Tree): (r: Tree)
    ensures |Cells(r)| == |Cells(t)|
    decreases |Cells(t)|
  {
    match t
    case TSeq(p1, p2) =>
      var (q1, q2) := Rotated(OpSeq, p1, p2);
      TSeq(Fixed(q1), Fixed(q2))
    case TChoice(p1, p2) =>
      var (q1, q2) := Rotated(OpChoice, p1, p2);
      TChoice(Fixed(q1), Fixed(q2))
    case TRep(p) => TRep(Fixed(p))
    case TNot(p) => TNot(Fixed(p))
    case TAnd(p) => TAnd(Fixed(p))
    case TBehind(n, p) => TBehind(n, Fixed(p))
    case _ => t
  }

  /** No sequence is the first part of a sequence, and no choice of a choice. */
  predicate RightAssociative(t: Tree) {
    match t
    case TSeq(p1, p2) => !p1.TSeq? && RightAssociative(p1) && RightAssociative(p2)
    case TChoice(p1, p2) => !p1.TChoice? && RightAssociative(p1) && RightAssociative(p2)
    case TRep(p) => RightAssociative(p)
    case TNot(p) => RightAssociative(p)
    case TAnd(p) => RightAssociative(p)
    case TBehind(n, p) => RightAssociative(p)
    case _ => true
  }

  lemma {:induction false} FixedAssociates(t: Tree)
    ensures RightAssociative(Fixed(t))
    ensures forall op :: Is(Fixed(t), op) == Is(t, op)
    decreases |Cells(t)|
  {
    match t
    case TSeq(p1, p2) =>
      var (q1, q2) := Rotated(OpSeq, p1, p2);
      FixedAssociates(q1);
      FixedAssociates(q2);
      assert !Is(Fixed(q1), OpSeq);
    case TChoice(p1, p2) =>
      var (q1, q2) := Rotated(OpChoice, p1, p2);
      FixedAssociates(q1);
      FixedAssociates(q2);
      assert !Is(Fixed(q1), OpChoice);
    case TRep(p) => FixedAssociates(p);
    case TNot(p) => FixedAssociates(p);
    case TAnd(p) => FixedAssociates(p);
    case TBehind(n, p) => FixedAssociates(p);
    case _ =>
  }

  // ----- it means the same -----

  lemma {:induction false} RotatedMeans(op: Op, p1: Tree, p2: Tree, env: Rules, s: seq<Byte>, i: nat, fuel: nat)
    requires i <= |s|
    ensures var (q1, q2) := Rotated(op, p1, p2);
            Eval(env, Bin(op, q1, q2), s, i, fuel) == Eval(env, Bin(op, p1, p2), s, i, fuel)
    decreases p1
  {
    if Is(p1, op) {
      hide Has;
      RotatedMeans(op, p1.p1, Bin(op, p1.p2, p2), env, s, i, fuel);
    }
  }

  /** The rules of a grammar, each adjusted. */
  function FixedRules(rules: Rules): Rules { seq(|rules|, i requires 0 <= i < |rules| => Fixed(rules[i])) }

  /** The adjusted tree answers what the tree does, under adjusted rules as well, whatever the fuel. */
  lemma {:induction false} FixedMeans(env: Rules, t: Tree, s: seq<Byte>, i: nat, fuel: nat)
    requires i <= |s|
    ensures Eval(FixedRules(env), Fixed(t), s, i, fuel) == Eval(env, t, s, i, fuel)
    decreases fuel, |Cells(t)|, 1
  {
    hide Has;
    match t
    case TSeq(p1, p2) => FixedPair(env, OpSeq, p1, p2, s, i, fuel);
    case TChoice(p1, p2) => FixedPair(env, OpChoice, p1, p2, s, i, fuel);
    case TRep(p) =>
      FixedMeans(env, p, s, i, fuel);
      var r := Eval(env, p, s, i, fuel);
      if r.Ok? && fuel > 0 { FixedMeans(env, t, s, r.j, fuel - 1); }
    case TNot(p) => FixedMeans(env, p, s, i, fuel);
    case TAnd(p) => FixedMeans(env, p, s, i, fuel);
    case TBehind(n, p) =>
      if n <= i {
        FixedMeans([], p, s, i - n, fuel);
        assert FixedRules([]) == [];
      }
    case TCall(n) =>
      if n < |env| && fuel > 0 { FixedMeans(env, env[n], s, i, fuel - 1); }
    case _ =>
  }

  lemma {:induction false} FixedPair(env: Rules, op: Op, p1: Tree, p2: Tree, s: seq<Byte>, i: nat, fuel: nat)
    requires i <= |s|
    ensures Eval(FixedRules(env), Fixed(Bin(op, p1, p2)), s, i, fuel) == Eval(env, Bin(op, p1, p2), s, i, fuel)
    decreases fuel, |Cells(Bin(op, p1, p2))|, 0
  {
    hide Has, Eval, Fixed;
    var (q1, q2) := Rotated(op, p1, p2);
    RotatedMeans(op, p1, p2, env, s, i, fuel);
    FixedOfBin(op, p1, p2);
    EvalOfBin(env, op, q1, q2, s, i, fuel);
    EvalOfBin(FixedRules(env), op, Fixed(q1), Fixed(q2), s, i, fuel);
    FixedMeans(env, q1, s, i, fuel);
    var r := Eval(env, q1, s, i, fuel);
    if op == OpChoice { FixedMeans(env, q2, s, i, fuel); } else if r.Ok? { FixedMeans(env, q2, s, r.j, fuel); }
  }

  lemma FixedOfBin(op: Op, p1: Tree, p2: Tree)
    ensures var (q1, q2) := Rotated(op, p1, p2); Fixed(Bin(op, p1, p2)) == Bin(op, Fixed(q1), Fixed(q2))
  {
  }

  lemma EvalOfBin(env: Rules, op: Op, p1: Tree, p2: Tree, s: seq<Byte>, i: nat, fuel: nat)
    requires i <= |s|
    ensures var r := Eval(env, p1, s, i, fuel);
            Eval(env, Bin(op, p1, p2), s, i, fuel)
            == if op == OpSeq then if r.Ok? then Eval(env, p2, s, r.j, fuel) else r
               else if r.Fail? then Eval(env, p2, s, i, fuel) else r
  {
    hide Has;
  }

  /** A pattern and its adjusted form have the same answers. */
  lemma SameAnswers(t: Tree, s: seq<Byte>, i: nat, r: Result)
    requires i <= |s|
    ensures Answers([], Fixed(t), s, i, r) <==> Answers([], t, s, i, r)
  {
    hide Eval;
    assert FixedRules([]) == [];
    forall fuel: nat ensures Eval([], Fixed(t), s, i, fuel) == Eval([], t, s, i, fuel) {
      FixedMeans([], t, s, i, fuel);
    }
  }

  /** So have a grammar and the one with adjusted rules. */
  lemma SameGrammar(rules: Rules, s: seq<Byte>, i: nat, fuel: nat)
    requires i <= |s|
    ensures Eval([], TGrammar(FixedRules(rules)), s, i, fuel) == Eval([], TGrammar(rules), s, i, fuel)
  {
    if rules != [] { FixedMeans(rules, rules[0], s, i, fuel); }
  }

  // ----- in place -----

  lemma BinCells(op: Op, p1: Tree, p2: Tree)
    ensures Cells(Bin(op, p1, p2)) == [CBin(op, |Cells(p1)| + 1)] + Cells(p1) + Cells(p2)
  {
  }

  /** One turn of the loop: the cells of p11 move down by one, and a node for the second child takes the place
      before p12. */
  lemma TurnCells(op: Op, p11: Tree, p12: Tree, p2: Tree)
    ensures var c, n11 := Cells(Bin(op, Bin(op, p11, p12), p2)), |Cells(p11)|;
            && |c| >= 2 + n11 && c[0] == CBin(op, n11 + |Cells(p12)| + 2) && c[1] == CBin(op, n11 + 1)
            && Cells(Bin(op, p11, Bin(op, p12, p2)))
               == [CBin(op, n11 + 1)] + c[2..2 + n11] + [CBin(op, |Cells(p12)| + 1)] + c[2 + n11..]
  {
    hide Cells, Bin;
    BinCells(op, Bin(op, p11, p12), p2);
    BinCells(op, p11, p12);
    BinCells(op, p11, Bin(op, p12, p2));
    BinCells(op, p12, p2);
    Parts(CBin(op, |Cells(Bin(op, p11, p12))| + 1), CBin(op, |Cells(p11)| + 1), CBin(op, |Cells(p12)| + 1),
          Cells(p11), Cells(p12), Cells(p2));
  }

  lemma Parts(a: Cell, b: Cell, d: Cell, x: seq<Cell>, y: seq<Cell>, z: seq<Cell>)
    ensures var c := [a] + ([b] + x + y) + z;
            && c[0] == a && c[1] == b && |c| >= 2 + |x|
            && [b] + x + ([d] + y + z) == [b] + c[2..2 + |x|] + [d] + c[2 + |x|..]
  {
    var c := [a] + ([b] + x + y) + z;
    assert c[2..2 + |x|] == x;
    assert c[2 + |x|..] == y + z;
  }

  /** memmove towards lower addresses */
  method MoveDown(a: array<Cell>, to: nat, from: nat, n: nat)
    requires to <= from && from + n <= a.Length
    modifies a
    ensures a[..] == old(a[..to]) + old(a[from..from + n]) + old(a[to + n..])
  {
    ghost var was := a[..];
    for i := 0 to n
      invariant a[..to + i] == was[..to] + was[from..from + i]
      invariant forall k :: to + i <= k < a.Length ==> a[k] == was[k]
    {
      a[to + i] := a[from + i];
      assert a[..to + i + 1] == (was[..to] + was[from..from + i]) + [was[from + i]];
      assert was[from..from + i + 1] == was[from..from + i] + [was[from + i]];
    }
    assert a[to + n..] == was[to + n..];
  }

  /** n cells move down by one, and the nodes before and behind them are set. */
  function Moved(s: seq<Cell>, at: nat, n: nat, b: Cell, d: Cell): seq<Cell>
    requires at + 2 + n <= |s|
  {
    (s[..at + 1] + s[at + 2..at + 2 + n] + s[at + 1 + n..])[at := b][at + n + 1 := d]
  }

  lemma MovedSeq(h: seq<Cell>, c: seq<Cell>, t: seq<Cell>, n: nat, b: Cell, d: Cell)
    requires 2 + n <= |c|
    ensures Moved(h + c + t, |h|, n, b, d) == h + ([b] + c[2..2 + n] + [d] + c[2 + n..]) + t
    ensures (h + c + t)[|h|] == c[0] && (h + c + t)[|h| + 1] == c[1]
  {
    var s, m := h + c + t, c[2..2 + n];
    assert s[..|h| + 1] == h + [c[0]];
    assert s[|h| + 2..|h| + 2 + n] == m;
    assert s[|h| + 1 + n..] == [c[1 + n]] + c[2 + n..] + t;
    assert (h + [c[0]] + m + ([c[1 + n]] + c[2 + n..] + t))[|h| := b] == h + [b] + m + ([c[1 + n]] + c[2 + n..] + t);
  }

  /** One turn of correctassociativity, on the cells. */
  method MoveNodes(a: array<Cell>, at: nat, n: nat, b: Cell, d: Cell)
    requires at + 2 + n <= a.Length
    modifies a
    ensures a[..] == Moved(old(a[..]), at, n, b, d)
  {
    ghost var s := a[..];
    MoveDown(a, at + 1, at + 2, n);
    assert s[at + 2..at + 2 + n] == old(a[at + 2..at + 2 + n]) && s[at + 1 + n..] == old(a[at + 1 + n..]);
    a[at] := b;
    a[at + n + 1] := d;
  }

  /** One turn of correctassociativity. */
  method Turn(a: array<Cell>, at: nat, op: Op, ghost p11: Tree, ghost p12: Tree, ghost p2: Tree,
              ghost h: seq<Cell>, ghost t: seq<Cell>)
    requires a[..] == h + Cells(Bin(op, Bin(op, p11, p12), p2)) + t && |h| == at
    modifies a
    ensures a[..] == h + Cells(Bin(op, p11, Bin(op, p12, p2))) + t
  {
    hide Cells, Bin, Moved;
    TurnCells(op, p11, p12, p2);
    MovedSeq(h, Cells(Bin(op, Bin(op, p11, p12), p2)), t, |Cells(p11)|, CBin(op, |Cells(p11)| + 1),
             CBin(op, |Cells(p12)| + 1));
    assert a[at] == a[..][at] && a[at + 1] == a[..][at + 1];
    var n1size := a[at].ps - 1;
    var n11size := a[at + 1].ps - 1;
    var n12size := n1size - n11size - 1;
    MoveNodes(a, at, n11size, CBin(op, n11size + 1), CBin(op, n12size + 1));
  }

  lemma RotatedTurn(op: Op, p1: Tree, p2: Tree)
    ensures Rotated(op, p1, p2) == if Is(p1, op) then Rotated(op, p1.p1, Bin(op, p1.p2, p2)) else (p1, p2)
    ensures Is(p1, op) ==> p1 == Bin(op, p1.p1, p1.p2)
  {
  }

  /** correctassociativity */
  method CorrectAssociativity(a: array<Cell>, at: nat, op: Op, ghost p1: Tree, ghost p2: Tree,
                              ghost h: seq<Cell>, ghost t: seq<Cell>)
    requires a[..] == h + Cells(Bin(op, p1, p2)) + t && |h| == at
    modifies a
    ensures var (q1, q2) := Rotated(op, p1, p2); a[..] == h + Cells(Bin(op, q1, q2)) + t
  {
    hide Cells, Rotated;
    ghost var q1, q2 := p1, p2;
    FirstChild(op, q1, q2, h, t);
    RotatedTurn(op, q1, q2);
    while a[at + 1].CBin? && a[at + 1].op == op
      invariant a[..] == h + Cells(Bin(op, q1, q2)) + t
      invariant Rotated(op, q1, q2) == Rotated(op, p1, p2)
      invariant Rotated(op, q1, q2) == if Is(q1, op) then Rotated(op, q1.p1, Bin(op, q1.p2, q2)) else (q1, q2)
      invariant at + 1 < a.Length && (a[at + 1].CBin? && a[at + 1].op == op <==> Is(q1, op))
      invariant Is(q1, op) ==> q1 == Bin(op, q1.p1, q1.p2)
      decreases q1
    {
      Turn(a, at, op, q1.p1, q1.p2, q2, h, t);
      q1, q2 := q1.p1, Bin(op, q1.p2, q2);
      FirstChild(op, q1, q2, h, t);
      assert a[at + 1] == a[..][at + 1];
      RotatedTurn(op, q1, q2);
    }
  }

  lemma FirstChild(op: Op, p1: Tree, p2: Tree, h: seq<Cell>, t: seq<Cell>)
    ensures var s := h + Cells(Bin(op, p1, p2)) + t; |s| > |h| + 1 && s[|h| + 1] == Cells(p1)[0]
    ensures Cells(p1)[0].CBin? && Cells(p1)[0].op == op <==> Is(p1, op)
  {
    BinCells(op, p1, p2);
  }

  /** The cells of a node of one child. */
  lemma OneCells(p: Tree)
    requires p.TRep? || p.TNot? || p.TAnd? || p.TBehind?
    ensures Cells(p) == [Cells(p)[0]] + Cells(p.p) && Cells(Fixed(p)) == [Cells(p)[0]] + Cells(Fixed(p.p))
  {
  }

  lemma Kinds(p: Tree)
    ensures Cells(p)[0].CBin? ==> Is(p, Cells(p)[0].op) && p == Bin(Cells(p)[0].op, p.p1, p.p2)
    ensures p.TRep? || p.TNot? || p.TAnd? || p.TBehind? || Cells(p)[0].CBin? || Fixed(p) == p
    ensures Cells(p)[0].CLeaf? || Cells(p)[0].CGrammar? ==> Fixed(p) == p
    ensures Cells(p)[0].CBin? || Cells(p)[0].CLeaf? || Cells(p)[0].CGrammar?
            <==> !(p.TRep? || p.TNot? || p.TAnd? || p.TBehind?)
  {
  }

  lemma FixedBin(op: Op, p1: Tree, p2: Tree)
    ensures var (q1, q2) := Rotated(op, p1, p2);
            && Fixed(Bin(op, p1, p2)) == Bin(op, Fixed(q1), Fixed(q2))
            && |Cells(q1)| < |Cells(Bin(op, p1, p2))| && |Cells(q2)| < |Cells(Bin(op, p1, p2))|
            && Cells(Fixed(Bin(op, p1, p2))) == [CBin(op, |Cells(q1)| + 1)] + Cells(Fixed(q1)) + Cells(Fixed(q2))
  {
    BinCells(op, p1, p2);
    FixedBoth(op, p1, p2);
    hide Cells, Fixed, Bin;
    var (q1, q2) := Rotated(op, p1, p2);
    BinCells(op, Fixed(q1), Fixed(q2));
  }

  lemma FixedBoth(op: Op, p1: Tree, p2: Tree)
    ensures var (q1, q2) := Rotated(op, p1, p2); Fixed(Bin(op, p1, p2)) == Bin(op, Fixed(q1), Fixed(q2))
  {
    hide Cells, Rotated;
  }

  /** finalfix on the cells: the stored tree becomes its adjusted form, and nothing around it changes. */
  method FinalFix(a: array<Cell>, at: nat, ghost p: Tree, ghost h: seq<Cell>, ghost t: seq<Cell>)
    requires a[..] == h + Cells(p) + t && |h| == at
    modifies a
    ensures a[..] == h + Cells(Fixed(p)) + t
    decreases |Cells(p)|
  {
    hide Cells, Fixed, Rotated, Bin;
    Kinds(p);
    assert a[at] == a[..][at] == Cells(p)[0];
    match a[at]
    case CLeaf(_) =>
    case CGrammar(_) =>
    case CBin(op, _) =>
      CorrectAssociativity(a, at, op, p.p1, p.p2, h, t);
      FixedBin(op, p.p1, p.p2);
      FixChildren(a, at, op, p, Rotated(op, p.p1, p.p2).0, Rotated(op, p.p1, p.p2).1, h, t);
    case _ =>
      OneCells(p);
      ghost var b := [Cells(p)[0]];
      Around(h, b, Cells(p.p), [], t);
      FinalFix(a, at + 1, p.p, h + b, t);
      Around(h, b, Cells(Fixed(p.p)), [], t);
  }

  method FixChildren(a: array<Cell>, at: nat, op: Op, ghost p: Tree, ghost q1: Tree, ghost q2: Tree,
                     ghost h: seq<Cell>, ghost t: seq<Cell>)
    requires a[..] == h + Cells(Bin(op, q1, q2)) + t && |h| == at
    requires |Cells(q1)| < |Cells(p)| && |Cells(q2)| < |Cells(p)|
    requires Cells(Fixed(p)) == [CBin(op, |Cells(q1)| + 1)] + Cells(Fixed(q1)) + Cells(Fixed(q2))
    modifies a
    ensures a[..] == h + Cells(Fixed(p)) + t
    decreases |Cells(p)|, 0
  {
    hide Cells, Fixed, Bin;
    BinCells(op, q1, q2);
    ghost var b := [CBin(op, |Cells(q1)| + 1)];
    Around(h, b, Cells(q1), Cells(q2), t);
    FinalFix(a, at + 1, q1, h + b, Cells(q2) + t);
    Around(h, b, Cells(Fixed(q1)), Cells(q2), t);
    assert a[at] == a[..][at] == b[0];
    FinalFix(a, at + a[at].ps, q2, h + b + Cells(Fixed(q1)), t);
    Around(h, b, Cells(Fixed(q1)), Cells(Fixed(q2)), t);
  }

  lemma Around(h: seq<Cell>, b: seq<Cell>, x: seq<Cell>, y: seq<Cell>, t: seq<Cell>)
    ensures h + (b + x + y) + t == (h + b) + x + (y + t) == (h + b + x) + y + t
    ensures h + (b + x) + t == (h + b) + x + t
  {
  }
}
