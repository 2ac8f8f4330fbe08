/** Chains of jumps (finaltarget in lpcode.c): where they lead, and when the loop that follows them ends. */
module Jumps {
  import opened Machine
  import opened Codegen

  predicate IsJump(code: Code, p: int) {
    IsOp(code, p) && code[p].op.IJmp? && HasTarget(code, p)
  }

  /** In code, jumps lead from p to q. */
  ghost predicate JumpsTo(code: Code, p: int, q: int) {
    exists bound: nat :: FinalTarget(code, p, bound) == q
  }

  /** The chain of jumps from i ends after exactly n jumps. */
  ghost predicate Ends(code: Code, i: int, n: nat)
    decreases n
  {
    if n == 0 then !IsJump(code, i) else IsJump(code, i) && Ends(code, Target(code, i), n - 1)
  }

  /** The chain of jumps from i ends: the source's loop stops. */
  ghost predicate Stops(code: Code, i: int) { exists n: nat :: Ends(code, i, n) }

  ghost predicate AllStop(code: Code) { forall i: int :: Stops(code, i) }

  lemma JumpsToSelf(code: Code, p: int)
    ensures JumpsTo(code, p, p)
  {
    assert FinalTarget(code, p, 0) == p;
  }

  lemma JumpsFirst(code: Code, p: int, q: int)
    requires IsJump(code, p) && JumpsTo(code, Target(code, p), q)
    ensures JumpsTo(code, p, q)
  {
    var bound: nat :| FinalTarget(code, Target(code, p), bound) == q;
    assert FinalTarget(code, p, bound + 1) == q;
  }

  lemma NoJump(code: Code, i: int)
    requires !IsJump(code, i)
    ensures Stops(code, i)
  {
    assert Ends(code, i, 0);
  }

  lemma StopsFirst(code: Code, i: int)
    requires IsJump(code, i) && Stops(code, Target(code, i))
    ensures Stops(code, i)
  {
    var n: nat :| Ends(code, Target(code, i), n);
    assert Ends(code, i, n + 1);
  }

  /** A chain ends if it ends from somewhere on. */
  lemma {:induction false} StopsBack(code: Code, p: int, bound: nat)
    requires Stops(code, FinalTarget(code, p, bound))
    ensures Stops(code, p)
    decreases bound
  {
    if bound > 0 && IsJump(code, p) {
      StopsBack(code, Target(code, p), bound - 1);
      StopsFirst(code, p);
    }
  }

  lemma {:induction false} JumpsMore(code: Code, p: int, bound: nat, q: int)
    requires JumpsTo(code, FinalTarget(code, p, bound), q)
    ensures JumpsTo(code, p, q)
    decreases bound
  {
    if bound > 0 && IsJump(code, p) {
      JumpsMore(code, Target(code, p), bound - 1, q);
      JumpsFirst(code, p, q);
    }
  }

  lemma EndsUnique(code: Code, i: int, m: nat, n: nat)
    requires Ends(code, i, m) && Ends(code, i, n)
    ensures m == n
    decreases m
  {
    if m > 0 && n > 0 { EndsUnique(code, Target(code, i), m - 1, n - 1); }
  }

  // ----- a bound -----

  lemma SmallSet(s: set<int>, n: nat)
    requires forall x :: x in s ==> 0 <= x < n
    ensures |s| <= n
  {
    if n > 0 {
      SmallSet(s - {n - 1}, n - 1);
      if n - 1 in s { assert s == (s - {n - 1}) + {n - 1}; } else { assert s == s - {n - 1}; }
    } else {
      assert forall x :: x !in s;
      assert |s| == 0;
    }
  }

  ghost predicate Farther(code: Code, p: int, n: nat) {
    exists m: nat :: m > n && Ends(code, p, m)
  }

  /** Positions already passed are farther from the end, so a chain that ends visits no position twice. */
  lemma {:induction false} ChainShort(code: Code, i: int, n: nat, passed: set<int>)
    requires Ends(code, i, n)
    requires forall p :: p in passed ==> 0 <= p < |code| && Farther(code, p, n)
    ensures n + |passed| <= |code|
    decreases n
  {
    if n == 0 {
      SmallSet(passed, |code|);
    } else {
      if i in passed {
        var m: nat :| m > n && Ends(code, i, m);
        EndsUnique(code, i, m, n);
      }
      var more := passed + {i};
      forall p | p in more ensures 0 <= p < |code| && Farther(code, p, n - 1) {
        if p == i { assert Ends(code, p, n); }
        else { var m: nat :| m > n && Ends(code, p, m); assert m > n - 1; }
      }
      ChainShort(code, Target(code, i), n - 1, more);
    }
  }

  lemma FinalTargetEnds(code: Code, i: int, n: nat, bound: nat)
    requires Ends(code, i, n) && n <= bound
    ensures FinalTarget(code, i, bound) == FinalTarget(code, i, n)
    ensures !IsJump(code, FinalTarget(code, i, bound))
    decreases n
  {
    if n > 0 { FinalTargetEnds(code, Target(code, i), n - 1, bound - 1); }
  }

  /** The bound |code| never cuts a chain of jumps that ends: FinalTarget is then what the source's loop finds. */
  lemma BoundSuffices(code: Code, i: int, n: nat)
    requires Ends(code, i, n)
    ensures FinalTarget(code, i, |code|) == FinalTarget(code, i, n)
    ensures !IsJump(code, FinalTarget(code, i, |code|))
  {
    ChainShort(code, i, n, {});
    FinalTargetEnds(code, i, n, |code|);
  }

  /** Exactly when the source's loop ends. What the bounded function arrives at tells. */
  lemma StopsExactly(code: Code, i: int)
    ensures Stops(code, i) <==> !IsJump(code, FinalTarget(code, i, |code|))
  {
    if Stops(code, i) {
      var n: nat :| Ends(code, i, n);
      BoundSuffices(code, i, n);
    }
    if !IsJump(code, FinalTarget(code, i, |code|)) {
      NoJump(code, FinalTarget(code, i, |code|));
      StopsBack(code, i, |code|);
    }
  }

  /** finaltarget as the loop of the source. */
  method FollowJumps(code: Code, i: int) returns (r: int)
    requires Stops(code, i)
    ensures r == FinalTarget(code, i, |code|)
  {
    ghost var n: nat :| Ends(code, i, n);
    r := i;
    ghost var left := n;
    while IsJump(code, r)
      invariant 0 <= left <= n && Ends(code, r, left)
      invariant FinalTarget(code, r, left) == FinalTarget(code, i, n)
      decreases left
    {
      r := Target(code, r);
      left := left - 1;
    }
    BoundSuffices(code, i, n);
  }

  // ----- chains in similar code -----

  /** Every jump of x, moved by a, is a jump of y. */
  ghost predicate JumpsIn(x: Code, y: Code, a: int) {
    forall i: int :: IsJump(x, i) ==> IsJump(y, a + i) && Target(y, a + i) == a + Target(x, i)
  }

  /** With fewer jumps chains end sooner. */
  lemma {:induction false} FewerJumps(x: Code, y: Code, a: int, i: int, n: nat)
    requires JumpsIn(x, y, a) && Ends(y, a + i, n)
    ensures Stops(x, i)
    decreases n
  {
    if IsJump(x, i) {
      FewerJumps(x, y, a, Target(x, i), n - 1);
      StopsFirst(x, i);
    } else {
      NoJump(x, i);
    }
  }

  ghost predicate SameJump(x: Code, y: Code, p: int) {
    IsJump(x, p) == IsJump(y, p) && (IsJump(x, p) ==> Target(x, p) == Target(y, p))
  }

  /** Code rewritten at one jump, or at an instruction that is none. */
  lemma {:induction false} RewrittenStops(x: Code, y: Code, at: int, i: int, n: nat)
    requires forall p: int :: p != at ==> SameJump(x, y, p)
    requires Stops(y, at) && Ends(x, i, n)
    ensures Stops(y, i)
    decreases n
  {
    if i != at {
      assert SameJump(x, y, i);
      if IsJump(y, i) {
        RewrittenStops(x, y, at, Target(y, i), n - 1);
        StopsFirst(y, i);
      } else {
        NoJump(y, i);
      }
    }
  }
}
