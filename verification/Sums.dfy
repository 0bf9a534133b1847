/** Sums over row identifiers. */
module Sums {
  function Sum(weight: nat -> int, below: nat): int {
    if below == 0 then 0 else Sum(weight, below - 1) + weight(below - 1)
  }

  lemma {:induction false} SumSame(f: nat -> int, g: nat -> int, below: nat)
    requires forall i :: 0 <= i < below ==> f(i) == g(i)
    ensures Sum(f, below) == Sum(g, below)
  {
    if below > 0 {
      SumSame(f, g, below - 1);
    }
  }

  lemma {:induction false} SumChange(f: nat -> int, g: nat -> int, below: nat, at: nat)
    requires at < below
    requires forall i :: 0 <= i < below && i != at ==> f(i) == g(i)
    ensures Sum(g, below) == Sum(f, below) - f(at) + g(at)
  {
    if at == below - 1 {
      SumSame(f, g, below - 1);
    } else {
      SumChange(f, g, below - 1, at);
    }
  }

  /** Weights that are zero from some identifier on. */
  lemma {:induction false} SumExtend(f: nat -> int, below: nat, further: nat)
    requires below <= further
    requires forall i :: below <= i < further ==> f(i) == 0
    ensures Sum(f, further) == Sum(f, below)
  {
    if below < further {
      SumExtend(f, below, further - 1);
    }
  }

  lemma {:induction false} SumAtMost(f: nat -> int, g: nat -> int, below: nat)
    requires forall i :: 0 <= i < below ==> f(i) <= g(i)
    ensures Sum(f, below) <= Sum(g, below)
  {
    if below > 0 {
      SumAtMost(f, g, below - 1);
    }
  }

  lemma {:induction false} SumOfSums(f: nat -> int, g: nat -> int, both: nat -> int, below: nat)
    requires forall i :: 0 <= i < below ==> both(i) == f(i) + g(i)
    ensures Sum(both, below) == Sum(f, below) + Sum(g, below)
  {
    if below > 0 {
      SumOfSums(f, g, both, below - 1);
    }
  }

  function Up(s: set<nat>, below: nat): set<nat> {
    set i | i in s && i < below
  }

  lemma UpGrows(s: set<nat>, below: nat)
    ensures |Up(s, below + 1)| == |Up(s, below)| + (if below in s then 1 else 0)
  {
    if below in s {
      assert Up(s, below + 1) == Up(s, below) + {below};
    } else {
      assert Up(s, below + 1) == Up(s, below);
    }
  }

  /** Counting a finite set of small numbers. */
  lemma {:induction false} SumCounts(s: set<nat>, f: nat -> int, below: nat, each: nat)
    requires forall i :: 0 <= i < below ==> f(i) == (if i in s then each else 0)
    ensures Sum(f, below) == each * |Up(s, below)|
  {
    if below == 0 {
      assert Up(s, 0) == {};
    } else {
      SumCounts(s, f, below - 1, each);
      UpGrows(s, below - 1);
    }
  }
}
