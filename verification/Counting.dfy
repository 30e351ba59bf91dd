/**
 Counting the elements of a sequence that satisfy a predicate, and adding up a
 measure over a sequence.  The step systems of this project keep one program
 counter per goroutine in a sequence; every shared counter is related to the
 program counters by one of these two functions.
 */
module Counting {

  function One(b: bool): nat {
    if b then 1 else 0
  }

  function Count<T>(s: seq<T>, p: T -> bool): nat {
    if s == [] then 0 else One(p(s[0])) + Count(s[1..], p)
  }

  lemma {:induction false} CountUpdate<T>(s: seq<T>, i: nat, x: T, p: T -> bool)
    requires i < |s|
    ensures Count(s[i := x], p) + One(p(s[i])) == Count(s, p) + One(p(x))
  {
    if i == 0 {
      assert s[0 := x][1..] == s[1..];
    } else {
      assert s[i := x][1..] == s[1..][i - 1 := x];
      CountUpdate(s[1..], i - 1, x, p);
    }
  }

  lemma {:induction false} CountConcat<T>(s: seq<T>, t: seq<T>, p: T -> bool)
    ensures Count(s + t, p) == Count(s, p) + Count(t, p)
  {
    if s == [] {
      assert s + t == t;
    } else {
      assert (s + t)[1..] == s[1..] + t;
      CountConcat(s[1..], t, p);
    }
  }

  lemma CountSingle<T>(x: T, p: T -> bool)
    ensures Count([x], p) == One(p(x))
  {
    var single := [x];
    assert single[1..] == [];
  }

  lemma CountAppend<T>(s: seq<T>, x: T, p: T -> bool)
    ensures Count(s + [x], p) == Count(s, p) + One(p(x))
  {
    CountConcat(s, [x], p);
    CountSingle(x, p);
  }

  /** If exactly the first m elements satisfy p, there are m of them. */
  lemma {:induction false} CountFirst<T>(s: seq<T>, p: T -> bool, m: nat)
    requires m <= |s| && forall i :: 0 <= i < |s| ==> (p(s[i]) <==> i < m)
    ensures Count(s, p) == m
  {
    if s != [] {
      assert forall i :: 0 <= i < |s[1..]| ==> s[1..][i] == s[i + 1];
      CountFirst(s[1..], p, if m > 0 then m - 1 else 0);
      assert p(s[0]) <==> 0 < m;
    }
  }

  /** If p holds of one element and of no other, it is counted once. */
  lemma {:induction false} CountOnce<T>(s: seq<T>, p: T -> bool, k: nat)
    requires k < |s| && forall i :: 0 <= i < |s| ==> (p(s[i]) <==> i == k)
    ensures Count(s, p) == 1
  {
    assert s == s[..k] + ([s[k]] + s[k + 1..]);
    CountConcat(s[..k], [s[k]] + s[k + 1..], p);
    CountConcat([s[k]], s[k + 1..], p);
    CountSingle(s[k], p);
    CountBounds(s[..k], p);
    CountBounds(s[k + 1..], p);
  }

  /** If p implies q on the elements of s, at least as many satisfy q. */
  lemma {:induction false} CountImplies<T>(s: seq<T>, p: T -> bool, q: T -> bool)
    requires forall i :: 0 <= i < |s| ==> p(s[i]) ==> q(s[i])
    ensures Count(s, p) <= Count(s, q)
  {
    if s != [] {
      assert p(s[0]) ==> q(s[0]);
      CountImplies(s[1..], p, q);
    }
  }

  /** The same for two sequences of equal length. */
  lemma {:induction false} CountTransfer<T, U>(s: seq<T>, p: T -> bool, t: seq<U>, q: U -> bool)
    requires |s| == |t| && forall i :: 0 <= i < |s| ==> p(s[i]) ==> q(t[i])
    ensures Count(s, p) <= Count(t, q)
  {
    if s != [] {
      assert p(s[0]) ==> q(t[0]);
      CountTransfer(s[1..], p, t[1..], q);
    }
  }

  /** Disjoint p and q that both imply r fit into r together. */
  lemma {:induction false} CountDisjoint<T>(s: seq<T>, p: T -> bool, q: T -> bool, r: T -> bool)
    requires forall i :: 0 <= i < |s| ==> One(p(s[i])) + One(q(s[i])) <= One(r(s[i]))
    ensures Count(s, p) + Count(s, q) <= Count(s, r)
  {
    if s != [] {
      assert One(p(s[0])) + One(q(s[0])) <= One(r(s[0]));
      CountDisjoint(s[1..], p, q, r);
    }
  }

  /** p and q split r. */
  lemma {:induction false} CountSplit<T>(s: seq<T>, p: T -> bool, q: T -> bool, r: T -> bool)
    requires forall i :: 0 <= i < |s| ==> One(p(s[i])) + One(q(s[i])) == One(r(s[i]))
    ensures Count(s, p) + Count(s, q) == Count(s, r)
  {
    if s != [] {
      assert One(p(s[0])) + One(q(s[0])) == One(r(s[0]));
      CountSplit(s[1..], p, q, r);
    }
  }

  lemma {:induction false} CountBounds<T>(s: seq<T>, p: T -> bool)
    ensures Count(s, p) <= |s|
    ensures Count(s, p) == |s| <==> forall i :: 0 <= i < |s| ==> p(s[i])
    ensures Count(s, p) == 0 <==> forall i :: 0 <= i < |s| ==> !p(s[i])
  {
    if s != [] {
      CountBounds(s[1..], p);
      assert forall i :: 0 <= i < |s[1..]| ==> s[1..][i] == s[i + 1];
      assert forall i :: 0 < i < |s| ==> s[i] == s[1..][i - 1];
    }
  }

  function Sum<T>(s: seq<T>, f: T -> nat): nat {
    if s == [] then 0 else f(s[0]) + Sum(s[1..], f)
  }

  lemma {:induction false} SumUpdate<T>(s: seq<T>, i: nat, x: T, f: T -> nat)
    requires i < |s|
    ensures Sum(s[i := x], f) + f(s[i]) == Sum(s, f) + f(x)
  {
    if i == 0 {
      assert s[0 := x][1..] == s[1..];
    } else {
      assert s[i := x][1..] == s[1..][i - 1 := x];
      SumUpdate(s[1..], i - 1, x, f);
    }
  }

  /** A measure that grows by exactly one on the elements that satisfy p grows by their number. */
  lemma {:induction false} SumGrows<T>(s: seq<T>, f: T -> nat, g: T -> nat, p: T -> bool)
    requires forall i :: 0 <= i < |s| ==> g(s[i]) == f(s[i]) + One(p(s[i]))
    ensures Sum(s, g) == Sum(s, f) + Count(s, p)
  {
    if s != [] {
      assert g(s[0]) == f(s[0]) + One(p(s[0]));
      SumGrows(s[1..], f, g, p);
    }
  }

  /** A measure that is no larger on any element has no larger sum; the slack of one element carries over. */
  lemma {:induction false} SumBelow<T>(s: seq<T>, f: T -> nat, g: T -> nat, j: nat, slack: nat)
    requires j < |s|
    requires forall i :: 0 <= i < |s| ==> f(s[i]) <= g(s[i])
    requires f(s[j]) + slack <= g(s[j])
    ensures Sum(s, f) + slack <= Sum(s, g)
  {
    assert f(s[0]) <= g(s[0]);
    if j > 0 {
      SumBelow(s[1..], f, g, j - 1, slack);
    } else if |s| > 1 {
      SumBelow(s[1..], f, g, 0, 0);
    }
  }

  lemma {:induction false} SumSame<T>(s: seq<T>, f: T -> nat, g: T -> nat)
    requires forall i :: 0 <= i < |s| ==> f(s[i]) == g(s[i])
    ensures Sum(s, f) == Sum(s, g)
  {
    if s != [] {
      assert f(s[0]) == g(s[0]);
      SumSame(s[1..], f, g);
    }
  }

  lemma {:induction false} SumZero<T>(s: seq<T>, f: T -> nat)
    requires forall i :: 0 <= i < |s| ==> f(s[i]) == 0
    ensures Sum(s, f) == 0
  {
    if s != [] {
      assert f(s[0]) == 0;
      SumZero(s[1..], f);
    }
  }
}
