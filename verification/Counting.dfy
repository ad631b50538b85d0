/** Counting and summing over the processes of a system, one process changing at a time. */
module Counting {

  function Count<T>(s: seq<T>, p: T -> bool): nat {
    if s == [] then 0 else (if p(s[0]) then 1 else 0) + Count(s[1..], p)
  }

  /** The values that the members of s hold, f giving those of one member. */
  ghost function Bag<T, V>(s: seq<T>, f: T -> multiset<V>): multiset<V> {
    if s == [] then multiset{} else f(s[0]) + Bag(s[1..], f)
  }

  function Sum<T>(s: seq<T>, f: T -> nat): nat {
    if s == [] then 0 else f(s[0]) + Sum(s[1..], f)
  }

  lemma {:induction false} SumUpdate<T>(s: seq<T>, f: T -> nat, i: nat, x: T)
    requires i < |s|
    ensures Sum(s[i := x], f) + f(s[i]) == Sum(s, f) + f(x)
  {
    if i == 0 {
      assert s[0 := x][1..] == s[1..];
    } else {
      assert s[i := x][1..] == s[1..][i - 1 := x];
      SumUpdate(s[1..], f, i - 1, x);
    }
  }

  lemma {:induction false} SumEqual<T>(s: seq<T>, t: seq<T>, f: T -> nat)
    requires |s| == |t| && forall i | 0 <= i < |s| :: f(s[i]) == f(t[i])
    ensures Sum(s, f) == Sum(t, f)
  {
    if s != [] {
      assert forall i | 0 <= i < |s[1..]| :: s[1..][i] == s[i + 1] && t[1..][i] == t[i + 1];
      SumEqual(s[1..], t[1..], f);
    }
  }

  /** A sum in which only the value of member i changes. */
  lemma SumStep<T>(s: seq<T>, t: seq<T>, f: T -> nat, i: nat)
    requires |s| == |t| && i < |s| && forall j | 0 <= j < |s| && j != i :: f(s[j]) == f(t[j])
    ensures Sum(t, f) + f(s[i]) == Sum(s, f) + f(t[i])
  {
    SumUpdate(s, f, i, t[i]);
    SumEqual(s[i := t[i]], t, f);
  }

  lemma {:induction false} CountUpdate<T>(s: seq<T>, p: T -> bool, i: nat, x: T)
    requires i < |s|
    ensures Count(s[i := x], p) + (if p(s[i]) then 1 else 0) == Count(s, p) + (if p(x) then 1 else 0)
  {
    if i == 0 {
      assert s[0 := x][1..] == s[1..];
    } else {
      assert s[i := x][1..] == s[1..][i - 1 := x];
      CountUpdate(s[1..], p, i - 1, x);
    }
  }

  lemma {:induction false} BagUpdate<T, V>(s: seq<T>, f: T -> multiset<V>, i: nat, x: T)
    requires i < |s|
    ensures Bag(s[i := x], f) + f(s[i]) == Bag(s, f) + f(x)
  {
    if i == 0 {
      assert s[0 := x][1..] == s[1..];
    } else {
      assert s[i := x][1..] == s[1..][i - 1 := x];
      BagUpdate(s[1..], f, i - 1, x);
      assert Bag(s[i := x], f) == f(s[0]) + Bag(s[1..][i - 1 := x], f);
      assert Bag(s[i := x], f) + f(s[i]) == f(s[0]) + (Bag(s[1..][i - 1 := x], f) + f(s[i]));
    }
  }

  lemma {:induction false} CountPositive<T>(s: seq<T>, p: T -> bool, i: nat)
    requires i < |s| && p(s[i])
    ensures Count(s, p) >= 1
  {
    if i > 0 {
      CountPositive(s[1..], p, i - 1);
    }
  }

  lemma {:induction false} CountTwo<T>(s: seq<T>, p: T -> bool, i: nat, j: nat)
    requires i < j < |s| && p(s[i]) && p(s[j])
    ensures Count(s, p) >= 2
  {
    if i == 0 {
      CountPositive(s[1..], p, j - 1);
    } else {
      CountTwo(s[1..], p, i - 1, j - 1);
    }
  }

  lemma {:induction false} CountNone<T>(s: seq<T>, p: T -> bool)
    requires forall i | 0 <= i < |s| :: !p(s[i])
    ensures Count(s, p) == 0
  {
    if s != [] {
      CountNone(s[1..], p);
    }
  }

  /** A count that is not zero has a witness. */
  lemma {:induction false} CountWitness<T>(s: seq<T>, p: T -> bool) returns (i: nat)
    requires Count(s, p) > 0
    ensures i < |s| && p(s[i])
  {
    if p(s[0]) {
      i := 0;
    } else {
      i := CountWitness(s[1..], p);
      i := i + 1;
    }
  }

  /** Whatever satisfies p satisfies q. */
  lemma {:induction false} CountMonotone<T>(s: seq<T>, p: T -> bool, q: T -> bool)
    requires forall i | 0 <= i < |s| && p(s[i]) :: q(s[i])
    ensures Count(s, p) <= Count(s, q)
  {
    if s != [] {
      CountMonotone(s[1..], p, q);
    }
  }

  /** Whatever satisfies p in t does so in s. */
  lemma {:induction false} CountLess<T>(s: seq<T>, t: seq<T>, p: T -> bool)
    requires |s| == |t| && forall i | 0 <= i < |t| && p(t[i]) :: p(s[i])
    ensures Count(t, p) <= Count(s, p)
  {
    if s != [] {
      assert forall i | 0 <= i < |s[1..]| :: s[1..][i] == s[i + 1] && t[1..][i] == t[i + 1];
      CountLess(s[1..], t[1..], p);
    }
  }

  lemma {:induction false} CountAtMostAll<T>(s: seq<T>, p: T -> bool)
    ensures Count(s, p) <= |s|
  {
    if s != [] {
      CountAtMostAll(s[1..], p);
    }
  }

  lemma {:induction false} CountJoin<T>(s: seq<T>, t: seq<T>, p: T -> bool)
    ensures Count(s + t, p) == Count(s, p) + Count(t, p)
  {
    if s == [] {
      assert s + t == t;
    } else {
      assert (s + t)[1..] == s[1..] + t;
      CountJoin(s[1..], t, p);
    }
  }
}
