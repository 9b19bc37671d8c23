/** Lists: filtering, absence of repetition, and the listing of an unordered collection. */
module Sequences {
  function Filter<T>(p: T -> bool, s: seq<T>): seq<T> {
    if s == [] then []
    else
      var front := Filter(p, s[..|s| - 1]);
      if p(s[|s| - 1]) then front + [s[|s| - 1]] else front
  }

  ghost predicate NoDup<T>(s: seq<T>) {
    forall i, j :: 0 <= i < j < |s| ==> s[i] != s[j]
  }

  lemma {:induction false} FilterElements<T(!new)>(p: T -> bool, s: seq<T>)
    ensures forall x :: x in Filter(p, s) <==> x in s && p(x)
    ensures NoDup(s) ==> NoDup(Filter(p, s))
  {
    if s != [] {
      FilterElements(p, s[..|s| - 1]);
      assert s == s[..|s| - 1] + [s[|s| - 1]];
    }
  }

  lemma {:induction false} FilterAppend<T>(p: T -> bool, s: seq<T>, t: seq<T>)
    ensures Filter(p, s + t) == Filter(p, s) + Filter(p, t)
    decreases |t|
  {
    if t == [] {
      assert s + t == s;
    } else {
      FilterAppend(p, s, t[..|t| - 1]);
      assert (s + t)[..|s + t| - 1] == s + t[..|t| - 1];
    }
  }

  lemma {:induction false} FilterAgain<T>(p: T -> bool, s: seq<T>)
    requires forall x :: x in s ==> p(x)
    ensures Filter(p, s) == s
  {
    if s != [] {
      FilterAgain(p, s[..|s| - 1]);
    }
  }

  lemma {:induction false} FilterSuffix<T>(p: T -> bool, s: seq<T>, k: nat)
    requires k <= |s|
    requires forall i :: 0 <= i < |s| ==> (p(s[i]) <==> k <= i)
    ensures Filter(p, s) == s[k..]
  {
    if k < |s| {
      var front := s[..|s| - 1];
      FilterSuffix(p, front, k);
      assert s[k..] == front[k..] + [s[|s| - 1]];
    } else if s != [] {
      FilterSuffix(p, s[..|s| - 1], k - 1);
    }
  }

  /** Lists without repetition and with the same elements are permutations of each other. */
  lemma {:induction false} SameSet<T(!new)>(s: seq<T>, t: seq<T>)
    requires NoDup(s) && NoDup(t) && forall x :: x in s <==> x in t
    ensures multiset(s) == multiset(t)
  {
    forall x
      ensures multiset(s)[x] == multiset(t)[x]
    {
      CountOne(s, x);
      CountOne(t, x);
    }
  }

  lemma {:induction false} CountOne<T(!new)>(s: seq<T>, x: T)
    requires NoDup(s)
    ensures multiset(s)[x] == if x in s then 1 else 0
  {
    if s != [] {
      CountOne(s[1..], x);
      assert s == [s[0]] + s[1..];
      assert forall i :: 0 <= i < |s[1..]| ==> s[1..][i] == s[i + 1];
    }
  }

  lemma PermutationNoDup<T(!new)>(s: seq<T>, t: seq<T>)
    requires NoDup(s) && multiset(s) == multiset(t)
    ensures NoDup(t)
  {
    forall i, j | 0 <= i < j < |t|
      ensures t[i] != t[j]
    {
      assert t == t[..i] + [t[i]] + t[i + 1..];
      assert t[i + 1..][j - i - 1] == t[j];
      if t[i] == t[j] {
        assert t[i] in multiset(t[i + 1..]);
        assert multiset(t)[t[i]] >= 2;
        CountOne(s, t[i]);
      }
    }
  }

  /** The order a hash map hands its keys out in: any order, each key once. */
  type Arrangement = set<string> -> seq<string>

  ghost predicate Arranges(arrange: Arrangement) {
    forall ids: set<string> :: NoDup(arrange(ids)) && forall id :: id in arrange(ids) <==> id in ids
  }
}
