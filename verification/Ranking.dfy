/** Stable sorting by a comparison, keeping the first k, and how the two combine. */
module Ranking {
  import opened Values

  type Cmp<!T> = (T, T) -> Ordering

  ghost predicate Preorder<T(!new)>(cmp: Cmp<T>, pool: iset<T>) {
    && (forall a, b :: a in pool && b in pool ==> cmp(a, b) == Reverse(cmp(b, a)))
    && (forall a, b, c :: (a in pool && b in pool && c in pool && !cmp(a, b).Greater? && !cmp(b, c).Greater?)
                          ==> !cmp(a, c).Greater?)
  }

  ghost predicate From<T(!new)>(s: seq<T>, pool: iset<T>) {
    forall x :: x in s ==> x in pool
  }

  ghost predicate Sorted<T(!new)>(cmp: Cmp<T>, s: seq<T>) {
    forall i, j :: 0 <= i < j < |s| ==> !cmp(s[i], s[j]).Greater?
  }

  /** Before the first element that compares greater: after its equals. */
  function Insert<T>(cmp: Cmp<T>, x: T, s: seq<T>): seq<T> {
    if s == [] then [x]
    else if cmp(s[0], x).Greater? then [x] + s
    else [s[0]] + Insert(cmp, x, s[1..])
  }

  /** Sorting more elements into a list already sorted. */
  function SortOnto<T>(cmp: Cmp<T>, base: seq<T>, s: seq<T>): seq<T>
    decreases |s|
  {
    if s == [] then base else Insert(cmp, s[|s| - 1], SortOnto(cmp, base, s[..|s| - 1]))
  }

  /** The stable sort. */
  function Sort<T>(cmp: Cmp<T>, s: seq<T>): seq<T> {
    SortOnto(cmp, [], s)
  }

  function Take<T>(s: seq<T>, k: nat): seq<T> {
    if k < |s| then s[..k] else s
  }

  // ---------------------------------------------------------------- permutation and order

  lemma {:induction false} InsertKeeps<T>(cmp: Cmp<T>, x: T, s: seq<T>)
    ensures multiset(Insert(cmp, x, s)) == multiset(s) + multiset{x}
    ensures |Insert(cmp, x, s)| == |s| + 1
  {
    if s != [] && !cmp(s[0], x).Greater? {
      InsertKeeps(cmp, x, s[1..]);
      assert s == [s[0]] + s[1..];
    }
  }

  lemma {:induction false} SortKeeps<T>(cmp: Cmp<T>, base: seq<T>, s: seq<T>)
    ensures multiset(SortOnto(cmp, base, s)) == multiset(base) + multiset(s)
    ensures |SortOnto(cmp, base, s)| == |base| + |s|
    decreases |s|
  {
    if s != [] {
      var front, x := s[..|s| - 1], s[|s| - 1];
      SortKeeps(cmp, base, front);
      InsertKeeps(cmp, x, SortOnto(cmp, base, front));
      assert SortOnto(cmp, base, s) == Insert(cmp, x, SortOnto(cmp, base, front));
      hide SortOnto, Insert;
      assert s == front + [x];
    }
  }

  lemma SameElements<T(!new)>(s: seq<T>, t: seq<T>, pool: iset<T>)
    requires multiset(s) == multiset(t) && From(s, pool)
    ensures From(t, pool)
  {
    forall x | x in t
      ensures x in pool
    {
      assert x in multiset(t);
      assert x in s;
    }
  }

  lemma {:induction false} InsertElements<T(!new)>(cmp: Cmp<T>, x: T, s: seq<T>)
    ensures forall y :: y in Insert(cmp, x, s) <==> y == x || y in s
  {
    if s != [] && !cmp(s[0], x).Greater? {
      InsertElements(cmp, x, s[1..]);
      assert s == [s[0]] + s[1..];
    }
  }

  /** Inserting keeps a list sorted, and keeps any relation among equals that held in order. */
  lemma {:induction false} InsertSorted<T(!new)>(cmp: Cmp<T>, x: T, s: seq<T>, pool: iset<T>, r: (T, T) -> bool)
    requires Preorder(cmp, pool) && From(s, pool) && x in pool && Sorted(cmp, s)
    requires KeepsAmongEquals(cmp, s, r) && forall y :: y in s ==> r(y, x)
    ensures Sorted(cmp, Insert(cmp, x, s)) && KeepsAmongEquals(cmp, Insert(cmp, x, s), r)
  {
    if s == [] {
    } else if cmp(s[0], x).Greater? {
      var t := [x] + s;
      forall j | 0 <= j < |s|
        ensures cmp(x, s[j]).Less?
      {
        assert s[j] in s && s[0] in s;
        assert !cmp(s[0], s[j]).Greater? by { assert cmp(s[0], s[0]) == Reverse(cmp(s[0], s[0])); }
        assert cmp(x, s[0]).Less?;
        assert cmp(s[j], x).Greater?;
      }
      assert forall j :: 0 < j < |t| ==> t[j] == s[j - 1];
    } else {
      var rest := Insert(cmp, x, s[1..]);
      TailSorted(cmp, s, r);
      assert forall y :: y in s[1..] ==> y in s;
      InsertSorted(cmp, x, s[1..], pool, r);
      InsertElements(cmp, x, s[1..]);
      forall j | 0 <= j < |rest|
        ensures !cmp(s[0], rest[j]).Greater? && (cmp(s[0], rest[j]).Equal? ==> r(s[0], rest[j]))
      {
        assert rest[j] in rest && s[0] in s;
        if rest[j] != x {
          var k :| 0 <= k < |s[1..]| && s[1..][k] == rest[j];
          assert s[k + 1] == rest[j];
        }
      }
      var t := [s[0]] + rest;
      assert forall j :: 0 < j < |t| ==> t[j] == rest[j - 1];
    }
  }

  /** Equal elements stand in relation `r`, earlier to later. */
  ghost predicate KeepsAmongEquals<T(!new)>(cmp: Cmp<T>, s: seq<T>, r: (T, T) -> bool) {
    forall i, j :: 0 <= i < j < |s| && cmp(s[i], s[j]).Equal? ==> r(s[i], s[j])
  }

  lemma TailSorted<T(!new)>(cmp: Cmp<T>, s: seq<T>, r: (T, T) -> bool)
    requires s != [] && Sorted(cmp, s) && KeepsAmongEquals(cmp, s, r)
    ensures Sorted(cmp, s[1..]) && KeepsAmongEquals(cmp, s[1..], r)
  {
    assert forall i :: 0 <= i < |s[1..]| ==> s[1..][i] == s[i + 1];
  }

  ghost predicate Pairwise<T(!new)>(s: seq<T>, r: (T, T) -> bool) {
    forall i, j :: 0 <= i < j < |s| ==> r(s[i], s[j])
  }

  /** The sort is a sorted permutation, and stable: whatever related all elements in order
      still relates those that compare equal. */
  lemma {:induction false} SortIsStable<T(!new)>(cmp: Cmp<T>, s: seq<T>, pool: iset<T>, r: (T, T) -> bool)
    requires Preorder(cmp, pool) && From(s, pool) && Pairwise(s, r)
    ensures multiset(Sort(cmp, s)) == multiset(s)
    ensures Sorted(cmp, Sort(cmp, s)) && KeepsAmongEquals(cmp, Sort(cmp, s), r)
    decreases |s|
  {
    SortKeeps(cmp, [], s);
    if s != [] {
      var front, x := s[..|s| - 1], s[|s| - 1];
      assert forall y :: y in front ==> y in s;
      SortIsStable(cmp, front, pool, r);
      var t := Sort(cmp, front);
      SameElements(front, t, pool);
      forall y | y in t
        ensures r(y, x)
      {
        assert y in multiset(front);
        var k :| 0 <= k < |front| && front[k] == y;
        assert s[k] == y;
      }
      InsertSorted(cmp, x, t, pool, r);
    }
  }

  lemma SortIsSorted<T(!new)>(cmp: Cmp<T>, s: seq<T>, pool: iset<T>)
    requires Preorder(cmp, pool) && From(s, pool)
    ensures multiset(Sort(cmp, s)) == multiset(s) && |Sort(cmp, s)| == |s| && Sorted(cmp, Sort(cmp, s))
  {
    SortIsStable(cmp, s, pool, (x, y) => true);
    SortKeeps(cmp, [], s);
  }

  /** No two distinct elements compare equal. */
  ghost predicate Separates<T(!new)>(cmp: Cmp<T>, pool: iset<T>) {
    forall a, b :: a in pool && b in pool && cmp(a, b).Equal? ==> a == b
  }

  /** When the comparison separates the elements, a sorted permutation is unique. */
  lemma {:induction false} SortedIsUnique<T(!new)>(cmp: Cmp<T>, s: seq<T>, t: seq<T>, pool: iset<T>)
    requires Preorder(cmp, pool) && Separates(cmp, pool) && From(s, pool)
    requires Sorted(cmp, s) && Sorted(cmp, t) && multiset(s) == multiset(t)
    ensures s == t
    decreases |s|
  {
    hide *;
    SameLength(s, t);
    if s != [] {
      SameFirst(cmp, s, t, pool);
      WithoutFirst(s);
      WithoutFirst(t);
      RestSorted(cmp, s, pool);
      RestSorted(cmp, t, pool);
      SortedIsUnique(cmp, s[1..], t[1..], pool);
      assert s == [s[0]] + s[1..] && t == [t[0]] + t[1..];
    }
  }

  lemma SameLength<T>(s: seq<T>, t: seq<T>)
    requires multiset(s) == multiset(t)
    ensures |s| == |t|
  {
    assert |s| == |multiset(s)| == |multiset(t)| == |t|;
  }

  lemma RestSorted<T(!new)>(cmp: Cmp<T>, s: seq<T>, pool: iset<T>)
    requires s != [] && Sorted(cmp, s)
    ensures Sorted(cmp, s[1..])
    ensures From(s, pool) ==> From(s[1..], pool)
  {
    assert forall i :: 0 <= i < |s[1..]| ==> s[1..][i] == s[i + 1];
    assert forall y :: y in s[1..] ==> y in s;
  }

  lemma WithoutFirst<T>(s: seq<T>)
    requires s != []
    ensures multiset(s[1..]) == multiset(s) - multiset{s[0]}
  {
    assert s == [s[0]] + s[1..];
  }

  lemma SameFirst<T(!new)>(cmp: Cmp<T>, s: seq<T>, t: seq<T>, pool: iset<T>)
    requires Preorder(cmp, pool) && Separates(cmp, pool) && From(s, pool)
    requires Sorted(cmp, s) && Sorted(cmp, t) && multiset(s) == multiset(t) && s != [] && t != []
    ensures s[0] == t[0]
  {
    SameElements(s, t, pool);
    assert s[0] in multiset(t) && t[0] in multiset(s);
    var i :| 0 <= i < |t| && t[i] == s[0];
    var j :| 0 <= j < |s| && s[j] == t[0];
    assert s[0] in s && t[0] in t;
    assert !cmp(s[0], t[0]).Greater? by { assert cmp(s[0], s[0]) == Reverse(cmp(s[0], s[0])); }
    assert !cmp(t[0], s[0]).Greater? by { assert cmp(t[0], t[0]) == Reverse(cmp(t[0], t[0])); }
    assert cmp(t[0], s[0]) == Reverse(cmp(s[0], t[0]));
  }

  // ---------------------------------------------------------------- keeping the first k

  lemma {:induction false} InsertTake<T>(cmp: Cmp<T>, x: T, s: seq<T>, k: nat)
    ensures Take(Insert(cmp, x, s), k) == Take(Insert(cmp, x, Take(s, k)), k)
    decreases |s|
  {
    if k == 0 {
      InsertKeeps(cmp, x, s);
    } else if s != [] && k < |s| {
      if cmp(s[0], x).Greater? {
        assert Take(s, k)[0] == s[0];
        assert ([x] + s)[..k] == ([x] + s[..k])[..k];
      } else {
        InsertTake(cmp, x, s[1..], k - 1);
        assert Take(s, k) == [s[0]] + Take(s[1..], k - 1);
        assert Take(s, k)[1..] == Take(s[1..], k - 1);
        TakeCons(s[0], Insert(cmp, x, s[1..]), k);
        TakeCons(s[0], Insert(cmp, x, Take(s[1..], k - 1)), k);
      }
    }
  }

  lemma TakeCons<T>(x: T, s: seq<T>, k: nat)
    requires k > 0
    ensures Take([x] + s, k) == [x] + Take(s, k - 1)
  {
  }

  /** Truncating before sorting more in loses nothing of the first k. */
  lemma {:induction false} SortOntoTake<T>(cmp: Cmp<T>, base: seq<T>, s: seq<T>, k: nat)
    ensures Take(SortOnto(cmp, Take(base, k), s), k) == Take(SortOnto(cmp, base, s), k)
    decreases |s|
  {
    if s == [] {
    } else {
      var front, x := s[..|s| - 1], s[|s| - 1];
      SortOntoTake(cmp, base, front, k);
      InsertTake(cmp, x, SortOnto(cmp, base, front), k);
      InsertTake(cmp, x, SortOnto(cmp, Take(base, k), front), k);
    }
  }

  lemma {:induction false} SortOntoAppend<T>(cmp: Cmp<T>, base: seq<T>, s: seq<T>, t: seq<T>)
    ensures SortOnto(cmp, base, s + t) == SortOnto(cmp, SortOnto(cmp, base, s), t)
    decreases |t|
  {
    if t == [] {
      assert s + t == s;
    } else {
      SortOntoAppend(cmp, base, s, t[..|t| - 1]);
      assert (s + t)[..|s + t| - 1] == s + t[..|t| - 1];
    }
  }

  lemma {:induction false} InsertAtEnd<T>(cmp: Cmp<T>, x: T, s: seq<T>)
    requires forall i :: 0 <= i < |s| ==> !cmp(s[i], x).Greater?
    ensures Insert(cmp, x, s) == s + [x]
  {
    if s != [] {
      InsertAtEnd(cmp, x, s[1..]);
      assert s == [s[0]] + s[1..];
    }
  }

  /** Sorting a sorted list changes nothing. */
  lemma {:induction false} SortSorted<T(!new)>(cmp: Cmp<T>, s: seq<T>)
    requires Sorted(cmp, s)
    ensures Sort(cmp, s) == s
    decreases |s|
  {
    if s != [] {
      var front := s[..|s| - 1];
      SortSorted(cmp, front);
      InsertAtEnd(cmp, s[|s| - 1], front);
    }
  }

  lemma TakeSorted<T(!new)>(cmp: Cmp<T>, s: seq<T>, k: nat)
    requires Sorted(cmp, s)
    ensures Sorted(cmp, Take(s, k))
  {
  }

  /** One scroll page: sorting the kept hits together with the page and truncating again
      leaves the first k of everything seen. */
  lemma PageStep<T(!new)>(cmp: Cmp<T>, seen: seq<T>, page: seq<T>, k: nat, pool: iset<T>)
    requires Preorder(cmp, pool) && From(seen, pool)
    ensures Take(Sort(cmp, Take(Sort(cmp, seen), k) + page), k) == Take(Sort(cmp, seen + page), k)
  {
    var kept := Take(Sort(cmp, seen), k);
    SortIsSorted(cmp, seen, pool);
    TakeSorted(cmp, Sort(cmp, seen), k);
    SortSorted(cmp, kept);
    SortOntoAppend(cmp, [], kept, page);
    SortOntoAppend(cmp, [], seen, page);
    SortOntoTake(cmp, Sort(cmp, seen), page, k);
  }
}
