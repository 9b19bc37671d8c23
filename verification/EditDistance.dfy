/** The fuzzy matcher's edit distance: a rolling row that takes the diagonal outright on equal
    characters, against the cost of a shortest edit script. */
module EditDistance {

  // ---------------------------------------------------------------- scripts

  /** A change of a character into itself keeps it and costs nothing. */
  datatype Edit = Change(from: char, to: char) | Insert(inserted: char) | Delete(deleted: char)

  type Script = seq<Edit>

  /** The characters an edit reads and the characters it writes. */
  function Reads(e: Edit): string {
    match e
    case Change(x, _) => [x]
    case Insert(_) => []
    case Delete(x) => [x]
  }

  function Writes(e: Edit): string {
    match e
    case Change(_, y) => [y]
    case Insert(y) => [y]
    case Delete(_) => []
  }

  function Source(s: Script): string {
    if s == [] then [] else Source(s[..|s| - 1]) + Reads(s[|s| - 1])
  }

  function Target(s: Script): string {
    if s == [] then [] else Target(s[..|s| - 1]) + Writes(s[|s| - 1])
  }

  function EditCost(e: Edit): nat {
    if e.Change? && e.from == e.to then 0 else 1
  }

  function Cost(s: Script): nat {
    if s == [] then 0 else Cost(s[..|s| - 1]) + EditCost(s[|s| - 1])
  }

  ghost predicate Transforms(s: Script, a: string, b: string) {
    Source(s) == a && Target(s) == b
  }

  /** `n` is the cost of a cheapest script from `a` to `b`. */
  ghost predicate IsDistance(n: nat, a: string, b: string) {
    && (exists s :: Transforms(s, a, b) && Cost(s) == n)
    && (forall s :: Transforms(s, a, b) ==> n <= Cost(s))
  }

  // ---------------------------------------------------------------- the recurrence of the row

  function Min(x: nat, y: nat): nat {
    if x <= y then x else y
  }

  function Front(a: string): string
    requires a != []
  {
    a[..|a| - 1]
  }

  function Last(a: string): char
    requires a != []
  {
    a[|a| - 1]
  }

  function Distance(a: string, b: string): nat
    decreases |a| + |b|
  {
    if a == [] then |b|
    else if b == [] then |a|
    else if Last(a) == Last(b) then Distance(Front(a), Front(b))
    else 1 + Min(Min(Distance(Front(a), Front(b)), Distance(Front(a), b)), Distance(a, Front(b)))
  }

  lemma CellStep(left: string, right: string, i: nat, j: nat)
    requires i < |left| && j < |right|
    ensures Distance(left[..i + 1], right[..j + 1]) ==
            if left[i] == right[j] then Distance(left[..i], right[..j])
            else 1 + Min(Min(Distance(left[..i], right[..j]), Distance(left[..i], right[..j + 1])),
                         Distance(left[..i + 1], right[..j]))
  {
    var a, b := left[..i + 1], right[..j + 1];
    assert Front(a) == left[..i] && Front(b) == right[..j] && Last(a) == left[i] && Last(b) == right[j];
  }

  lemma Borders(a: string)
    ensures Distance(a, []) == |a| && Distance([], a) == |a|
  {
  }

  method EditDistance(left: string, right: string) returns (d: nat)
    ensures d == Distance(left, right)
    ensures IsDistance(d, left, right)
  {
    hide Distance, IsDistance;
    DistanceIsShortest(left, right);
    var row: seq<nat> := seq(|right| + 1, j => j);
    forall j | 0 <= j <= |right|
      ensures row[j] == Distance(left[..0], right[..j])
    {
      Borders(right[..j]);
    }
    var i := 0;
    while i < |left|
      invariant i <= |left| && |row| == |right| + 1
      invariant forall j :: 0 <= j <= |right| ==> row[j] == Distance(left[..i], right[..j])
    {
      Borders(left[..i + 1]);
      var next: seq<nat> := [i + 1];
      var j := 0;
      while j < |right|
        invariant j <= |right| && |next| == j + 1
        invariant forall k :: 0 <= k <= j ==> next[k] == Distance(left[..i + 1], right[..k])
      {
        CellStep(left, right, i, j);
        next := next + [if left[i] == right[j] then row[j] else 1 + Min(Min(row[j], row[j + 1]), next[j])];
        j := j + 1;
      }
      row := next;
      i := i + 1;
    }
    assert left[..|left|] == left && right[..|right|] == right;
    d := row[|right|];
  }

  // ---------------------------------------------------------------- one character more

  lemma {:induction false} Symmetric(a: string, b: string)
    ensures Distance(a, b) == Distance(b, a)
    decreases |a| + |b|
  {
    if a != [] && b != [] {
      Symmetric(Front(a), Front(b));
      Symmetric(Front(a), b);
      Symmetric(a, Front(b));
    }
  }

  lemma FrontLast(a: string, c: char)
    ensures Front(a + [c]) == a && Last(a + [c]) == c
  {
  }

  /** One more character on one side moves the distance by at most one, which is why the
      diagonal needs no minimum on equal characters. */
  lemma {:induction false} OneMore(a: string, c: char, b: string)
    ensures Distance(a + [c], b) <= Distance(a, b) + 1
    ensures Distance(a, b) <= Distance(a + [c], b) + 1
    decreases |a| + |b|
  {
    FrontLast(a, c);
    if b != [] {
      var b', d := Front(b), Last(b);
      assert b == b' + [d];
      OneMoreRight(a, b', d);
      OneMore(a, c, b');
    } else if a != [] {
      assert Distance(a + [c], b) == |a| + 1;
    }
  }

  lemma {:induction false} OneMoreRight(a: string, b: string, d: char)
    ensures Distance(a, b + [d]) <= Distance(a, b) + 1
    ensures Distance(a, b) <= Distance(a, b + [d]) + 1
    decreases |a| + |b|, 1
  {
    Symmetric(a, b + [d]);
    Symmetric(a, b);
    FrontLast(b, d);
    if a != [] {
      var a', c := Front(a), Last(a);
      assert a == a' + [c];
      OneMore(a', c, b);
      OneMoreRight(a', b, d);
    }
  }

  // ---------------------------------------------------------------- the distance is the shortest script

  function Best(a: string, b: string): Script
    decreases |a| + |b|
  {
    if a == [] then (if b == [] then [] else Best(a, Front(b)) + [Insert(Last(b))])
    else if b == [] then Best(Front(a), b) + [Delete(Last(a))]
    else if Last(a) == Last(b) then Best(Front(a), Front(b)) + [Change(Last(a), Last(b))]
    else
      var diagonal, up, left := Distance(Front(a), Front(b)), Distance(Front(a), b), Distance(a, Front(b));
      if diagonal <= up && diagonal <= left then Best(Front(a), Front(b)) + [Change(Last(a), Last(b))]
      else if up <= left then Best(Front(a), b) + [Delete(Last(a))]
      else Best(a, Front(b)) + [Insert(Last(b))]
  }

  lemma ScriptAppend(s: Script, e: Edit)
    ensures Cost(s + [e]) == Cost(s) + EditCost(e)
    ensures Source(s + [e]) == Source(s) + Reads(e) && Target(s + [e]) == Target(s) + Writes(e)
  {
    assert (s + [e])[..|s|] == s;
  }

  lemma Rejoin(a: string)
    requires a != []
    ensures Front(a) + [Last(a)] == a
  {
  }

  ghost predicate Achieved(a: string, b: string) {
    Transforms(Best(a, b), a, b) && Cost(Best(a, b)) == Distance(a, b)
  }

  lemma AchievedAtBorder(a: string, b: string)
    requires (a == []) != (b == [])
    requires a == [] ==> Achieved(a, Front(b))
    requires b == [] ==> Achieved(Front(a), b)
    ensures Achieved(a, b)
  {
    if a == [] {
      Rejoin(b);
      ScriptAppend(Best(a, Front(b)), Insert(Last(b)));
    } else {
      Rejoin(a);
      ScriptAppend(Best(Front(a), b), Delete(Last(a)));
    }
  }

  lemma AchievedBy(a: string, b: string, a': string, b': string, e: Edit)
    requires Achieved(a', b') && a == a' + Reads(e) && b == b' + Writes(e)
    requires Best(a, b) == Best(a', b') + [e] && Distance(a, b) == Distance(a', b') + EditCost(e)
    ensures Achieved(a, b)
  {
    hide Best, Distance, Source, Target, Cost;
    ScriptAppend(Best(a', b'), e);
  }

  lemma AchievedInside(a: string, b: string)
    requires a != [] && b != []
    requires Achieved(Front(a), Front(b)) && Achieved(Front(a), b) && Achieved(a, Front(b))
    ensures Achieved(a, b)
  {
    hide Source, Target, Cost, Achieved;
    Rejoin(a);
    Rejoin(b);
    var diagonal, up, left := Distance(Front(a), Front(b)), Distance(Front(a), b), Distance(a, Front(b));
    if Last(a) == Last(b) || (diagonal <= up && diagonal <= left) {
      AchievedBy(a, b, Front(a), Front(b), Change(Last(a), Last(b)));
    } else if up <= left {
      assert b + [] == b;
      AchievedBy(a, b, Front(a), b, Delete(Last(a)));
    } else {
      assert a + [] == a;
      AchievedBy(a, b, a, Front(b), Insert(Last(b)));
    }
  }

  lemma {:induction false} BestIsAchieved(a: string, b: string)
    ensures Achieved(a, b)
    decreases |a| + |b|
  {
    if a != [] && b != [] {
      BestIsAchieved(Front(a), Front(b));
      BestIsAchieved(Front(a), b);
      BestIsAchieved(a, Front(b));
      AchievedInside(a, b);
    } else if a != [] {
      BestIsAchieved(Front(a), b);
      AchievedAtBorder(a, b);
    } else if b != [] {
      BestIsAchieved(a, Front(b));
      AchievedAtBorder(a, b);
    }
  }

  lemma OneEdit(a: string, b: string, e: Edit)
    ensures Distance(a + Reads(e), b + Writes(e)) <= Distance(a, b) + EditCost(e)
  {
    match e {
      case Change(x, y) =>
        FrontLast(a, x);
        FrontLast(b, y);
      case Insert(y) =>
        OneMoreRight(a, b, y);
        assert a + [] == a;
      case Delete(x) =>
        OneMore(a, x, b);
        assert b + [] == b;
    }
  }

  lemma {:induction false} NoScriptIsCheaper(s: Script)
    ensures Distance(Source(s), Target(s)) <= Cost(s)
    decreases |s|
  {
    if s != [] {
      NoScriptIsCheaper(s[..|s| - 1]);
      OneEdit(Source(s[..|s| - 1]), Target(s[..|s| - 1]), s[|s| - 1]);
    }
  }

  /** The row's recurrence computes the cost of a shortest script, for all strings. */
  lemma DistanceIsShortest(a: string, b: string)
    ensures IsDistance(Distance(a, b), a, b)
  {
    BestIsAchieved(a, b);
    forall s | Transforms(s, a, b)
      ensures Distance(a, b) <= Cost(s)
    {
      NoScriptIsCheaper(s);
    }
  }

  // ---------------------------------------------------------------- a metric

  /** Doing one script after another, character by character. */
  function Compose(s: Script, t: Script): Script
    requires Target(s) == Source(t)
    decreases |s| + |t|
  {
    if s != [] && s[|s| - 1].Delete? then Compose(s[..|s| - 1], t) + [s[|s| - 1]]
    else if t != [] && t[|t| - 1].Insert? then Compose(s, t[..|t| - 1]) + [t[|t| - 1]]
    else if s == [] || t == [] then
      assert s == [] && t == [] by { LastFromTarget(s); LastFromSource(t); }
      []
    else
      assert Target(s[..|s| - 1]) == Source(t[..|t| - 1]) by { LastFromTarget(s); LastFromSource(t); }
      var front := Compose(s[..|s| - 1], t[..|t| - 1]);
      var e, f := s[|s| - 1], t[|t| - 1];
      if e.Insert? then (if f.Delete? then front else front + [Insert(f.to)])
      else if f.Delete? then front + [Delete(e.from)]
      else front + [Change(e.from, f.to)]
  }

  lemma LastFromTarget(s: Script)
    ensures s != [] && !s[|s| - 1].Delete? ==> Target(s) != [] && Front(Target(s)) == Target(s[..|s| - 1])
  {
  }

  lemma LastFromSource(s: Script)
    ensures s != [] && !s[|s| - 1].Insert? ==> Source(s) != [] && Front(Source(s)) == Source(s[..|s| - 1])
  {
  }

  lemma LastEdit(s: Script)
    ensures s == [] ==> Cost(s) == 0 && Source(s) == Target(s) == []
    ensures s != [] ==>
              var front, e := s[..|s| - 1], s[|s| - 1];
              Cost(s) == Cost(front) + EditCost(e) && Source(s) == Source(front) + Reads(e) && Target(s) == Target(front) + Writes(e)
  {
  }

  lemma {:induction false} ComposeIsRight(s: Script, t: Script)
    requires Target(s) == Source(t)
    ensures Transforms(Compose(s, t), Source(s), Target(t)) && Cost(Compose(s, t)) <= Cost(s) + Cost(t)
    decreases |s| + |t|
  {
    hide Cost, Source, Target;
    LastEdit(s);
    LastEdit(t);
    if s != [] && s[|s| - 1].Delete? {
      var s' := s[..|s| - 1];
      ComposeIsRight(s', t);
      ScriptAppend(Compose(s', t), s[|s| - 1]);
    } else if t != [] && t[|t| - 1].Insert? {
      var t' := t[..|t| - 1];
      ComposeIsRight(s, t');
      ScriptAppend(Compose(s, t'), t[|t| - 1]);
    } else if s != [] && t != [] {
      var s', t' := s[..|s| - 1], t[..|t| - 1];
      LastFromTarget(s);
      LastFromSource(t);
      assert Last(Target(s)) == Last(Source(t));
      ComposeIsRight(s', t');
      var front := Compose(s', t');
      var e, f := s[|s| - 1], t[|t| - 1];
      if e.Insert? {
        if f.Change? {
          ScriptAppend(front, Insert(f.to));
        }
      } else if f.Delete? {
        ScriptAppend(front, Delete(e.from));
      } else {
        ScriptAppend(front, Change(e.from, f.to));
      }
    }
  }

  lemma {:induction false} ZeroMeansEqual(a: string, b: string)
    ensures Distance(a, b) == 0 <==> a == b
    decreases |a|
  {
    if a != [] && b != [] {
      Rejoin(a);
      Rejoin(b);
      if Last(a) == Last(b) {
        ZeroMeansEqual(Front(a), Front(b));
      }
    }
  }

  lemma TriangleInequality(a: string, b: string, c: string)
    ensures Distance(a, c) <= Distance(a, b) + Distance(b, c)
  {
    BestIsAchieved(a, b);
    BestIsAchieved(b, c);
    ComposeIsRight(Best(a, b), Best(b, c));
    NoScriptIsCheaper(Compose(Best(a, b), Best(b, c)));
  }

  lemma DistanceIsMetric(a: string, b: string, c: string)
    ensures Distance(a, b) == 0 <==> a == b
    ensures Distance(a, b) == Distance(b, a)
    ensures Distance(a, c) <= Distance(a, b) + Distance(b, c)
  {
    ZeroMeansEqual(a, b);
    Symmetric(a, b);
    TriangleInequality(a, b, c);
  }
}
