/** A backend scroll: pages of points, each naming the offset of the next. */
module Scrolling {
  import opened Options

  /** One backend answer; `next` is null on the last. */
  datatype Page<T> = Page(points: seq<T>, next: Option<string>)

  ghost predicate IsScroll<T>(pages: seq<Page<T>>) {
    pages != [] && forall i :: 0 <= i < |pages| ==> (pages[i].next.None? <==> i == |pages| - 1)
  }

  /** The offset a page was requested with. */
  function OffsetOf<T>(pages: seq<Page<T>>, i: nat): Option<string>
    requires i < |pages|
  {
    if i == 0 then None else pages[i - 1].next
  }

  ghost predicate Advances<T>(pages: seq<Page<T>>) {
    forall i :: 0 <= i < |pages| - 1 ==> pages[i].points != [] && pages[i].next != OffsetOf(pages, i)
  }

  function AllPoints<T>(pages: seq<Page<T>>): seq<T> {
    if pages == [] then [] else AllPoints(pages[..|pages| - 1]) + pages[|pages| - 1].points
  }

  lemma AllPointsStep<T>(pages: seq<Page<T>>, i: nat)
    requires i < |pages|
    ensures AllPoints(pages[..i + 1]) == AllPoints(pages[..i]) + pages[i].points
  {
    assert pages[..i + 1][..|pages[..i + 1]| - 1] == pages[..i];
  }

  lemma {:induction false} AllPointsPrefix<T>(pages: seq<Page<T>>, i: nat)
    requires i <= |pages|
    ensures forall h :: h in AllPoints(pages[..i]) ==> h in AllPoints(pages)
    decreases |pages| - i
  {
    if i < |pages| {
      AllPointsStep(pages, i);
      AllPointsPrefix(pages, i + 1);
    } else {
      assert pages[..i] == pages;
    }
  }
}
