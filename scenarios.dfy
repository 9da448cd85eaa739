// Small transcripts worked through the span pass.

module Scenarios {
  import opened Text
  import opened StableSort
  import opened Spans

  /** One PERSON annotation on the second word wraps just that word. */
  lemma OnePersonSpan()
    ensures Join(" ", ApplyAll(["Hi", "Bob"], ProcessingOrder([Annotation("PERSON", 1, 1)])))
      == "Hi " + SpanTag("PERSON", "Bob")
  {
    var person := Annotation("PERSON", 1, 1);
    var order := ProcessingOrder([person]);
    assert order == [person] by {
      assert multiset(order) == multiset{person};
      assert person in multiset(order);
    }
    var l := ["Hi", "Bob"];
    assert SliceLo(2, person) == 1 && SliceHi(2, person) == 2;
    assert l[1..2] == ["Bob"];
    var spliced := Splice(l, person);
    assert spliced == ["Hi", SpanTag("PERSON", "Bob")];
    assert ApplyAll(l, order) == ApplyAll(spliced, []) == spliced;
  }

  /** Of two annotations, the one with the larger start is spliced first. */
  lemma LaterStartFirst(x: Annotation, y: Annotation)
    requires x.startWordIndex < y.startWordIndex
    ensures ProcessingOrder([x, y]) == [y, x]
  {
    var order := ProcessingOrder([x, y]);
    assert order[0].startWordIndex >= order[1].startWordIndex;
    assert multiset(order) == multiset{x, y};
    assert x in multiset(order) && y in multiset(order);
  }

  /**
   * Overlapping annotations are not kept apart: with ORG on words 0-2 and LOC on
   * words 1-3, LOC is spliced first, so the ORG slice [0:3] of the shortened
   * list also takes in word 3, nested inside the LOC span.
   */
  lemma OverlapWidensEarlierSpan()
    ensures ApplyAll(["a", "b", "c", "d"], ProcessingOrder([Annotation("ORG", 0, 2), Annotation("LOC", 1, 3)]))
      == [SpanTag("ORG", "a " + SpanTag("LOC", "b c d"))]
  {
    var org, loc := Annotation("ORG", 0, 2), Annotation("LOC", 1, 3);
    var order := ProcessingOrder([org, loc]);
    LaterStartFirst(org, loc);
    var l := ["a", "b", "c", "d"];
    assert SliceLo(4, loc) == 1 && SliceHi(4, loc) == 4;
    assert l[1..4] == ["b", "c", "d"];
    assert Join(" ", ["b", "c", "d"]) == "b" + " " + ("c" + " " + "d") == "b c d";
    var inner := SpanTag("LOC", "b c d");
    var l1 := Splice(l, loc);
    assert l1 == ["a", inner];
    assert SliceLo(2, org) == 0 && SliceHi(2, org) == 2;
    assert Join(" ", ["a", inner]) == "a" + " " + inner == "a " + inner;
    var l2 := Splice(l1, org);
    assert l2 == [SpanTag("ORG", "a " + inner)];
    assert ApplyAll(l, order) == ApplyAll(l1, [org]) == ApplyAll(l2, []);
  }
}
