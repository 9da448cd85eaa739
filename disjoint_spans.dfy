// Why generate_html applies the annotations largest start first (the comment at
// src/generate_html.py:29-33): a splice only touches the list from its start
// onwards, so once the later annotations are in place the earlier ones still
// find their words at their original indices. For annotations inside the
// transcript that do not overlap, every annotation therefore becomes a span
// around exactly its own words, at an index fixed by the splices before it.

module DisjointSpans {
  import opened Text
  import opened StableSort
  import opened Spans

  /** Two annotations share no word. */
  predicate Apart(a: Annotation, b: Annotation) {
    a.endWordIndex < b.startWordIndex || b.endWordIndex < a.startWordIndex
  }

  /** Annotations at different positions of `anns` share no word. */
  predicate Separated(anns: seq<Annotation>) {
    forall i, j :: 0 <= i < j < |anns| ==> Apart(anns[i], anns[j])
  }

  predicate AllInRange(anns: seq<Annotation>, n: int) {
    forall i :: 0 <= i < |anns| ==> InRange(anns[i], n)
  }

  predicate StartsDescending(anns: seq<Annotation>) {
    forall i, j :: 0 <= i < j < |anns| ==> anns[i].startWordIndex >= anns[j].startWordIndex
  }

  lemma {:induction false} InsertKeepsSeparated(x: Annotation, s: seq<Annotation>, key: Annotation -> real)
    requires Separated(s)
    requires forall j :: 0 <= j < |s| ==> Apart(x, s[j])
    ensures Separated(Insert(x, s, key))
  {
    if s != [] && key(s[0]) < key(x) {
      var rest := Insert(x, s[1..], key);
      InsertKeepsSeparated(x, s[1..], key);
      InsertPermutes(x, s[1..], key);
      forall j | 0 <= j < |rest| ensures Apart(s[0], rest[j]) {
        assert rest[j] in multiset(s[1..]) + multiset{x};
        if rest[j] != x {
          assert rest[j] in s[1..];
        }
      }
      assert Insert(x, s, key) == [s[0]] + rest;
    }
  }

  /** Sorting never brings two overlapping annotations together: separation survives the processing order. */
  lemma {:induction false} SortKeepsSeparated(anns: seq<Annotation>, key: Annotation -> real)
    requires Separated(anns)
    ensures Separated(SortBy(anns, key))
  {
    if anns != [] {
      var sorted := SortBy(anns[1..], key);
      SortKeepsSeparated(anns[1..], key);
      SortByMembers(anns[1..], key);
      forall j | 0 <= j < |sorted| ensures Apart(anns[0], sorted[j]) {
        var k :| 0 <= k < |anns[1..]| && anns[1..][k] == sorted[j];
        assert anns[1 + k] == sorted[j];
      }
      InsertKeepsSeparated(anns[0], sorted, key);
    }
  }

  /**
   * In a descending, separated list of in-range annotations, the others all end
   * before the first starts, so they lie inside the words below it.
   */
  lemma RestBeforeFirst(anns: seq<Annotation>, n: int)
    requires anns != [] && AllInRange(anns, n) && StartsDescending(anns) && Separated(anns)
    ensures InRange(anns[0], n)
    ensures AllInRange(anns[1..], anns[0].startWordIndex)
    ensures StartsDescending(anns[1..]) && Separated(anns[1..])
  {
    forall j | 1 <= j < |anns| ensures anns[j].endWordIndex < anns[0].startWordIndex {
      assert Apart(anns[0], anns[j]);
      assert InRange(anns[0], n);
    }
  }

  /**
   * Splices that lie inside the prefix `p` leave whatever follows `p` alone:
   * the working list after them is the spliced prefix followed by `q` unchanged.
   */
  lemma {:induction false} SplicesStayInPrefix(p: seq<string>, q: seq<string>, anns: seq<Annotation>)
    requires AllInRange(anns, |p|) && StartsDescending(anns) && Separated(anns)
    ensures ApplyAll(p + q, anns) == ApplyAll(p, anns) + q
    decreases |anns|
  {
    if anns != [] {
      var a := anns[0];
      var s, e := a.startWordIndex, a.endWordIndex;
      var p' := Splice(p, a);
      assert InRange(a, |p|) && InRange(a, |p + q|);
      assert Splice(p + q, a) == p' + q by {
        assert (p + q)[s..e + 1] == p[s..e + 1];
        assert (p + q)[..s] == p[..s];
        assert (p + q)[e + 1..] == p[e + 1..] + q;
      }
      RestBeforeFirst(anns, |p|);
      var rest := anns[1..];
      assert AllInRange(rest, |p'|);
      SplicesStayInPrefix(p', q, rest);
    }
  }


  /** The span of `a`'s class around exactly `a`'s words of `ts`, joined by spaces. */
  function OwnSpan(ts: seq<string>, a: Annotation): string
    requires InRange(a, |ts|)
  {
    SpanTag(a.id, Join(" ", ts[a.startWordIndex..a.endWordIndex + 1]))
  }

  /** The list `l` holds, at index `p`, the span of `a` around its own words of `ts`. */
  predicate SpanAt(l: seq<string>, ts: seq<string>, a: Annotation, p: int)
    requires InRange(a, |ts|)
  {
    0 <= p < |l| && l[p] == OwnSpan(ts, a)
  }

  /**
   * How many elements the splices of the annotations in `anns` that end before
   * word `x` remove in front of it: a splice of words s..e leaves one element
   * for e - s + 1.
   */
  function ShrinkBefore(anns: seq<Annotation>, x: int): int {
    if anns == [] then 0
    else
      var removed := if anns[0].endWordIndex < x then anns[0].endWordIndex - anns[0].startWordIndex else 0;
      removed + ShrinkBefore(anns[1..], x)
  }

  /** Where the span of `a` ends up: its start word, moved left by the splices before it. */
  function SpanIndex(anns: seq<Annotation>, a: Annotation): int {
    a.startWordIndex - ShrinkBefore(anns, a.startWordIndex)
  }

  lemma {:induction false} ShrinkInsert(x: Annotation, s: seq<Annotation>, key: Annotation -> real, y: int)
    ensures ShrinkBefore(Insert(x, s, key), y) == ShrinkBefore([x] + s, y)
  {
    if s != [] && key(s[0]) < key(x) {
      ShrinkInsert(x, s[1..], key, y);
      assert ([s[0]] + Insert(x, s[1..], key))[1..] == Insert(x, s[1..], key);
      assert ([x] + s)[1..] == s;
      assert ([x] + s[1..])[1..] == s[1..];
    }
  }

  /** The shrinkage does not depend on the order in which a sort puts the annotations. */
  lemma {:induction false} ShrinkSort(anns: seq<Annotation>, key: Annotation -> real, y: int)
    ensures ShrinkBefore(SortBy(anns, key), y) == ShrinkBefore(anns, y)
  {
    if anns != [] {
      ShrinkSort(anns[1..], key, y);
      ShrinkInsert(anns[0], SortBy(anns[1..], key), key, y);
      assert ([anns[0]] + SortBy(anns[1..], key))[1..] == SortBy(anns[1..], key);
    }
  }

  /** Annotations that all end on the same side of `x` and of `y` shrink the list alike before both. */
  lemma {:induction false} ShrinkSame(anns: seq<Annotation>, x: int, y: int)
    requires forall i :: 0 <= i < |anns| ==> (anns[i].endWordIndex < x <==> anns[i].endWordIndex < y)
    ensures ShrinkBefore(anns, x) == ShrinkBefore(anns, y)
  {
    if anns != [] {
      ShrinkSame(anns[1..], x, y);
    }
  }

  lemma SpliceInRange(l: seq<string>, a: Annotation)
    requires InRange(a, |l|)
    ensures Splice(l, a) == l[..a.startWordIndex] + ([OwnSpan(l, a)] + l[a.endWordIndex + 1..])
  {
  }

  /** The first splice leaves its span between the rest's work on the prefix and the untouched suffix. */
  lemma FirstSpliceSplits(ts: seq<string>, anns: seq<Annotation>)
    requires anns != [] && AllInRange(anns, |ts|) && StartsDescending(anns) && Separated(anns)
    ensures InRange(anns[0], |ts|) && AllInRange(anns[1..], anns[0].startWordIndex)
    ensures ApplyAll(ts, anns)
      == ApplyAll(ts[..anns[0].startWordIndex], anns[1..]) + ([OwnSpan(ts, anns[0])] + ts[anns[0].endWordIndex + 1..])
  {
    var a, rest := anns[0], anns[1..];
    var p, q := ts[..a.startWordIndex], [OwnSpan(ts, a)] + ts[a.endWordIndex + 1..];
    RestBeforeFirst(anns, |ts|);
    SpliceInRange(ts, a);
    SplicesStayInPrefix(p, q, rest);
    calc {
      ApplyAll(ts, anns);
      ApplyAll(Splice(ts, a), rest);
      ApplyAll(p + q, rest);
      ApplyAll(p, rest) + q;
    }
  }

  /**
   * In descending, separated order the first annotation ends after every other
   * one, so it shrinks the list before the end of the list and nowhere below
   * its own start.
   */
  lemma ShrinkAroundFirst(anns: seq<Annotation>, n: int)
    requires anns != [] && AllInRange(anns, n) && StartsDescending(anns) && Separated(anns)
    ensures var a, rest := anns[0], anns[1..];
      && ShrinkBefore(anns, n) == (a.endWordIndex - a.startWordIndex) + ShrinkBefore(rest, a.startWordIndex)
      && ShrinkBefore(anns, a.startWordIndex) == ShrinkBefore(rest, a.startWordIndex)
      && forall i :: 1 <= i < |anns| ==>
           ShrinkBefore(anns, anns[i].startWordIndex) == ShrinkBefore(rest, anns[i].startWordIndex)
  {
    var a, rest := anns[0], anns[1..];
    RestBeforeFirst(anns, n);
    ShrinkSame(rest, a.startWordIndex, n);
    forall i | 1 <= i < |anns|
      ensures ShrinkBefore(anns, anns[i].startWordIndex) == ShrinkBefore(rest, anns[i].startWordIndex)
    {
      assert Apart(a, anns[i]);
    }
  }

  /** A span placed in the work on a prefix of `ts` stays in place when the rest is appended. */
  lemma SpanInPrefixStays(done: seq<string>, q: seq<string>, ts: seq<string>, s: nat, b: Annotation, p: int)
    requires s <= |ts| && InRange(b, s) && SpanAt(done, ts[..s], b, p)
    ensures SpanAt(done + q, ts, b, p)
  {
    assert ts[..s][b.startWordIndex..b.endWordIndex + 1] == ts[b.startWordIndex..b.endWordIndex + 1];
  }

  /**
   * In descending order, separated in-range annotations leave a list that is
   * shorter by the total width they remove, with the span of each annotation,
   * around its own words, at its start index moved left by the splices before it.
   */
  lemma {:induction false} DescendingSplicesPlaceSpans(ts: seq<string>, anns: seq<Annotation>)
    requires AllInRange(anns, |ts|) && StartsDescending(anns) && Separated(anns)
    ensures |ApplyAll(ts, anns)| == |ts| - ShrinkBefore(anns, |ts|)
    ensures forall i :: 0 <= i < |anns| ==> SpanAt(ApplyAll(ts, anns), ts, anns[i], SpanIndex(anns, anns[i]))
    decreases |anns|
  {
    if anns != [] {
      var a := anns[0];
      var s, e := a.startWordIndex, a.endWordIndex;
      var rest := anns[1..];
      FirstSpliceSplits(ts, anns);
      RestBeforeFirst(anns, |ts|);
      var done := ApplyAll(ts[..s], rest);
      var q := [OwnSpan(ts, a)] + ts[e + 1..];
      assert ApplyAll(ts, anns) == done + q;
      DescendingSplicesPlaceSpans(ts[..s], rest);
      ShrinkAroundFirst(anns, |ts|);
      PlaceSpansStep(done, q, ts, anns);
    }
  }

  /** The step of DescendingSplicesPlaceSpans: the first span follows the spliced prefix. */
  lemma PlaceSpansStep(done: seq<string>, q: seq<string>, ts: seq<string>, anns: seq<Annotation>)
    requires anns != [] && AllInRange(anns, |ts|)
    requires AllInRange(anns[1..], anns[0].startWordIndex)
    requires q != [] && q[0] == OwnSpan(ts, anns[0])
    requires |done| == SpanIndex(anns, anns[0])
    requires forall i :: 1 <= i < |anns| ==> SpanIndex(anns, anns[i]) == SpanIndex(anns[1..], anns[i])
    requires forall i :: 0 <= i < |anns[1..]| ==>
      SpanAt(done, ts[..anns[0].startWordIndex], anns[1..][i], SpanIndex(anns[1..], anns[1..][i]))
    ensures forall i :: 0 <= i < |anns| ==> SpanAt(done + q, ts, anns[i], SpanIndex(anns, anns[i]))
  {
    var rest := anns[1..];
    forall i | 0 <= i < |anns| ensures SpanAt(done + q, ts, anns[i], SpanIndex(anns, anns[i])) {
      if i == 0 {
        assert (done + q)[|done|] == q[0];
      } else {
        assert anns[i] == rest[i - 1];
        SpanInPrefixStays(done, q, ts, anns[0].startWordIndex, rest[i - 1], SpanIndex(rest, rest[i - 1]));
      }
    }
  }

  /**
   * The promise behind the descending order: when every annotation lies inside
   * the transcript and no two annotations share a word, the list that
   * generate_html joins is shorter than the transcript by the total width the
   * annotations remove, and each annotation's span, of its own entity class and
   * around exactly its own words joined by spaces, sits at its start index
   * moved left by the splices of the annotations that end before it.
   */
  lemma EachAnnotationWrapsItsOwnWords(words: seq<Word>, anns: seq<Annotation>)
    requires AllInRange(anns, |words|) && Separated(anns)
    ensures |ApplyAll(Texts(words), ProcessingOrder(anns))| == |words| - ShrinkBefore(anns, |words|)
    ensures forall i :: 0 <= i < |anns| ==>
      SpanAt(ApplyAll(Texts(words), ProcessingOrder(anns)), Texts(words), anns[i], SpanIndex(anns, anns[i]))
  {
    var ts, order := Texts(words), ProcessingOrder(anns);
    SortKeepsSeparated(anns, StartKey);
    assert AllInRange(order, |ts|);
    DescendingSplicesPlaceSpans(ts, order);
    ShrinkSort(anns, StartKey, |ts|);
    SortByMembers(anns, StartKey);
    forall i | 0 <= i < |anns| ensures SpanAt(ApplyAll(ts, order), ts, anns[i], SpanIndex(anns, anns[i])) {
      var k :| 0 <= k < |order| && order[k] == anns[i];
      SpanIndexAfterSort(anns, anns[i]);
      assert SpanAt(ApplyAll(ts, order), ts, order[k], SpanIndex(order, order[k]));
    }
  }

  lemma SpanIndexAfterSort(anns: seq<Annotation>, a: Annotation)
    ensures SpanIndex(ProcessingOrder(anns), a) == SpanIndex(anns, a)
  {
    ShrinkSort(anns, StartKey, a.startWordIndex);
  }
}
