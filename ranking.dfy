// sort_entities (src/generate_html.py:8-19): every entity id of the catalog is
// ranked by the mean start index of its annotations, earliest first.

module Ranking {
  import opened Results
  import opened StableSort
  import opened Spans

  /** Why ranking fails: the mean of an id with no annotations divides zero by zero. */
  datatype RankError = NoAnnotations(id: string)

  /** The indices of the annotations of `id` that start at word `x`. */
  function Matching(anns: seq<Annotation>, id: string, x: int): set<nat> {
    set i: nat | i < |anns| && anns[i].id == id && anns[i].startWordIndex == x
  }

  /**
   * The start indices of the annotations of `id`, in annotation order: each
   * start index occurs once for every annotation of `id` that starts there.
   */
  function StartsOf(anns: seq<Annotation>, id: string): (r: seq<int>)
    ensures |r| <= |anns|
    ensures r == [] <==> forall i :: 0 <= i < |anns| ==> anns[i].id != id
    ensures forall x :: multiset(r)[x] == |Matching(anns, id, x)|
  {
    if anns == [] then []
    else
      var n := |anns| - 1;
      var front := StartsOf(anns[..n], id);
      var a := anns[n];
      var r := front + (if a.id == id then [a.startWordIndex] else []);
      forall x ensures multiset(r)[x] == |Matching(anns, id, x)| {
        MatchingLast(anns, id, x);
      }
      assert forall i :: 0 <= i < n ==> anns[..n][i] == anns[i];
      r
  }

  /** The matches of a non-empty list: those of all but its last annotation, and possibly the last. */
  lemma MatchingLast(anns: seq<Annotation>, id: string, x: int)
    requires anns != []
    ensures var n := |anns| - 1;
      |Matching(anns, id, x)| == |Matching(anns[..n], id, x)| + (if anns[n].id == id && anns[n].startWordIndex == x then 1 else 0)
  {
    var n := |anns| - 1;
    var m := Matching(anns[..n], id, x);
    if anns[n].id == id && anns[n].startWordIndex == x {
      assert Matching(anns, id, x) == m + {n};
    } else {
      assert Matching(anns, id, x) == m;
    }
  }

  function Sum(xs: seq<int>): int {
    if xs == [] then 0 else xs[0] + Sum(xs[1..])
  }

  /** An id has at least one annotation, so its mean position is defined. */
  predicate Annotated(anns: seq<Annotation>, id: string) {
    StartsOf(anns, id) != []
  }

  /** The mean start index of the annotations of `id`, computed exactly. */
  function MeanStart(anns: seq<Annotation>, id: string): real
    requires Annotated(anns, id)
  {
    var starts := StartsOf(anns, id);
    (Sum(starts) as real) / (|starts| as real)
  }

  /** Where `x` first occurs in `ids`. */
  function FirstIndex(ids: seq<string>, x: string): (k: nat)
    requires x in ids
    ensures k < |ids| && ids[k] == x
    ensures forall j :: 0 <= j < k ==> ids[j] != x
  {
    if ids[0] == x then 0 else 1 + FirstIndex(ids[1..], x)
  }

  /** Appending never moves the first occurrence of an element already present. */
  lemma FirstIndexInPrefix(p: seq<string>, q: seq<string>, x: string)
    requires x in p
    ensures FirstIndex(p + q, x) == FirstIndex(p, x)
  {
    var k1, k2 := FirstIndex(p + q, x), FirstIndex(p, x);
    assert (p + q)[k2] == x;
  }

  /**
   * The keys of a dict filled in catalog order: every catalog id exactly once,
   * nothing else, ordered by where each id first occurs in the catalog.
   */
  function FirstOccurrences(ids: seq<string>): (r: seq<string>)
    ensures forall i, j :: 0 <= i < j < |r| ==> r[i] != r[j]
    ensures forall i :: 0 <= i < |ids| ==> ids[i] in r
    ensures forall i :: 0 <= i < |r| ==> r[i] in ids
    ensures forall i, j :: 0 <= i < j < |r| ==> FirstIndex(ids, r[i]) < FirstIndex(ids, r[j])
  {
    if ids == [] then []
    else
      var p := ids[..|ids| - 1];
      var front := FirstOccurrences(p);
      var last := ids[|ids| - 1];
      assert ids == p + [last];
      forall i | 0 <= i < |front| ensures FirstIndex(ids, front[i]) == FirstIndex(p, front[i]) {
        FirstIndexInPrefix(p, [last], front[i]);
      }
      if last in front then front
      else
        assert last !in p;
        assert FirstIndex(ids, last) == |p|;
        front + [last]
  }

  /** An id not seen before is appended to the first occurrences. */
  lemma FirstOccurrencesOfNew(p: seq<string>, x: string)
    requires x !in p
    ensures FirstOccurrences(p + [x]) == FirstOccurrences(p) + [x]
  {
    assert (p + [x])[..|p|] == p;
    assert x !in FirstOccurrences(p);
  }

  /** A catalog without repeats is its own list of first occurrences. */
  lemma {:induction false} FirstOccurrencesOfDistinct(ids: seq<string>)
    requires forall i, j :: 0 <= i < j < |ids| ==> ids[i] != ids[j]
    ensures FirstOccurrences(ids) == ids
  {
    if ids != [] {
      var p, last := ids[..|ids| - 1], ids[|ids| - 1];
      assert ids == p + [last];
      FirstOccurrencesOfDistinct(p);
      FirstOccurrencesOfNew(p, last);
    }
  }

  /**
   * The dict-filling loop of sort_entities (lines 12-15): the mean position of
   * every catalog id, or the error raised at the first id without annotations.
   */
  function Positions(anns: seq<Annotation>, catalog: seq<string>): (r: Result<map<string, real>, RankError>)
    ensures r.Success? <==> forall i :: 0 <= i < |catalog| ==> Annotated(anns, catalog[i])
    ensures r.Success? ==> forall i :: 0 <= i < |catalog| ==> catalog[i] in r.value
    ensures r.Success? ==> forall id :: id in r.value ==> id in catalog && Annotated(anns, id) && r.value[id] == MeanStart(anns, id)
    ensures r.Failure? ==> r.error.id in catalog && !Annotated(anns, r.error.id)
  {
    if catalog == [] then Success(map[])
    else if !Annotated(anns, catalog[0]) then Failure(NoAnnotations(catalog[0]))
    else
      var rest := Positions(anns, catalog[1..]);
      assert forall i :: 1 <= i < |catalog| ==> catalog[i] == catalog[1..][i - 1];
      if rest.Failure? then rest
      else Success(rest.value[catalog[0] := MeanStart(anns, catalog[0])])
  }

  /** The error names the first id, in catalog order, that has no annotations. */
  lemma {:induction false} PositionsFailAtFirstUnannotated(anns: seq<Annotation>, catalog: seq<string>, i: nat)
    requires i < |catalog| && !Annotated(anns, catalog[i])
    requires forall j :: 0 <= j < i ==> Annotated(anns, catalog[j])
    ensures Positions(anns, catalog) == Failure(NoAnnotations(catalog[i]))
  {
    if i > 0 {
      PositionsFailAtFirstUnannotated(anns, catalog[1..], i - 1);
    }
  }

  /** `entity_positions.get` as a sort key (the default is never looked up for the dict's own keys). */
  function PositionKey(pos: map<string, real>): string -> real {
    id => if id in pos then pos[id] else 0.0
  }

  /** Sorting a sequence without repeats gives a sequence without repeats. */
  lemma SortKeepsDistinct(ids: seq<string>, key: string -> real)
    requires forall i, j :: 0 <= i < j < |ids| ==> ids[i] != ids[j]
    ensures forall i, j :: 0 <= i < j < |SortBy(ids, key)| ==> SortBy(ids, key)[i] != SortBy(ids, key)[j]
  {
    var r := SortBy(ids, key);
    forall i, j | 0 <= i < j < |r| ensures r[i] != r[j] {
      if r[i] == r[j] {
        assert multiset(r)[r[i]] >= 2 by {
          assert r == r[..j] + r[j..];
          assert r[i] in r[..j];
        }
        DistinctOnce(ids, r[i]);
        assert false;
      }
    }
  }

  /** In a sequence without repeats every element occurs once. */
  lemma {:induction false} DistinctOnce(s: seq<string>, x: string)
    requires forall i, j :: 0 <= i < j < |s| ==> s[i] != s[j]
    ensures multiset(s)[x] <= 1
  {
    if s != [] {
      DistinctOnce(s[1..], x);
      assert s == [s[0]] + s[1..];
      if s[0] == x {
        assert x !in s[1..];
      }
    }
  }

  /**
   * sort_entities: the distinct catalog ids, in ascending order of mean start
   * index; it fails exactly when some catalog id has no annotations.
   */
  function RankEntities(anns: seq<Annotation>, catalog: seq<string>): (r: Result<seq<string>, RankError>)
    ensures r.Success? <==> forall i :: 0 <= i < |catalog| ==> Annotated(anns, catalog[i])
    ensures r.Failure? ==> r == Failure(Positions(anns, catalog).error)
    ensures r.Success? ==> forall i, j :: 0 <= i < j < |r.value| ==> r.value[i] != r.value[j]
    ensures r.Success? ==> forall i :: 0 <= i < |catalog| ==> catalog[i] in r.value
    ensures r.Success? ==> forall i :: 0 <= i < |r.value| ==> r.value[i] in catalog
  {
    var positions := Positions(anns, catalog);
    if positions.Failure? then Failure(positions.error)
    else
      var pos := positions.value;
      var ids := FirstOccurrences(catalog);
      var ranked := SortBy(ids, PositionKey(pos));
      SortByMembers(ids, PositionKey(pos));
      SortKeepsDistinct(ids, PositionKey(pos));
      Success(ranked)
  }

  /** The ranking is ordered by non-decreasing mean start index. */
  lemma RankingFollowsMeans(anns: seq<Annotation>, catalog: seq<string>)
    requires forall i :: 0 <= i < |catalog| ==> Annotated(anns, catalog[i])
    ensures RankEntities(anns, catalog).Success?
    ensures var ranked := RankEntities(anns, catalog).value;
      && (forall i :: 0 <= i < |ranked| ==> Annotated(anns, ranked[i]))
      && (forall i, j :: 0 <= i < j < |ranked| ==> MeanStart(anns, ranked[i]) <= MeanStart(anns, ranked[j]))
  {
    var pos := Positions(anns, catalog).value;
    var ranked := RankEntities(anns, catalog).value;
    assert ranked == SortBy(FirstOccurrences(catalog), PositionKey(pos));
    assert forall i :: 0 <= i < |ranked| ==> ranked[i] in pos;
    assert forall i :: 0 <= i < |ranked| ==> PositionKey(pos)(ranked[i]) == MeanStart(anns, ranked[i]);
  }

  /**
   * Ties keep the catalog's order: among the ranked ids with one and the same
   * mean, the order is that of their first occurrences in the catalog.
   */
  lemma RankingIsStable(anns: seq<Annotation>, catalog: seq<string>)
    requires forall i :: 0 <= i < |catalog| ==> Annotated(anns, catalog[i])
    ensures Positions(anns, catalog).Success?
    ensures forall k :: WithKey(RankEntities(anns, catalog).value, PositionKey(Positions(anns, catalog).value), k)
                        == WithKey(FirstOccurrences(catalog), PositionKey(Positions(anns, catalog).value), k)
  {
  }
}
