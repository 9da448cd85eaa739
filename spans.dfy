// The span-wrapping pass of src/generate_html.py (generate_html, lines 26-46):
// copy the word texts, order the annotations by start index (largest first),
// replace each annotated slice of the working list by one <span> element, and
// join the list with single spaces.

module Spans {
  import opened Text
  import opened StableSort

  /** One transcript word. Only `text` is read by the span pass. */
  datatype Word = Word(text: string, startTime: real, endTime: real, speaker: string)

  /** A named-entity annotation over the inclusive word range [startWordIndex, endWordIndex]. */
  datatype Annotation = Annotation(id: string, startWordIndex: int, endWordIndex: int)

  /**
   * The slice `[startWordIndex : endWordIndex + 1]` uses no negative bound, so
   * Python reads it from the front of the list (negative bounds count from the end).
   */
  predicate FromFront(a: Annotation) {
    0 <= a.startWordIndex && 0 <= a.endWordIndex + 1
  }

  predicate AllFromFront(anns: seq<Annotation>) {
    forall i :: 0 <= i < |anns| ==> FromFront(anns[i])
  }

  /** The annotation lies inside a transcript of `n` words and is not reversed. */
  predicate InRange(a: Annotation, n: int) {
    0 <= a.startWordIndex <= a.endWordIndex < n
  }

  /** The working list of generate_html: the word texts, in transcript order. */
  function Texts(words: seq<Word>): (r: seq<string>)
    ensures |r| == |words|
    ensures forall i :: 0 <= i < |words| ==> r[i] == words[i].text
  {
    seq(|words|, i requires 0 <= i < |words| => words[i].text)
  }

  /** Sort key of `sorted(..., key=startWordIndex, reverse=True)`: a stable descending sort is a stable ascending sort on the negated index. */
  function StartKey(a: Annotation): real {
    -(a.startWordIndex as real)
  }

  /** The order in which generate_html applies the annotations. */
  function ProcessingOrder(anns: seq<Annotation>): (r: seq<Annotation>)
    ensures multiset(r) == multiset(anns) && |r| == |anns|
    ensures forall i :: 0 <= i < |r| ==> r[i] in anns
    ensures forall i, j :: 0 <= i < j < |r| ==> r[i].startWordIndex >= r[j].startWordIndex
    ensures forall k :: WithKey(r, StartKey, k) == WithKey(anns, StartKey, k)
  {
    var r := SortBy(anns, StartKey);
    SortByMembers(anns, StartKey);
    assert forall i, j :: 0 <= i < j < |r| ==> StartKey(r[i]) <= StartKey(r[j]);
    r
  }

  /** Start of the list region that Python's `l[start:end+1]` denotes (bounds clipped to the list). */
  function SliceLo(n: nat, a: Annotation): (lo: nat)
    requires FromFront(a)
    ensures lo <= n
  {
    if a.startWordIndex < n then a.startWordIndex else n
  }

  /** End (exclusive) of that region; an empty region when the clipped end lies before the start. */
  function SliceHi(n: nat, a: Annotation): (hi: nat)
    requires FromFront(a)
    ensures SliceLo(n, a) <= hi <= n
  {
    var lo := SliceLo(n, a);
    var e := if a.endWordIndex + 1 < n then a.endWordIndex + 1 else n;
    if e < lo then lo else e
  }

  /** Python's slice assignment `l[lo:hi] = [x]`. */
  function Replace<T>(l: seq<T>, lo: nat, hi: nat, x: T): (r: seq<T>)
    requires lo <= hi <= |l|
    ensures |r| == |l| - (hi - lo) + 1
    ensures r[..lo] == l[..lo] && r[lo] == x && r[lo + 1..] == l[hi..]
  {
    l[..lo] + [x] + l[hi..]
  }

  /** The element that replaces an annotated slice. */
  function SpanTag(id: string, content: string): string {
    "<span class='entity " + id + "'>" + content + "</span>"
  }

  /**
   * One iteration of the loop (source line 43): the slice of the annotation is
   * replaced by a single span element holding the slice joined by spaces.
   */
  function Splice(l: seq<string>, a: Annotation): (r: seq<string>)
    requires FromFront(a)
    ensures forall i :: 0 <= i < |l| && i < a.startWordIndex ==> i < |r| && r[i] == l[i]
    ensures InRange(a, |l|) ==>
      && |r| == |l| - (a.endWordIndex - a.startWordIndex)
      && r[..a.startWordIndex] == l[..a.startWordIndex]
      && r[a.startWordIndex] == SpanTag(a.id, Join(" ", l[a.startWordIndex..a.endWordIndex + 1]))
      && r[a.startWordIndex + 1..] == l[a.endWordIndex + 1..]
  {
    var lo, hi := SliceLo(|l|, a), SliceHi(|l|, a);
    Replace(l, lo, hi, SpanTag(a.id, Join(" ", l[lo..hi])))
  }

  /** The working list after splicing the annotations `anns`, first to last. */
  function ApplyAll(l: seq<string>, anns: seq<Annotation>): seq<string>
    requires AllFromFront(anns)
    decreases |anns|
  {
    if anns == [] then l else ApplyAll(Splice(l, anns[0]), anns[1..])
  }

  /**
   * Lines 26-46 of generate_html: the annotated transcript text. The words are
   * copied, the annotations are spliced in processing order, and the list is
   * joined with single spaces.
   */
  method AnnotateTranscript(words: seq<Word>, anns: seq<Annotation>) returns (transcript: string)
    requires AllFromFront(anns)
    ensures transcript == Join(" ", ApplyAll(Texts(words), ProcessingOrder(anns)))
  {
    var annotated := Texts(words);
    var ordered := ProcessingOrder(anns);
    for k := 0 to |ordered|
      invariant ApplyAll(annotated, ordered[k..]) == ApplyAll(Texts(words), ordered)
    {
      assert ordered[k..][1..] == ordered[k + 1..];
      annotated := Splice(annotated, ordered[k]);
    }
    transcript := Join(" ", annotated);
  }
}
