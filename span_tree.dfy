// The working list of the span pass read as a tree: every element is either a
// word of the transcript or a span wrapping earlier elements. The strings that
// generate_html builds are the renderings of this tree, which makes the claim
// "remove the span tags and the transcript comes back" statable for any
// annotations, overlapping ones included.

module SpanTree {
  import opened Text
  import opened StableSort
  import opened Spans

  datatype Node = Plain(text: string) | Tagged(id: string, children: seq<Node>)

  /** The string that stands for `n` in the working list. */
  function Render(n: Node): string
    decreases n
  {
    match n
    case Plain(w) => w
    case Tagged(id, ch) => SpanTag(id, Join(" ", RenderAll(ch)))
  }

  function RenderAll(ns: seq<Node>): (r: seq<string>)
    ensures |r| == |ns|
    decreases ns
  {
    seq(|ns|, i requires 0 <= i < |ns| => Render(ns[i]))
  }

  /** The rendering with every span tag removed and its content left in place. */
  function Unmarked(n: Node): string
    decreases n
  {
    match n
    case Plain(w) => w
    case Tagged(_, ch) => Join(" ", UnmarkedAll(ch))
  }

  function UnmarkedAll(ns: seq<Node>): (r: seq<string>)
    ensures |r| == |ns|
    decreases ns
  {
    seq(|ns|, i requires 0 <= i < |ns| => Unmarked(ns[i]))
  }

  /** The transcript words under `n`, in order. */
  function Words(n: Node): seq<string>
    decreases n
  {
    match n
    case Plain(w) => [w]
    case Tagged(_, ch) => WordsAll(ch)
  }

  function WordsAll(ns: seq<Node>): seq<string>
    decreases ns
  {
    if ns == [] then [] else Words(ns[0]) + WordsAll(ns[1..])
  }

  /** No span in `n` is empty. */
  predicate Filled(n: Node)
    decreases n
  {
    match n
    case Plain(_) => true
    case Tagged(_, ch) => ch != [] && forall i :: 0 <= i < |ch| ==> Filled(ch[i])
  }

  predicate FilledAll(ns: seq<Node>) {
    forall i :: 0 <= i < |ns| ==> Filled(ns[i])
  }

  function PlainNodes(ts: seq<string>): (ns: seq<Node>)
    ensures |ns| == |ts|
  {
    seq(|ts|, i requires 0 <= i < |ts| => Plain(ts[i]))
  }

  /** Splice on the tree: the clipped slice becomes the children of one new span. */
  function SpliceNodes(ns: seq<Node>, a: Annotation): seq<Node>
    requires FromFront(a)
  {
    var lo, hi := SliceLo(|ns|, a), SliceHi(|ns|, a);
    Replace(ns, lo, hi, Tagged(a.id, ns[lo..hi]))
  }

  function ApplyNodes(ns: seq<Node>, anns: seq<Annotation>): seq<Node>
    requires AllFromFront(anns)
    decreases |anns|
  {
    if anns == [] then ns else ApplyNodes(SpliceNodes(ns, anns[0]), anns[1..])
  }

  // ---- rendering commutes with splicing ----

  /** Splicing the tree and rendering it gives what generate_html's splice gives on the rendered list. */
  lemma SpliceRenders(ns: seq<Node>, a: Annotation)
    requires FromFront(a)
    ensures RenderAll(SpliceNodes(ns, a)) == Splice(RenderAll(ns), a)
  {
    var lo, hi := SliceLo(|ns|, a), SliceHi(|ns|, a);
    assert RenderAll(ns[lo..hi]) == RenderAll(ns)[lo..hi];
    var l := RenderAll(ns);
    var r := RenderAll(SpliceNodes(ns, a));
    var t := Splice(l, a);
    assert t == Replace(l, lo, hi, SpanTag(a.id, Join(" ", l[lo..hi])));
    assert SpliceNodes(ns, a) == Replace(ns, lo, hi, Tagged(a.id, ns[lo..hi]));
    assert |r| == |t|;
    forall i | 0 <= i < |r| ensures r[i] == t[i] {
      if i == lo {
        assert r[i] == Render(Tagged(a.id, ns[lo..hi]));
      } else if i < lo {
        assert r[i] == Render(ns[i]);
      } else if i > lo {
        assert r[i] == Render(ns[i - 1 + hi - lo]);
      }
    }
  }

  lemma {:induction false} ApplyRenders(ns: seq<Node>, anns: seq<Annotation>)
    requires AllFromFront(anns)
    ensures RenderAll(ApplyNodes(ns, anns)) == ApplyAll(RenderAll(ns), anns)
    decreases |anns|
  {
    if anns != [] {
      SpliceRenders(ns, anns[0]);
      ApplyRenders(SpliceNodes(ns, anns[0]), anns[1..]);
    }
  }

  // ---- words are never lost, duplicated or reordered ----

  lemma {:induction false} WordsAllAppend(a: seq<Node>, b: seq<Node>)
    ensures WordsAll(a + b) == WordsAll(a) + WordsAll(b)
  {
    if a == [] {
      assert a + b == b;
    } else {
      assert (a + b)[1..] == a[1..] + b;
      WordsAllAppend(a[1..], b);
    }
  }

  lemma {:induction false} WordsOfPlain(ts: seq<string>)
    ensures WordsAll(PlainNodes(ts)) == ts
  {
    if ts != [] {
      assert PlainNodes(ts)[1..] == PlainNodes(ts[1..]);
      WordsOfPlain(ts[1..]);
    }
  }

  lemma SpliceKeepsWords(ns: seq<Node>, a: Annotation)
    requires FromFront(a)
    ensures WordsAll(SpliceNodes(ns, a)) == WordsAll(ns)
  {
    var lo, hi := SliceLo(|ns|, a), SliceHi(|ns|, a);
    var t := Tagged(a.id, ns[lo..hi]);
    assert WordsAll([t]) == WordsAll(ns[lo..hi]) by {
      assert [t][1..] == [];
    }
    WordsAllAppend(ns[..lo] + [t], ns[hi..]);
    WordsAllAppend(ns[..lo], [t]);
    WordsAllAppend(ns[..lo] + ns[lo..hi], ns[hi..]);
    WordsAllAppend(ns[..lo], ns[lo..hi]);
    assert ns == ns[..lo] + ns[lo..hi] + ns[hi..];
  }

  lemma {:induction false} ApplyKeepsWords(ns: seq<Node>, anns: seq<Annotation>)
    requires AllFromFront(anns)
    ensures WordsAll(ApplyNodes(ns, anns)) == WordsAll(ns)
    decreases |anns|
  {
    if anns != [] {
      SpliceKeepsWords(ns, anns[0]);
      ApplyKeepsWords(SpliceNodes(ns, anns[0]), anns[1..]);
    }
  }

  // ---- removing the tags of a tree without empty spans ----

  lemma {:induction false} UnmarkedNode(n: Node)
    requires Filled(n)
    ensures Words(n) != [] && Unmarked(n) == Join(" ", Words(n))
    decreases n
  {
    match n
    case Plain(w) =>
    case Tagged(_, ch) => UnmarkedNodes(ch);
  }

  lemma {:induction false} UnmarkedNodes(ns: seq<Node>)
    requires ns != [] && FilledAll(ns)
    ensures WordsAll(ns) != [] && Join(" ", UnmarkedAll(ns)) == Join(" ", WordsAll(ns))
    decreases ns
  {
    UnmarkedNode(ns[0]);
    if |ns| == 1 {
      assert ns[1..] == [];
      assert WordsAll(ns) == Words(ns[0]) + WordsAll(ns[1..]) == Words(ns[0]);
      assert UnmarkedAll(ns) == [Unmarked(ns[0])];
    } else {
      var rest := ns[1..];
      UnmarkedNodes(rest);
      assert UnmarkedAll(ns) == [Unmarked(ns[0])] + UnmarkedAll(rest);
      JoinAppend(" ", [Unmarked(ns[0])], UnmarkedAll(rest));
      JoinAppend(" ", Words(ns[0]), WordsAll(rest));
    }
  }

  /**
   * While the annotations are applied largest start first, each clipped slice
   * is non-empty, so no empty span appears.
   */
  lemma {:induction false} OrderedSplicesFill(ns: seq<Node>, anns: seq<Annotation>)
    requires FilledAll(ns)
    requires forall i :: 0 <= i < |anns| ==> 0 <= anns[i].startWordIndex <= anns[i].endWordIndex
    requires forall i :: 0 <= i < |anns| ==> anns[i].startWordIndex < |ns|
    requires forall i, j :: 0 <= i < j < |anns| ==> anns[i].startWordIndex >= anns[j].startWordIndex
    ensures FilledAll(ApplyNodes(ns, anns))
    decreases |anns|
  {
    if anns != [] {
      var a := anns[0];
      var lo, hi := SliceLo(|ns|, a), SliceHi(|ns|, a);
      assert lo == a.startWordIndex < hi;
      var ns' := SpliceNodes(ns, a);
      assert Filled(ns'[lo]);
      assert FilledAll(ns') by {
        forall i | 0 <= i < |ns'| ensures Filled(ns'[i]) {
          if i < lo {
            assert ns'[i] == ns[i];
          } else if i > lo {
            assert ns'[i] == ns[i - 1 + hi - lo];
          }
        }
      }
      OrderedSplicesFill(ns', anns[1..]);
    }
  }

  /**
   * The round trip of the span pass. For annotations that start inside the
   * transcript and are not reversed (overlapping ones included), the list that
   * generate_html joins is the rendering of a span tree whose words are the
   * transcript words in order, and with the span tags removed the joined text
   * is exactly the transcript words joined by single spaces.
   */
  lemma StripRoundTrip(words: seq<Word>, anns: seq<Annotation>)
    requires forall i :: 0 <= i < |anns| ==> 0 <= anns[i].startWordIndex <= anns[i].endWordIndex
    requires forall i :: 0 <= i < |anns| ==> anns[i].startWordIndex < |words|
    ensures
      var tree := ApplyNodes(PlainNodes(Texts(words)), ProcessingOrder(anns));
      && ApplyAll(Texts(words), ProcessingOrder(anns)) == RenderAll(tree)
      && WordsAll(tree) == Texts(words)
      && Join(" ", UnmarkedAll(tree)) == Join(" ", Texts(words))
  {
    var ts := Texts(words);
    var order := ProcessingOrder(anns);
    var leaves := PlainNodes(ts);
    var tree := ApplyNodes(leaves, order);
    assert RenderAll(leaves) == ts;
    ApplyRenders(leaves, order);
    WordsOfPlain(ts);
    ApplyKeepsWords(leaves, order);
    if anns == [] {
      assert tree == leaves;
      assert UnmarkedAll(leaves) == ts;
    } else {
      OrderedSplicesFill(leaves, order);
      UnmarkedNodes(tree);
    }
  }
}
