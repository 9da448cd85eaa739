// The computing part of generate_html (src/generate_html.py:21-58): the
// annotated transcript text, the entity ranking and the colour of every entity,
// which the HTML template then lays out.

module Page {
  import opened Results
  import opened Text
  import opened Spans
  import opened Ranking
  import opened Colours

  /** What the template receives. */
  datatype PageData = PageData(transcript: string, ranking: seq<string>, colours: map<string, string>)

  /** How generate_html can fail before any HTML is produced. */
  datatype PageError =
    | Unranked(cause: RankError)  // sort_entities divides by zero
    | EmptyPalette                // colouring an entity with an empty palette divides by zero

  /**
   * generate_html up to the template: the span pass, then sort_entities, then
   * the colour loop. It fails exactly when some catalog id has no annotations
   * or there are entities to colour and no colours.
   */
  method BuildPage(words: seq<Word>, anns: seq<Annotation>, catalog: seq<string>, palette: seq<string>)
    returns (r: Result<PageData, PageError>)
    requires AllFromFront(anns)
    ensures r.Failure? <==>
      (exists i :: 0 <= i < |catalog| && !Annotated(anns, catalog[i])) || (palette == [] && catalog != [])
    ensures r.Success? ==>
      && r.value.transcript == Join(" ", ApplyAll(Texts(words), ProcessingOrder(anns)))
      && r.value.ranking == RankEntities(anns, catalog).value
      && r.value.colours.Keys == (set i | 0 <= i < |catalog| :: catalog[i])
      && forall i :: 0 <= i < |r.value.ranking| ==> r.value.colours[r.value.ranking[i]] == ColourAt(palette, i)
  {
    var transcript := AnnotateTranscript(words, anns);
    var ranked := RankEntities(anns, catalog);
    if ranked.Failure? {
      return Failure(Unranked(ranked.error));
    }
    var ranking := ranked.value;
    if palette == [] && ranking != [] {
      assert catalog[0] in ranking;
      return Failure(EmptyPalette);
    }
    if catalog != [] {
      assert catalog[0] in ranking;
    }
    var colours := AssignColours(ranking, palette);
    SameMembers(ranking, catalog);
    return Success(PageData(transcript, ranking, colours));
  }

  lemma SameMembers(a: seq<string>, b: seq<string>)
    requires forall i :: 0 <= i < |a| ==> a[i] in b
    requires forall i :: 0 <= i < |b| ==> b[i] in a
    ensures (set i | 0 <= i < |a| :: a[i]) == (set i | 0 <= i < |b| :: b[i])
  {
    var sa := set i | 0 <= i < |a| :: a[i];
    var sb := set i | 0 <= i < |b| :: b[i];
    forall x | x in sb ensures x in sa {
      var i :| 0 <= i < |b| && b[i] == x;
      var k :| 0 <= k < |a| && a[k] == x;
    }
  }
}
