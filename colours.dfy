// The colour-assignment loop of generate_html (src/generate_html.py:56-58): the
// entity at rank i gets palette[i % len(palette)], reusing the palette cyclically.

module Colours {

  /** The palette entry for rank `rank`. */
  function ColourAt(palette: seq<string>, rank: nat): (c: string)
    requires palette != []
    ensures c in palette
  {
    palette[rank % |palette|]
  }

  /** While there are no more ranks than palette entries, distinct entries give distinct colours. */
  lemma ColoursDistinctWithinPalette(palette: seq<string>, r1: nat, r2: nat)
    requires forall i, j :: 0 <= i < j < |palette| ==> palette[i] != palette[j]
    requires r1 < r2 < |palette|
    ensures ColourAt(palette, r1) != ColourAt(palette, r2)
  {
  }

  /**
   * Lines 56-58: the ranked ids are coloured in rank order, cycling through the
   * palette. Every ranked id gets a colour, and an id gets the colour
   * of its last rank (only one rank when the ranking has no repeats). An empty
   * palette is only harmless while there is nothing to colour.
   */
  method AssignColours(ranking: seq<string>, palette: seq<string>) returns (colours: map<string, string>)
    requires palette != [] || ranking == []
    ensures colours.Keys == set i | 0 <= i < |ranking| :: ranking[i]
    ensures forall i :: 0 <= i < |ranking| && ranking[i] !in ranking[i + 1..] ==>
      colours[ranking[i]] == ColourAt(palette, i)
    ensures (forall i, j :: 0 <= i < j < |ranking| ==> ranking[i] != ranking[j]) ==>
      forall i :: 0 <= i < |ranking| ==> colours[ranking[i]] == ColourAt(palette, i)
  {
    colours := map[];
    for i := 0 to |ranking|
      invariant colours.Keys == set j | 0 <= j < i :: ranking[j]
      invariant forall j :: 0 <= j < i && ranking[j] !in ranking[j + 1..i] ==>
        colours[ranking[j]] == ColourAt(palette, j)
    {
      forall j | 0 <= j < i && ranking[j] !in ranking[j + 1..i + 1]
        ensures ranking[j] != ranking[i] && ranking[j] !in ranking[j + 1..i]
      {
        assert ranking[j + 1..i + 1] == ranking[j + 1..i] + [ranking[i]];
      }
      colours := colours[ranking[i] := ColourAt(palette, i)];
    }
  }
}
