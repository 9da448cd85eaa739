# Span wrapping, entity ranking and colours of annotationViewerHTML

annotationViewerHTML turns a time-aligned transcript and a list of named-entity
annotations into one HTML page. Each annotation names an entity class (`id`) and
an inclusive word range (`startWordIndex`..`endWordIndex`). This project models
the computing part of `generate_html` in `src/generate_html.py`. The HTML
template that follows it is not modelled. The computing part has three pieces:

- **The span pass** (`Spans`). The word texts are copied into a working list.
  The annotations are sorted by start index, largest first, and the sort is
  stable. Each annotation then replaces its slice `[start : end+1]` of the list
  with one element: `<span class='entity ID'>` + the slice joined by spaces +
  `</span>`. At the end the list is joined with single spaces. Python's slice
  clipping for indices past the end is modelled exactly (`SliceLo`, `SliceHi`,
  `Replace`).
- **Entity ranking** (`Ranking`, i.e. `sort_entities`). Every catalog id gets
  the mean start index of its annotations. The distinct ids are returned in
  ascending order of that mean, with ties in catalog order. An id without
  annotations makes Python divide by zero; here that is the error
  `NoAnnotations`.
- **Colours** (`Colours`). The entity at rank `i` gets `palette[i % |palette|]`.

`Page.BuildPage` chains the three pieces as `generate_html` does. `StableSort`
models Python's `sorted` once, and both sorts use it. `SpanTree` reads the
working list as a tree of spans over words. That makes "remove the tags and the
words come back" statable, and it holds even for overlapping annotations.
`DisjointSpans` proves the promise behind the descending order: when
annotations lie inside the transcript and do not overlap, each one becomes a
span around exactly its own words, at its start index moved left by the
splices of the annotations that end before it. `Scenarios` works small inputs
through the pass. One of them shows what overlapping annotations do.

Three facts about the code shape the model:

- The code has no label sets, combined keys, span merging or speaker phrases.
- The code clips an out-of-range slice and carries on; it never rejects an
  annotation.
- The code divides by zero when a catalog id has no annotations.

## Model

| member | source | states |
|---|---|---|
| `StableSort.SortBy` | src/generate_html.py:34 | `sorted`: the result is ordered by key and is a permutation of the input; elements with equal keys keep their input order (per-key subsequences are unchanged) |
| `Spans.Texts` | src/generate_html.py:26-27 | the working list starts as exactly the word texts, in order, with the same length |
| `Spans.ProcessingOrder` | src/generate_html.py:34 | annotations are applied in non-increasing start order; it is a permutation of the input; annotations with equal starts keep their input order |
| `Spans.Replace` | src/generate_html.py:43 | slice assignment `l[lo:hi] = [x]`: prefix kept, `x` at `lo`, the suffix from `hi` follows; length drops by `hi - lo - 1` |
| `Spans.SliceHi` | src/generate_html.py:43 | Python's clipped slice `[start:end+1]` is a region inside the list, never reversed |
| `Spans.Splice` | src/generate_html.py:37-43 | a splice never changes an element below the annotation's start; in range, it turns `[start..end]` into one span element holding those elements joined by spaces, and the list shrinks by exactly `end - start` |
| `Spans.AnnotateTranscript` | src/generate_html.py:26-46 | the loop's result is the word texts with every annotation spliced in processing order, joined by single spaces |
| `SpanTree.ApplyRenders` | src/generate_html.py:37-43 | splicing the span tree and rendering it gives exactly the source's working list, for any annotations |
| `SpanTree.ApplyKeepsWords` | src/generate_html.py:37-43 | splices never lose, duplicate or reorder a transcript word |
| `SpanTree.OrderedSplicesFill` | src/generate_html.py:34-43 | applied largest start first, annotations that start inside the list and are not reversed never create an empty span |
| `SpanTree.StripRoundTrip` | src/generate_html.py:26-46 | the joined list is the rendering of a span tree whose words are the transcript words; with the tags removed it is the words joined by single spaces (overlaps included) |
| `DisjointSpans.SortKeepsSeparated` | src/generate_html.py:34 | sorting keeps pairwise non-overlapping annotations non-overlapping |
| `DisjointSpans.RestBeforeFirst` | src/generate_html.py:29-34 | in descending, non-overlapping order every later annotation ends before the current one starts |
| `DisjointSpans.SplicesStayInPrefix` | src/generate_html.py:29-34 | splices inside a prefix leave everything after it untouched, which is why no index needs adjusting |
| `DisjointSpans.ShrinkSort` | src/generate_html.py:34 | how far the splices move a position left does not depend on the order the sort puts the annotations in |
| `DisjointSpans.DescendingSplicesPlaceSpans` | src/generate_html.py:37-43 | in descending order, in-range non-overlapping annotations shorten the list by their total width, and each one's span around its own words sits at its start index minus the widths of the annotations ending before it |
| `DisjointSpans.EachAnnotationWrapsItsOwnWords` | src/generate_html.py:29-46 | for in-range, pairwise non-overlapping annotations, the joined list is shorter than the transcript by their total width, and each annotation's span of its class around exactly its own words sits at its start index minus the widths of the annotations ending before it |
| `Ranking.StartsOf` | src/generate_html.py:14 | the start indices of an id's annotations: each start index occurs exactly as often as annotations of that id start there; empty exactly when no annotation has that id |
| `Ranking.FirstOccurrences` | src/generate_html.py:12-18 | the dict's keys: every catalog id exactly once, nothing else, in the order of each id's first occurrence in the catalog |
| `Ranking.FirstOccurrencesOfDistinct` | src/generate_html.py:12-18 | a catalog without repeats gives its keys in catalog order, unchanged |
| `Ranking.Positions` | src/generate_html.py:12-15 | succeeds exactly when every catalog id has an annotation; then maps every catalog id to its exact mean start index; otherwise names an unannotated catalog id |
| `Ranking.PositionsFailAtFirstUnannotated` | src/generate_html.py:13-15 | the error is raised at the first unannotated id in catalog order |
| `Ranking.RankEntities` | src/generate_html.py:8-19 | succeeds exactly when every catalog id has an annotation; returns each distinct catalog id exactly once and nothing else; otherwise fails with the dict-loop's error |
| `Ranking.SortKeepsDistinct` | src/generate_html.py:18 | sorting the distinct dict keys never repeats an id |
| `Ranking.RankingFollowsMeans` | src/generate_html.py:15-18 | the ranking is ordered by non-decreasing mean start index (sum over count) |
| `Ranking.RankingIsStable` | src/generate_html.py:18 | ids with equal means keep the order of the dict's keys, which is their first-occurrence order in the catalog |
| `Colours.ColourAt` | src/generate_html.py:58 | the colour of a rank is a palette entry |
| `Colours.ColoursDistinctWithinPalette` | src/generate_html.py:58 | with no more ranks than palette entries, distinct entries give distinct ranks distinct colours |
| `Colours.AssignColours` | src/generate_html.py:56-58 | every ranked id is a key and nothing else; the id at rank `i` (its last rank) gets `palette[i % |palette|]`; with a repeat-free ranking every rank does |
| `Page.BuildPage` | src/generate_html.py:21-58 | fails exactly when a catalog id has no annotations or there are entities and no colours; otherwise the transcript text, the ranking and a colour for every catalog id at its rank |
| `Scenarios.OnePersonSpan` | src/generate_html.py:37-46 | `Hi Bob` with PERSON on word 1 becomes `Hi <span class='entity PERSON'>Bob</span>` |
| `Scenarios.LaterStartFirst` | src/generate_html.py:34 | of two annotations, the later-starting one is spliced first |
| `Scenarios.OverlapWidensEarlierSpan` | src/generate_html.py:29-43 | overlapping ORG 0-2 and LOC 1-3 give one ORG span that also swallows word 3, through the nested LOC span |

## Left out

- HTML, CSS and script emission through the Airium library (src/generate_html.py:61-118). It is templating over a library that is not part of this model.
- `save_static_html`, `load_json` and `write_json`. They only do file I/O.
- Loading the palette from `src/colours.json` when the module is imported. The palette is a parameter instead.
- Command-line parsing, logging setup and the `main` functions of `src/main.py` and `src/create_html.py`.
- Negative slice indices. In Python they count from the end of the list. `FromFront` excludes them, so the model covers only annotations with `startWordIndex >= 0` and `endWordIndex >= -1`.
- Ranking.RankEntities: the means are exact rationals. Python computes them in floating point, so two means that differ only past double precision could tie there.
- Missing JSON keys (`words`, `annotations`, `metadata`, `ids`). Python raises `KeyError` for them. The inputs here are typed values, so they cannot be missing.
- Word timing and speaker fields. `Word` carries them, but the code never reads them.
- Timsort. `StableSort.SortBy` is an insertion sort. A stable sort's result is unique, so the two agree.
- `sorted(..., reverse=True)` is modelled as a stable ascending sort on the negated start index. It is stable in the same way.
- The transcript is never modified. Dafny sequences are values, so there is no aliasing to model.
- Speaker-turn phrases, merging of neighbouring spans and combined multi-label keys. The code does not do any of these.
