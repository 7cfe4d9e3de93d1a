# Annotation graph aggregation

A Dafny model of the data pipeline behind the annotation graph of the video
annotator (`AnnotatorGraph.tsx`). The graph shows one area series per tag.

For each frame key, the annotator's detections are filtered by the selected
confidence and counted per tag name. Every tag of the tag universe gets one
count per frame key, zero when the frame has none of it. The series are then
sorted by their total count, highest first, and ties keep the tag universe's
order.

From the sorted series the chart derives three things:
- the tooltip-enabled series: the indexes of the series with some non-zero count;
- the tooltip width: `ceil(n / 3) * 124` pixels;
- the x-axis categories: the frame keys, in iteration order.

Modules:

- `AnnotationTypes` (`types.dfy`): detections (`Frame`), frame groups keyed by
  frame number, annotator data, series, and the failure and result types.
- `FrameCounts` (`frame_counts.dfy`): the per-frame `filter` and the `reduce`
  into `countMap`, proved equal to a reference count `CountAt`.
- `SeriesSort` (`series_sort.dfy`): totals and the stable sort. The sort works
  in place on an array, as `Array.prototype.sort` does, and is stated through
  tie groups: for every total, the series with that total keep their order.
- `SeriesData` (`series_data.dfy`): `getSortedSeriesData` as imperative loops
  over a map from tag name to counts, then the sort.
- `SeriesProperties` (`series_properties.dfy`): what the sorted series promise.
- `Chart` (`chart.dfy`): `getTooltipEnabledSeriesIndexes`, the tooltip width
  and the categories.
- `Scenarios` (`scenarios.dfy`): worked inputs with two tags, `cat` and `dog`,
  over two frame keys.

The tag universe and the frame groups are sequences in the order
`Object.keys` enumerates them. Tag names are distinct, because they are the
keys of an object. The confidence threshold is a `real`.

A detection whose tag is not in the tag universe is not dropped.
`countMap.forEach((v, k) => seriesData[k].push(v))` (line 68) calls `push` on
`undefined` for such a tag and throws. So `GetSortedSeriesData` returns
`Err(UnknownTag(key))`. `key` is the first frame key, in iteration order, that
keeps such a detection after filtering. A detection of an unknown tag that is
filtered out does no harm.

## Model

| member | source | states |
|---|---|---|
| FrameCounts.Passing | src/app/src/components/annotations/AnnotatorGraph.tsx:55-57 | the kept detections are exactly those of the frame whose confidence is at least the threshold, each kept as often as it occurs, and there are no more of them than detections |
| FrameCounts.Tally | src/app/src/components/annotations/AnnotatorGraph.tsx:58-62 | the count map has a key exactly for the tag names that occur, and each count is at least 1 |
| FrameCounts.Lookup | src/app/src/components/annotations/AnnotatorGraph.tsx:60 | `accum.get(name) \|\| 0`: a tag's count in the map, and 0 for a tag the map lacks |
| FrameCounts.TallyIsOccurrences | src/app/src/components/annotations/AnnotatorGraph.tsx:58-62 | `countMap.get(name) \|\| 0` is the number of detections carrying `name` |
| FrameCounts.PassingOccurrences | src/app/src/components/annotations/AnnotatorGraph.tsx:55-57 | counting a tag among the filtered detections gives the reference count `CountAt` |
| FrameCounts.FrameCountMap | src/app/src/components/annotations/AnnotatorGraph.tsx:55-62 | `countMap` has a tag exactly when that tag passes the threshold at least once, and maps it to the number of its passing detections |
| FrameCounts.CountAtMonotone | src/app/src/components/annotations/AnnotatorGraph.tsx:57 | raising the threshold never increases a tag's count at a frame |
| FrameCounts.PassingMonotone | src/app/src/components/annotations/AnnotatorGraph.tsx:57 | every detection kept at a higher threshold is kept at a lower one |
| FrameCounts.TagSumIsPassing | src/app/src/components/annotations/AnnotatorGraph.tsx:57-68 | when every passing detection carries one of a list of distinct names, the names' counts add up to the number of passing detections |
| SeriesData.InitSeriesData | src/app/src/components/annotations/AnnotatorGraph.tsx:51-53 | `seriesData` has exactly the tags as keys, each with an empty count list |
| SeriesData.PushZeros | src/app/src/components/annotations/AnnotatorGraph.tsx:63-67 | every tag missing from `countMap` gets a 0 appended; the others are unchanged; the keys stay the tags |
| SeriesData.PushCounts | src/app/src/components/annotations/AnnotatorGraph.tsx:68 | fails exactly when a counted tag has no series; otherwise every counted tag gets its count appended, the other series are unchanged, and the keys are kept |
| SeriesData.AppendFrame | src/app/src/components/annotations/AnnotatorGraph.tsx:54-69 | one frame key: fails, naming that key, exactly when a detection of an unknown tag passes the threshold; otherwise every tag gets exactly one more count, its `CountAt` at that frame |
| SeriesData.GetSortedSeriesData | src/app/src/components/annotations/AnnotatorGraph.tsx:43-79 | fails exactly when some frame keeps an unknown tag, naming the first such frame key; otherwise the result is sorted by total, a permutation of the per-tag series in tag order, and keeps that order within each tie group |
| SeriesSort.Sum | src/app/src/components/annotations/AnnotatorGraph.tsx:75-76 | the `reduce` sum of a series' counts is at least each of its counts |
| SeriesSort.Total | src/app/src/components/annotations/AnnotatorGraph.tsx:75-77 | the sort key of a series, its total count, is at least each of its counts |
| SeriesSort.SumZero | src/app/src/components/annotations/AnnotatorGraph.tsx:75-76 | a series totals zero exactly when all its counts are zero |
| SeriesSort.SortByTotal | src/app/src/components/annotations/AnnotatorGraph.tsx:74-78 | after the in-place sort, totals do not increase along the array, the array is a permutation of the old one, and each tie group is the old one in the old order |
| SeriesSort.SortedTiesUnique | src/app/src/components/annotations/AnnotatorGraph.tsx:74-78 | two sequences sorted by total with the same tie groups are equal, so the stable order is unique |
| SeriesSort.TiedKeepOrder | src/app/src/components/annotations/AnnotatorGraph.tsx:74-78 | two tied series keep the relative order they had before sorting |
| SeriesProperties.SeriesPerTag | src/app/src/components/annotations/AnnotatorGraph.tsx:48-73 | one series per tag: as many series as tags, names distinct and exactly the tags, each with one count per frame key equal to that tag's `CountAt` at that frame |
| SeriesProperties.FrameTotals | src/app/src/components/annotations/AnnotatorGraph.tsx:54-69 | at every frame key the counts of all series add up to the number of the frame's detections that pass the threshold |
| SeriesProperties.ThresholdMonotone | src/app/src/components/annotations/AnnotatorGraph.tsx:57 | at every frame key, a tag's count at a higher threshold is at most its count at a lower one |
| SeriesProperties.FailureMonotone | src/app/src/components/annotations/AnnotatorGraph.tsx:57-68 | if the aggregation succeeds at one threshold, it succeeds at every higher one |
| SeriesProperties.TiesKeepTagOrder | src/app/src/components/annotations/AnnotatorGraph.tsx:70-78 | of two series with equal totals, the one whose tag comes first in the tag universe comes first |
| SeriesProperties.Deterministic | src/app/src/components/annotations/AnnotatorGraph.tsx:43-79 | the sorted series are determined by the tags, the frames and the threshold |
| Chart.NonZero | src/app/src/components/annotations/AnnotatorGraph.tsx:85 | the kept counts are exactly the non-zero ones, each kept as often as it occurs |
| Chart.GetTooltipEnabledSeriesIndexes | src/app/src/components/annotations/AnnotatorGraph.tsx:82-91 | the indexes strictly ascend, and an index is included exactly when it is a series position whose series has a non-zero count |
| Chart.AscendingUnique | src/app/src/components/annotations/AnnotatorGraph.tsx:82-91 | two strictly ascending index lists with the same members are equal, so the tooltip indexes are determined by the series |
| Chart.EnabledArePrefix | src/app/src/components/annotations/AnnotatorGraph.tsx:74-91 | in sorted series, every series before a tooltip-enabled series is tooltip-enabled too |
| Chart.EnabledIffSeen | src/app/src/components/annotations/AnnotatorGraph.tsx:57-91 | a series is tooltip-enabled exactly when its tag passes the threshold at some frame key |
| Chart.TooltipWidth | src/app/src/components/annotations/AnnotatorGraph.tsx:94-99 | the width is the least multiple of 124 that holds three items per 124 pixels: a multiple of 124, with `3 * (width / 124)` at least the item count and less than the count plus three; zero items give zero width |
| Chart.FramesAt | src/app/src/components/annotations/AnnotatorGraph.tsx:55-56 | looking up a frame key finds detections exactly when some frame group has that key, and they are the detections of such a group |
| Chart.FramesAtKey | src/app/src/components/annotations/AnnotatorGraph.tsx:55-57 | looking up the key of any frame group finds that group's detections |
| Chart.Categories | src/app/src/components/annotations/AnnotatorGraph.tsx:107-109 | one category per frame group, in iteration order, each that group's key; `CategoriesAlign` proves they line up with the series counts |
| Chart.CategoriesAlign | src/app/src/components/annotations/AnnotatorGraph.tsx:107-109 | there are as many categories as counts in every series, looking up category `i` finds the detections of the `i`-th frame key, and count `i` of every series is its tag's count among those detections |
| Chart.GetChartOptions | src/app/src/components/annotations/AnnotatorGraph.tsx:102-158 | the computed chart options: category `i` is the key of the `i`-th frame group, in iteration order, so every category is a key whose detections can be looked up, and `enabledOnSeries` is the tooltip-enabled indexes it is given |
| Chart.MountedTooltipWidth | src/app/src/components/annotations/AnnotatorGraph.tsx:128-133 | the width the `mounted` and `updated` callbacks set is `TooltipWidth` of the number of tooltip-enabled series: a multiple of 124 with room for three series per 124 pixels and no more than one spare column |
| Scenarios.KnownTagsOnly | src/app/src/components/annotations/AnnotatorGraph.tsx:68 | two frames showing only `cat` and `dog` never make the aggregation fail |
| Scenarios.HalfConfidence | src/app/src/components/annotations/AnnotatorGraph.tsx:43-91 | at threshold 0.5 the series are `cat` with `[1, 1]`, then `dog` with `[0, 0]`, and only index 0 is tooltip-enabled |
| Scenarios.HighConfidence | src/app/src/components/annotations/AnnotatorGraph.tsx:43-91 | at threshold 0.95 both series are all zeros, in tag order, and no series is tooltip-enabled |
| Scenarios.UnknownTagFails | src/app/src/components/annotations/AnnotatorGraph.tsx:68 | a `bird` that passes the threshold at frame key 1 makes the aggregation fail at frame key 1 |

## Left out

- The React component, `useMemo` and `React.memo` (lines 160-189): rendering and memoisation only.
- The chart's constant settings (lines 110-157): height, type, toolbar, animations, stroke, legend and theme are constants with nothing to prove.
- The tooltip's x-value formatter (lines 148-151): it renders the value as a floating-point `toFixed(3)` string.
- The click callback (lines 125-127): it forwards an index to the caller.
- `updateTooltipWidth`'s DOM lookup and style write (lines 95-99): only the width it computes is modelled.
- `fps` (line 14): `getSortedSeriesData` and the chart options never read it.
- JavaScript numbers: the counts and the width are unbounded integers, and confidences and the threshold are reals. NaN confidences, which no comparison lets through, are not modelled.
- `Object.keys` order: the tags and the frame groups are given as sequences already in enumeration order. The engine's rule that integer-like keys come first, ascending, is not modelled.
- `parseInt` of frame keys: frame keys are natural numbers, and the round trip from number to string to number is taken as the identity.
- Tag names that collide with `Object.prototype` properties, such as `constructor`, are not modelled: the model treats the series object as a plain dictionary.
- The error message: the source throws a `TypeError` that names no tag, while the model's failure names the frame key.
- The insertion order of the JavaScript `Map` `countMap`: it is not observable in the result, because each counted tag gets one count per frame.
- The engine's sort algorithm: the source relies on `Array.prototype.sort` being stable. The model sorts with a stable insertion sort, and `SortedTiesUnique` shows that every stable sort by total gives the same result.
- SeriesData.GetSortedSeriesData: requires distinct tags, because the tags of the source are the keys of an object.
