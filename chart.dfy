/**
 What the chart is configured with besides the series: the tooltip-enabled
 series (`getTooltipEnabledSeriesIndexes`), the tooltip width set on mount and
 update (`updateTooltipWidth`) and the x-axis categories (`getChartOptions`).
 */
module Chart {
  import opened AnnotationTypes
  import opened FrameCounts
  import opened SeriesSort
  import opened SeriesData
  import opened SeriesProperties

  /** `data.filter(data => data !== 0)`: every non-zero count, as often as it occurs. */
  function NonZero(data: seq<nat>): (kept: seq<nat>)
    ensures forall x :: x in kept <==> x in data && x != 0
    ensures forall x :: multiset(kept)[x] == if x != 0 then multiset(data)[x] else 0
  {
    if data == [] then []
    else
      assert data == [data[0]] + data[1..];
      if data[0] != 0 then [data[0]] + NonZero(data[1..])
      else NonZero(data[1..])
  }

  /** Some frame of the series has a non-zero count. */
  predicate HasNonZero(data: seq<nat>)
  {
    exists f :: 0 <= f < |data| && data[f] != 0
  }

  /** The indexes, strictly ascending, of exactly the series that have a non-zero count. */
  ghost predicate IsTooltipIndexes(series: seq<Series>, indexes: seq<nat>)
  {
    && (forall p, q :: 0 <= p < q < |indexes| ==> indexes[p] < indexes[q])
    && (forall i: nat :: i in indexes <==> i < |series| && HasNonZero(series[i].data))
  }

  /**
   The series that may show in the tooltip: every position whose series has a
   count other than zero, in ascending order; all-zero series are left out.
   */
  method GetTooltipEnabledSeriesIndexes(series: seq<Series>) returns (indexes: seq<nat>)
    ensures IsTooltipIndexes(series, indexes)
  {
    indexes := [];
    var idx := 0;
    while idx < |series|
      invariant 0 <= idx <= |series|
      invariant forall p, q :: 0 <= p < q < |indexes| ==> indexes[p] < indexes[q]
      invariant forall p :: 0 <= p < |indexes| ==> indexes[p] < idx
      invariant forall i: nat :: i in indexes <==> i < idx && HasNonZero(series[i].data)
    {
      var filteredData := NonZero(series[idx].data);
      if |filteredData| > 0 {
        assert filteredData[0] in filteredData;
        indexes := indexes + [idx];
      } else if HasNonZero(series[idx].data) {
        var f :| 0 <= f < |series[idx].data| && series[idx].data[f] != 0;
        assert series[idx].data[f] in filteredData;
      }
      idx := idx + 1;
    }
  }

  /** Two ascending index lists with the same members are the same list. */
  lemma {:induction false} AscendingUnique(xs: seq<nat>, ys: seq<nat>)
    requires forall p, q :: 0 <= p < q < |xs| ==> xs[p] < xs[q]
    requires forall p, q :: 0 <= p < q < |ys| ==> ys[p] < ys[q]
    requires forall i :: i in xs <==> i in ys
    ensures xs == ys
  {
    assert xs == [] <==> ys == [] by {
      if xs != [] { assert xs[0] in ys; }
      if ys != [] { assert ys[0] in xs; }
    }
    if xs != [] {
      assert xs[0] == ys[0] by {
        assert xs[0] in ys && ys[0] in xs;
      }
      forall i ensures i in xs[1..] <==> i in ys[1..] {
        assert i in xs[1..] <==> i in xs && i != xs[0];
        assert i in ys[1..] <==> i in ys && i != ys[0];
      }
      AscendingUnique(xs[1..], ys[1..]);
      assert xs == [xs[0]] + xs[1..] && ys == [ys[0]] + ys[1..];
    }
  }

  /**
   Because the series are sorted by total, the tooltip-enabled series come
   first: a series with a non-zero count is preceded only by such series.
   */
  lemma EnabledArePrefix(series: seq<Series>, i: int, j: int)
    requires SortedByTotal(series)
    requires 0 <= i < j < |series| && HasNonZero(series[j].data)
    ensures HasNonZero(series[i].data)
  {
    SumZero(series[j].data);
    SumZero(series[i].data);
  }

  /**
   A result series is tooltip-enabled exactly when its tag passes the
   threshold at least once at some frame key.
   */
  lemma EnabledIffSeen(tags: seq<TagName>, groups: seq<FrameGroup>, threshold: real, series: seq<Series>, j: int)
    requires Distinct(tags)
    requires IsSortedSeries(tags, groups, threshold, series)
    requires 0 <= j < |series|
    ensures HasNonZero(series[j].data)
            <==> exists f :: 0 <= f < |groups| && CountAt(groups[f].frames, threshold, series[j].name) > 0
  {
    SeriesPerTag(tags, groups, threshold, series);
    var name := series[j].name;
    if HasNonZero(series[j].data) {
      var f :| 0 <= f < |series[j].data| && series[j].data[f] != 0;
      assert CountAt(groups[f].frames, threshold, name) > 0;
    }
  }

  /**
   `Math.ceil(tooltipItems / 3) * 124`: the smallest multiple of 124 that
   gives every three items a width of 124.
   */
  function TooltipWidth(tooltipItems: nat): (width: nat)
    ensures width % 124 == 0
    ensures 3 * (width / 124) >= tooltipItems
    ensures 3 * (width / 124) < tooltipItems + 3
    ensures tooltipItems == 0 ==> width == 0
  {
    ((tooltipItems + 2) / 3) * 124
  }

  /** `Object.keys(annotatorData.frames).map(frameKey => parseInt(frameKey, 10))`. */
  function Categories(annotatorData: AnnotationData): (keys: seq<nat>)
    ensures |keys| == |annotatorData.frames|
    ensures forall i :: 0 <= i < |keys| ==> keys[i] == annotatorData.frames[i].key
  {
    seq(|annotatorData.frames|, i requires 0 <= i < |annotatorData.frames| => annotatorData.frames[i].key)
  }

  /**
   `annotatorData.frames[parseInt(frameKey, 10)]`: the detections stored under
   a frame key, found exactly when some frame group has that key.
   */
  function FramesAt(groups: seq<FrameGroup>, key: nat): (found: Option<seq<Frame>>)
    ensures found.Some? <==> exists i :: 0 <= i < |groups| && groups[i].key == key
    ensures found.Some? ==> exists i :: 0 <= i < |groups| && groups[i].key == key && groups[i].frames == found.value
  {
    if groups == [] then None
    else if groups[0].key == key then Some(groups[0].frames)
    else
      var rest := FramesAt(groups[1..], key);
      assert forall i :: 1 <= i < |groups| ==> groups[i] == groups[1..][i - 1];
      rest
  }

  lemma {:induction false} FramesAtKey(groups: seq<FrameGroup>, i: int)
    requires DistinctKeys(groups) && 0 <= i < |groups|
    ensures FramesAt(groups, groups[i].key) == Some(groups[i].frames)
  {
    if i > 0 {
      assert DistinctKeys(groups[1..]);
      FramesAtKey(groups[1..], i - 1);
    }
  }

  /**
   The x-axis lines up with the series: there are as many categories as
   counts in every series, looking up category `i` finds the detections of
   the `i`-th frame key, and position `i` of every series counts those
   detections.
   */
  lemma CategoriesAlign(tags: seq<TagName>, annotatorData: AnnotationData, threshold: real, series: seq<Series>)
    requires Distinct(tags) && DistinctKeys(annotatorData.frames)
    requires IsSortedSeries(tags, annotatorData.frames, threshold, series)
    ensures forall j :: 0 <= j < |series| ==> |series[j].data| == |Categories(annotatorData)|
    ensures forall i :: 0 <= i < |Categories(annotatorData)| ==>
              FramesAt(annotatorData.frames, Categories(annotatorData)[i]) == Some(annotatorData.frames[i].frames)
    ensures forall j, i :: 0 <= j < |series| && 0 <= i < |Categories(annotatorData)| ==>
              series[j].data[i] == CountAt(annotatorData.frames[i].frames, threshold, series[j].name)
  {
    SeriesPerTag(tags, annotatorData.frames, threshold, series);
    forall i | 0 <= i < |Categories(annotatorData)|
      ensures FramesAt(annotatorData.frames, Categories(annotatorData)[i]) == Some(annotatorData.frames[i].frames)
    {
      FramesAtKey(annotatorData.frames, i);
    }
  }

  /** The parts of the chart options that are computed rather than constant. */
  datatype ChartOptions = ChartOptions(categories: seq<nat>, enabledOnSeries: seq<nat>)

  /** `getChartOptions`, without the renderer's constant settings and callbacks. */
  function GetChartOptions(annotatorData: AnnotationData, tooltipEnabledSeriesIndexes: seq<nat>): (options: ChartOptions)
    ensures |options.categories| == |annotatorData.frames|
    ensures forall i :: 0 <= i < |options.categories| ==> options.categories[i] == annotatorData.frames[i].key
    ensures forall i :: 0 <= i < |options.categories| ==> FramesAt(annotatorData.frames, options.categories[i]).Some?
    ensures options.enabledOnSeries == tooltipEnabledSeriesIndexes
  {
    ChartOptions(Categories(annotatorData), tooltipEnabledSeriesIndexes)
  }

  /** The width the `mounted` and `updated` callbacks give the tooltip. */
  function MountedTooltipWidth(options: ChartOptions): (width: nat)
    ensures width % 124 == 0
    ensures 3 * (width / 124) >= |options.enabledOnSeries|
    ensures 3 * (width / 124) < |options.enabledOnSeries| + 3
  {
    TooltipWidth(|options.enabledOnSeries|)
  }
}
