/**
 What the result of `getSortedSeriesData` promises, proved from the
 characterisation its model establishes (`IsSortedSeries`).
 */
module SeriesProperties {
  import opened AnnotationTypes
  import opened FrameCounts
  import opened SeriesSort
  import opened SeriesData

  /** In a sequence without repeats every element occurs once. */
  lemma {:induction false} MultisetOfDistinct(u: seq<Series>, x: Series)
    requires Distinct(u)
    ensures multiset(u)[x] == if x in u then 1 else 0
  {
    if u != [] {
      assert Distinct(u[1..]);
      MultisetOfDistinct(u[1..], x);
      assert u == [u[0]] + u[1..];
      assert u[0] !in u[1..];
    }
  }

  /** An element found at two positions occurs at least twice. */
  lemma Repeated(s: seq<Series>, i: int, j: int)
    requires 0 <= i < j < |s| && s[i] == s[j]
    ensures multiset(s)[s[i]] >= 2
  {
    assert s == s[..j] + [s[j]] + s[j + 1..];
    assert s[i] in s[..j];
  }

  lemma UnsortedDistinct(tags: seq<TagName>, groups: seq<FrameGroup>, threshold: real)
    requires Distinct(tags)
    ensures Distinct(Unsorted(tags, groups, threshold))
  {
  }

  /**
   Exactly one series per tag of the tag universe, including tags that never
   occur: as many series as tags, every tag named once, and each series
   holding its tag's count at every frame key, in frame-key order.
   */
  lemma SeriesPerTag(tags: seq<TagName>, groups: seq<FrameGroup>, threshold: real, series: seq<Series>)
    requires Distinct(tags)
    requires IsSortedSeries(tags, groups, threshold, series)
    ensures |series| == |tags|
    ensures forall j :: 0 <= j < |series| ==> series[j].name in tags
    ensures forall t :: t in tags ==> exists j :: 0 <= j < |series| && series[j].name == t
    ensures forall i, j :: 0 <= i < j < |series| ==> series[i].name != series[j].name
    ensures forall j :: 0 <= j < |series| ==> |series[j].data| == |groups|
    ensures forall j, f :: 0 <= j < |series| && 0 <= f < |groups| ==>
              series[j].data[f] == CountAt(groups[f].frames, threshold, series[j].name)
  {
    var u := Unsorted(tags, groups, threshold);
    assert |series| == |multiset(series)| == |multiset(u)| == |u|;
    forall j | 0 <= j < |series|
      ensures series[j].name in tags && series[j].data == Row(groups, threshold, series[j].name)
    {
      assert series[j] in multiset(u);
      var a :| 0 <= a < |u| && u[a] == series[j];
    }
    forall t | t in tags
      ensures exists j :: 0 <= j < |series| && series[j].name == t
    {
      var a :| 0 <= a < |tags| && tags[a] == t;
      assert u[a] in multiset(series);
      var j :| 0 <= j < |series| && series[j] == u[a];
    }
    forall i, j | 0 <= i < j < |series|
      ensures series[i].name != series[j].name
    {
      if series[i].name == series[j].name {
        assert series[i] == series[j];
        Repeated(series, i, j);
        UnsortedDistinct(tags, groups, threshold);
        MultisetOfDistinct(u, series[i]);
        assert false;
      }
    }
  }

  /** The tag names of the series, in series order. */
  function Names(series: seq<Series>): (names: seq<TagName>)
    ensures |names| == |series|
    ensures forall j :: 0 <= j < |series| ==> names[j] == series[j].name
  {
    seq(|series|, j requires 0 <= j < |series| => series[j].name)
  }

  /** The counts of all series at frame position `f`, added up. */
  function FrameTotal(series: seq<Series>, f: nat): nat
  {
    if series == [] then 0
    else (if f < |series[0].data| then series[0].data[f] else 0) + FrameTotal(series[1..], f)
  }

  lemma {:induction false} FrameTotalIsTagSum(series: seq<Series>, groups: seq<FrameGroup>, threshold: real, f: nat)
    requires f < |groups|
    requires forall j :: 0 <= j < |series| ==> |series[j].data| == |groups|
    requires forall j :: 0 <= j < |series| ==>
               series[j].data[f] == CountAt(groups[f].frames, threshold, series[j].name)
    ensures FrameTotal(series, f) == TagSum(Names(series), groups[f].frames, threshold)
  {
    if series != [] {
      FrameTotalIsTagSum(series[1..], groups, threshold, f);
      assert Names(series)[1..] == Names(series[1..]);
    }
  }

  /** A frame that keeps no unknown tag has every passing detection's tag in `tags`. */
  lemma PassingKnown(tags: seq<TagName>, frames: seq<Frame>, threshold: real)
    requires !KeepsUnknownTag(tags, frames, threshold)
    ensures forall e :: e in Passing(frames, threshold) ==> e.tag.name in tags
  {
    forall e | e in Passing(frames, threshold)
      ensures e.tag.name in tags
    {
      OccurrencesOfMember(Passing(frames, threshold), e);
      PassingOccurrences(frames, threshold, e.tag.name);
      assert CountAt(frames, threshold, e.tag.name) > 0;
    }
  }

  lemma {:induction false} OccurrencesOfMember(frames: seq<Frame>, e: Frame)
    requires e in frames
    ensures Occurrences(frames, e.tag.name) > 0
  {
    if frames[0] != e {
      OccurrencesOfMember(frames[1..], e);
    }
  }

  /** When the aggregation succeeds, no frame keeps an unknown tag. */
  lemma {:induction false} NoUnknownAnywhere(tags: seq<TagName>, groups: seq<FrameGroup>, threshold: real, f: int)
    requires FirstUnknown(tags, groups, threshold).None?
    requires 0 <= f < |groups|
    ensures !KeepsUnknownTag(tags, groups[f].frames, threshold)
  {
    if f > 0 {
      NoUnknownAnywhere(tags, groups[1..], threshold, f - 1);
    }
  }

  /**
   At every frame key the counts of all series add up to the number of the
   frame's detections that pass the threshold.
   */
  lemma FrameTotals(tags: seq<TagName>, groups: seq<FrameGroup>, threshold: real, series: seq<Series>, f: nat)
    requires Distinct(tags)
    requires IsSortedSeries(tags, groups, threshold, series)
    requires FirstUnknown(tags, groups, threshold).None?
    requires f < |groups|
    ensures FrameTotal(series, f) == |Passing(groups[f].frames, threshold)|
  {
    SeriesPerTag(tags, groups, threshold, series);
    FrameTotalIsTagSum(series, groups, threshold, f);
    NoUnknownAnywhere(tags, groups, threshold, f);
    PassingKnown(tags, groups[f].frames, threshold);
    var names := Names(series);
    forall e | e in Passing(groups[f].frames, threshold)
      ensures e.tag.name in names
    {
      var j :| 0 <= j < |series| && series[j].name == e.tag.name;
      assert names[j] == e.tag.name;
    }
    TagSumIsPassing(names, groups[f].frames, threshold);
  }

  /** A threshold that lets through no more detections lets through no more unknown tags. */
  lemma {:induction false} FailureMonotone(tags: seq<TagName>, groups: seq<FrameGroup>, low: real, high: real)
    requires low <= high
    requires FirstUnknown(tags, groups, low).None?
    ensures FirstUnknown(tags, groups, high).None?
  {
    if groups != [] {
      if KeepsUnknownTag(tags, groups[0].frames, high) {
        var name :| name !in tags && CountAt(groups[0].frames, high, name) > 0;
        CountAtMonotone(groups[0].frames, low, high, name);
        assert KeepsUnknownTag(tags, groups[0].frames, low);
      }
      FailureMonotone(tags, groups[1..], low, high);
    }
  }

  /**
   Raising the threshold never increases a count: the series of a tag at the
   higher threshold is, frame by frame, at most its series at the lower one.
   */
  lemma ThresholdMonotone(tags: seq<TagName>, groups: seq<FrameGroup>, low: real, high: real,
                          atLow: seq<Series>, atHigh: seq<Series>)
    requires Distinct(tags) && low <= high
    requires IsSortedSeries(tags, groups, low, atLow)
    requires IsSortedSeries(tags, groups, high, atHigh)
    ensures forall i, j, f ::
              (0 <= i < |atLow| && 0 <= j < |atHigh| && 0 <= f < |groups| && atLow[i].name == atHigh[j].name) ==>
              f < |atHigh[j].data| && f < |atLow[i].data| && atHigh[j].data[f] <= atLow[i].data[f]
  {
    SeriesPerTag(tags, groups, low, atLow);
    SeriesPerTag(tags, groups, high, atHigh);
    forall i, j, f | 0 <= i < |atLow| && 0 <= j < |atHigh| && 0 <= f < |groups| && atLow[i].name == atHigh[j].name
      ensures atHigh[j].data[f] <= atLow[i].data[f]
    {
      CountAtMonotone(groups[f].frames, low, high, atLow[i].name);
    }
  }

  /**
   Ties keep the enumeration order of the tag universe: of two series with
   the same total, the one whose tag comes first in `tags` comes first.
   */
  lemma TiesKeepTagOrder(tags: seq<TagName>, groups: seq<FrameGroup>, threshold: real, series: seq<Series>, i: int, j: int)
    requires Distinct(tags)
    requires IsSortedSeries(tags, groups, threshold, series)
    requires 0 <= i < j < |series| && Total(series[i]) == Total(series[j])
    ensures exists a, b :: 0 <= a < b < |tags| && tags[a] == series[i].name && tags[b] == series[j].name
  {
    var u := Unsorted(tags, groups, threshold);
    UnsortedDistinct(tags, groups, threshold);
    TiedKeepOrder(series, u, i, j);
    var a, b :| 0 <= a < b < |u| && u[a] == series[i] && u[b] == series[j];
    assert tags[a] == series[i].name && tags[b] == series[j].name;
  }

  /**
   The computation is deterministic: two results for the same tags, frames
   and threshold are the same sequence.
   */
  lemma Deterministic(tags: seq<TagName>, groups: seq<FrameGroup>, threshold: real, s1: seq<Series>, s2: seq<Series>)
    requires IsSortedSeries(tags, groups, threshold, s1)
    requires IsSortedSeries(tags, groups, threshold, s2)
    ensures s1 == s2
  {
    var u := Unsorted(tags, groups, threshold);
    assert SameTies(s1, s2) by {
      forall k ensures WithTotal(s1, k) == WithTotal(s2, k) {
        assert WithTotal(s1, k) == WithTotal(u, k) == WithTotal(s2, k);
      }
    }
    SortedTiesUnique(s1, s2);
  }
}
