/**
 `getSortedSeriesData` in AnnotatorGraph.tsx: one series per tag of the tag
 universe, one count per frame key, then the stable sort by total count.
 */
module SeriesData {
  import opened AnnotationTypes
  import opened FrameCounts
  import opened SeriesSort

  /** The counts of `name` at every frame key, in iteration order. */
  function Row(groups: seq<FrameGroup>, threshold: real, name: TagName): seq<nat>
  {
    seq(|groups|, i requires 0 <= i < |groups| => CountAt(groups[i].frames, threshold, name))
  }

  /** One series per tag, in the enumeration order of the tag universe, before sorting. */
  function Unsorted(tags: seq<TagName>, groups: seq<FrameGroup>, threshold: real): seq<Series>
  {
    seq(|tags|, j requires 0 <= j < |tags| => Series(tags[j], Row(groups, threshold, tags[j])))
  }

  /** Some detection of the frame passes the threshold but carries a tag outside `tags`. */
  ghost predicate KeepsUnknownTag(tags: seq<TagName>, frames: seq<Frame>, threshold: real)
  {
    exists name :: name !in tags && CountAt(frames, threshold, name) > 0
  }

  /** The key of the first frame, in iteration order, that keeps an unknown tag. */
  ghost function FirstUnknown(tags: seq<TagName>, groups: seq<FrameGroup>, threshold: real): Option<nat>
  {
    if groups == [] then None
    else if KeepsUnknownTag(tags, groups[0].frames, threshold) then Some(groups[0].key)
    else FirstUnknown(tags, groups[1..], threshold)
  }

  /**
   What `getSortedSeriesData` returns when it does not throw: sorted by total
   count, with the same tie groups as, and a permutation of, the per-tag series
   in tag order.
   */
  ghost predicate IsSortedSeries(tags: seq<TagName>, groups: seq<FrameGroup>, threshold: real, series: seq<Series>)
  {
    && SortedByTotal(series)
    && SameTies(series, Unsorted(tags, groups, threshold))
    && multiset(series) == multiset(Unsorted(tags, groups, threshold))
  }

  lemma RowExtend(groups: seq<FrameGroup>, f: int, threshold: real, name: TagName)
    requires 0 <= f < |groups|
    ensures Row(groups[..f + 1], threshold, name)
            == Row(groups[..f], threshold, name) + [CountAt(groups[f].frames, threshold, name)]
  {
  }

  /** `Object.keys(tags).forEach(tag => { seriesData[tag] = []; })`. */
  method InitSeriesData(tags: seq<TagName>) returns (seriesData: map<TagName, seq<nat>>)
    ensures forall t :: t in seriesData <==> t in tags
    ensures forall t :: t in seriesData ==> seriesData[t] == []
  {
    seriesData := map[];
    var j := 0;
    while j < |tags|
      invariant 0 <= j <= |tags|
      invariant forall t :: t in seriesData <==> t in tags[..j]
      invariant forall t :: t in seriesData ==> seriesData[t] == []
    {
      seriesData := seriesData[tags[j] := []];
      j := j + 1;
    }
    assert tags[..|tags|] == tags;
  }

  /**
   `Object.keys(tags).forEach(tag => { if (!countMap.has(tag)) seriesData[tag].push(0); })`:
   every tag the frame's count map lacks gets a zero.
   */
  method PushZeros(tags: seq<TagName>, seriesData: map<TagName, seq<nat>>, countMap: map<TagName, nat>)
    returns (next: map<TagName, seq<nat>>)
    requires Distinct(tags)
    requires forall t :: t in seriesData <==> t in tags
    ensures forall t :: t in next <==> t in tags
    ensures forall t :: t in next && t !in countMap ==> next[t] == seriesData[t] + [0]
    ensures forall t :: t in next && t in countMap ==> next[t] == seriesData[t]
  {
    next := seriesData;
    var j := 0;
    while j < |tags|
      invariant 0 <= j <= |tags|
      invariant forall t :: t in next <==> t in tags
      invariant forall t :: t in next && t !in countMap && t in tags[..j] ==> next[t] == seriesData[t] + [0]
      invariant forall t :: t in next && (t in countMap || t !in tags[..j]) ==> next[t] == seriesData[t]
    {
      assert tags[..j + 1] == tags[..j] + [tags[j]];
      assert tags[j] !in tags[..j];
      if tags[j] !in countMap {
        next := next[tags[j] := next[tags[j]] + [0]];
      }
      j := j + 1;
    }
    assert tags[..|tags|] == tags;
  }

  /**
   `countMap.forEach((v, k) => seriesData[k].push(v))`: every counted tag gets
   its count. A counted tag without a series throws, here `None`.
   */
  method PushCounts(seriesData: map<TagName, seq<nat>>, countMap: map<TagName, nat>)
    returns (next: Option<map<TagName, seq<nat>>>)
    ensures next.None? <==> exists t :: t in countMap && t !in seriesData
    ensures next.Some? ==> next.value.Keys == seriesData.Keys
    ensures next.Some? ==> forall t :: t in countMap ==> next.value[t] == seriesData[t] + [countMap[t]]
    ensures next.Some? ==> forall t :: t in seriesData && t !in countMap ==> next.value[t] == seriesData[t]
  {
    var pushed := seriesData;
    var pending := countMap.Keys;
    while pending != {}
      invariant pending <= countMap.Keys
      invariant pushed.Keys == seriesData.Keys
      invariant forall t :: t in countMap && t !in pending ==> t in seriesData
      invariant forall t :: t in countMap && t !in pending ==> pushed[t] == seriesData[t] + [countMap[t]]
      invariant forall t :: t in pushed && (t !in countMap || t in pending) ==> pushed[t] == seriesData[t]
      decreases pending
    {
      var k :| k in pending;
      if k !in pushed {
        return None;
      }
      pushed := pushed[k := pushed[k] + [countMap[k]]];
      pending := pending - {k};
    }
    return Some(pushed);
  }

  /**
   The body of the loop over frame keys: count the frame's detections that
   pass the threshold, push 0 onto every tag the count map lacks, then push
   each counted value onto its tag; a counted tag outside `tags` throws.
   */
  method AppendFrame(tags: seq<TagName>, seriesData: map<TagName, seq<nat>>, group: FrameGroup, selectedConfidence: real)
    returns (r: Result<map<TagName, seq<nat>>>)
    requires Distinct(tags)
    requires forall t :: t in seriesData <==> t in tags
    ensures r.Err? <==> KeepsUnknownTag(tags, group.frames, selectedConfidence)
    ensures r.Err? ==> r.error == UnknownTag(group.key)
    ensures r.Ok? ==> forall t :: t in r.value <==> t in tags
    ensures r.Ok? ==> forall t :: t in r.value ==>
      r.value[t] == seriesData[t] + [CountAt(group.frames, selectedConfidence, t)]
  {
    var countMap := FrameCountMap(group.frames, selectedConfidence);
    var zeroed := PushZeros(tags, seriesData, countMap);
    var counted := PushCounts(zeroed, countMap);
    if counted.None? {
      var k :| k in countMap && k !in zeroed;
      assert CountAt(group.frames, selectedConfidence, k) > 0;
      return Err(UnknownTag(group.key));
    }
    assert !KeepsUnknownTag(tags, group.frames, selectedConfidence) by {
      forall name | name !in tags
        ensures CountAt(group.frames, selectedConfidence, name) == 0
      {
        assert name !in zeroed;
      }
    }
    forall t | t in counted.value
      ensures counted.value[t] == seriesData[t] + [CountAt(group.frames, selectedConfidence, t)]
    {
      if t in countMap {
        assert zeroed[t] == seriesData[t];
      } else {
        assert counted.value[t] == zeroed[t] == seriesData[t] + [0];
      }
    }
    return Ok(counted.value);
  }

  /**
   The aggregation and the sort. The tags are the keys of the source's `tags`
   object, hence distinct. It fails exactly when some frame keeps, after
   filtering, a detection whose tag is not among them, naming the first such
   frame; otherwise every tag gets its series of per-frame counts.
   */
  method GetSortedSeriesData(tags: seq<TagName>, annotatorData: AnnotationData, selectedConfidence: real)
    returns (r: Result<seq<Series>>)
    requires Distinct(tags)
    ensures r.Err? <==> FirstUnknown(tags, annotatorData.frames, selectedConfidence).Some?
    ensures r.Err? ==> r.error == UnknownTag(FirstUnknown(tags, annotatorData.frames, selectedConfidence).value)
    ensures r.Ok? ==> IsSortedSeries(tags, annotatorData.frames, selectedConfidence, r.value)
  {
    var groups := annotatorData.frames;
    var seriesData := InitSeriesData(tags);
    var f := 0;
    while f < |groups|
      invariant 0 <= f <= |groups|
      invariant forall t :: t in seriesData <==> t in tags
      invariant forall t :: t in seriesData ==> seriesData[t] == Row(groups[..f], selectedConfidence, t)
      invariant FirstUnknown(tags, groups, selectedConfidence) == FirstUnknown(tags, groups[f..], selectedConfidence)
    {
      var step := AppendFrame(tags, seriesData, groups[f], selectedConfidence);
      if step.Err? {
        return Err(step.error);
      }
      forall t | t in seriesData
        ensures step.value[t] == Row(groups[..f + 1], selectedConfidence, t)
      {
        RowExtend(groups, f, selectedConfidence, t);
      }
      seriesData := step.value;
      assert groups[f..][1..] == groups[f + 1..];
      f := f + 1;
    }
    assert groups[..f] == groups;

    var unsortedSeries := seq(|tags|, i requires 0 <= i < |tags| => Series(tags[i], seriesData[tags[i]]));
    assert unsortedSeries == Unsorted(tags, groups, selectedConfidence);
    var sorted := new Series[|tags|](i requires 0 <= i < |tags| => unsortedSeries[i]);
    assert sorted[..] == unsortedSeries;
    SortByTotal(sorted);
    r := Ok(sorted[..]);
  }
}
