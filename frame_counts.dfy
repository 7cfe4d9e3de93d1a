/**
 The pure per-frame step of the aggregation: keep the detections whose
 confidence reaches the selected threshold, then count them by tag name
 (AnnotatorGraph.tsx, the `filter` and the `reduce` into a `Map`).
 */
module FrameCounts {
  import opened AnnotationTypes

  /**
   `filter(data => data.confidence >= selectedConfidence)`: every detection
   that reaches the threshold is kept as often as it occurs, the others not at all.
   */
  function Passing(frames: seq<Frame>, threshold: real): (kept: seq<Frame>)
    ensures |kept| <= |frames|
    ensures forall e :: e in kept <==> e in frames && e.confidence >= threshold
    ensures forall e :: multiset(kept)[e] == if e.confidence >= threshold then multiset(frames)[e] else 0
  {
    if frames == [] then []
    else
      assert frames == [frames[0]] + frames[1..];
      if frames[0].confidence >= threshold then [frames[0]] + Passing(frames[1..], threshold)
      else Passing(frames[1..], threshold)
  }

  /**
   The `reduce` that builds `countMap`: every detection sets its tag name to
   `(accum.get(name) || 0) + 1`, from the first detection to the last.
   */
  function Tally(frames: seq<Frame>): (countMap: map<TagName, nat>)
    ensures forall name :: name in countMap <==> exists e :: e in frames && e.tag.name == name
    ensures forall name :: name in countMap ==> countMap[name] >= 1
  {
    if frames == [] then map[]
    else
      var accum := Tally(frames[..|frames| - 1]);
      var name := frames[|frames| - 1].tag.name;
      assert forall e :: e in frames <==> e in frames[..|frames| - 1] || e == frames[|frames| - 1];
      accum[name := (if name in accum then accum[name] else 0) + 1]
  }

  /** `countMap.get(name) || 0`: the count of a tag, zero for a tag the map lacks. */
  function Lookup(countMap: map<TagName, nat>, name: TagName): (count: nat)
    ensures name in countMap ==> count == countMap[name]
    ensures name !in countMap ==> count == 0
  {
    if name in countMap then countMap[name] else 0
  }

  /** How many detections carry the tag `name`. */
  function Occurrences(frames: seq<Frame>, name: TagName): nat
  {
    if frames == [] then 0
    else (if frames[0].tag.name == name then 1 else 0) + Occurrences(frames[1..], name)
  }

  /**
   The reference count: how many detections at this frame reach the threshold
   and carry the tag `name`.
   */
  function CountAt(frames: seq<Frame>, threshold: real, name: TagName): nat
  {
    if frames == [] then 0
    else
      (if frames[0].confidence >= threshold && frames[0].tag.name == name then 1 else 0)
      + CountAt(frames[1..], threshold, name)
  }

  /** The per-frame pipeline: filter by confidence, then tally by tag name. */
  function FrameCountMap(frames: seq<Frame>, threshold: real): (countMap: map<TagName, nat>)
    ensures forall name :: name in countMap <==> CountAt(frames, threshold, name) > 0
    ensures forall name :: name in countMap ==> countMap[name] == CountAt(frames, threshold, name)
  {
    var countMap := Tally(Passing(frames, threshold));
    forall name ensures Lookup(countMap, name) == CountAt(frames, threshold, name) {
      TallyIsOccurrences(Passing(frames, threshold), name);
      PassingOccurrences(frames, threshold, name);
    }
    countMap
  }

  lemma {:induction false} OccurrencesSnoc(frames: seq<Frame>, e: Frame, name: TagName)
    ensures Occurrences(frames + [e], name) == Occurrences(frames, name) + (if e.tag.name == name then 1 else 0)
  {
    if frames != [] {
      assert (frames + [e])[1..] == frames[1..] + [e];
      OccurrencesSnoc(frames[1..], e, name);
    }
  }

  /** The `reduce` counts every tag exactly: duplicates accumulate, absent tags read as 0. */
  lemma {:induction false} TallyIsOccurrences(frames: seq<Frame>, name: TagName)
    ensures Lookup(Tally(frames), name) == Occurrences(frames, name)
  {
    if frames != [] {
      var init := frames[..|frames| - 1];
      TallyIsOccurrences(init, name);
      assert frames == init + [frames[|frames| - 1]];
      OccurrencesSnoc(init, frames[|frames| - 1], name);
    }
  }

  /** Counting after filtering is counting the entries that pass the threshold. */
  lemma {:induction false} PassingOccurrences(frames: seq<Frame>, threshold: real, name: TagName)
    ensures Occurrences(Passing(frames, threshold), name) == CountAt(frames, threshold, name)
  {
    if frames != [] {
      PassingOccurrences(frames[1..], threshold, name);
    }
  }

  /** Raising the threshold never increases a per-tag count. */
  lemma {:induction false} CountAtMonotone(frames: seq<Frame>, low: real, high: real, name: TagName)
    requires low <= high
    ensures CountAt(frames, high, name) <= CountAt(frames, low, name)
  {
    if frames != [] {
      CountAtMonotone(frames[1..], low, high, name);
    }
  }

  /** Every detection that passes `high` passes `low` too. */
  lemma PassingMonotone(frames: seq<Frame>, low: real, high: real)
    requires low <= high
    ensures forall e :: e in Passing(frames, high) ==> e in Passing(frames, low)
  {
  }

  /** The counts of all the tags in `names` at one frame, added up. */
  function TagSum(names: seq<TagName>, frames: seq<Frame>, threshold: real): nat
  {
    if names == [] then 0
    else CountAt(frames, threshold, names[0]) + TagSum(names[1..], frames, threshold)
  }

  lemma {:induction false} TagSumOfNothing(names: seq<TagName>, threshold: real)
    ensures TagSum(names, [], threshold) == 0
  {
    if names != [] {
      TagSumOfNothing(names[1..], threshold);
    }
  }

  /** How many of the distinct `names` equal `name`: one when it is among them, else none. */
  lemma {:induction false} TagSumOfOne(names: seq<TagName>, e: Frame, threshold: real)
    requires Distinct(names)
    ensures TagSum(names, [e], threshold)
            == (if e.confidence >= threshold && e.tag.name in names then 1 else 0)
  {
    if names != [] {
      assert [e][1..] == [];
      assert CountAt([e], threshold, names[0])
             == if e.confidence >= threshold && e.tag.name == names[0] then 1 else 0;
      assert Distinct(names[1..]);
      TagSumOfOne(names[1..], e, threshold);
      assert names[0] == e.tag.name ==> e.tag.name !in names[1..];
      assert e.tag.name in names <==> e.tag.name == names[0] || e.tag.name in names[1..];
    }
  }

  lemma {:induction false} TagSumSplit(names: seq<TagName>, frames: seq<Frame>, threshold: real)
    requires frames != []
    ensures TagSum(names, frames, threshold)
            == TagSum(names, [frames[0]], threshold) + TagSum(names, frames[1..], threshold)
  {
    if names != [] {
      TagSumSplit(names[1..], frames, threshold);
      assert [frames[0]][1..] == [];
      assert CountAt(frames, threshold, names[0])
             == CountAt([frames[0]], threshold, names[0]) + CountAt(frames[1..], threshold, names[0]);
    }
  }

  /**
   When every detection that passes the threshold carries one of the distinct
   `names`, the counts of those names at a frame add up to the number of
   detections that pass.
   */
  lemma {:induction false} TagSumIsPassing(names: seq<TagName>, frames: seq<Frame>, threshold: real)
    requires Distinct(names)
    requires forall e :: e in Passing(frames, threshold) ==> e.tag.name in names
    ensures TagSum(names, frames, threshold) == |Passing(frames, threshold)|
  {
    if frames == [] {
      TagSumOfNothing(names, threshold);
    } else {
      TagSumSplit(names, frames, threshold);
      TagSumOfOne(names, frames[0], threshold);
      assert forall e :: e in Passing(frames[1..], threshold) ==> e in Passing(frames, threshold);
      TagSumIsPassing(names, frames[1..], threshold);
    }
  }
}
