/**
 Worked inputs for the annotation graph: two tags, two frame keys, and what
 the aggregation, the sort and the tooltip selection make of them.
 */
module Scenarios {
  import opened AnnotationTypes
  import opened FrameCounts
  import opened SeriesSort
  import opened SeriesData
  import opened SeriesProperties
  import opened Chart

  const CatDog: seq<TagName> := ["cat", "dog"]

  /** Frame 0 sees a cat; frame 1 sees an uncertain dog and a cat. */
  const Frames: seq<FrameGroup> := [
    FrameGroup(0, [Frame(0.9, Tag("cat"))]),
    FrameGroup(1, [Frame(0.4, Tag("dog")), Frame(0.9, Tag("cat"))])
  ]

  /** The same, with a sure bird at frame 1: a tag outside the tag universe. */
  const FramesWithBird: seq<FrameGroup> := [
    FrameGroup(0, [Frame(0.9, Tag("cat"))]),
    FrameGroup(1, [Frame(0.9, Tag("bird"))])
  ]

  /** Nothing but `cat` or `dog` can pass at either frame of `Frames`. */
  lemma KnownTagsOnly(threshold: real)
    ensures FirstUnknown(CatDog, Frames, threshold).None?
  {
    forall name | name !in CatDog
      ensures CountAt(Frames[0].frames, threshold, name) == 0
      ensures CountAt(Frames[1].frames, threshold, name) == 0
    {
      assert name != "cat" && name != "dog";
      assert Frames[1].frames[1..][1..] == [];
    }
    assert !KeepsUnknownTag(CatDog, Frames[0].frames, threshold);
    assert !KeepsUnknownTag(CatDog, Frames[1].frames, threshold);
    assert Frames[1..][0] == Frames[1];
    assert Frames[1..][1..] == [];
    assert FirstUnknown(CatDog, Frames[1..][1..], threshold).None?;
    assert FirstUnknown(CatDog, Frames[1..], threshold).None?;
  }

  /** The per-tag series at threshold 0.5, before sorting, are already in order. */
  lemma HalfConfidenceRows()
    ensures IsSortedSeries(CatDog, Frames, 0.5, [Series("cat", [1, 1]), Series("dog", [0, 0])])
  {
    var expected := [Series("cat", [1, 1]), Series("dog", [0, 0])];
    assert Unsorted(CatDog, Frames, 0.5) == expected by {
      assert Row(Frames, 0.5, "cat") == [1, 1];
      assert Row(Frames, 0.5, "dog") == [0, 0];
    }
    assert Total(expected[0]) == 2 && Total(expected[1]) == 0;
  }

  /**
   At threshold 0.5 the uncertain dog is dropped: the cat counts one at each
   frame and comes first, the dog counts nothing, and only the cat series is
   tooltip-enabled.
   */
  lemma HalfConfidence(series: seq<Series>, indexes: seq<nat>)
    requires IsSortedSeries(CatDog, Frames, 0.5, series)
    requires IsTooltipIndexes(series, indexes)
    ensures series == [Series("cat", [1, 1]), Series("dog", [0, 0])]
    ensures indexes == [0]
  {
    HalfConfidenceRows();
    Deterministic(CatDog, Frames, 0.5, series, [Series("cat", [1, 1]), Series("dog", [0, 0])]);
    assert HasNonZero(series[0].data) by { assert series[0].data[0] != 0; }
    assert !HasNonZero(series[1].data);
    AscendingUnique(indexes, [0]);
  }

  /** The per-tag series at threshold 0.95 are all zeros and already in order. */
  lemma HighConfidenceRows()
    ensures IsSortedSeries(CatDog, Frames, 0.95, [Series("cat", [0, 0]), Series("dog", [0, 0])])
  {
    var expected := [Series("cat", [0, 0]), Series("dog", [0, 0])];
    assert Unsorted(CatDog, Frames, 0.95) == expected by {
      assert Row(Frames, 0.95, "cat") == [0, 0];
      assert Row(Frames, 0.95, "dog") == [0, 0];
    }
    assert Total(expected[0]) == 0 && Total(expected[1]) == 0;
  }

  /** At threshold 0.95 nothing passes: every count is zero and no series is tooltip-enabled. */
  lemma HighConfidence(series: seq<Series>, indexes: seq<nat>)
    requires IsSortedSeries(CatDog, Frames, 0.95, series)
    requires IsTooltipIndexes(series, indexes)
    ensures series == [Series("cat", [0, 0]), Series("dog", [0, 0])]
    ensures indexes == []
  {
    HighConfidenceRows();
    Deterministic(CatDog, Frames, 0.95, series, [Series("cat", [0, 0]), Series("dog", [0, 0])]);
    assert !HasNonZero(series[0].data) && !HasNonZero(series[1].data);
    AscendingUnique(indexes, []);
  }

  /**
   A bird that passes the threshold is not dropped: its frame has no series
   to push onto, so the aggregation fails at frame key 1.
   */
  lemma UnknownTagFails()
    ensures FirstUnknown(CatDog, FramesWithBird, 0.5) == Some(1)
  {
    assert CountAt(FramesWithBird[0].frames, 0.5, "bird") == 0;
    forall name | name !in CatDog
      ensures CountAt(FramesWithBird[0].frames, 0.5, name) == 0
    {
      assert name != "cat";
    }
    assert CountAt(FramesWithBird[1].frames, 0.5, "bird") == 1;
    assert "bird" !in CatDog;
    assert KeepsUnknownTag(CatDog, FramesWithBird[1].frames, 0.5);
    assert FramesWithBird[1..][0] == FramesWithBird[1];
  }
}
