/**
 The values the annotation graph works on: detections grouped by frame key,
 the per-tag series it produces, and the failure it can end in.
 */
module AnnotationTypes {

  type TagName = string

  datatype Tag = Tag(name: TagName)

  /** One detected object instance at some frame: a confidence in [0, 1] and its tag. */
  datatype Frame = Frame(confidence: real, tag: Tag)

  /** One key of `annotatorData.frames` together with the detections stored under it. */
  datatype FrameGroup = FrameGroup(key: nat, frames: seq<Frame>)

  /**
   The annotation data. `frames` lists the keys of the source's frames object in
   the order `Object.keys` enumerates them. The `fps` field is never read and is
   not part of the model.
   */
  datatype AnnotationData = AnnotationData(frames: seq<FrameGroup>)

  /** One chart line: a tag and its per-frame count, aligned with the frame keys. */
  datatype Series = Series(name: TagName, data: seq<nat>)

  /**
   Why the aggregation fails: a frame keeps, after confidence filtering, an entry
   whose tag is not a key of the tag universe, so the source's
   `seriesData[k].push(v)` is called on `undefined` and throws.
   */
  datatype Failure = UnknownTag(frameKey: nat)

  datatype Result<T> = Ok(value: T) | Err(error: Failure)

  datatype Option<T> = None | Some(value: T)

  /** No name occurs twice: the keys of a JavaScript object are distinct. */
  predicate Distinct<T(==)>(s: seq<T>)
  {
    forall i, j :: 0 <= i < j < |s| ==> s[i] != s[j]
  }

  /** No frame key occurs twice: they are the keys of a JavaScript object. */
  predicate DistinctKeys(groups: seq<FrameGroup>)
  {
    forall i, j :: 0 <= i < j < |groups| ==> groups[i].key != groups[j].key
  }
}
