/** The example index of the PyTorch dataset (src/aspset510/torch/__init__.py):
    one example per clip, frame and camera, and the entries an example
    holds for the requested fields. The arrays the entries hold come from
    external loaders (camera files, mocap, video frames); here such an entry
    is a token naming the entry and the example it belongs to. The bounding
    box loader is a parameter, and the crop box is computed from its result
    with the geometry module. */
module TorchDataset {
  import opened Base
  import opened Geometry
  import opened Dataset

  /** A clip with its number of mocap frames. */
  datatype ClipFrames = ClipFrames(clip: ClipId, frameCount: nat)

  /** One example: a frame of a clip seen from one camera. */
  datatype ExampleRef = ExampleRef(clip: ClipId, frameIndex: nat, cameraId: string)

  /** The keys of an example dictionary, one constructor per key string. */
  datatype Key =
    | IndexKey | SubjectIdKey | ClipIdKey | FrameIndexKey | CameraIdKey
    | IntrinsicMatrixKey | ExtrinsicMatrixKey | Joints3dKey | SkeletonNameKey | Joints2dKey
    | BoxKey | CropBoxKey | ImageKey

  /** The string each key stands for in the example dictionary. */
  function KeyName(k: Key): string
  {
    match k
    case IndexKey => "index"
    case SubjectIdKey => "subject_id"
    case ClipIdKey => "clip_id"
    case FrameIndexKey => "frame_index"
    case CameraIdKey => "camera_id"
    case IntrinsicMatrixKey => "intrinsic_matrix"
    case ExtrinsicMatrixKey => "extrinsic_matrix"
    case Joints3dKey => "joints_3d"
    case SkeletonNameKey => "skeleton_name"
    case Joints2dKey => "joints_2d"
    case BoxKey => "box"
    case CropBoxKey => "crop_box"
    case ImageKey => "image"
  }

  /** The value of an example entry. `Loaded(entry, ref)` is the array an
      external loader returns for that entry of that example. */
  datatype Value = Int(i: int) | Str(s: string) | Box(roi: Roi) | Loaded(entry: Key, ref: ExampleRef)

  type Example = map<Key, Value>

  /** A requested field: the five names the dataset fills entries for, and
      any other name, which it ignores. */
  datatype Field = CamerasField | Joints3dField | Joints2dField | BoxesField | VideosField | OtherField

  /** The fields a dataset derives when none are named: all five. */
  const AllFieldNames: seq<string> := ["cameras", "boxes", "joints_3d", "joints_2d", "videos"]

  /** The field a requested name stands for. */
  function ParseField(name: string): (f: Field)
    ensures f == CamerasField <==> name == "cameras"
    ensures f == Joints3dField <==> name == "joints_3d"
    ensures f == Joints2dField <==> name == "joints_2d"
    ensures f == BoxesField <==> name == "boxes"
    ensures f == VideosField <==> name == "videos"
  {
    if name == "cameras" then CamerasField
    else if name == "joints_3d" then Joints3dField
    else if name == "joints_2d" then Joints2dField
    else if name == "boxes" then BoxesField
    else if name == "videos" then VideosField
    else OtherField
  }

  datatype IndexError = IndexOutOfRange(index: int)

  // ---------------------------------------------------------------------
  // Example enumeration.
  // ---------------------------------------------------------------------

  /** The total number of frames of the clips. */
  function TotalFrames(clips: seq<ClipFrames>): nat
  {
    if clips == [] then 0 else TotalFrames(clips[..|clips| - 1]) + clips[|clips| - 1].frameCount
  }

  /** The examples of one clip: frame-major, cameras in the dataset's order
      within each frame. */
  function ClipRefs(c: ClipFrames): (r: seq<ExampleRef>)
    ensures |r| == 3 * c.frameCount
  {
    seq(3 * c.frameCount, n requires 0 <= n < 3 * c.frameCount => ExampleRef(c.clip, n / 3, CameraIds[n % 3]))
  }

  /** The examples of all clips, clip by clip. */
  function RefsOf(clips: seq<ClipFrames>): (r: seq<ExampleRef>)
    ensures |r| == 3 * TotalFrames(clips)
  {
    if clips == [] then [] else RefsOf(clips[..|clips| - 1]) + ClipRefs(clips[|clips| - 1])
  }

  /** Example 3f + k of a clip is frame f seen from camera k. */
  lemma ClipRefsAt(c: ClipFrames, f: nat, k: nat)
    requires f < c.frameCount && k < 3
    ensures 3 * f + k < |ClipRefs(c)|
    ensures ClipRefs(c)[3 * f + k] == ExampleRef(c.clip, f, CameraIds[k])
  {
    var n := 3 * f + k;
    assert n / 3 == f && n % 3 == k;
  }

  /** Enumerating one more camera of a frame appends its example. */
  lemma ClipRefsStep(c: ClipFrames, f: nat, k: nat)
    requires f < c.frameCount && k < 3
    ensures ClipRefs(c)[..3 * f + k + 1] == ClipRefs(c)[..3 * f + k] + [ExampleRef(c.clip, f, CameraIds[k])]
  {
    ClipRefsAt(c, f, k);
  }

  /** Enumerating one more clip appends its examples. */
  lemma RefsOfStep(clips: seq<ClipFrames>, i: nat)
    requires i < |clips|
    ensures RefsOf(clips[..i + 1]) == RefsOf(clips[..i]) + ClipRefs(clips[i])
  {
    assert clips[..i + 1][..i] == clips[..i];
  }

  /** The examples of a clip follow those of the clips before it. */
  lemma {:induction false} RefsOfPrefix(clips: seq<ClipFrames>, i: nat)
    requires i <= |clips|
    ensures |RefsOf(clips[..i])| <= |RefsOf(clips)|
    ensures RefsOf(clips)[..|RefsOf(clips[..i])|] == RefsOf(clips[..i])
  {
    if i < |clips| {
      assert clips[..|clips| - 1][..i] == clips[..i];
      RefsOfPrefix(clips[..|clips| - 1], i);
    } else {
      assert clips[..i] == clips;
    }
  }

  /** The first example is the first frame of the first clip with frames,
      seen from the left camera. */
  lemma FirstRef(clips: seq<ClipFrames>)
    requires |clips| > 0 && clips[0].frameCount > 0
    ensures |RefsOf(clips)| > 0
    ensures RefsOf(clips)[0] == ExampleRef(clips[0].clip, 0, "left")
  {
    RefsOfPrefix(clips, 1);
    assert clips[..1][..0] == [];
    assert RefsOf(clips[..1]) == ClipRefs(clips[0]);
    ClipRefsAt(clips[0], 0, 0);
  }

  // ---------------------------------------------------------------------
  // Example entries.
  // ---------------------------------------------------------------------

  const BaseKeys: set<Key> := {IndexKey, SubjectIdKey, ClipIdKey, FrameIndexKey, CameraIdKey}
  const CameraKeys: set<Key> := {IntrinsicMatrixKey, ExtrinsicMatrixKey}
  const Joints3dKeys: set<Key> := {Joints3dKey, SkeletonNameKey}
  const BoxKeys: set<Key> := {BoxKey, CropBoxKey}
  /** Every key a fill step may add. */
  const FillKeys: set<Key> := CameraKeys + Joints3dKeys + {Joints2dKey} + BoxKeys + {ImageKey}

  /** No fill step adds a base key. */
  lemma BaseKeysNotFilled()
    ensures BaseKeys !! FillKeys
  {
  }

  /** The entries every example has: the index as requested and the parts
      of its reference. */
  function BaseExample(index: int, ref: ExampleRef): (r: Example)
    ensures r.Keys == BaseKeys
  {
    map[IndexKey := Int(index), SubjectIdKey := Str(ref.clip.subjectId), ClipIdKey := Str(ref.clip.clipId),
        FrameIndexKey := Int(ref.frameIndex), CameraIdKey := Str(ref.cameraId)]
  }

  /** The crop box of a bounding box: zoomed out by 3/2 about its centre,
      then squared. */
  function CropBox(box: Roi): (r: Roi)
    ensures r.Width() == r.Height()
    ensures r.CentreX() == box.CentreX() && r.CentreY() == box.CentreY()
    ensures box.x1 <= box.x2 && box.y1 <= box.y2 ==> r.Encloses(box)
  {
    var zoomed := ZoomRoi(box, 2.0 / 3.0);
    ZoomKeepsCentre(box, 2.0 / 3.0);
    assert box.x1 <= box.x2 && box.y1 <= box.y2 ==> zoomed.Encloses(box) by {
      if box.x1 <= box.x2 && box.y1 <= box.y2 {
        ZoomOutEncloses(box, 2.0 / 3.0);
      }
    }
    SquareContainingRectangle(zoomed)
  }

  /** The camera matrices, unless both are already there. */
  function FillCameras(ex: Example, ref: ExampleRef): (r: Example)
    ensures r.Keys == ex.Keys + CameraKeys
    ensures IntrinsicMatrixKey in ex && ExtrinsicMatrixKey in ex ==> r == ex
    ensures forall k :: k in ex && k !in CameraKeys ==> r[k] == ex[k]
  {
    if IntrinsicMatrixKey in ex && ExtrinsicMatrixKey in ex then ex
    else ex[IntrinsicMatrixKey := Loaded(IntrinsicMatrixKey, ref)][ExtrinsicMatrixKey := Loaded(ExtrinsicMatrixKey, ref)]
  }

  /** The camera-space joints and the skeleton name, unless both are already
      there; the camera matrices they are computed with are filled first. */
  function FillJoints3d(ex: Example, ref: ExampleRef): (r: Example)
    ensures Joints3dKey in ex && SkeletonNameKey in ex ==> r == ex
    ensures !(Joints3dKey in ex && SkeletonNameKey in ex) ==> r.Keys == ex.Keys + CameraKeys + Joints3dKeys
    ensures forall k :: k in ex && k !in CameraKeys + Joints3dKeys ==> r[k] == ex[k]
  {
    if Joints3dKey in ex && SkeletonNameKey in ex then ex
    else FillCameras(ex, ref)[Joints3dKey := Loaded(Joints3dKey, ref)][SkeletonNameKey := Loaded(SkeletonNameKey, ref)]
  }

  /** The image-space joints, unless already there; the camera matrices and
      the camera-space joints they are projected from are filled first. */
  function FillJoints2d(ex: Example, ref: ExampleRef): (r: Example)
    ensures Joints2dKey in ex ==> r == ex
    ensures Joints2dKey !in ex && Joints3dKey in ex && SkeletonNameKey in ex ==> r.Keys == ex.Keys + CameraKeys + {Joints2dKey}
    ensures Joints2dKey !in ex && !(Joints3dKey in ex && SkeletonNameKey in ex) ==>
      r.Keys == ex.Keys + CameraKeys + Joints3dKeys + {Joints2dKey}
    ensures forall k :: k in ex && k !in CameraKeys + Joints3dKeys + {Joints2dKey} ==> r[k] == ex[k]
  {
    if Joints2dKey in ex then ex
    else FillJoints3d(FillCameras(ex, ref), ref)[Joints2dKey := Loaded(Joints2dKey, ref)]
  }

  /** The bounding box and its crop box, unless both are already there. */
  function FillBoxes(ex: Example, box: Roi): (r: Example)
    ensures BoxKey in ex && CropBoxKey in ex ==> r == ex
    ensures !(BoxKey in ex && CropBoxKey in ex) ==>
      r.Keys == ex.Keys + BoxKeys && r[BoxKey] == Box(box) && r[CropBoxKey] == Box(CropBox(box))
    ensures forall k :: k in ex && k !in BoxKeys ==> r[k] == ex[k]
  {
    if BoxKey in ex && CropBoxKey in ex then ex
    else ex[BoxKey := Box(box)][CropBoxKey := Box(CropBox(box))]
  }

  /** The video frame, unless already there. */
  function FillVideos(ex: Example, ref: ExampleRef): (r: Example)
    ensures r.Keys == ex.Keys + {ImageKey}
    ensures ImageKey in ex ==> r == ex
    ensures forall k :: k in ex && k != ImageKey ==> r[k] == ex[k]
  {
    if ImageKey in ex then ex else ex[ImageKey := Loaded(ImageKey, ref)]
  }

  /** The fill step of one requested field; other field names add nothing. */
  function ApplyField(ex: Example, ref: ExampleRef, box: Roi, field: Field): Example
  {
    if field == CamerasField then FillCameras(ex, ref)
    else if field == Joints3dField then FillJoints3d(ex, ref)
    else if field == Joints2dField then FillJoints2d(ex, ref)
    else if field == BoxesField then FillBoxes(ex, box)
    else if field == VideosField then FillVideos(ex, ref)
    else ex
  }

  /** The fill steps of the requested fields, in the order requested. */
  function ApplyFields(ex: Example, ref: ExampleRef, box: Roi, fields: seq<Field>): Example
  {
    if fields == [] then ex
    else ApplyField(ApplyFields(ex, ref, box, fields[..|fields| - 1]), ref, box, fields[|fields| - 1])
  }

  /** The keys the requested fields add, dependencies included: the camera
      matrices for cameras and for both kinds of joints, the camera-space
      joints also for image-space joints. */
  function KeysFor(fields: seq<Field>): (r: set<Key>)
    ensures r <= FillKeys
  {
    (if CamerasField in fields || Joints3dField in fields || Joints2dField in fields then CameraKeys else {})
    + (if Joints3dField in fields || Joints2dField in fields then Joints3dKeys else {})
    + (if Joints2dField in fields then {Joints2dKey} else {})
    + (if BoxesField in fields then BoxKeys else {})
    + (if VideosField in fields then {ImageKey} else {})
  }

  /** The keys of a longer field list are those of its parts. */
  lemma KeysForAppend(fields: seq<Field>, f: Field)
    ensures KeysFor(fields + [f]) == KeysFor(fields) + KeysFor([f])
  {
    assert forall x :: x in fields + [f] <==> x in fields || x == f;
  }

  /** The image key is called for by the videos field alone, and the box
      keys by the boxes field alone. */
  lemma KeysForImageAndBoxes(fields: seq<Field>)
    ensures ImageKey in KeysFor(fields) <==> VideosField in fields
    ensures BoxKey in KeysFor(fields) <==> BoxesField in fields
    ensures CropBoxKey in KeysFor(fields) <==> BoxesField in fields
  {
  }

  /** The camera matrices are called for by the cameras field and by both
      kinds of joints. */
  lemma KeysForCameras(fields: seq<Field>)
    ensures IntrinsicMatrixKey in KeysFor(fields) <==> CamerasField in fields || Joints3dField in fields || Joints2dField in fields
    ensures ExtrinsicMatrixKey in KeysFor(fields) <==> CamerasField in fields || Joints3dField in fields || Joints2dField in fields
  {
  }

  /** The camera-space joints are called for by both kinds of joints, the
      image-space joints by their own field alone. */
  lemma KeysForJoints(fields: seq<Field>)
    ensures Joints3dKey in KeysFor(fields) <==> Joints3dField in fields || Joints2dField in fields
    ensures SkeletonNameKey in KeysFor(fields) <==> Joints3dField in fields || Joints2dField in fields
    ensures Joints2dKey in KeysFor(fields) <==> Joints2dField in fields
  {
  }

  /** The keys one field calls for. */
  lemma KeysForOne(f: Field)
    ensures KeysFor([f])
         == if f == CamerasField then CameraKeys
            else if f == Joints3dField then CameraKeys + Joints3dKeys
            else if f == Joints2dField then CameraKeys + Joints3dKeys + {Joints2dKey}
            else if f == BoxesField then BoxKeys
            else if f == VideosField then {ImageKey}
            else {}
  {
  }

  /** In a key set made of the keys of some fields and other keys that no
      fill step adds, each fill key is present exactly when a field calling
      for it is listed. */
  lemma FilledKeys(keys: set<Key>, base: set<Key>, fields: seq<Field>)
    requires base !! FillKeys
    requires keys == base + KeysFor(fields)
    ensures ImageKey in keys <==> VideosField in fields
    ensures BoxKey in keys <==> BoxesField in fields
    ensures CropBoxKey in keys <==> BoxesField in fields
    ensures IntrinsicMatrixKey in keys <==> CamerasField in fields || Joints3dField in fields || Joints2dField in fields
    ensures ExtrinsicMatrixKey in keys <==> CamerasField in fields || Joints3dField in fields || Joints2dField in fields
    ensures Joints3dKey in keys <==> Joints3dField in fields || Joints2dField in fields
    ensures SkeletonNameKey in keys <==> Joints3dField in fields || Joints2dField in fields
    ensures Joints2dKey in keys <==> Joints2dField in fields
  {
    KeysForImageAndBoxes(fields);
    KeysForCameras(fields);
    KeysForJoints(fields);
  }

  /** One fill step on an example holding the keys of some fields adds the
      keys its own field calls for. */
  lemma ApplyFieldKeys(ex: Example, ref: ExampleRef, box: Roi, f: Field, base: set<Key>, fields: seq<Field>)
    requires base !! FillKeys
    requires ex.Keys == base + KeysFor(fields)
    ensures ApplyField(ex, ref, box, f).Keys == ex.Keys + KeysFor([f])
  {
    FilledKeys(ex.Keys, base, fields);
    KeysForOne(f);
  }

  /** One fill step keeps every entry outside the fill keys. */
  lemma ApplyFieldKeeps(ex: Example, ref: ExampleRef, box: Roi, f: Field, base: set<Key>)
    requires base !! FillKeys && base <= ex.Keys
    ensures base <= ApplyField(ex, ref, box, f).Keys
    ensures forall k :: k in base ==> ApplyField(ex, ref, box, f)[k] == ex[k]
  {
  }

  /** Applying the fields to an example without any fill key adds exactly
      the keys the fields call for, dependencies included. */
  lemma {:induction false} ApplyFieldsKeys(ex: Example, ref: ExampleRef, box: Roi, fields: seq<Field>)
    requires ex.Keys !! FillKeys
    ensures ApplyFields(ex, ref, box, fields).Keys == ex.Keys + KeysFor(fields)
  {
    if fields != [] {
      var prefix := fields[..|fields| - 1];
      var f := fields[|fields| - 1];
      ApplyFieldsKeys(ex, ref, box, prefix);
      ApplyFieldKeys(ApplyFields(ex, ref, box, prefix), ref, box, f, ex.Keys, prefix);
      assert fields == prefix + [f];
      KeysForAppend(prefix, f);
    }
  }

  /** Applying the fields to an example without any fill key keeps the
      entries already there. */
  lemma {:induction false} ApplyFieldsKeeps(ex: Example, ref: ExampleRef, box: Roi, fields: seq<Field>)
    requires ex.Keys !! FillKeys
    ensures ex.Keys <= ApplyFields(ex, ref, box, fields).Keys
    ensures forall k :: k in ex ==> ApplyFields(ex, ref, box, fields)[k] == ex[k]
  {
    if fields != [] {
      var prefix := fields[..|fields| - 1];
      ApplyFieldsKeeps(ex, ref, box, prefix);
      ApplyFieldKeeps(ApplyFields(ex, ref, box, prefix), ref, box, fields[|fields| - 1], ex.Keys);
    }
  }

  /** A fill step whose keys are all present changes nothing. */
  lemma ApplyFieldComplete(ex: Example, ref: ExampleRef, box: Roi, f: Field)
    requires KeysFor([f]) <= ex.Keys
    ensures ApplyField(ex, ref, box, f) == ex
  {
    KeysForOne(f);
  }

  /** An example that already holds every key the fields call for is left
      as it is. */
  lemma {:induction false} ApplyFieldsComplete(ex: Example, ref: ExampleRef, box: Roi, fields: seq<Field>)
    requires KeysFor(fields) <= ex.Keys
    ensures ApplyFields(ex, ref, box, fields) == ex
  {
    if fields != [] {
      var prefix := fields[..|fields| - 1];
      var f := fields[|fields| - 1];
      assert fields == prefix + [f];
      KeysForAppend(prefix, f);
      ApplyFieldsComplete(ex, ref, box, prefix);
      ApplyFieldComplete(ex, ref, box, f);
    }
  }

  /** Filling the same fields a second time changes nothing: every fill
      step is skipped once its keys are present. */
  lemma ApplyFieldsIdempotent(ex: Example, ref: ExampleRef, box: Roi, fields: seq<Field>)
    requires ex.Keys !! FillKeys
    ensures ApplyFields(ApplyFields(ex, ref, box, fields), ref, box, fields) == ApplyFields(ex, ref, box, fields)
  {
    ApplyFieldsKeys(ex, ref, box, fields);
    ApplyFieldsComplete(ApplyFields(ex, ref, box, fields), ref, box, fields);
  }

  class Aspset510Dataset {
    /** The clips the examples were enumerated from. */
    ghost const clips: seq<ClipFrames>
    const refs: seq<ExampleRef>
    const fields: seq<Field>
    /** The external bounding-box loader: the box of an example's frame
        as seen by its camera. */
    const loadBox: ExampleRef -> Roi

    /** One example per clip, frame and camera: clips in the order given,
        frames in order within a clip, cameras in the dataset's order within
        a frame. */
    constructor (clips: seq<ClipFrames>, loadBox: ExampleRef -> Roi, fieldNames: seq<string> := AllFieldNames)
      ensures this.clips == clips && this.loadBox == loadBox
      ensures |fields| == |fieldNames| && forall i :: 0 <= i < |fieldNames| ==> fields[i] == ParseField(fieldNames[i])
      ensures refs == RefsOf(clips) && Valid()
    {
      var refs: seq<ExampleRef> := [];
      assert |CameraIds| == 3;
      for i := 0 to |clips|
        invariant refs == RefsOf(clips[..i])
      {
        var clip := clips[i];
        for f := 0 to clip.frameCount
          invariant refs == RefsOf(clips[..i]) + ClipRefs(clip)[..3 * f]
        {
          for k := 0 to |CameraIds|
            invariant refs == RefsOf(clips[..i]) + ClipRefs(clip)[..3 * f + k]
          {
            ClipRefsStep(clip, f, k);
            var next := ExampleRef(clip.clip, f, CameraIds[k]);
            assert (RefsOf(clips[..i]) + ClipRefs(clip)[..3 * f + k]) + [next]
                == RefsOf(clips[..i]) + (ClipRefs(clip)[..3 * f + k] + [next]);
            refs := refs + [next];
          }
        }
        assert ClipRefs(clip)[..3 * clip.frameCount] == ClipRefs(clip);
        RefsOfStep(clips, i);
      }
      assert clips[..|clips|] == clips;
      this.clips := clips;
      this.refs := refs;
      this.fields := seq(|fieldNames|, i requires 0 <= i < |fieldNames| => ParseField(fieldNames[i]));
      this.loadBox := loadBox;
    }

    ghost predicate Valid()
    {
      refs == RefsOf(clips)
    }

    /** The number of examples: three per frame of every clip. */
    function Length(): (r: nat)
      requires Valid()
      ensures r == 3 * TotalFrames(clips)
    {
      |refs|
    }

    /** The example of `refs[index]` as the fields make it. */
    ghost function ExampleAt(index: int, ref: ExampleRef): Example
    {
      ApplyFields(BaseExample(index, ref), ref, loadBox(ref), fields)
    }

    /** The example at a list index: a negative index counts from the end,
        and an index outside the list is an error. The base entries are set
        first, then each requested field is filled in turn. */
    method GetItem(index: int) returns (r: Result<Example, IndexError>)
      ensures r.Ok? <==> -|refs| <= index < |refs|
      ensures r.Err? ==> r.error == IndexOutOfRange(index)
      ensures r.Ok? ==> r.value == ExampleAt(index, refs[if index < 0 then |refs| + index else index])
    {
      if !(-|refs| <= index < |refs|) {
        return Err(IndexOutOfRange(index));
      }
      var ref := refs[if index < 0 then |refs| + index else index];
      var example := BaseExample(index, ref);
      var base := example;
      for i := 0 to |fields|
        invariant example == ApplyFields(base, ref, loadBox(ref), fields[..i])
      {
        assert fields[..i + 1][..i] == fields[..i];
        var field := fields[i];
        if field == CamerasField {
          example := FillCameras(example, ref);
        }
        if field == Joints3dField {
          example := FillJoints3d(example, ref);
        }
        if field == Joints2dField {
          example := FillJoints2d(example, ref);
        }
        if field == BoxesField {
          example := FillBoxes(example, loadBox(ref));
        }
        if field == VideosField {
          example := FillVideos(example, ref);
        }
      }
      assert fields[..|fields|] == fields;
      return Ok(example);
    }

    /** The entries of an example: the base entries with the values of its
        reference, and the keys its fields call for. */
    lemma ExampleKeys(index: int, ref: ExampleRef)
      ensures var ex := ExampleAt(index, ref);
        && ex.Keys == BaseKeys + KeysFor(fields)
        && ex[IndexKey] == Int(index) && ex[SubjectIdKey] == Str(ref.clip.subjectId)
        && ex[ClipIdKey] == Str(ref.clip.clipId) && ex[FrameIndexKey] == Int(ref.frameIndex)
        && ex[CameraIdKey] == Str(ref.cameraId)
    {
      ApplyFieldsKeys(BaseExample(index, ref), ref, loadBox(ref), fields);
      ApplyFieldsKeeps(BaseExample(index, ref), ref, loadBox(ref), fields);
    }

    /** The filled entries of an example: the image exactly when videos are
        requested, the boxes exactly when boxes are, the camera matrices
        exactly when cameras or either kind of joints are, and the
        camera-space joints exactly when either kind of joints is. */
    lemma ExampleFilledKeys(index: int, ref: ExampleRef)
      ensures var ex := ExampleAt(index, ref);
        && (ImageKey in ex <==> VideosField in fields)
        && (BoxKey in ex <==> BoxesField in fields)
        && (CropBoxKey in ex <==> BoxesField in fields)
        && (IntrinsicMatrixKey in ex <==> CamerasField in fields || Joints3dField in fields || Joints2dField in fields)
        && (ExtrinsicMatrixKey in ex <==> CamerasField in fields || Joints3dField in fields || Joints2dField in fields)
        && (Joints3dKey in ex <==> Joints3dField in fields || Joints2dField in fields)
        && (SkeletonNameKey in ex <==> Joints3dField in fields || Joints2dField in fields)
        && (Joints2dKey in ex <==> Joints2dField in fields)
    {
      ExampleKeys(index, ref);
      BaseKeysNotFilled();
      FilledKeys(ExampleAt(index, ref).Keys, BaseKeys, fields);
    }

    /** With the default fields every example holds every key: the base
        entries and all the filled ones. */
    lemma DefaultFieldsFillAll(index: int, ref: ExampleRef)
      requires |fields| == |AllFieldNames|
      requires forall i :: 0 <= i < |AllFieldNames| ==> fields[i] == ParseField(AllFieldNames[i])
      ensures ExampleAt(index, ref).Keys == BaseKeys + FillKeys
    {
      assert fields[0] == CamerasField && fields[1] == BoxesField && fields[2] == Joints3dField
        && fields[3] == Joints2dField && fields[4] == VideosField;
      ExampleKeys(index, ref);
      ExampleFilledKeys(index, ref);
      var ex := ExampleAt(index, ref);
      assert FillKeys <= ex.Keys;
    }
  }
}
