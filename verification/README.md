# ASPset-510 tooling, modelled in Dafny

ASPset-510 is a dataset of 510 clips of people in motion. Each clip is filmed by three cameras (`left`, `mid`, `right`) and has motion-capture ground truth. This project models the dataset's Python tooling and proves properties of that model. It covers six parts:

- **Pose evaluation** (`evaluation.dfy`):
  - the MPJPE metric (mean per-joint position error) and the PCK metric (percentage of correct keypoints) over paired pose lists;
  - the `Joints3dEvaluator` class, which accumulates actual, Procrustes-aligned and expected poses and reports six metrics;
  - the rule that picks the single prediction file for a clip and camera, with its two error messages.
- **Dataset index** (`dataset.dfy`):
  - the split table read from the rows of `splits.csv`;
  - the split and clip-list queries;
  - the paths of a clip's mocap, video and camera files.
- **Box geometry** (`geometry.dfy`): zooming a box about its centre, the bounding box of 2D points, and the square around a rectangle.
- **Universal scale** (`scale.dfy`): rescaling a pose so that its knee-to-neck height becomes 910 mm, about the origin or about the root joint.
- **Example index of the PyTorch dataset** (`torch_dataset.dfy`):
  - one example per clip, frame and camera;
  - the entries an example holds for the requested fields.
- **Download planning** (`download.dfy`):
  - the checksum table;
  - the archive list, a product of partitions and fields;
  - the download / verify / extract decisions for each archive.

Two shared modules support them:

- `base.dfy` holds `Option`, `Result`, string prefixes and a sequence filter.
- `joints.dfy` holds 3D points, poses and root-relative poses.

Coordinates are exact reals. External computations become parameters of the model:

- the Euclidean joint distance, a `Distance` function;
- the knee-to-neck height, a `Height` function;
- Procrustes alignment and the skeleton plausibility check;
- the MD5 digest;
- the bounding-box loader.

Each property that needs something of these functions states it as a precondition. For example, `Symmetric(dist)` or `ScalesLinearly(height)`.

The code that changes state step by step is modelled imperatively:

- the evaluator's lists;
- the running totals of the metrics;
- the split table built row by row;
- the example enumeration and the filling of an example;
- the checksum and archive loops;
- the per-archive loop of the download.

Each such method is proved against a function that specifies it. The properties are proved about those functions.

## Model

| member | source | states |
|---|---|---|
| Evaluation.CalculateMpjpe | src/aspset510/evaluation.py:11-25 | the running-total loop returns `MpjpeOf`: the mean over zipped pose pairs of each pose's mean joint distance, and 0 when either list is empty |
| Evaluation.CalculatePck | src/aspset510/evaluation.py:28-43 | the running-total loop returns `PckOf`: the mean over zipped pairs of the fraction of joints within the threshold, and 0 when either list is empty |
| Evaluation.CountWithin | src/aspset510/evaluation.py:34-35 | the number of correct joints of a pose is at most its joint count |
| Evaluation.TotalsOfPrefix | src/aspset510/evaluation.py:15-20 | the running totals over the first n pairs depend only on those pairs |
| Evaluation.ExtraPosesIgnored | src/aspset510/evaluation.py:15 | `zip` stops at the shorter list: truncating both lists to the pair count changes neither MPJPE nor PCK |
| Evaluation.SumDistsIdentical | src/aspset510/evaluation.py:17 | a pose compared with itself has total joint error 0 |
| Evaluation.CountWithinIdentical | src/aspset510/evaluation.py:34-35 | with a non-negative threshold, every joint of a pose compared with itself is correct |
| Evaluation.TotalsIdentical | src/aspset510/evaluation.py:15-20 | over identical lists, the error total is 0 and the accuracy total is the number of pairs |
| Evaluation.IdenticalPoses | src/aspset510/evaluation.py:11-43 | identical actual and expected lists give MPJPE 0, and PCK 1 for any threshold >= 0 (0 when the lists are empty) |
| Evaluation.SumDistsSwap | src/aspset510/evaluation.py:17 | with a symmetric distance, a pose's total joint error does not depend on which pose is actual |
| Evaluation.TotalErrorSwap | src/aspset510/evaluation.py:15-19 | with a symmetric distance, the error total is the same with the lists swapped |
| Evaluation.MpjpeSymmetric | src/aspset510/evaluation.py:11-25 | with a symmetric distance, MPJPE is symmetric in actual and expected |
| Evaluation.SumDistsNonNegative | src/aspset510/evaluation.py:17 | non-negative joint distances give a non-negative total error |
| Evaluation.TotalsBounded | src/aspset510/evaluation.py:15-20 | the error total is >= 0, and the accuracy total lies between 0 and the number of pairs |
| Evaluation.MetricBounds | src/aspset510/evaluation.py:11-43 | MPJPE >= 0 and 0 <= PCK <= 1 |
| Evaluation.CountWithinAll | src/aspset510/evaluation.py:35 | all joints are counted correct iff every distance is <= the threshold (boundary included) |
| Evaluation.PoseAccuracyOne | src/aspset510/evaluation.py:35 | a pose's accuracy is 1 iff every joint's distance is <= the threshold |
| Evaluation.TwoJointExample | tests/test_evaluation.py:10-29 | with joint distances 0 and 5, the two-joint example gives MPJPE 2.5 and, at threshold 4, PCK 0.5 |
| Evaluation.Joints3dEvaluator.constructor | src/aspset510/evaluation.py:47-51 | a new evaluator has three empty lists and keeps its skeleton and external functions |
| Evaluation.Joints3dEvaluator.AddPair | src/aspset510/evaluation.py:63-65 | a single pose pair is appended to the actual and expected lists, and its alignment `procrustes(expected, actual)` to the aligned list, keeping the lists paired |
| Evaluation.Joints3dEvaluator.Add | src/aspset510/evaluation.py:53-65 | an implausible pose or a shape mismatch is rejected before any change; otherwise the poses of the array, batches flattened in order, are appended to the actual and expected lists; the aligned list gains `procrustes(expected, actual)` for each pair; the three lists keep equal length |
| Evaluation.Joints3dEvaluator.Length | src/aspset510/evaluation.py:49-51 | the three lists always have the same length |
| Evaluation.Joints3dEvaluator.ToRr | src/aspset510/evaluation.py:67-69 | each pose is mapped to itself relative to the root joint, one output per input in order |
| Evaluation.Joints3dEvaluator.StoredPosesPaired | src/aspset510/evaluation.py:63-65 | the stored lists, aligned and root-relative ones included, pair up with equal non-zero joint counts |
| Evaluation.Joints3dEvaluator.Mpjpe | src/aspset510/evaluation.py:71-73 | MPJPE of the actual against the expected poses |
| Evaluation.Joints3dEvaluator.RrMpjpe | src/aspset510/evaluation.py:75-77 | MPJPE of the root-relative actual against the root-relative expected poses |
| Evaluation.Joints3dEvaluator.PaMpjpe | src/aspset510/evaluation.py:79-81 | MPJPE of the aligned against the expected poses |
| Evaluation.Joints3dEvaluator.Pck | src/aspset510/evaluation.py:83-85 | PCK of the actual against the expected poses at the given threshold |
| Evaluation.Joints3dEvaluator.RrPck | src/aspset510/evaluation.py:87-90 | PCK of the root-relative poses |
| Evaluation.Joints3dEvaluator.PaPck | src/aspset510/evaluation.py:92-94 | PCK of the aligned against the expected poses |
| Evaluation.MetricTable | src/aspset510/evaluation.py:96-104 | six named entries in the fixed order: MPJPE, root-relative MPJPE and aligned MPJPE, then PCK for the same three pairs of lists at the default threshold 150 |
| Evaluation.Joints3dEvaluator.CollectResults | src/aspset510/evaluation.py:96-104 | exactly six named metrics in the fixed order, each equal to the MPJPE or PCK of the stored lists its name says, PCK at the default threshold 150 |
| Evaluation.Joints3dEvaluator.EmptyResults | src/aspset510/evaluation.py:96-104 | all six metrics are 0 for an evaluator that has seen no pose |
| Evaluation.Glob | src/aspset510/evaluation.py:133-135 | a file matches the glob `{prefix}*` iff it is listed and its name starts with the prefix |
| Evaluation.PatternsDisjoint | src/aspset510/evaluation.py:133-135 | no file name matches both `{s}-{c}-{cam}.*` and `{s}-{c}.*`, so the extended list never holds a file twice on account of the two globs |
| Evaluation.CandidatesCount | src/aspset510/evaluation.py:133-135 | a listed file appears among the candidates as often as in the listing when it matches the query, and not at all otherwise |
| Evaluation.FoundIsOnlyMatch | src/aspset510/evaluation.py:132-140 | the file returned is listed, matches the query, and no other listed file matches it |
| Evaluation.OnlyMatchIsFound | src/aspset510/evaluation.py:132-140 | in a listing without repeated files, the one listed file that matches the query is returned |
| Evaluation.FindPredictionUnique | src/aspset510/evaluation.py:132-140 | in a listing without repeated files, the result is `Ok(f)` if and only if `f` is the only listed file matching the query |
| Evaluation.FindPrediction | src/aspset510/evaluation.py:132-140 | no candidate gives "no prediction file found for s-c-cam"; several give "multiple prediction files found for s-c-cam"; exactly one is returned, and it is a listed file named `s-c-cam.*`, or `s-c.*` when unknown cameras are allowed |
| Evaluation.FindPredictionFound | tests/test_evaluation.py:46-47 | in the example listing, 8a59/0035/left finds `8a59-0035-left.c3d` |
| Evaluation.FindPredictionIgnoringUnknownCamera | tests/test_evaluation.py:49-50 | 1e28/0001/right without unknown cameras finds `1e28-0001-right.c3d` |
| Evaluation.FindPredictionUnknownCamera | tests/test_evaluation.py:52-53 | 1e28/0001/left with unknown cameras finds `1e28-0001.c3d` |
| Evaluation.FindPredictionNotFound | tests/test_evaluation.py:55-58 | 8a59/0035/right fails with "no prediction file found for 8a59-0035-right" |
| Evaluation.FindPredictionMultiple | tests/test_evaluation.py:60-63 | 1e28/0001/right with unknown cameras fails with "multiple prediction files found for 1e28-0001-right" |
| Joints.RootRelative | src/aspset510/scale.py:16-17 | the root joint's position is subtracted from every joint, so the root lands on the origin |
| Joints.Translate | src/aspset510/scale.py:19 | every joint moves by the same offset |
| Joints.ScalePose | src/aspset510/scale.py:11 | every joint is multiplied by the same factor |
| Geometry.Then | src/aspset510/geometry.py:25-29 | the matrix product `B . A` applies A first, then B |
| Geometry.ZoomTransform | src/aspset510/geometry.py:25-29 | the three composed steps are one scaling by 1 / zoom that keeps the centre fixed |
| Geometry.ZoomPoint | src/aspset510/geometry.py:30-31 | a corner moves to centre + (corner - centre) / zoom |
| Geometry.ZoomRoi | src/aspset510/geometry.py:20-31 | zoom 1 returns the box unchanged; otherwise each corner maps to centre + (corner - centre) / zoom |
| Geometry.ZoomAxis | src/aspset510/geometry.py:22-31 | on one axis, a zoom keeps the midpoint and divides the length by the zoom |
| Geometry.ZoomKeepsCentre | src/aspset510/geometry.py:22-31 | a zoomed box has the same centre, and its width and height are divided by the zoom |
| Geometry.Min | src/aspset510/geometry.py:47 | the minimum is at most every element and is one of them |
| Geometry.Max | src/aspset510/geometry.py:48 | the maximum is at least every element and is one of them |
| Geometry.RoiContainingPoints2d | src/aspset510/geometry.py:34-50 | a negative zoom fails; no points fail; zoom 0 fails (division by zero); otherwise a box is returned |
| Geometry.TightBoundingBox | src/aspset510/geometry.py:46-49 | with zoom 1 every point lies in the box, and each side touches a point |
| Geometry.ZoomOutAxis | src/aspset510/geometry.py:22-31 | on one axis, a zoom in (0, 1] only widens the interval |
| Geometry.ZoomOutEncloses | src/aspset510/geometry.py:20-31 | a zoom in (0, 1] encloses the original well-formed box |
| Geometry.RoiContainsPoints | src/aspset510/geometry.py:34-49 | for a zoom in (0, 1], every point lies in the returned box |
| Geometry.ZoomedBoundingBox | src/aspset510/geometry.py:46-49 | the zoomed box keeps the tight box's centre, and its sides are divided by the zoom |
| Geometry.Extremes | src/aspset510/geometry.py:47-48 | an element bounding the list from below is its minimum, and one bounding it from above its maximum |
| Geometry.BoundingBoxExample | tests/test_geometry.py:21-23 | the three test points give the box (-5, 0, 10, 20) |
| Geometry.ZoomedBoundingBoxExample | tests/test_geometry.py:25-27 | with zoom 0.5 the three test points give (-12.5, -10, 17.5, 30) |
| Geometry.SquareContainingRectangle | src/aspset510/geometry.py:53-58 | the result is a square whose side is max(width, height), with the rectangle's centre, and it encloses a well-formed rectangle |
| Scale.ToUnivScale | src/aspset510/scale.py:8-11 | every joint is multiplied by the one factor 910 / height, and the joint count and order are kept |
| Scale.ToRootRelativeUnivScale | src/aspset510/scale.py:14-20 | each joint p becomes root + k * (p - root), with k taken from the root-relative pose; the root joint does not move |
| Scale.UnivScaleHeight | tests/test_scale.py:9-12 | for a height that scales linearly, the rescaled pose has height 910 |
| Scale.RootRelativeUnivScaleHeight | tests/test_scale.py:18-21 | for a height that also ignores translation, the pose rescaled about its root has height 910 |
| Scale.UnivScaleConstantRatio | tests/test_scale.py:13-15 | for every joint and each of x, y and z, the ratio of output to input coordinate is the one constant 910 / height |
| Dataset.ParseRows | src/aspset510/__init__.py:25-26 | each three-field row unpacks to (subject, clip, split), in file order |
| Dataset.ParseRowsStep | src/aspset510/__init__.py:25-26 | reading one more well-formed row appends its triple |
| Dataset.ClipsIn | src/aspset510/__init__.py:27 | a split's clip list has at most one entry per row, and it is non-empty iff some row names the split |
| Dataset.FirstAppearance | src/aspset510/__init__.py:27-32 | the split names listed are exactly those of the rows, each once |
| Dataset.FindSplitIn | src/aspset510/__init__.py:28 | a clip has a recorded split iff some row names it |
| Dataset.SplitsStep | src/aspset510/__init__.py:27 | reading a row appends its clip to its split's list, created empty for a new split; every list still holds exactly its split's rows |
| Dataset.NamesStep | src/aspset510/__init__.py:27 | a row with a new split makes it the last key; a known split leaves the key order as it is |
| Dataset.InvStep | src/aspset510/__init__.py:28 | a row sets its clip's split, so each clip keeps the split of its last row |
| Dataset.TablesStep | src/aspset510/__init__.py:25-28 | reading a row appends its clip to its split's list, makes a new split the last key, and sets the clip's split, keeping the table invariant |
| Dataset.SplitSizes | src/aspset510/__init__.py:27 | when every row names train, val or test, the three clip lists together hold one clip per row |
| Dataset.FindSplitLastRow | src/aspset510/__init__.py:28 | a clip's split is that of the last row naming it |
| Dataset.ClipsInMembers | src/aspset510/__init__.py:27-44 | a clip is in a split's list iff some row names that clip with that split |
| Dataset.TopDir | src/aspset510/__init__.py:76 | the top directory is `test` exactly for the test split, and `trainval` otherwise |
| Dataset.Aspset510.constructor | src/aspset510/__init__.py:14-15 | a new index over the data directory, with empty tables |
| Dataset.Aspset510.AddRow | src/aspset510/__init__.py:27-28 | one row: its clip is appended to its split's list (a new split becomes the last key) and the clip's split is set, keeping the table invariant |
| Dataset.Aspset510.ReadSplits | src/aspset510/__init__.py:18-28 | the tables hold the parsed rows; a row without three fields stops reading, keeps the rows before it, and is reported |
| Dataset.Aspset510.SplitNames | src/aspset510/__init__.py:30-32 | the table's split names, each once, in order of first appearance |
| Dataset.Aspset510.FindSplit | src/aspset510/__init__.py:34-35 | a known clip gives the split of its last row; an unknown clip is a missing-key error |
| Dataset.Aspset510.SplitClips | src/aspset510/__init__.py:40-44 | a split's clips in row order; an unknown split is a missing-key error |
| Dataset.Aspset510.TrainvalClips | src/aspset510/__init__.py:46-53 | the train clips followed by the val clips, or the first missing split |
| Dataset.Aspset510.AllClips | src/aspset510/__init__.py:46-59 | train, val and test clips in that order, or the first missing split |
| Dataset.Aspset510.AllClipsCount | tests/test_aspset510.py:8-10 | with all three standard splits, the dataset lists one clip per row and includes every row's clip |
| Dataset.Aspset510.RelPath | src/aspset510/__init__.py:75-76 | data directory, then `test` for a test clip and `trainval` otherwise, then the parts; an unknown clip fails |
| Dataset.Aspset510.MocapPath | src/aspset510/__init__.py:78-80 | `<top>/joints_3d/<s>/<s>-<c>.c3d` |
| Dataset.Aspset510.VideoPath | src/aspset510/__init__.py:82-86 | a camera outside left/mid/right is rejected first; then `<top>/videos/<s>/<s>-<c>-<cam>.mkv` |
| Dataset.Aspset510.CameraPath | src/aspset510/__init__.py:88-91 | a camera outside left/mid/right is rejected first; then `<top>/cameras/<s>/<s>-<cam>.json` |
| Dataset.Aspset510.VideoPathsDistinct | src/aspset510/__init__.py:82-86 | different cameras of a clip have different video paths |
| Dataset.Aspset510.VideoPathExample | src/aspset510/__init__.py:82-86 | the left video of train clip 04ac/0026 is `trainval/videos/04ac/04ac-0026-left.mkv` |
| Dataset.Open | src/aspset510/__init__.py:14-28 | opening succeeds iff every row has three fields, and then holds exactly the parsed rows |
| TorchDataset.ClipRefs | src/aspset510/torch/__init__.py:36-38 | three examples per frame of a clip |
| TorchDataset.RefsOf | src/aspset510/torch/__init__.py:35-38 | three examples per frame over all clips |
| TorchDataset.ClipRefsAt | src/aspset510/torch/__init__.py:36-38 | example 3f + k of a clip is frame f seen from camera k (left, mid, right) |
| TorchDataset.ClipRefsStep | src/aspset510/torch/__init__.py:37-38 | enumerating one more camera appends its example |
| TorchDataset.RefsOfStep | src/aspset510/torch/__init__.py:35-38 | enumerating one more clip appends its examples |
| TorchDataset.RefsOfPrefix | src/aspset510/torch/__init__.py:35-38 | the examples of earlier clips come first |
| TorchDataset.FirstRef | tests/test_torch.py:15-20 | example 0 is frame 0 of the first clip, from the left camera |
| TorchDataset.ParseField | src/aspset510/torch/__init__.py:97-106 | a requested name selects a fill step iff it is `cameras`, `joints_3d`, `joints_2d`, `boxes` or `videos`; any other name is ignored |
| TorchDataset.BaseExample | src/aspset510/torch/__init__.py:89-95 | every example has the five base keys |
| TorchDataset.CropBox | src/aspset510/torch/__init__.py:73 | the crop box is a square with the box's centre that encloses a well-formed box |
| TorchDataset.FillCameras | src/aspset510/torch/__init__.py:45-50 | adds both camera matrices unless both are present; other entries are kept |
| TorchDataset.FillJoints3d | src/aspset510/torch/__init__.py:52-59 | unless both joint keys are present, adds the camera matrices, the joints and the skeleton name |
| TorchDataset.FillJoints2d | src/aspset510/torch/__init__.py:61-67 | unless present, adds the 2D joints, with the camera matrices and the 3D joints they depend on |
| TorchDataset.FillBoxes | src/aspset510/torch/__init__.py:69-75 | unless both are present, adds the loaded box and its crop box |
| TorchDataset.FillVideos | src/aspset510/torch/__init__.py:81-85 | adds the image unless present |
| TorchDataset.KeysFor | src/aspset510/torch/__init__.py:45-85 | the keys the fields add are among the fill keys |
| TorchDataset.KeysForAppend | src/aspset510/torch/__init__.py:96-106 | the keys of a longer field list are the union of those of its parts |
| TorchDataset.KeysForOne | src/aspset510/torch/__init__.py:45-85 | cameras adds the two matrices; joints_3d adds them and the joints with the skeleton name; joints_2d adds all of those and the 2D joints; boxes adds the box and crop box; videos adds the image; any other field adds nothing |
| TorchDataset.KeysForImageAndBoxes | src/aspset510/torch/__init__.py:69-85 | the image is called for only by videos, the two boxes only by boxes |
| TorchDataset.KeysForCameras | src/aspset510/torch/__init__.py:45-67 | the camera matrices are called for by cameras and by either kind of joints |
| TorchDataset.KeysForJoints | src/aspset510/torch/__init__.py:52-67 | the 3D joints and skeleton name are called for by either kind of joints, the 2D joints only by joints_2d |
| TorchDataset.FilledKeys | src/aspset510/torch/__init__.py:45-85 | in a key set of other keys plus the keys of some fields, each fill key is present iff a field calling for it is listed |
| TorchDataset.ApplyFieldKeys | src/aspset510/torch/__init__.py:96-106 | one fill step adds the keys its field calls for |
| TorchDataset.ApplyFieldKeeps | src/aspset510/torch/__init__.py:45-85 | one fill step keeps every entry outside the fill keys |
| TorchDataset.ApplyFieldsKeys | src/aspset510/torch/__init__.py:96-106 | filling the fields adds exactly the keys they call for, dependencies included |
| TorchDataset.ApplyFieldsKeeps | src/aspset510/torch/__init__.py:96-106 | filling the fields keeps the entries already there |
| TorchDataset.ApplyFieldComplete | src/aspset510/torch/__init__.py:45-85 | a fill step whose keys are all present changes nothing |
| TorchDataset.ApplyFieldsComplete | src/aspset510/torch/__init__.py:45-106 | an example that already holds every key the fields call for is unchanged |
| TorchDataset.ApplyFieldsIdempotent | src/aspset510/torch/__init__.py:45-85 | filling the same fields twice gives the same example as once |
| TorchDataset.Aspset510Dataset.constructor | src/aspset510/torch/__init__.py:13-40 | the nested loops enumerate clips, then frames, then cameras; the requested field names are kept in order, and they default to all five fields (`AllFieldNames`) |
| TorchDataset.Aspset510Dataset.Length | src/aspset510/torch/__init__.py:42-43 | the length is three times the total frame count |
| TorchDataset.Aspset510Dataset.GetItem | src/aspset510/torch/__init__.py:87-107 | an index in range, negative ones counting from the end, gives the base entries followed by the fill steps of the fields in order; an out-of-range index is an error |
| TorchDataset.Aspset510Dataset.ExampleKeys | src/aspset510/torch/__init__.py:87-107 | the keys are the five base keys plus those the fields call for, and the base entries carry the index and the reference's values |
| TorchDataset.Aspset510Dataset.DefaultFieldsFillAll | src/aspset510/torch/__init__.py:13-24 | a dataset built with the default fields gives every example all base keys and every filled key |
| TorchDataset.Aspset510Dataset.ExampleFilledKeys | src/aspset510/torch/__init__.py:87-107 | `image` iff videos; `box`/`crop_box` iff boxes; camera matrices iff cameras or either kind of joints; `joints_3d`/`skeleton_name` iff either kind of joints; `joints_2d` iff joints_2d |
| Base.Filter | src/aspset510/evaluation.py:133-135 | the kept elements are exactly the listed ones that pass the test |
| Base.FilterCount | src/aspset510/evaluation.py:133-135 | a kept element occurs as often as in the input, and a dropped one not at all |
| Base.FilterAppend | src/aspset510/evaluation.py:133-135 | filtering a concatenation concatenates the filtered parts, so the kept elements stay in input order |
| Base.DistinctOnce | src/aspset510/evaluation.py:133 | an element of a listing without repetitions occurs in it exactly once |
| Download.DropSpace | src/aspset510/download.py:24 | strips leading whitespace, leaving a suffix |
| Download.TakeWord | src/aspset510/download.py:24 | takes the longest whitespace-free prefix |
| Download.SplitWords | src/aspset510/download.py:24 | `str.split()` yields non-empty whitespace-free words |
| Download.ParseLine | src/aspset510/download.py:24 | a line parses iff it has exactly two words, giving (checksum, filename) |
| Download.ParseLineOf | src/aspset510/download.py:24 | the line `checksum filename` reads back as that pair |
| Download.ChecksumTable | src/aspset510/download.py:25 | a filename has an entry iff some line names it |
| Download.LastLineWins | src/aspset510/download.py:25 | a filename's checksum is the one on its last line |
| Download.Entries | src/aspset510/download.py:23-25 | one pair per line, in order |
| Download.EntriesStep | src/aspset510/download.py:23-25 | reading one more line appends its pair |
| Download.ReadChecksums | src/aspset510/download.py:21-26 | the table of all lines, or the first line without exactly two words |
| Download.WithTrailingSlash | src/aspset510/download.py:36-37 | appends `/` iff the URL does not already end with one |
| Download.PairsWith | src/aspset510/download.py:39 | one pair per field, in field order |
| Download.ProductAt | src/aspset510/download.py:39 | pair i * fields + j is partition i with field j |
| Download.ProductLength | src/aspset510/download.py:39 | the product has partitions * fields pairs |
| Download.ProductPrefix | src/aspset510/download.py:39 | the product of fewer partitions is a prefix of the product |
| Download.ProductMembers | src/aspset510/download.py:39 | every pair is a listed partition and a listed field |
| Download.ArchivesFor | src/aspset510/download.py:39-47 | a successful result has one record per pair |
| Download.ArchivesForStep | src/aspset510/download.py:39-47 | one more pair either adds its record or fails with its name, and an earlier failure stays |
| Download.ArchivesForSpec | src/aspset510/download.py:39-47 | one record per pair: name `aspset510_{v}_{p}-{f}.tar.gz`, URL base + name, the table's checksum, the partition and field; or the first name missing from the table |
| Download.CollectArchives | src/aspset510/download.py:29-48 | the loop yields the `ArchivesFor` records of the product, with the trailing slash added |
| Download.CollectArchivesFrom | src/aspset510/download.py:21-48 | a checksum line without two words stops the collection and is reported as the first such line; otherwise the records, or the missing archive name, are those of `ArchivesFor` over the table read from the lines |
| Download.ArchivesStayFailed | src/aspset510/download.py:44 | a missing checksum stops the collection with that name |
| Download.ArchiveAt | src/aspset510/download.py:39-47 | with a complete table, archive i * fields + j belongs to partition i and field j, and there are partitions * fields of them |
| Download.DefaultArchiveCount | src/aspset510/download.py:15-16 | the default partitions and fields give six archives |
| Download.CheckFileIntegrity | src/aspset510/download.py:113-115 | fails iff the digest differs from the checksum, naming the file |
| Download.FetchStep | src/aspset510/download.py:186-187 | downloads unless the file is present and present files are kept |
| Download.VerifyStep | src/aspset510/download.py:188-189 | verifies unless checksums are skipped |
| Download.ExtractStep | src/aspset510/download.py:190-191 | extracts unless extraction is skipped or verification failed |
| Download.ProcessArchive | src/aspset510/download.py:182-191 | processing an archive only adds files |
| Download.ArchiveDecisions | src/aspset510/download.py:182-191 | skipped entirely when already extracted and skipping is on; otherwise downloaded iff not kept or missing, verified iff checksums are on, failing iff the digest differs, extracted iff extraction is on and nothing failed, steps in the order download, verify, extract |
| Download.ProcessAll | src/aspset510/download.py:177-191 | a run only adds files |
| Download.ProcessAllFrom | src/aspset510/download.py:177-191 | the run from archive i is archive i, then the rest unless it failed |
| Download.ProcessAllStep | src/aspset510/download.py:177-191 | one loop step appends the archive's steps and stops on its error |
| Download.RunExtractsAll | src/aspset510/download.py:177-191 | a run with extraction on that succeeds leaves every archive's partition and field extracted |
| Download.RunErrorNamesArchive | src/aspset510/download.py:188-189 | a run fails only with checksums on, on an archive whose digest differs, and names it |
| Download.RunSucceedsOnMatchingDigests | src/aspset510/download.py:177-191 | when every digest matches, the run succeeds |
| Download.ProcessArchives | src/aspset510/download.py:177-191 | the loop's log, files and error are those of `ProcessAll` |
| Download.DownloadAndExtractArchives | src/aspset510/download.py:157-191 | a failed collection does nothing and reports the missing name; otherwise the collected archives are processed |

## Left out

- `Evaluation.CalculateMpjpe` and `Evaluation.CalculatePck` require each pair of poses to have the same, non-zero number of joints (`Evaluation.Paired`). The evaluator's own calls always meet this, through the shape check of `add` and the skeleton's joints. For other inputs numpy would give `nan` (the mean of an empty array) for poses without joints, and would broadcast or raise `ValueError` for pairs with different joint counts. Those results are not modelled.
- `Download.DownloadAndExtractArchives` takes the checksum table as a parameter. Reading it from the checksum file, including the `ValueError` for a line without two words, is composed in `Download.CollectArchivesFrom`.
- Reading files is not modelled: the CSV file, camera JSON files, the packaged checksum resource, mocap files and videos. The CSV reader's rows and the checksum file's lines are inputs.
- Python's `str.split()` also splits on non-ASCII Unicode whitespace. `Download.IsSpace` covers only the ASCII whitespace characters.
- The recursive directory walk (`rglob`) is a given sequence of files in walk order. `Evaluation.Glob` matches only `{prefix}*` patterns.
- Network downloads, MD5 hashing and tar extraction are external:
  - a download is a `Fetch` step that makes the archive file present;
  - the digest of a file is a parameter;
  - an extraction is an `Extract` step that makes the partition's field directory exist. The archives are assumed to unpack into that directory, which is what `extracted_files_exist` looks for.
- Also not modelled in the download: progress bars, buffer sizes, directory creation and `gobble_prefix`.
- `urljoin(base_url, filename)` is modelled as concatenation. That matches for the relative, plain archive names used here, once the base ends with `/`. URL schemes, queries and `..` segments are not modelled.
- Floating point is not modelled: the `float32` casts and the final `float` conversion are exact reals. `print_results` and its four-decimal formatting are left out.
- The Euclidean norm is a `Distance` parameter, because Dafny has no square root. The metric properties assume only what they state:
  - distance 0 between equal points;
  - non-negative distances;
  - symmetry;
  - the two distances of the test example.
- The external library functions are parameters:
  - `procrustes` and `assert_plausible_skeleton` are functions given to the evaluator;
  - `calculate_knee_neck_height` is a `Height` parameter. The universal-scale lemmas assume it scales linearly, and for the root-relative variant that it ignores translation.
- `absolute_to_root_relative` is modelled as subtracting the root joint, which is what `to_root_relative_univ_scale` does by hand.
- `Evaluation.Joints3dEvaluator.CollectResults` computes the six values with the module-level metric loops on the stored lists (`Evaluation.MetricTable`), not by calling the six metric methods; each value is the one the matching method returns.
- `Evaluation.Joints3dEvaluator.Add`: numpy's arrays become `PoseArray`, either a single pose or a batch along the leading axis. A failing assertion becomes an error result that leaves the evaluator unchanged.
- `EvaluationDataLoader` and `len(evaluator)` are used by the command-line evaluation script but are not defined in `evaluation.py`. They are not part of this model.
- `Clip.frame_count` and `Clip.load_bounding_boxes` are used by the PyTorch dataset but are not defined on the `Clip` class. Instead:
  - each clip comes with its frame count (`TorchDataset.ClipFrames`);
  - the box loader is a parameter of `TorchDataset.Aspset510Dataset`.
- The keys of an example dictionary are the enumeration `TorchDataset.Key`, and the requested field names are parsed into `TorchDataset.Field` when the dataset is built. `TorchDataset.KeyName` and `TorchDataset.ParseField` give the strings they stand for. An example is a map, so the insertion order of the Python dictionary's keys (base keys first, then keys in fill order) is not modelled.
- Camera-space and image-space joint arrays, camera matrices and video frames come from external loaders and transforms. Their values are tokens that name the entry and the example (`TorchDataset.Value.Loaded`). Only the bounding box and the crop box are computed.
- `create_aspset510_dataset` calls `aspset.clips(split)`, which `Aspset510` does not define. It is not modelled.
- Two tests do not match the code, and their expectations are not modelled:
  - `tests/test_torch.py` expects a `univ_joints_3d` entry that `__getitem__` never sets;
  - `tests/test_download.py` imports `calculate_md5_checksum`, while the module defines `compute_md5_checksum`.
- The expected counts of the real data are not modelled: 510 clips in all and 45288 validation examples. `Dataset.Aspset510.AllClipsCount` and `TorchDataset.Aspset510Dataset.Length` state the counts in terms of the rows and frames given.
- The `Clip` object is a `Dataset.ClipId` value. `Aspset510.clip`, `Clip.__repr__` and `Clip.load_camera` are not modelled.
- The Python dictionary `splits` keeps its keys in insertion order. The model keeps that order in a separate field, `splitNames`.
- `Dataset.Aspset510.TrainClips`, `ValClips` and `TestClips` carry no contract of their own. They are `SplitClips` of a fixed name, and `TrainvalClips` and `AllClips` state their results.
- The affine transforms of `geometry.py` are modelled only as uniform scalings with translations, the only kind `zoom_roi` builds. `transform_points_2d`/`3d` and the homogeneous-coordinate helpers are left out. `Geometry.RoiContainingPoints2d` takes a sequence of Cartesian 2D points. The input conversion of `roi_containing_points_2d` is not modelled: `ensure_cartesian(..., d=2)` would divide homogeneous (N, 3) points by w, and `reshape(-1, 2)` flattens arrays with leading axes.
