/** The dataset index (src/aspset510/__init__.py): the split table read
    from the rows of splits.csv, the split queries over it, and the file
    paths of a clip's mocap, videos and cameras. Reading the CSV file is
    left out: the table is built from the rows the CSV reader yields, each a
    list of fields. A path is a list of path components, starting with the
    components of the data directory. */
module Dataset {
  import opened Base

  /** The three cameras of every clip, in the dataset's order. */
  const CameraIds: seq<string> := ["left", "mid", "right"]

  /** A clip is named by its subject and its clip number within the subject. */
  datatype ClipId = ClipId(subjectId: string, clipId: string)

  /** A parsed row of splits.csv: the clip and the split it belongs to. */
  datatype SplitRow = SplitRow(subjectId: string, clipId: string, split: string)
  {
    function Clip(): ClipId { ClipId(subjectId, clipId) }
  }

  /** Why a query or a path fails: a missing split key or clip key (a
      KeyError), or a camera that is not one of the three (an assertion). */
  datatype DatasetError = MissingSplit(split: string) | MissingClip(clip: ClipId) | InvalidCamera(cameraId: string)

  type Path = seq<string>

  /** Every CSV row has the three fields the row unpacking demands. */
  predicate WellFormed(csvRows: seq<seq<string>>)
  {
    forall i :: 0 <= i < |csvRows| ==> |csvRows[i]| == 3
  }

  /** The rows as (subject, clip, split) triples, in file order. */
  function ParseRows(csvRows: seq<seq<string>>): (r: seq<SplitRow>)
    requires WellFormed(csvRows)
    ensures |r| == |csvRows|
    ensures forall i :: 0 <= i < |r| ==>
      r[i].subjectId == csvRows[i][0] && r[i].clipId == csvRows[i][1] && r[i].split == csvRows[i][2]
  {
    seq(|csvRows|, i requires 0 <= i < |csvRows| => SplitRow(csvRows[i][0], csvRows[i][1], csvRows[i][2]))
  }

  /** Parsing one more well-formed row appends its triple. */
  lemma ParseRowsStep(csvRows: seq<seq<string>>, i: nat)
    requires i < |csvRows| && WellFormed(csvRows[..i]) && |csvRows[i]| == 3
    ensures WellFormed(csvRows[..i + 1])
    ensures ParseRows(csvRows[..i + 1])
         == ParseRows(csvRows[..i]) + [SplitRow(csvRows[i][0], csvRows[i][1], csvRows[i][2])]
  {
    assert csvRows[..i + 1] == csvRows[..i] + [csvRows[i]];
  }

  // ---------------------------------------------------------------------
  // What the table holds, as functions of the rows read so far.
  // ---------------------------------------------------------------------

  /** The split names that occur in the rows. */
  function SplitSet(rows: seq<SplitRow>): set<string>
  {
    set r | r in rows :: r.split
  }

  /** The clips that occur in the rows. */
  function ClipSet(rows: seq<SplitRow>): set<ClipId>
  {
    set r | r in rows :: r.Clip()
  }

  /** The clips of the rows of `split`, in row order, one per row. */
  function ClipsIn(rows: seq<SplitRow>, split: string): (r: seq<ClipId>)
    ensures |r| <= |rows|
    ensures |r| > 0 <==> split in SplitSet(rows)
  {
    if rows == [] then []
    else
      var last := rows[|rows| - 1];
      assert rows == rows[..|rows| - 1] + [last];
      ClipsIn(rows[..|rows| - 1], split) + (if last.split == split then [last.Clip()] else [])
  }

  /** The split names in order of first appearance in the rows, which is the
      key order of a dictionary filled row by row. */
  function FirstAppearance(rows: seq<SplitRow>): (r: seq<string>)
    ensures forall s :: s in r <==> s in SplitSet(rows)
    ensures forall i, j :: 0 <= i < j < |r| ==> r[i] != r[j]
  {
    if rows == [] then []
    else
      var last := rows[|rows| - 1];
      var names := FirstAppearance(rows[..|rows| - 1]);
      assert rows == rows[..|rows| - 1] + [last];
      if last.split in names then names else names + [last.split]
  }

  /** The split of the last row for clip `c`: a later row for the same
      clip overrides an earlier one. */
  function FindSplitIn(rows: seq<SplitRow>, c: ClipId): (r: Option<string>)
    ensures r.Some? <==> c in ClipSet(rows)
  {
    if rows == [] then None
    else
      var last := rows[|rows| - 1];
      assert rows == rows[..|rows| - 1] + [last];
      if last.Clip() == c then Some(last.split) else FindSplitIn(rows[..|rows| - 1], c)
  }

  /** The state of the three tables after reading `rows`: the clip lists per
      split, the split names in key order, and the split of each clip. */
  ghost predicate Tables(rows: seq<SplitRow>, splits: map<string, seq<ClipId>>, names: seq<string>,
                         inv: map<ClipId, string>)
  {
    && splits.Keys == SplitSet(rows)
    && (forall s :: s in splits ==> splits[s] == ClipsIn(rows, s))
    && names == FirstAppearance(rows)
    && inv.Keys == ClipSet(rows)
    && (forall c :: c in inv ==> FindSplitIn(rows, c) == Some(inv[c]))
  }

  /** Reading one more row appends its clip to its split's list, and starts
      a list for a new split. */
  lemma SplitsStep(rows: seq<SplitRow>, splits: map<string, seq<ClipId>>, row: SplitRow)
    requires splits.Keys == SplitSet(rows)
    requires forall s :: s in splits ==> splits[s] == ClipsIn(rows, s)
    ensures var splits' := splits[row.split := (if row.split in splits then splits[row.split] else []) + [row.Clip()]];
      && splits'.Keys == SplitSet(rows + [row])
      && forall s :: s in splits' ==> splits'[s] == ClipsIn(rows + [row], s)
  {
    var rows' := rows + [row];
    assert rows'[..|rows'| - 1] == rows;
    assert SplitSet(rows') == SplitSet(rows) + {row.split};
    if row.split !in splits {
      assert ClipsIn(rows, row.split) == [];
    }
  }

  /** Reading one more row makes its split the last key when it is new. */
  lemma NamesStep(rows: seq<SplitRow>, names: seq<string>, row: SplitRow)
    requires names == FirstAppearance(rows)
    ensures FirstAppearance(rows + [row])
         == if row.split in SplitSet(rows) then names else names + [row.split]
  {
    var rows' := rows + [row];
    assert rows'[..|rows'| - 1] == rows;
  }

  /** Reading one more row sets its clip's split to the row's split. */
  lemma InvStep(rows: seq<SplitRow>, inv: map<ClipId, string>, row: SplitRow)
    requires inv.Keys == ClipSet(rows)
    requires forall c :: c in inv ==> FindSplitIn(rows, c) == Some(inv[c])
    ensures inv[row.Clip() := row.split].Keys == ClipSet(rows + [row])
    ensures forall c :: c in inv[row.Clip() := row.split] ==>
      FindSplitIn(rows + [row], c) == Some(inv[row.Clip() := row.split][c])
  {
    var rows' := rows + [row];
    assert rows'[..|rows'| - 1] == rows;
    assert ClipSet(rows') == ClipSet(rows) + {row.Clip()};
  }

  /** Reading one more row: its clip is appended to its split's list (a new
      split becomes the last key), and the clip's split is set to it. */
  lemma TablesStep(rows: seq<SplitRow>, splits: map<string, seq<ClipId>>, names: seq<string>,
                   inv: map<ClipId, string>, row: SplitRow)
    requires Tables(rows, splits, names, inv)
    ensures Tables(rows + [row],
                   splits[row.split := (if row.split in splits then splits[row.split] else []) + [row.Clip()]],
                   if row.split in splits then names else names + [row.split],
                   inv[row.Clip() := row.split])
  {
    SplitsStep(rows, splits, row);
    NamesStep(rows, names, row);
    InvStep(rows, inv, row);
  }

  /** The clip lists of the three standard splits together hold one clip per
      row when every row names one of them. */
  lemma {:induction false} SplitSizes(rows: seq<SplitRow>)
    requires forall i :: 0 <= i < |rows| ==> rows[i].split == "train" || rows[i].split == "val" || rows[i].split == "test"
    ensures |ClipsIn(rows, "train")| + |ClipsIn(rows, "val")| + |ClipsIn(rows, "test")| == |rows|
  {
    if rows != [] {
      var prefix := rows[..|rows| - 1];
      assert forall i :: 0 <= i < |prefix| ==> prefix[i] == rows[i];
      SplitSizes(prefix);
    }
  }

  /** A clip's recorded split is the split of the last row naming it. */
  lemma {:induction false} FindSplitLastRow(rows: seq<SplitRow>, c: ClipId, i: nat)
    requires i < |rows| && rows[i].Clip() == c
    requires forall j :: i < j < |rows| ==> rows[j].Clip() != c
    ensures FindSplitIn(rows, c) == Some(rows[i].split)
  {
    if i < |rows| - 1 {
      var prefix := rows[..|rows| - 1];
      assert forall j :: 0 <= j < |prefix| ==> prefix[j] == rows[j];
      FindSplitLastRow(prefix, c, i);
    }
  }

  /** A split's clip list holds the clips of exactly the rows of that split. */
  lemma {:induction false} ClipsInMembers(rows: seq<SplitRow>, split: string, c: ClipId)
    ensures c in ClipsIn(rows, split) <==> exists i :: 0 <= i < |rows| && rows[i].split == split && rows[i].Clip() == c
  {
    if rows != [] {
      var prefix := rows[..|rows| - 1];
      assert forall j :: 0 <= j < |prefix| ==> prefix[j] == rows[j];
      ClipsInMembers(prefix, split, c);
      if exists i :: 0 <= i < |rows| && rows[i].split == split && rows[i].Clip() == c {
        var i :| 0 <= i < |rows| && rows[i].split == split && rows[i].Clip() == c;
        if i < |rows| - 1 {
          assert prefix[i] == rows[i];
        }
      }
    }
  }

  /** The top directory of a clip's files: `test` for the test split and
      `trainval` for every other split. */
  function TopDir(split: string): (r: string)
    ensures r == "test" <==> split == "test"
    ensures r == "test" || r == "trainval"
  {
    if split == "test" then "test" else "trainval"
  }

  class Aspset510 {
    const dataDir: Path
    /** Clip lists per split, in row order. */
    var splits: map<string, seq<ClipId>>
    /** The keys of `splits` in the order a dictionary keeps them. */
    var splitNames: seq<string>
    /** The split of each clip. */
    var invSplits: map<ClipId, string>
    /** The rows the tables were read from. */
    ghost var rows: seq<SplitRow>

    ghost predicate Valid()
      reads this
    {
      Tables(rows, splits, splitNames, invSplits)
    }

    /** An index over `dataDir` with empty tables, before reading. */
    constructor (dataDir: Path)
      ensures Valid() && rows == []
      ensures this.dataDir == dataDir
    {
      this.dataDir := dataDir;
      splits, splitNames, invSplits := map[], [], map[];
      rows := [];
    }

    /** One row of the CSV file: its clip is appended to its split's list,
        which is created empty for a new split, and the clip's split is set. */
    method AddRow(row: SplitRow)
      requires Valid()
      modifies this
      ensures Valid() && rows == old(rows) + [row]
      ensures splits == old(splits)[row.split :=
        (if row.split in old(splits) then old(splits)[row.split] else []) + [row.Clip()]]
      ensures splitNames == if row.split in old(splits) then old(splitNames) else old(splitNames) + [row.split]
      ensures invSplits == old(invSplits)[row.Clip() := row.split]
    {
      var names' := if row.split in splits then splitNames else splitNames + [row.split];
      var splits' := splits[row.split := (if row.split in splits then splits[row.split] else []) + [row.Clip()]];
      var inv' := invSplits[row.Clip() := row.split];
      TablesStep(rows, splits, splitNames, invSplits, row);
      splits, splitNames, invSplits, rows := splits', names', inv', rows + [row];
    }

    /** Rebuilds the tables from the CSV rows. Reading stops at the first
        row that does not have three fields; the tables then hold the rows
        before it, and that row's index is returned. */
    method ReadSplits(csvRows: seq<seq<string>>) returns (badRow: Option<nat>)
      modifies this
      ensures Valid()
      ensures badRow.None? <==> WellFormed(csvRows)
      ensures badRow.None? ==> rows == ParseRows(csvRows)
      ensures badRow.Some? ==>
        && badRow.value < |csvRows| && |csvRows[badRow.value]| != 3
        && WellFormed(csvRows[..badRow.value])
        && rows == ParseRows(csvRows[..badRow.value])
    {
      splits, splitNames, invSplits := map[], [], map[];
      rows := [];
      var i := 0;
      while i < |csvRows|
        invariant 0 <= i <= |csvRows|
        invariant WellFormed(csvRows[..i])
        invariant rows == ParseRows(csvRows[..i])
        invariant Valid()
      {
        var fields := csvRows[i];
        if |fields| != 3 {
          return Some(i);
        }
        ParseRowsStep(csvRows, i);
        AddRow(SplitRow(fields[0], fields[1], fields[2]));
        i := i + 1;
      }
      assert csvRows[..i] == csvRows;
      return None;
    }

    /** The split names, each once, in order of first appearance. */
    function SplitNames(): (r: seq<string>)
      reads this
      requires Valid()
      ensures forall s :: s in r <==> s in splits
      ensures forall i, j :: 0 <= i < j < |r| ==> r[i] != r[j]
      ensures r == FirstAppearance(rows)
    {
      splitNames
    }

    /** The split of a clip; missing for a clip no row names. */
    function FindSplit(c: ClipId): (r: Result<string, DatasetError>)
      reads this
      requires Valid()
      ensures r.Ok? <==> c in ClipSet(rows)
      ensures r.Ok? ==> Some(r.value) == FindSplitIn(rows, c)
      ensures r.Err? ==> r.error == MissingClip(c)
    {
      if c in invSplits then Ok(invSplits[c]) else Err(MissingClip(c))
    }

    /** The clips of one split in row order; missing for a split no row names. */
    function SplitClips(split: string): (r: Result<seq<ClipId>, DatasetError>)
      reads this
      requires Valid()
      ensures r.Ok? <==> split in SplitSet(rows)
      ensures r.Ok? ==> r.value == ClipsIn(rows, split) && |r.value| > 0
      ensures r.Err? ==> r.error == MissingSplit(split)
    {
      if split in splits then Ok(splits[split]) else Err(MissingSplit(split))
    }

    function TrainClips(): Result<seq<ClipId>, DatasetError>
      reads this
      requires Valid()
    {
      SplitClips("train")
    }

    function ValClips(): Result<seq<ClipId>, DatasetError>
      reads this
      requires Valid()
    {
      SplitClips("val")
    }

    function TestClips(): Result<seq<ClipId>, DatasetError>
      reads this
      requires Valid()
    {
      SplitClips("test")
    }

    /** The train clips followed by the val clips; the first missing split
        of the two is the error. */
    function TrainvalClips(): (r: Result<seq<ClipId>, DatasetError>)
      reads this
      requires Valid()
      ensures r.Ok? <==> "train" in SplitSet(rows) && "val" in SplitSet(rows)
      ensures r.Ok? ==> r.value == ClipsIn(rows, "train") + ClipsIn(rows, "val")
      ensures r.Err? ==> r.error == MissingSplit(if "train" in SplitSet(rows) then "val" else "train")
    {
      var train := TrainClips();
      if train.Err? then train
      else
        var val := ValClips();
        if val.Err? then val else Ok(train.value + val.value)
    }

    /** The train, val and test clips, in that order; the first missing
        split of the three is the error. */
    function AllClips(): (r: Result<seq<ClipId>, DatasetError>)
      reads this
      requires Valid()
      ensures r.Ok? <==> "train" in SplitSet(rows) && "val" in SplitSet(rows) && "test" in SplitSet(rows)
      ensures r.Ok? ==> r.value == ClipsIn(rows, "train") + ClipsIn(rows, "val") + ClipsIn(rows, "test")
      ensures r.Err? ==> r.error == MissingSplit(
        if "train" !in SplitSet(rows) then "train" else if "val" !in SplitSet(rows) then "val" else "test")
    {
      var trainval := TrainvalClips();
      if trainval.Err? then trainval
      else
        var test := TestClips();
        if test.Err? then test else Ok(trainval.value + test.value)
    }

    /** When every row names a standard split and each of the three occurs,
        the whole dataset lists one clip per row, and every clip of a row is
        among them. */
    lemma AllClipsCount()
      requires Valid()
      requires forall i :: 0 <= i < |rows| ==> rows[i].split == "train" || rows[i].split == "val" || rows[i].split == "test"
      requires "train" in SplitSet(rows) && "val" in SplitSet(rows) && "test" in SplitSet(rows)
      ensures AllClips().Ok? && |AllClips().value| == |rows|
      ensures forall i :: 0 <= i < |rows| ==> rows[i].Clip() in AllClips().value
    {
      SplitSizes(rows);
      forall i | 0 <= i < |rows|
        ensures rows[i].Clip() in AllClips().value
      {
        ClipsInMembers(rows, rows[i].split, rows[i].Clip());
      }
    }

    /** A path below the clip's top directory: `test` when the clip is in the
        test split and `trainval` otherwise. */
    function RelPath(c: ClipId, parts: Path): (r: Result<Path, DatasetError>)
      reads this
      requires Valid()
      ensures r.Ok? <==> c in ClipSet(rows)
      ensures r.Err? ==> r.error == MissingClip(c)
      ensures r.Ok? ==>
        && |r.value| == |dataDir| + 1 + |parts|
        && r.value[..|dataDir|] == dataDir
        && r.value[|dataDir| + 1..] == parts
        && (r.value[|dataDir|] == "test" <==> FindSplitIn(rows, c) == Some("test"))
        && (r.value[|dataDir|] == "test" || r.value[|dataDir|] == "trainval")
    {
      var split := FindSplit(c);
      if split.Err? then Err(split.error)
      else
        var p := dataDir + [TopDir(split.value)] + parts;
        assert p[..|dataDir|] == dataDir && p[|dataDir| + 1..] == parts;
        Ok(p)
    }

    /** The mocap file `joints_3d/{s}/{s}-{c}.c3d` of a clip. */
    function MocapPath(c: ClipId): (r: Result<Path, DatasetError>)
      reads this
      requires Valid()
      ensures r.Ok? <==> c in ClipSet(rows)
      ensures r.Err? ==> r.error == MissingClip(c)
      ensures r.Ok? ==> |r.value| == |dataDir| + 4 && r.value[|dataDir| + 1..] == ["joints_3d", c.subjectId, c.subjectId + "-" + c.clipId + ".c3d"]
    {
      RelPath(c, ["joints_3d", c.subjectId, c.subjectId + "-" + c.clipId + ".c3d"])
    }

    /** The video file `videos/{s}/{s}-{c}-{camera}.mkv` of one camera of a
        clip. The camera is checked before the clip is looked up. */
    function VideoPath(c: ClipId, cameraId: string): (r: Result<Path, DatasetError>)
      reads this
      requires Valid()
      ensures r.Ok? <==> cameraId in CameraIds && c in ClipSet(rows)
      ensures cameraId !in CameraIds ==> r == Err(InvalidCamera(cameraId))
      ensures cameraId in CameraIds && c !in ClipSet(rows) ==> r == Err(MissingClip(c))
      ensures r.Ok? ==> (|r.value| == |dataDir| + 4 &&
        r.value[|dataDir| + 1..] == ["videos", c.subjectId, c.subjectId + "-" + c.clipId + "-" + cameraId + ".mkv"])
    {
      if cameraId !in CameraIds then Err(InvalidCamera(cameraId))
      else RelPath(c, ["videos", c.subjectId, c.subjectId + "-" + c.clipId + "-" + cameraId + ".mkv"])
    }

    /** The camera file `cameras/{s}/{s}-{camera}.json` of one camera of a
        clip's subject. The camera is checked before the clip is looked up. */
    function CameraPath(c: ClipId, cameraId: string): (r: Result<Path, DatasetError>)
      reads this
      requires Valid()
      ensures r.Ok? <==> cameraId in CameraIds && c in ClipSet(rows)
      ensures cameraId !in CameraIds ==> r == Err(InvalidCamera(cameraId))
      ensures cameraId in CameraIds && c !in ClipSet(rows) ==> r == Err(MissingClip(c))
      ensures r.Ok? ==> |r.value| == |dataDir| + 4 && r.value[|dataDir| + 1..] == ["cameras", c.subjectId, c.subjectId + "-" + cameraId + ".json"]
    {
      if cameraId !in CameraIds then Err(InvalidCamera(cameraId))
      else RelPath(c, ["cameras", c.subjectId, c.subjectId + "-" + cameraId + ".json"])
    }

    /** The three cameras of a clip have three different video files. */
    lemma VideoPathsDistinct(c: ClipId, cam1: string, cam2: string)
      requires Valid()
      requires VideoPath(c, cam1).Ok? && VideoPath(c, cam2).Ok?
      requires cam1 != cam2
      ensures VideoPath(c, cam1).value != VideoPath(c, cam2).value
    {
      // The camera names have different lengths, and so do the file names.
      var p1, p2 := VideoPath(c, cam1).value, VideoPath(c, cam2).value;
      assert |cam1| != |cam2|;
      var n := |dataDir| + 3;
      assert p1[n] == p1[|dataDir| + 1..][2] && p2[n] == p2[|dataDir| + 1..][2];
      assert |p1[n]| != |p2[n]|;
    }

    /** A clip of a training or validation split keeps its left video under
        `trainval`: for clip 0026 of subject 04ac,
        `trainval/videos/04ac/04ac-0026-left.mkv` below the data directory. */
    lemma VideoPathExample()
      requires Valid()
      requires FindSplitIn(rows, ClipId("04ac", "0026")) == Some("train")
      ensures VideoPath(ClipId("04ac", "0026"), "left")
           == Ok(dataDir + ["trainval", "videos", "04ac", "04ac-0026-left.mkv"])
    {
      var c := ClipId("04ac", "0026");
      var name := "04ac" + "-" + "0026" + "-" + "left" + ".mkv";
      assert name == "04ac-0026-left.mkv";
      assert FindSplit(c) == Ok("train");
      assert VideoPath(c, "left") == RelPath(c, ["videos", "04ac", name]);
      assert RelPath(c, ["videos", "04ac", name]) == Ok(dataDir + ["trainval"] + ["videos", "04ac", name]);
      assert dataDir + ["trainval"] + ["videos", "04ac", name] == dataDir + ["trainval", "videos", "04ac", name];
    }
  }

  /** Opens the index: the tables are read from the CSV rows, and a row
      without three fields makes opening fail with that row's index. */
  method Open(dataDir: Path, csvRows: seq<seq<string>>) returns (r: Result<Aspset510, nat>)
    ensures r.Ok? <==> WellFormed(csvRows)
    ensures r.Ok? ==> (fresh(r.value) && r.value.Valid() && r.value.dataDir == dataDir
                       && r.value.rows == ParseRows(csvRows))
    ensures r.Err? ==> r.error < |csvRows| && |csvRows[r.error]| != 3 && WellFormed(csvRows[..r.error])
  {
    var index := new Aspset510(dataDir);
    var badRow := index.ReadSplits(csvRows);
    if badRow.Some? {
      return Err(badRow.value);
    }
    return Ok(index);
  }
}
