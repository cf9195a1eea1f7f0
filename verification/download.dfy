/** Planning the dataset download (src/aspset510/download.py): the checksum
    table, the list of archives to fetch, and the download / verify /
    extract decisions taken for each archive. The network, MD5 hashing and
    tar extraction are external: a download is a step in a log, the MD5
    digest of an archive file is a parameter, and the file system is the
    set of archive files present and the set of (partition, field)
    directories already extracted. */
module Download {
  import opened Base

  const AllPartitions: seq<string> := ["trainval", "test"]
  const AllFields: seq<string> := ["cameras", "joints_3d", "videos"]
  const CurrentVersion: string := "v1"

  // ---------------------------------------------------------------------
  // Splitting a line on whitespace.
  // ---------------------------------------------------------------------

  /** The ASCII whitespace characters of Python's `str.split()`. */
  predicate IsSpace(c: char)
  {
    var n := c as int;
    n == 32 || 9 <= n <= 13 || 28 <= n <= 31
  }

  /** A non-empty run of non-whitespace characters. */
  predicate IsWord(w: string)
  {
    |w| > 0 && forall i :: 0 <= i < |w| ==> !IsSpace(w[i])
  }

  /** `s` without its leading whitespace. */
  function DropSpace(s: string): (r: string)
    ensures |r| <= |s| && r == s[|s| - |r|..]
    ensures r == [] || !IsSpace(r[0])
  {
    if s != [] && IsSpace(s[0]) then DropSpace(s[1..]) else s
  }

  /** The longest prefix of `s` without whitespace. */
  function TakeWord(s: string): (r: string)
    ensures |r| <= |s| && r == s[..|r|]
    ensures forall i :: 0 <= i < |r| ==> !IsSpace(r[i])
    ensures |r| < |s| ==> IsSpace(s[|r|])
  {
    if s == [] || IsSpace(s[0]) then [] else [s[0]] + TakeWord(s[1..])
  }

  /** Python's `str.split()` without arguments: the maximal runs of
      non-whitespace characters, in order. */
  function SplitWords(s: string): (r: seq<string>)
    ensures forall i :: 0 <= i < |r| ==> IsWord(r[i])
    decreases |s|
  {
    var t := DropSpace(s);
    if t == [] then []
    else
      var w := TakeWord(t);
      [w] + SplitWords(t[|w|..])
  }

  lemma TakeWordOf(w: string, rest: string)
    requires IsWord(w)
    requires rest == [] || IsSpace(rest[0])
    ensures TakeWord(w + rest) == w
    decreases |w|
  {
    if |w| > 1 {
      assert (w + rest)[1..] == w[1..] + rest;
      TakeWordOf(w[1..], rest);
    } else {
      assert (w + rest)[1..] == rest;
    }
  }

  /** A word followed by whitespace or nothing splits off as the first word. */
  lemma SplitWordsCons(w: string, rest: string)
    requires IsWord(w)
    requires rest == [] || IsSpace(rest[0])
    ensures SplitWords(w + rest) == [w] + SplitWords(rest)
  {
    var s := w + rest;
    assert DropSpace(s) == s;
    TakeWordOf(w, rest);
    assert s[|w|..] == rest;
  }

  /** Leading whitespace does not change the split. */
  lemma SplitWordsSpace(rest: string)
    ensures SplitWords(" " + rest) == SplitWords(rest)
  {
    assert (" " + rest)[1..] == rest;
    assert DropSpace(" " + rest) == DropSpace(rest);
  }

  /** A single word splits into itself. */
  lemma SplitOneWord(w: string)
    requires IsWord(w)
    ensures SplitWords(w) == [w]
  {
    assert w + [] == w;
    TakeWordOf(w, []);
    assert DropSpace(w) == w;
    assert w[|w|..] == [];
    assert SplitWords([]) == [];
  }

  // ---------------------------------------------------------------------
  // The checksum table.
  // ---------------------------------------------------------------------

  /** The (checksum, filename) pair of a checksum line, when the line has
      exactly two words. */
  function ParseLine(line: string): (r: Option<(string, string)>)
    ensures r.Some? <==> |SplitWords(line)| == 2
    ensures r.Some? ==> r.value == (SplitWords(line)[0], SplitWords(line)[1])
  {
    var ws := SplitWords(line);
    if |ws| == 2 then Some((ws[0], ws[1])) else None
  }

  /** A line `checksum filename`, as written with one space, reads back as
      that pair. */
  lemma ParseLineOf(checksum: string, filename: string)
    requires IsWord(checksum) && IsWord(filename)
    ensures ParseLine(checksum + " " + filename) == Some((checksum, filename))
  {
    var rest := " " + filename;
    assert checksum + " " + filename == checksum + rest;
    assert rest[0] == ' ';
    SplitWordsCons(checksum, rest);
    SplitWordsSpace(filename);
    SplitOneWord(filename);
  }

  /** The table after the given (checksum, filename) pairs: each pair maps
      its filename to its checksum, a later pair overriding an earlier one. */
  function ChecksumTable(entries: seq<(string, string)>): (r: map<string, string>)
    ensures forall f :: f in r <==> exists i :: 0 <= i < |entries| && entries[i].1 == f
  {
    if entries == [] then map[]
    else
      var prefix := entries[..|entries| - 1];
      var last := entries[|entries| - 1];
      assert forall i :: 0 <= i < |prefix| ==> prefix[i] == entries[i];
      ChecksumTable(prefix)[last.1 := last.0]
  }

  /** A filename's checksum is the one on its last line. */
  lemma {:induction false} LastLineWins(entries: seq<(string, string)>, i: nat)
    requires i < |entries|
    requires forall j :: i < j < |entries| ==> entries[j].1 != entries[i].1
    ensures entries[i].1 in ChecksumTable(entries)
    ensures ChecksumTable(entries)[entries[i].1] == entries[i].0
  {
    if i < |entries| - 1 {
      var prefix := entries[..|entries| - 1];
      LastLineWins(prefix, i);
    }
  }

  /** The pairs of lines that all have two words. */
  function Entries(lines: seq<string>): (r: seq<(string, string)>)
    requires AllParse(lines)
    ensures |r| == |lines|
    ensures forall i :: 0 <= i < |lines| ==> r[i] == ParseLine(lines[i]).value
  {
    seq(|lines|, i requires 0 <= i < |lines| => ParseLine(lines[i]).value)
  }

  /** Every line has exactly two words. */
  predicate AllParse(lines: seq<string>)
  {
    forall i :: 0 <= i < |lines| ==> ParseLine(lines[i]).Some?
  }

  /** Reading one more line appends its pair. */
  lemma EntriesStep(lines: seq<string>, i: nat)
    requires i < |lines| && AllParse(lines[..i]) && ParseLine(lines[i]).Some?
    ensures AllParse(lines[..i + 1])
    ensures Entries(lines[..i + 1]) == Entries(lines[..i]) + [ParseLine(lines[i]).value]
  {
    assert lines[..i + 1] == lines[..i] + [lines[i]];
  }

  /** read_checksums over the lines of the checksum file: the table of
      all lines, or the index of the first line that does not have exactly
      two words. */
  method ReadChecksums(lines: seq<string>) returns (r: Result<map<string, string>, nat>)
    ensures r.Ok? <==> AllParse(lines)
    ensures r.Ok? ==> r.value == ChecksumTable(Entries(lines))
    ensures r.Err? ==> (r.error < |lines| && ParseLine(lines[r.error]).None? && AllParse(lines[..r.error]))
  {
    var checksums: map<string, string> := map[];
    var i := 0;
    while i < |lines|
      invariant 0 <= i <= |lines|
      invariant AllParse(lines[..i])
      invariant checksums == ChecksumTable(Entries(lines[..i]))
    {
      var entry := ParseLine(lines[i]);
      if entry.None? {
        return Err(i);
      }
      var (checksum, filename) := entry.value;
      EntriesStep(lines, i);
      checksums := checksums[filename := checksum];
      i := i + 1;
    }
    assert lines[..i] == lines;
    return Ok(checksums);
  }

  // ---------------------------------------------------------------------
  // The archive list.
  // ---------------------------------------------------------------------

  datatype ArchiveInfo = ArchiveInfo(filename: string, remoteUrl: string, checksum: string,
                                     partition: string, field: string)

  /** The base URL with a trailing slash added when it lacks one. */
  function WithTrailingSlash(baseUrl: string): (r: string)
    ensures |r| > 0 && r[|r| - 1] == '/'
    ensures baseUrl != [] && baseUrl[|baseUrl| - 1] == '/' ==> r == baseUrl
    ensures !(baseUrl != [] && baseUrl[|baseUrl| - 1] == '/') ==> r == baseUrl + "/"
  {
    if baseUrl != [] && baseUrl[|baseUrl| - 1] == '/' then baseUrl else baseUrl + "/"
  }

  /** The archive file of one partition and field. */
  function ArchiveName(version: string, partition: string, field: string): string
  {
    "aspset510_" + version + "_" + partition + "-" + field + ".tar.gz"
  }

  /** The pairs of one partition with every field, in field order. */
  function PairsWith(partition: string, fields: seq<string>): (r: seq<(string, string)>)
    ensures |r| == |fields|
    ensures forall j :: 0 <= j < |fields| ==> r[j] == (partition, fields[j])
  {
    seq(|fields|, j requires 0 <= j < |fields| => (partition, fields[j]))
  }

  /** itertools.product of partitions and fields: partitions outer, fields
      inner. */
  function Product(partitions: seq<string>, fields: seq<string>): seq<(string, string)>
  {
    if partitions == [] then []
    else Product(partitions[..|partitions| - 1], fields) + PairsWith(partitions[|partitions| - 1], fields)
  }

  /** The product has one pair per partition and field, pair i * |fields| + j
      being partition i with field j. */
  lemma {:induction false} ProductAt(partitions: seq<string>, fields: seq<string>, i: nat, j: nat)
    requires i < |partitions| && j < |fields|
    ensures |Product(partitions[..i], fields)| == i * |fields|
    ensures i * |fields| + j < |Product(partitions, fields)|
    ensures Product(partitions, fields)[i * |fields| + j] == (partitions[i], fields[j])
  {
    var before := Product(partitions[..i], fields);
    var upTo := Product(partitions[..i + 1], fields);
    ProductLength(partitions[..i], fields);
    assert |partitions[..i]| == i;
    ProductPrefix(partitions, fields, i + 1);
    assert partitions[..i + 1][..i] == partitions[..i];
    assert upTo == before + PairsWith(partitions[i], fields);
    assert upTo[|before| + j] == (partitions[i], fields[j]);
  }

  lemma {:induction false} ProductLength(partitions: seq<string>, fields: seq<string>)
    ensures |Product(partitions, fields)| == |partitions| * |fields|
  {
    if partitions != [] {
      ProductLength(partitions[..|partitions| - 1], fields);
      assert (|partitions| - 1) * |fields| + |fields| == |partitions| * |fields|;
    }
  }

  /** The product of the first n partitions is a prefix of the product. */
  lemma {:induction false} ProductPrefix(partitions: seq<string>, fields: seq<string>, n: nat)
    requires n <= |partitions|
    ensures |Product(partitions[..n], fields)| <= |Product(partitions, fields)|
    ensures Product(partitions, fields)[..|Product(partitions[..n], fields)|] == Product(partitions[..n], fields)
  {
    if n < |partitions| {
      var shorter := partitions[..|partitions| - 1];
      assert shorter[..n] == partitions[..n];
      ProductPrefix(shorter, fields, n);
    } else {
      assert partitions[..n] == partitions;
    }
  }

  /** The archive records of the given pairs in order, or the first archive
      name missing from the checksum table. */
  function ArchivesFor(baseUrl: string, version: string, checksums: map<string, string>,
                       pairs: seq<(string, string)>): (r: Result<seq<ArchiveInfo>, string>)
    ensures r.Ok? ==> |r.value| == |pairs|
  {
    if pairs == [] then Ok([])
    else
      var prefix := pairs[..|pairs| - 1];
      var last := pairs[|pairs| - 1];
      var name := ArchiveName(version, last.0, last.1);
      var before := ArchivesFor(baseUrl, version, checksums, prefix);
      if before.Err? then before
      else if name !in checksums then Err(name)
      else Ok(before.value + [ArchiveInfo(name, baseUrl + name, checksums[name], last.0, last.1)])
  }

  /** The records are complete exactly when every archive name is in the
      table; then record k is the archive of pair k, named
      `aspset510_{version}_{partition}-{field}.tar.gz`, fetched from the base
      URL followed by the name, with the table's checksum. Otherwise the
      error is the first name missing from the table. */
  lemma {:induction false} ArchivesForSpec(baseUrl: string, version: string, checksums: map<string, string>,
                                           pairs: seq<(string, string)>)
    ensures var r := ArchivesFor(baseUrl, version, checksums, pairs);
      && (r.Ok? <==> forall k :: 0 <= k < |pairs| ==> ArchiveName(version, pairs[k].0, pairs[k].1) in checksums)
      && (r.Ok? ==> forall k :: 0 <= k < |pairs| ==>
            var name := ArchiveName(version, pairs[k].0, pairs[k].1);
            r.value[k] == ArchiveInfo(name, baseUrl + name, checksums[name], pairs[k].0, pairs[k].1))
      && (r.Err? ==> exists k :: (0 <= k < |pairs| && r.error == ArchiveName(version, pairs[k].0, pairs[k].1)
                                 && r.error !in checksums
                                 && forall m :: 0 <= m < k ==> ArchiveName(version, pairs[m].0, pairs[m].1) in checksums))
  {
    if pairs != [] {
      var prefix := pairs[..|pairs| - 1];
      ArchivesForSpec(baseUrl, version, checksums, prefix);
      assert forall k :: 0 <= k < |prefix| ==> prefix[k] == pairs[k];
    }
  }

  /** Collecting one more pair: it fails as before, fails on this pair's
      missing name, or appends this pair's record. */
  lemma ArchivesForStep(baseUrl: string, version: string, checksums: map<string, string>,
                        pairs: seq<(string, string)>, k: nat)
    requires k < |pairs|
    ensures var before := ArchivesFor(baseUrl, version, checksums, pairs[..k]);
      var name := ArchiveName(version, pairs[k].0, pairs[k].1);
      ArchivesFor(baseUrl, version, checksums, pairs[..k + 1])
      == if before.Err? then before
         else if name !in checksums then Err(name)
         else Ok(before.value + [ArchiveInfo(name, baseUrl + name, checksums[name], pairs[k].0, pairs[k].1)])
  {
    assert pairs[..k + 1][..k] == pairs[..k];
    assert pairs[..k + 1][k] == pairs[k];
  }

  /** collect_archives with the checksum table it reads: one record per
      partition and field, partitions outer, or the name of the first
      archive missing from the table. The remote URL is the base URL, with a
      trailing slash, followed by the file name. */
  method CollectArchives(baseUrl: string, partitions: seq<string>, fields: seq<string>, version: string,
                         checksums: map<string, string>) returns (r: Result<seq<ArchiveInfo>, string>)
    ensures r == ArchivesFor(WithTrailingSlash(baseUrl), version, checksums, Product(partitions, fields))
  {
    var base := baseUrl;
    if !(base != [] && base[|base| - 1] == '/') {
      base := base + "/";
    }
    var pairs := Product(partitions, fields);
    var infos: seq<ArchiveInfo> := [];
    for k := 0 to |pairs|
      invariant ArchivesFor(base, version, checksums, pairs[..k]) == Ok(infos)
    {
      var (partition, field) := pairs[k];
      var filename := ArchiveName(version, partition, field);
      ArchivesForStep(base, version, checksums, pairs, k);
      if filename !in checksums {
        ArchivesStayFailed(base, version, checksums, pairs, k + 1);
        return Err(filename);
      }
      infos := infos + [ArchiveInfo(filename, base + filename, checksums[filename], partition, field)];
    }
    assert pairs[..|pairs|] == pairs;
    return Ok(infos);
  }

  /** Why collect_archives raises: a line of the checksum file without two
      words (the index of the first), or an archive missing from the table. */
  datatype CollectError = MalformedChecksumLine(line: nat) | MissingChecksum(filename: string)

  /** collect_archives with its own read of the checksum file: a malformed
      line stops it before any archive is considered; otherwise the records
      are those of the table read from the file. */
  method CollectArchivesFrom(checksumLines: seq<string>, baseUrl: string, partitions: seq<string>,
                             fields: seq<string>, version: string)
    returns (r: Result<seq<ArchiveInfo>, CollectError>)
    ensures !AllParse(checksumLines) ==>
      && r.Err? && r.error.MalformedChecksumLine?
      && r.error.line < |checksumLines| && ParseLine(checksumLines[r.error.line]).None?
      && AllParse(checksumLines[..r.error.line])
    ensures AllParse(checksumLines) ==>
      var collected := ArchivesFor(WithTrailingSlash(baseUrl), version, ChecksumTable(Entries(checksumLines)),
                                   Product(partitions, fields));
      && (collected.Ok? ==> r == Ok(collected.value))
      && (collected.Err? ==> r == Err(MissingChecksum(collected.error)))
  {
    var checksums := ReadChecksums(checksumLines);
    if checksums.Err? {
      return Err(MalformedChecksumLine(checksums.error));
    }
    var collected := CollectArchives(baseUrl, partitions, fields, version, checksums.value);
    if collected.Err? {
      return Err(MissingChecksum(collected.error));
    }
    return Ok(collected.value);
  }

  /** Once a prefix of the pairs fails, the whole list fails the same way. */
  lemma {:induction false} ArchivesStayFailed(baseUrl: string, version: string, checksums: map<string, string>,
                                              pairs: seq<(string, string)>, n: nat)
    requires n <= |pairs|
    requires ArchivesFor(baseUrl, version, checksums, pairs[..n]).Err?
    ensures ArchivesFor(baseUrl, version, checksums, pairs) == ArchivesFor(baseUrl, version, checksums, pairs[..n])
    decreases |pairs| - n
  {
    if n < |pairs| {
      assert pairs[..n + 1][..n] == pairs[..n];
      ArchivesStayFailed(baseUrl, version, checksums, pairs, n + 1);
    } else {
      assert pairs[..n] == pairs;
    }
  }

  /** Archive i * |fields| + j is that of partition i and field j, and with
      a complete table there is one archive per partition and field. */
  lemma ArchiveAt(baseUrl: string, partitions: seq<string>, fields: seq<string>, version: string,
                  checksums: map<string, string>, i: nat, j: nat)
    requires i < |partitions| && j < |fields|
    requires forall p, f :: p in partitions && f in fields ==> ArchiveName(version, p, f) in checksums
    ensures var r := ArchivesFor(WithTrailingSlash(baseUrl), version, checksums, Product(partitions, fields));
      && r.Ok?
      && |r.value| == |partitions| * |fields|
      && i * |fields| + j < |r.value|
      && r.value[i * |fields| + j].filename == ArchiveName(version, partitions[i], fields[j])
      && r.value[i * |fields| + j].partition == partitions[i]
      && r.value[i * |fields| + j].field == fields[j]
  {
    var pairs := Product(partitions, fields);
    ProductLength(partitions, fields);
    ProductMembers(partitions, fields);
    ProductAt(partitions, fields, i, j);
    ArchivesForSpec(WithTrailingSlash(baseUrl), version, checksums, pairs);
  }

  /** Every pair of the product is a partition and a field. */
  lemma {:induction false} ProductMembers(partitions: seq<string>, fields: seq<string>)
    ensures forall k :: 0 <= k < |Product(partitions, fields)| ==>
      Product(partitions, fields)[k].0 in partitions && Product(partitions, fields)[k].1 in fields
  {
    if partitions != [] {
      var shorter := partitions[..|partitions| - 1];
      ProductMembers(shorter, fields);
      assert forall p :: p in shorter ==> p in partitions;
    }
  }

  /** With the default partitions and fields there are six archives. */
  lemma DefaultArchiveCount(baseUrl: string, checksums: map<string, string>)
    requires forall p, f :: p in AllPartitions && f in AllFields ==> ArchiveName(CurrentVersion, p, f) in checksums
    ensures var r := ArchivesFor(WithTrailingSlash(baseUrl), CurrentVersion, checksums, Product(AllPartitions, AllFields));
      r.Ok? && |r.value| == 6
  {
    ArchiveAt(baseUrl, AllPartitions, AllFields, CurrentVersion, checksums, 0, 0);
  }

  // ---------------------------------------------------------------------
  // Downloading and extracting.
  // ---------------------------------------------------------------------

  datatype Flags = Flags(skipExisting: bool, skipDownloadExisting: bool, skipChecksum: bool, skipExtraction: bool)

  /** The default flags: skip extracted and downloaded archives, verify and
      extract the rest. */
  const DefaultFlags := Flags(true, true, false, false)

  /** The files the decisions depend on: the archive files present in the
      archive directory, and the (partition, field) directories present in
      the data directory. */
  datatype Files = Files(archives: set<string>, extracted: set<(string, string)>)

  datatype Step = Fetch(filename: string, url: string) | Verify(filename: string, checksum: string) | Extract(filename: string)

  /** The position of a step kind in the per-archive sequence. */
  function Rank(s: Step): nat
  {
    match s
    case Fetch(_, _) => 0
    case Verify(_, _) => 1
    case Extract(_) => 2
  }

  /** check_file_integrity with the computed digest given: fails exactly
      when the digest differs from the expected checksum. */
  function CheckFileIntegrity(fileName: string, actual: string, expected: string): (r: Option<string>)
    ensures r.Some? <==> actual != expected
    ensures r.Some? ==> r.value == "file integrity check failed for " + fileName
  {
    if actual != expected then Some("file integrity check failed for " + fileName) else None
  }

  /** What happened: the steps taken, the files afterwards, and the error
      that stopped the run, if any. */
  datatype Outcome = Outcome(log: seq<Step>, files: Files, error: Option<string>)

  /** The download step: the archive is fetched unless the file is
      present and present files are kept. */
  function FetchStep(a: ArchiveInfo, flags: Flags, files: Files): (r: Outcome)
    ensures files.archives <= r.files.archives && r.files.extracted == files.extracted && r.error.None?
  {
    if !flags.skipDownloadExisting || a.filename !in files.archives
    then Outcome([Fetch(a.filename, a.remoteUrl)], files.(archives := files.archives + {a.filename}), None)
    else Outcome([], files, None)
  }

  /** The verification step: unless checksums are skipped, the file is
      checked against its expected checksum, and a mismatch is the error. */
  function VerifyStep(a: ArchiveInfo, flags: Flags, digest: string -> string, o: Outcome): (r: Outcome)
    ensures r.files == o.files
  {
    if flags.skipChecksum then o
    else Outcome(o.log + [Verify(a.filename, a.checksum)], o.files, CheckFileIntegrity(a.filename, digest(a.filename), a.checksum))
  }

  /** The extraction step: unless an error occurred or extraction is
      skipped, the archive's partition and field become extracted. */
  function ExtractStep(a: ArchiveInfo, flags: Flags, o: Outcome): (r: Outcome)
    ensures r.files.archives == o.files.archives && o.files.extracted <= r.files.extracted && r.error == o.error
  {
    if o.error.Some? || flags.skipExtraction then o
    else Outcome(o.log + [Extract(a.filename)], o.files.(extracted := o.files.extracted + {(a.partition, a.field)}), None)
  }

  /** The steps for one archive: none when it is already extracted and
      extracted archives are skipped; otherwise download, verification and
      extraction in turn. */
  function ProcessArchive(a: ArchiveInfo, flags: Flags, files: Files, digest: string -> string): (r: Outcome)
    ensures files.archives <= r.files.archives && files.extracted <= r.files.extracted
  {
    if flags.skipExisting && (a.partition, a.field) in files.extracted then Outcome([], files, None)
    else ExtractStep(a, flags, VerifyStep(a, flags, digest, FetchStep(a, flags, files)))
  }

  /** The decisions for one archive: skipped entirely when already
      extracted and extracted archives are skipped; otherwise downloaded
      exactly when the file is missing or present files are not kept,
      verified exactly when checksums are not skipped, failing exactly on a
      digest mismatch, and extracted exactly when extraction is not skipped
      and verification did not fail; the steps come in the order download,
      verify, extract. */
  lemma ArchiveDecisions(a: ArchiveInfo, flags: Flags, files: Files, digest: string -> string)
    ensures var r := ProcessArchive(a, flags, files, digest);
      && (flags.skipExisting && (a.partition, a.field) in files.extracted ==> r == Outcome([], files, None))
      && (!(flags.skipExisting && (a.partition, a.field) in files.extracted) ==>
        && (Fetch(a.filename, a.remoteUrl) in r.log <==> !flags.skipDownloadExisting || a.filename !in files.archives)
        && (Verify(a.filename, a.checksum) in r.log <==> !flags.skipChecksum)
        && (r.error.Some? <==> !flags.skipChecksum && digest(a.filename) != a.checksum)
        && (Extract(a.filename) in r.log <==> !flags.skipExtraction && r.error.None?)
        && (r.error.None? && !flags.skipExtraction ==> (a.partition, a.field) in r.files.extracted))
      && (forall i, j :: 0 <= i < j < |r.log| ==> Rank(r.log[i]) < Rank(r.log[j]))
  {
  }

  /** The archives processed in order until the first error. */
  function ProcessAll(archives: seq<ArchiveInfo>, flags: Flags, files: Files, digest: string -> string): (r: Outcome)
    ensures files.archives <= r.files.archives && files.extracted <= r.files.extracted
  {
    if archives == [] then Outcome([], files, None)
    else
      var first := ProcessArchive(archives[0], flags, files, digest);
      if first.error.Some? then first
      else
        After(first.log, ProcessAll(archives[1..], flags, first.files, digest))
  }

  /** An outcome preceded by the steps already taken. */
  function After(earlier: seq<Step>, o: Outcome): Outcome
  {
    Outcome(earlier + o.log, o.files, o.error)
  }

  lemma AfterAfter(first: seq<Step>, second: seq<Step>, o: Outcome)
    ensures After(first + second, o) == After(first, After(second, o))
  {
    assert (first + second) + o.log == first + (second + o.log);
  }

  /** The run from archive i on: archive i, then the rest from the files
      it leaves, unless it fails. */
  lemma ProcessAllFrom(archives: seq<ArchiveInfo>, i: nat, flags: Flags, files: Files, digest: string -> string)
    requires i < |archives|
    ensures var first := ProcessArchive(archives[i], flags, files, digest);
      ProcessAll(archives[i..], flags, files, digest)
      == if first.error.Some? then first
         else After(first.log, ProcessAll(archives[i + 1..], flags, first.files, digest))
  {
    assert archives[i..][0] == archives[i] && archives[i..][1..] == archives[i + 1..];
  }

  /** One loop step of the run: archive i's steps are appended to the log
      taken so far, and the run either stops on its error or continues from
      the files it leaves. */
  lemma ProcessAllStep(archives: seq<ArchiveInfo>, i: nat, flags: Flags, files: Files, digest: string -> string,
                       log: seq<Step>)
    requires i < |archives|
    ensures var first := ProcessArchive(archives[i], flags, files, digest);
      After(log, ProcessAll(archives[i..], flags, files, digest))
      == if first.error.Some? then Outcome(log + first.log, first.files, first.error)
         else After(log + first.log, ProcessAll(archives[i + 1..], flags, first.files, digest))
  {
    ProcessAllFrom(archives, i, flags, files, digest);
    var first := ProcessArchive(archives[i], flags, files, digest);
    if first.error.None? {
      AfterAfter(log, first.log, ProcessAll(archives[i + 1..], flags, first.files, digest));
    }
  }

  /** A run without error that extracts leaves every archive's partition
      and field extracted: either it was already, and skipped, or it was
      extracted now. */
  lemma {:induction false} RunExtractsAll(archives: seq<ArchiveInfo>, flags: Flags, files: Files, digest: string -> string)
    requires !flags.skipExtraction
    ensures var r := ProcessAll(archives, flags, files, digest);
      r.error.None? ==> forall a :: a in archives ==> (a.partition, a.field) in r.files.extracted
  {
    if archives != [] {
      var first := ProcessArchive(archives[0], flags, files, digest);
      ArchiveDecisions(archives[0], flags, files, digest);
      if first.error.None? {
        RunExtractsAll(archives[1..], flags, first.files, digest);
        assert forall a :: a in archives ==> a == archives[0] || a in archives[1..];
      }
    }
  }

  /** A run stops with an integrity error only for an archive whose digest
      differs from its checksum, and then names that archive. */
  lemma {:induction false} RunErrorNamesArchive(archives: seq<ArchiveInfo>, flags: Flags, files: Files, digest: string -> string)
    ensures var r := ProcessAll(archives, flags, files, digest);
      r.error.Some? ==> !flags.skipChecksum && exists a :: (a in archives && digest(a.filename) != a.checksum
                                                           && r.error.value == "file integrity check failed for " + a.filename)
  {
    if archives != [] {
      var first := ProcessArchive(archives[0], flags, files, digest);
      ArchiveDecisions(archives[0], flags, files, digest);
      if first.error.None? {
        RunErrorNamesArchive(archives[1..], flags, first.files, digest);
        assert forall a :: a in archives[1..] ==> a in archives;
      }
    }
  }

  /** A run that verifies every archive it does not skip ends without error
      when every digest matches. */
  lemma {:induction false} RunSucceedsOnMatchingDigests(archives: seq<ArchiveInfo>, flags: Flags, files: Files,
                                                       digest: string -> string)
    requires forall a :: a in archives ==> digest(a.filename) == a.checksum
    ensures ProcessAll(archives, flags, files, digest).error.None?
  {
    if archives != [] {
      var first := ProcessArchive(archives[0], flags, files, digest);
      ArchiveDecisions(archives[0], flags, files, digest);
      RunSucceedsOnMatchingDigests(archives[1..], flags, first.files, digest);
    }
  }

  /** The loop of download_and_extract_archives over the collected
      archives: each archive is processed in order, and an integrity error
      stops the run. */
  method ProcessArchives(archives: seq<ArchiveInfo>, flags: Flags, files: Files, digest: string -> string)
    returns (log: seq<Step>, filesAfter: Files, error: Option<string>)
    ensures Outcome(log, filesAfter, error) == ProcessAll(archives, flags, files, digest)
  {
    log, filesAfter, error := [], files, None;
    var archiveFiles, extracted := files.archives, files.extracted;
    assert archives[0..] == archives;
    for i := 0 to |archives|
      invariant filesAfter == Files(archiveFiles, extracted)
      invariant ProcessAll(archives, flags, files, digest) == After(log, ProcessAll(archives[i..], flags, filesAfter, digest))
    {
      var a := archives[i];
      ghost var before := filesAfter;
      ghost var expected := ProcessArchive(a, flags, before, digest);
      ProcessAllStep(archives, i, flags, before, digest, log);
      if flags.skipExisting && (a.partition, a.field) in extracted {
        assert log + expected.log == log;
        continue;
      }
      var steps: seq<Step> := [];
      if !flags.skipDownloadExisting || a.filename !in archiveFiles {
        steps := steps + [Fetch(a.filename, a.remoteUrl)];
        archiveFiles := archiveFiles + {a.filename};
      }
      ghost var fetched := FetchStep(a, flags, before);
      assert fetched == Outcome(steps, Files(archiveFiles, extracted), None);
      var failure: Option<string> := None;
      if !flags.skipChecksum {
        steps := steps + [Verify(a.filename, a.checksum)];
        failure := CheckFileIntegrity(a.filename, digest(a.filename), a.checksum);
      }
      ghost var verified := VerifyStep(a, flags, digest, fetched);
      assert verified == Outcome(steps, Files(archiveFiles, extracted), failure);
      if failure.Some? {
        filesAfter := Files(archiveFiles, extracted);
        assert expected == verified;
        return log + steps, filesAfter, failure;
      }
      if !flags.skipExtraction {
        steps := steps + [Extract(a.filename)];
        extracted := extracted + {(a.partition, a.field)};
      }
      filesAfter := Files(archiveFiles, extracted);
      assert expected == ExtractStep(a, flags, verified);
      assert expected == Outcome(steps, filesAfter, None);
      log := log + steps;
    }
    assert archives[|archives|..] == [];
  }

  /** download_and_extract_archives: a failed collection stops before
      anything is done; otherwise the collected archives are processed. */
  method DownloadAndExtractArchives(baseUrl: string, partitions: seq<string>, fields: seq<string>, version: string,
                                    checksums: map<string, string>, flags: Flags, files: Files,
                                    digest: string -> string)
    returns (log: seq<Step>, filesAfter: Files, error: Option<string>)
    ensures var collected := ArchivesFor(WithTrailingSlash(baseUrl), version, checksums, Product(partitions, fields));
      && (collected.Err? ==> log == [] && filesAfter == files && error == Some(collected.error))
      && (collected.Ok? ==> Outcome(log, filesAfter, error) == ProcessAll(collected.value, flags, files, digest))
  {
    var collected := CollectArchives(baseUrl, partitions, fields, version, checksums);
    if collected.Err? {
      return [], files, Some(collected.error);
    }
    log, filesAfter, error := ProcessArchives(collected.value, flags, files, digest);
  }
}
