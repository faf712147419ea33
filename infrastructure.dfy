/**
 * The file-system adapters of src/infrastructure.rs: the directory-only and
 * file-only filters over the traversal and the directory listing, the entry
 * selection of `extract_zip_entry_if_exists`, the `LineProgressReporter`
 * state machine and `format_stats`. The walkdir traversal, `read_dir`, the
 * zip reader and the output file are inputs: what they yield for each call.
 */
module Infrastructure {
  import opened Wrappers
  import opened Domain
  import opened Paths
  import opened Decimal
  import opened Application

  /** The file type of an entry, without following symbolic links. */
  datatype FileType = Directory | RegularFile | Symlink | OtherFile

  // ---------------------------------------------------------------------
  // for_each_directory
  // ---------------------------------------------------------------------

  /** One entry of the traversal (`walkdir::DirEntry`). */
  datatype DirEntry = DirEntry(path: Path, fileType: FileType)

  /** What `WalkDir::new(root).follow_links(false)` yields, in order. */
  type WalkItems = seq<Result<DirEntry, string>>

  /** The directories passed to the callback, in order, and the traversal error that ends the walk. */
  function WalkOf(items: WalkItems): (seq<Path>, Option<ExtractError>)
    decreases |items|
  {
    if items == [] then ([], None)
    else
      match items[0]
      case Err(e) => ([], Some(Message(e)))
      case Ok(entry) =>
        var rest := WalkOf(items[1..]);
        (if entry.fileType == Directory then [entry.path] + rest.0 else rest.0, rest.1)
  }

  /** The directory entries' paths, in order (the traversal order when nothing fails). */
  function DirectoryPaths(items: WalkItems): seq<Path>
    decreases |items|
  {
    if items == [] then []
    else
      var rest := DirectoryPaths(items[1..]);
      if items[0].Ok? && items[0].value.fileType == Directory then [items[0].value.path] + rest else rest
  }

  /**
   * `FsPorts::for_each_directory`: every traversal entry is checked, only
   * directories reach the callback, and a traversal error stops the walk
   * as `ExtractError::Message`.
   */
  method ForEachDirectory(items: WalkItems) returns (directories: seq<Path>, failure: Option<ExtractError>)
    ensures (directories, failure) == WalkOf(items)
  {
    directories := [];
    var i := 0;
    assert items[0..] == items;
    assert [] + WalkOf(items).0 == WalkOf(items).0;
    while i < |items|
      invariant 0 <= i <= |items|
      invariant WalkOf(items) == (directories + WalkOf(items[i..]).0, WalkOf(items[i..]).1)
    {
      assert items[i..][1..] == items[i + 1..];
      var item := items[i];
      if item.Err? {
        assert directories + [] == directories;
        failure := Some(Message(item.error));
        return;
      }
      if item.value.fileType == Directory {
        assert directories + ([item.value.path] + WalkOf(items[i + 1..]).0)
          == directories + [item.value.path] + WalkOf(items[i + 1..]).0;
        directories := directories + [item.value.path];
      }
      i := i + 1;
    }
    assert items[i..] == [];
    assert directories + [] == directories;
    failure := None;
  }

  /**
   * Only directory entries reach the callback; when the traversal does not
   * fail they are all the directory entries, in traversal order.
   */
  lemma {:induction false} WalkYieldsDirectories(items: WalkItems)
    ensures forall p :: p in WalkOf(items).0 ==> DirEntry(p, Directory) in OkValues(items)
    ensures WalkOf(items).1.None? <==> forall k :: 0 <= k < |items| ==> items[k].Ok?
    ensures WalkOf(items).1.None? ==> WalkOf(items).0 == DirectoryPaths(items)
    decreases |items|
  {
    if items != [] {
      WalkYieldsDirectories(items[1..]);
      assert OkValues(items) == (if items[0].Ok? then [items[0].value] else []) + OkValues(items[1..]);
      assert forall k :: 1 <= k < |items| ==> items[k] == items[1..][k - 1];
    }
  }

  /** The successful items of a sequence of results. */
  function OkValues<T, E>(items: seq<Result<T, E>>): seq<T>
    decreases |items|
  {
    if items == [] then []
    else (if items[0].Ok? then [items[0].value] else []) + OkValues(items[1..])
  }

  // ---------------------------------------------------------------------
  // list_files_in_dir
  // ---------------------------------------------------------------------

  /** One entry of `fs::read_dir`; reading its file type can fail. */
  datatype ReadDirEntry = ReadDirEntry(path: Path, fileType: Result<FileType, string>)

  /** What `fs::read_dir(dir)` gives: an error, or entries each of which can be an error. */
  type ReadDir = Result<seq<Result<ReadDirEntry, string>>, string>

  /** Prepend paths to a successful result. */
  function PrependFiles(files: seq<Path>, r: Result<seq<Path>, ExtractError>): Result<seq<Path>, ExtractError> {
    match r
    case Err(e) => Err(e)
    case Ok(rest) => Ok(files + rest)
  }

  lemma PrependFilesConcat(a: seq<Path>, b: seq<Path>, r: Result<seq<Path>, ExtractError>)
    ensures PrependFiles(a, PrependFiles(b, r)) == PrependFiles(a + b, r)
    ensures PrependFiles([], r) == r
  {
    if r.Ok? {
      assert a + (b + r.value) == a + b + r.value;
      assert [] + r.value == r.value;
    }
  }

  function CollectFiles(items: seq<Result<ReadDirEntry, string>>): Result<seq<Path>, ExtractError>
    decreases |items|
  {
    if items == [] then Ok([])
    else
      match items[0]
      case Err(e) => Err(Io(e))
      case Ok(entry) =>
        match entry.fileType
        case Err(e) => Err(Io(e))
        case Ok(t) => PrependFiles(if t == RegularFile then [entry.path] else [], CollectFiles(items[1..]))
  }

  /** What `list_files_in_dir` returns for a `read_dir` outcome. */
  function ListingOf(readDir: ReadDir): Result<seq<Path>, ExtractError> {
    match readDir
    case Err(e) => Err(Io(e))
    case Ok(items) => CollectFiles(items)
  }

  /** The paths of the regular-file entries, in listing order. */
  function RegularPaths(items: seq<Result<ReadDirEntry, string>>): seq<Path>
    decreases |items|
  {
    if items == [] then []
    else
      var rest := RegularPaths(items[1..]);
      if items[0].Ok? && items[0].value.fileType == Ok(RegularFile) then [items[0].value.path] + rest else rest
  }

  /** Every entry and its file type could be read. */
  predicate AllReadable(items: seq<Result<ReadDirEntry, string>>) {
    forall k :: 0 <= k < |items| ==> items[k].Ok? && items[k].value.fileType.Ok?
  }

  /**
   * `FsPorts::list_files_in_dir`: push the path of every regular file, in
   * listing order; the first I/O error ends the listing as `ExtractError::Io`.
   */
  method ListFilesInDir(readDir: ReadDir) returns (r: Result<seq<Path>, ExtractError>)
    ensures r == ListingOf(readDir)
  {
    if readDir.Err? {
      return Err(Io(readDir.error));
    }
    var items := readDir.value;
    var files := [];
    var i := 0;
    assert items[0..] == items;
    PrependFilesConcat([], [], CollectFiles(items));
    while i < |items|
      invariant 0 <= i <= |items|
      invariant CollectFiles(items) == PrependFiles(files, CollectFiles(items[i..]))
    {
      assert items[i..][1..] == items[i + 1..];
      var item := items[i];
      if item.Err? {
        return Err(Io(item.error));
      }
      var fileType := item.value.fileType;
      if fileType.Err? {
        return Err(Io(fileType.error));
      }
      if fileType.value == RegularFile {
        PrependFilesConcat(files, [item.value.path], CollectFiles(items[i + 1..]));
        files := files + [item.value.path];
      } else {
        PrependFilesConcat([], [], CollectFiles(items[i + 1..]));
      }
      i := i + 1;
    }
    assert items[i..] == [];
    assert files + [] == files;
    r := Ok(files);
  }

  /** The listing succeeds exactly when every entry is readable, and then holds the regular files in order. */
  lemma {:induction false} ListingIsRegularFiles(items: seq<Result<ReadDirEntry, string>>)
    ensures CollectFiles(items).Ok? <==> AllReadable(items)
    ensures CollectFiles(items).Ok? ==> CollectFiles(items).value == RegularPaths(items)
    decreases |items|
  {
    if items != [] {
      ListingIsRegularFiles(items[1..]);
      assert forall k :: 1 <= k < |items| ==> items[k] == items[1..][k - 1];
    }
  }

  // ---------------------------------------------------------------------
  // extract_zip_entry_if_exists
  // ---------------------------------------------------------------------

  datatype ZipEntryOutcome = Extracted | NotFound | InvalidZip(reason: string)

  /**
   * One entry of an archive: its stored name, whether it is a directory,
   * the error `by_index` reports for it, and the error copying its bytes
   * out reports.
   */
  datatype ZipEntry = ZipEntry(name: string, isDir: bool, readError: Option<string>, copyError: Option<string>)

  /** An archive file: the errors opening and parsing it report, and its entries in index order. */
  datatype ZipFile = ZipFile(openError: Option<string>, parseError: Option<string>, entries: seq<ZipEntry>)

  /** The output file created at `path` from entry `entry`; `complete` is false when the copy failed. */
  datatype Output = Output(path: Path, entry: nat, complete: bool)

  datatype Extraction = Extraction(outcome: ZipEntryOutcome, output: Option<Output>)

  /** A file entry whose last path component is exactly `entryName`. */
  predicate Matches(e: ZipEntry, entryName: string) {
    !e.isDir && FileName(e.name) == Some(entryName)
  }

  datatype Search = Found(index: nat) | ReadFailed(reason: string) | Absent

  /** The index loop of `extract_zip_entry_if_exists`, from index `from` on. */
  function FindEntry(entries: seq<ZipEntry>, entryName: string, from: nat): (r: Search)
    ensures r.Found? ==> from <= r.index < |entries|
    decreases |entries| - from
  {
    if from >= |entries| then Absent
    else if entries[from].readError.Some? then ReadFailed(entries[from].readError.value)
    else if Matches(entries[from], entryName) then Found(from)
    else FindEntry(entries, entryName, from + 1)
  }

  /** Entries `from` up to `k` are readable and none of them matches. */
  predicate NoMatchBetween(entries: seq<ZipEntry>, entryName: string, from: nat, k: nat)
    requires k <= |entries|
  {
    forall j :: from <= j < k ==> entries[j].readError.None? && !Matches(entries[j], entryName)
  }

  /** Entry `k` is the first match at or after `from`, and every entry before it was read. */
  predicate FirstMatchAt(entries: seq<ZipEntry>, entryName: string, from: nat, k: nat) {
    && from <= k < |entries|
    && entries[k].readError.None?
    && Matches(entries[k], entryName)
    && NoMatchBetween(entries, entryName, from, k)
  }

  /**
   * The search finds the first matching entry in index order, skipping
   * directories and non-matching files; it stops at the first entry that
   * cannot be read; it finds nothing only when every entry is readable and
   * none matches.
   */
  lemma {:induction false} FindEntryIsFirstMatch(entries: seq<ZipEntry>, entryName: string, from: nat)
    ensures forall k :: FindEntry(entries, entryName, from) == Found(k) <==> FirstMatchAt(entries, entryName, from, k)
    ensures FindEntry(entries, entryName, from) == Absent <==>
      from >= |entries| || NoMatchBetween(entries, entryName, from, |entries|)
    ensures FindEntry(entries, entryName, from).ReadFailed? ==>
      exists k :: from <= k < |entries| && NoMatchBetween(entries, entryName, from, k)
        && entries[k].readError == Some(FindEntry(entries, entryName, from).reason)
    decreases |entries| - from
  {
    if from < |entries| {
      FindEntryIsFirstMatch(entries, entryName, from + 1);
    }
  }

  /** What `extract_zip_entry_if_exists` does with an archive. */
  function ExtractionOf(zip: ZipFile, entryName: string, outputDir: Path, create: Path -> Option<string>): Extraction {
    if zip.openError.Some? then Extraction(InvalidZip(zip.openError.value), None)
    else if zip.parseError.Some? then Extraction(InvalidZip(zip.parseError.value), None)
    else
      match FindEntry(zip.entries, entryName, 0)
      case ReadFailed(reason) => Extraction(InvalidZip(reason), None)
      case Absent => Extraction(NotFound, None)
      case Found(k) =>
        var outputPath := Join(outputDir, entryName);
        match create(outputPath)
        case Some(reason) => Extraction(InvalidZip(reason), None)
        case None =>
          match zip.entries[k].copyError
          case Some(reason) => Extraction(InvalidZip(reason), Some(Output(outputPath, k, false)))
          case None => Extraction(Extracted, Some(Output(outputPath, k, true)))
  }

  /**
   * `FsPorts::extract_zip_entry_if_exists`: open and parse the archive,
   * walk its entries by index, and copy the first file entry whose name
   * ends in `entryName` to `outputDir/entryName`. Every failure is an
   * `InvalidZip` outcome; the result is never an error.
   */
  method ExtractZipEntryIfExists(zip: ZipFile, entryName: string, outputDir: Path, create: Path -> Option<string>)
    returns (r: Result<ZipEntryOutcome, ExtractError>, output: Option<Output>)
    ensures r.Ok?
    ensures r.value == ExtractionOf(zip, entryName, outputDir, create).outcome
    ensures output == ExtractionOf(zip, entryName, outputDir, create).output
  {
    output := None;
    if zip.openError.Some? {
      return Ok(InvalidZip(zip.openError.value)), None;
    }
    if zip.parseError.Some? {
      return Ok(InvalidZip(zip.parseError.value)), None;
    }
    var entries := zip.entries;
    var index := 0;
    while index < |entries|
      invariant 0 <= index <= |entries|
      invariant FindEntry(entries, entryName, index) == FindEntry(entries, entryName, 0)
    {
      var entry := entries[index];
      if entry.readError.Some? {
        return Ok(InvalidZip(entry.readError.value)), None;
      }
      if entry.isDir {
        index := index + 1;
        continue;
      }
      if FileName(entry.name) == Some(entryName) {
        var outputPath := Join(outputDir, entryName);
        var created := create(outputPath);
        if created.Some? {
          return Ok(InvalidZip(created.value)), None;
        }
        if entry.copyError.Some? {
          return Ok(InvalidZip(entry.copyError.value)), Some(Output(outputPath, index, false));
        }
        return Ok(Extracted), Some(Output(outputPath, index, true));
      }
      index := index + 1;
    }
    r := Ok(NotFound);
  }

  /**
   * The outcome is `Extracted` exactly when the archive opens and parses,
   * some entry is the first match, the output file can be created and the
   * copy succeeds; `NotFound` exactly when every entry is readable and none
   * matches. An output file exists only for the first matching entry, at
   * `outputDir` joined with the entry name, and is named exactly that.
   */
  lemma ExtractionSelectsFirstMatch(zip: ZipFile, entryName: string, outputDir: Path, create: Path -> Option<string>)
    ensures var x := ExtractionOf(zip, entryName, outputDir, create);
      var readable := zip.openError.None? && zip.parseError.None?;
      var outputPath := Join(outputDir, entryName);
      && (x.outcome == Extracted <==>
            readable && create(outputPath).None?
            && exists k: nat :: FirstMatchAt(zip.entries, entryName, 0, k) && zip.entries[k].copyError.None?)
      && (x.outcome == NotFound <==> readable && NoMatchBetween(zip.entries, entryName, 0, |zip.entries|))
      && (x.output.Some? ==>
            && x.output.value.path == outputPath
            && FirstMatchAt(zip.entries, entryName, 0, x.output.value.entry)
            && (x.output.value.complete <==> x.outcome == Extracted))
      && (x.outcome == Extracted ==> x.output.Some?)
      && (x.outcome.NotFound? ==> x.output.None?)
  {
    FindEntryIsFirstMatch(zip.entries, entryName, 0);
  }

  /** A stored name with directory components still matches on its last component. */
  lemma NestedEntryMatches(dirs: string, entryName: string, readError: Option<string>, copyError: Option<string>)
    requires IsNormalName(entryName)
    requires dirs == [] || dirs[|dirs| - 1] == '/'
    ensures Matches(ZipEntry(dirs + entryName, false, readError, copyError), entryName)
  {
    FileNameAfterSeparator(dirs, entryName);
  }

  /** The output file of `model_info.json` is named exactly that, inside the output directory. */
  lemma OutputNamedAfterEntry(outputDir: Path)
    ensures FileName(Join(outputDir, ModelInfoFileName)) == Some(ModelInfoFileName)
    ensures outputDir != [] && outputDir[|outputDir| - 1] != '/' ==>
      Join(outputDir, ModelInfoFileName) == outputDir + "/" + ModelInfoFileName
    ensures outputDir == [] || outputDir[|outputDir| - 1] == '/' ==>
      Join(outputDir, ModelInfoFileName) == outputDir + ModelInfoFileName
  {
    assert ModelInfoFileName[0] == 'm';
    assert forall k :: 0 <= k < |ModelInfoFileName| ==> ModelInfoFileName[k] != '/';
    JoinFileName(outputDir, ModelInfoFileName);
  }

  // ---------------------------------------------------------------------
  // FsPorts as the ports of a run
  // ---------------------------------------------------------------------

  /**
   * The ports `FsPorts` gives a run over a traversal, the `read_dir`
   * outcome of every directory, the archive at every path and the result
   * of creating every output file; the outcome `Extracted` is the run's
   * `true`.
   */
  function FsPorts(walk: WalkItems, readDir: Path -> ReadDir, archives: Path -> ZipFile, create: Path -> Option<string>): Ports {
    var w := WalkOf(walk);
    Ports(
      w.0, w.1,
      (dir: Path) => ListingOf(readDir(dir)),
      (zip: Path, name: string, out: Path) => Ok(ExtractionOf(archives(zip), name, out, create).outcome.Extracted?))
  }

  /**
   * With the file-system ports a broken archive never aborts the run: it
   * fails only on a traversal error or a directory it cannot list.
   */
  lemma FsRunFailsOnlyOnWalkOrListing(walk: WalkItems, readDir: Path -> ReadDir, archives: Path -> ZipFile,
                                      create: Path -> Option<string>, root: Path)
    ensures var ports := FsPorts(walk, readDir, archives, create);
      RunResult(ports, root).Err? <==>
        WalkOf(walk).1.Some? || exists k :: 0 <= k < |ports.directories| && ListingOf(readDir(ports.directories[k])).Err?
  {
    var ports := FsPorts(walk, readDir, archives, create);
    RunSucceedsIff(ports, root);
    forall d | ports.listFiles(d).Ok?
      ensures !DirFaults(ports, d)
    {
      var zips := ZipFiles(ports.listFiles(d).value);
      assert forall k :: 0 <= k < |zips| ==> ports.extractZip(zips[k], ModelInfoFileName, d).Ok?;
    }
  }

  // ---------------------------------------------------------------------
  // format_stats and LineProgressReporter
  // ---------------------------------------------------------------------

  /** A tag, a counter in decimal, and what follows. */
  function Field(tag: string, n: nat, rest: string): string {
    tag + NatToString(n) + rest
  }

  /** `format_stats`: the spinner message, which leaves out the marker-directory count. */
  function FormatStats(s: ExtractStats): string {
    Field("dirs: ", s.directoriesScanned,
      Field(" zip: ", s.zipFilesChecked,
        Field(" extracted: ", s.extracted, "")))
  }

  /** The line `on_update` writes: all four counters, after a carriage return. */
  function StatsLine(s: ExtractStats): string {
    Field("\rdirs: ", s.directoriesScanned,
      Field(" safetensors: ", s.safetensorsDirectories,
        Field(" zip: ", s.zipFilesChecked,
          Field(" extracted: ", s.extracted, ""))))
  }

  /** Two records get the same spinner message exactly when they agree on the three counters it shows. */
  lemma FormatStatsShowsThreeCounters(a: ExtractStats, b: ExtractStats)
    ensures FormatStats(a) == FormatStats(b) <==>
      && a.directoriesScanned == b.directoriesScanned
      && a.zipFilesChecked == b.zipFilesChecked
      && a.extracted == b.extracted
  {
    if FormatStats(a) == FormatStats(b) {
      var e1 := Field(" extracted: ", a.extracted, "");
      var e2 := Field(" extracted: ", b.extracted, "");
      var z1 := Field(" zip: ", a.zipFilesChecked, e1);
      var z2 := Field(" zip: ", b.zipFilesChecked, e2);
      assert z1[0] == ' ' && z2[0] == ' ';
      NumeralFieldUnique("dirs: ", a.directoriesScanned, z1, b.directoriesScanned, z2);
      assert e1[0] == ' ' && e2[0] == ' ';
      NumeralFieldUnique(" zip: ", a.zipFilesChecked, e1, b.zipFilesChecked, e2);
      NumeralFieldUnique(" extracted: ", a.extracted, "", b.extracted, "");
    }
  }

  /** Distinct snapshots always produce distinct lines, so de-duplication drops only true repeats. */
  lemma StatsLineInjective(a: ExtractStats, b: ExtractStats)
    ensures StatsLine(a) == StatsLine(b) <==> a == b
  {
    if StatsLine(a) == StatsLine(b) {
      var e1 := Field(" extracted: ", a.extracted, "");
      var e2 := Field(" extracted: ", b.extracted, "");
      var z1 := Field(" zip: ", a.zipFilesChecked, e1);
      var z2 := Field(" zip: ", b.zipFilesChecked, e2);
      var s1 := Field(" safetensors: ", a.safetensorsDirectories, z1);
      var s2 := Field(" safetensors: ", b.safetensorsDirectories, z2);
      assert s1[0] == ' ' && s2[0] == ' ';
      NumeralFieldUnique("\rdirs: ", a.directoriesScanned, s1, b.directoriesScanned, s2);
      assert z1[0] == ' ' && z2[0] == ' ';
      NumeralFieldUnique(" safetensors: ", a.safetensorsDirectories, z1, b.safetensorsDirectories, z2);
      assert e1[0] == ' ' && e2[0] == ' ';
      NumeralFieldUnique(" zip: ", a.zipFilesChecked, e1, b.zipFilesChecked, e2);
      NumeralFieldUnique(" extracted: ", a.extracted, "", b.extracted, "");
      EqualityIsFieldwise(a, b);
    }
  }

  /**
   * A reporter that writes lines into a buffer: the scanning line once, a
   * stats line whenever the counters differ from the last ones written, a
   * line per invalid archive, and a final newline.
   */
  class LineProgressReporter {
    var writer: string
    var lastStats: ExtractStats
    var started: bool

    constructor WithWriter(initial: string)
      ensures writer == initial && lastStats == Default() && !started
    {
      writer := initial;
      lastStats := Default();
      started := false;
    }

    /** `into_inner`: the bytes written so far. */
    function IntoInner(): string
      reads this
    {
      writer
    }

    method OnStart(root: Path)
      modifies this
      ensures started && lastStats == old(lastStats)
      ensures writer == old(writer) + if old(started) then "" else "scanning: " + root + "\n"
    {
      if started {
        return;
      }
      writer := writer + ("scanning: " + root + "\n");
      started := true;
    }

    method OnUpdate(stats: ExtractStats)
      modifies this
      ensures started == old(started) && lastStats == stats
      ensures writer == old(writer) + if stats == old(lastStats) then "" else StatsLine(stats)
    {
      if stats == lastStats {
        return;
      }
      writer := writer + StatsLine(stats);
      lastStats := stats;
    }

    method OnInvalidZip(zipPath: Path, reason: string)
      modifies this
      ensures started == old(started) && lastStats == old(lastStats)
      ensures writer == old(writer) + ("\ninvalid zip: " + zipPath + " (" + reason + ")\n")
    {
      writer := writer + ("\ninvalid zip: " + zipPath + " (" + reason + ")\n");
    }

    /** `on_update` and then a newline: unchanged counters add no second stats line. */
    method OnFinish(stats: ExtractStats)
      modifies this
      ensures started == old(started) && lastStats == stats
      ensures writer == old(writer) + (if stats == old(lastStats) then "" else StatsLine(stats)) + "\n"
    {
      OnUpdate(stats);
      writer := writer + "\n";
    }
  }

  lemma SingleDigitField(tag: string, n: nat, rest: string)
    requires n < 10
    ensures Field(tag, n, rest) == tag + [DigitChar(n)] + rest
  {
  }
}
