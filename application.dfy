/**
 * The extraction run of src/application.rs: walk the directories, classify
 * each directory's files by extension, and in directories that hold a
 * `.safetensors` file ask the extraction port for `model_info.json` from
 * every `.zip`, counting as it goes and reporting progress.
 *
 * The ports are abstract: the traversal is the sequence of directories it
 * hands to the callback followed by the error that ended it, if any; the
 * listing and extraction ports are functions from their arguments to their
 * results; the reporter is the log of the calls it receives.
 */
module Application {
  import opened Wrappers
  import opened Domain
  import opened Paths

  datatype ExtractError = Io(reason: string) | Message(text: string)

  /** One call on the progress reporter. */
  datatype Event = Start(root: Path) | Update(stats: ExtractStats) | Finish(stats: ExtractStats)

  /** The `FilePorts` the run is given. */
  datatype Ports = Ports(
    directories: seq<Path>,
    walkFailure: Option<ExtractError>,
    listFiles: Path -> Result<seq<Path>, ExtractError>,
    extractZip: (Path, string, Path) -> Result<bool, ExtractError>)

  // ---------------------------------------------------------------------
  // Classification of a directory listing
  // ---------------------------------------------------------------------

  /** A weights marker: extension exactly `safetensors` (case-sensitive). */
  predicate IsMarker(p: Path) {
    Extension(p) == Some("safetensors")
  }

  /** A candidate archive: extension exactly `zip` (case-sensitive). */
  predicate IsArchive(p: Path) {
    Extension(p) == Some("zip")
  }

  /** Some listed file is a weights marker. */
  predicate HasMarker(files: seq<Path>) {
    files != [] && (HasMarker(files[..|files| - 1]) || IsMarker(files[|files| - 1]))
  }

  lemma {:induction false} HasMarkerExists(files: seq<Path>)
    ensures HasMarker(files) <==> exists k :: 0 <= k < |files| && IsMarker(files[k])
  {
    if HasMarker(files) {
      MarkerHasWitness(files);
    }
    forall k | 0 <= k < |files| && IsMarker(files[k])
      ensures HasMarker(files)
    {
      WitnessGivesMarker(files, k);
    }
  }

  lemma {:induction false} MarkerHasWitness(files: seq<Path>)
    requires HasMarker(files)
    ensures exists k :: 0 <= k < |files| && IsMarker(files[k])
    decreases |files|
  {
    var init := files[..|files| - 1];
    if HasMarker(init) {
      MarkerHasWitness(init);
      var k :| 0 <= k < |init| && IsMarker(init[k]);
      assert files[k] == init[k];
    } else {
      assert IsMarker(files[|files| - 1]);
    }
  }

  lemma {:induction false} WitnessGivesMarker(files: seq<Path>, k: nat)
    requires k < |files| && IsMarker(files[k])
    ensures HasMarker(files)
    decreases |files|
  {
    var init := files[..|files| - 1];
    if k < |init| {
      assert init[k] == files[k];
      WitnessGivesMarker(init, k);
    }
  }

  /** The candidate archives of a listing, in listing order. */
  function ZipFiles(files: seq<Path>): (r: seq<Path>)
    ensures |r| <= |files|
  {
    if files == [] then []
    else
      var last := files[|files| - 1];
      ZipFiles(files[..|files| - 1]) + if IsArchive(last) then [last] else []
  }

  /** The candidate archives are exactly the listed files with extension `zip`. */
  lemma {:induction false} ZipFilesMembers(files: seq<Path>)
    ensures forall p :: p in ZipFiles(files) <==> p in files && IsArchive(p)
    decreases |files|
  {
    if files != [] {
      var init := files[..|files| - 1];
      ZipFilesMembers(init);
      assert files == init + [files[|files| - 1]];
    }
  }

  /** Classification keeps the listing order: it distributes over concatenation. */
  lemma {:induction false} ZipFilesAppend(a: seq<Path>, b: seq<Path>)
    ensures ZipFiles(a + b) == ZipFiles(a) + ZipFiles(b)
    decreases |b|
  {
    if b == [] {
      assert a + b == a;
    } else {
      var b' := b[..|b| - 1];
      assert (a + b)[..|a + b| - 1] == a + b';
      assert (a + b)[|a + b| - 1] == b[|b| - 1];
      ZipFilesAppend(a, b');
    }
  }

  /** The loop of the directory callback that sets `has_safetensors` and collects `zip_files`. */
  method ClassifyFiles(files: seq<Path>) returns (hasSafetensors: bool, zipFiles: seq<Path>)
    ensures hasSafetensors == HasMarker(files)
    ensures zipFiles == ZipFiles(files)
  {
    hasSafetensors := false;
    zipFiles := [];
    var i := 0;
    while i < |files|
      invariant 0 <= i <= |files|
      invariant hasSafetensors == HasMarker(files[..i])
      invariant zipFiles == ZipFiles(files[..i])
    {
      var file := files[i];
      assert files[..i + 1][..i] == files[..i];
      assert files[..i + 1][i] == file;
      var ext := Extension(file);
      if ext == Some("safetensors") {
        hasSafetensors := true;
      } else if ext == Some("zip") {
        zipFiles := zipFiles + [file];
      }
      i := i + 1;
    }
    assert files[..i] == files;
  }

  // ---------------------------------------------------------------------
  // The run, step by step
  // ---------------------------------------------------------------------

  /** The arguments of one call to `extract_zip_entry_if_exists`. */
  datatype ZipRequest = ZipRequest(zip: Path, entryName: string, outputDir: Path)

  /**
   * The run's state: the live counters, the reporter calls so far, the
   * extraction requests made so far, and the error that aborted it, if any.
   */
  datatype Scan = Scan(
    stats: ExtractStats,
    log: seq<Event>,
    requests: seq<ZipRequest>,
    failure: Option<ExtractError>)

  /** One pass of the inner loop: count the archive, inspect it, report. */
  function ZipStep(ports: Ports, dir: Path, zip: Path, sc: Scan): Scan {
    if sc.failure.Some? then sc
    else
      var checked := sc.stats.(zipFilesChecked := sc.stats.zipFilesChecked + 1);
      var requests := sc.requests + [ZipRequest(zip, ModelInfoFileName, dir)];
      match ports.extractZip(zip, ModelInfoFileName, dir)
      case Err(e) => Scan(checked, sc.log, requests, Some(e))
      case Ok(done) =>
        var stats := if done then checked.(extracted := checked.extracted + 1) else checked;
        Scan(stats, sc.log + [Update(stats)], requests, None)
  }

  function ScanZips(ports: Ports, dir: Path, zips: seq<Path>, sc: Scan): Scan
    decreases |zips|
  {
    if zips == [] then sc
    else ScanZips(ports, dir, zips[1..], ZipStep(ports, dir, zips[0], sc))
  }

  /** One call of the directory callback. */
  function DirStep(ports: Ports, dir: Path, sc: Scan): Scan {
    if sc.failure.Some? then sc
    else
      var scanned := sc.stats.(directoriesScanned := sc.stats.directoriesScanned + 1);
      match ports.listFiles(dir)
      case Err(e) => Scan(scanned, sc.log, sc.requests, Some(e))
      case Ok(files) =>
        if HasMarker(files) then
          var marked := scanned.(safetensorsDirectories := scanned.safetensorsDirectories + 1);
          ScanZips(ports, dir, ZipFiles(files), Scan(marked, sc.log + [Update(marked)], sc.requests, None))
        else
          Scan(scanned, sc.log + [Update(scanned)], sc.requests, None)
  }

  function ScanDirs(ports: Ports, dirs: seq<Path>, sc: Scan): Scan
    decreases |dirs|
  {
    if dirs == [] then sc
    else ScanDirs(ports, dirs[1..], DirStep(ports, dirs[0], sc))
  }

  /** The state right after `on_start(root)`. */
  function Started(root: Path): Scan {
    Scan(Default(), [Start(root)], [], None)
  }

  /** The state once the traversal has handed over every directory or a callback failed. */
  function Finished(ports: Ports, root: Path): Scan {
    ScanDirs(ports, ports.directories, Started(root))
  }

  /** What `extract_model_info` returns. */
  function RunResult(ports: Ports, root: Path): Result<ExtractStats, ExtractError> {
    var sc := Finished(ports, root);
    if sc.failure.Some? then Err(sc.failure.value)
    else if ports.walkFailure.Some? then Err(ports.walkFailure.value)
    else Ok(sc.stats)
  }

  /** The calls the reporter receives during the run. */
  function RunLog(ports: Ports, root: Path): seq<Event> {
    var sc := Finished(ports, root);
    if RunResult(ports, root).Ok? then sc.log + [Finish(sc.stats)] else sc.log
  }

  lemma {:induction false} ScanZipsFailed(ports: Ports, dir: Path, zips: seq<Path>, sc: Scan)
    requires sc.failure.Some?
    ensures ScanZips(ports, dir, zips, sc) == sc
    decreases |zips|
  {
    if zips != [] {
      ScanZipsFailed(ports, dir, zips[1..], sc);
    }
  }

  lemma {:induction false} ScanDirsFailed(ports: Ports, dirs: seq<Path>, sc: Scan)
    requires sc.failure.Some?
    ensures ScanDirs(ports, dirs, sc) == sc
    decreases |dirs|
  {
    if dirs != [] {
      ScanDirsFailed(ports, dirs[1..], sc);
    }
  }

  /**
   * The directory callback of `extract_model_info`: count the directory,
   * list and classify its files, and in a marker directory count and
   * inspect every archive, reporting after each step. A port error ends the
   * callback with that error.
   */
  method ScanDirectory(ports: Ports, dir: Path, stats0: ExtractStats, log0: seq<Event>, ghost inspected0: seq<ZipRequest>)
    returns (stats: ExtractStats, log: seq<Event>, ghost inspected: seq<ZipRequest>, failure: Option<ExtractError>)
    ensures stats == DirStep(ports, dir, Scan(stats0, log0, inspected0, None)).stats
    ensures log == DirStep(ports, dir, Scan(stats0, log0, inspected0, None)).log
    ensures failure == DirStep(ports, dir, Scan(stats0, log0, inspected0, None)).failure
    ensures inspected == DirStep(ports, dir, Scan(stats0, log0, inspected0, None)).requests
  {
    ghost var target := DirStep(ports, dir, Scan(stats0, log0, inspected0, None));
    stats, log, inspected, failure := stats0, log0, inspected0, None;
    stats := stats.(directoriesScanned := stats.directoriesScanned + 1);
    var listing := ports.listFiles(dir);
    if listing.Err? {
      failure := Some(listing.error);
      assert target == Scan(stats, log, inspected, failure);
      return;
    }
    var hasSafetensors, zipFiles := ClassifyFiles(listing.value);
    if !hasSafetensors {
      log := log + [Update(stats)];
      assert target == Scan(stats, log, inspected, failure);
      return;
    }
    stats := stats.(safetensorsDirectories := stats.safetensorsDirectories + 1);
    log := log + [Update(stats)];
    assert target == ScanZips(ports, dir, zipFiles, Scan(stats, log, inspected, None));
    stats, log, inspected, failure := InspectArchives(ports, dir, zipFiles, stats, log, inspected);
  }

  /** The loop over `zip_files` of a directory holding a weights marker. */
  method InspectArchives(ports: Ports, dir: Path, zipFiles: seq<Path>,
                         stats0: ExtractStats, log0: seq<Event>, ghost inspected0: seq<ZipRequest>)
    returns (stats: ExtractStats, log: seq<Event>, ghost inspected: seq<ZipRequest>, failure: Option<ExtractError>)
    ensures stats == ScanZips(ports, dir, zipFiles, Scan(stats0, log0, inspected0, None)).stats
    ensures log == ScanZips(ports, dir, zipFiles, Scan(stats0, log0, inspected0, None)).log
    ensures failure == ScanZips(ports, dir, zipFiles, Scan(stats0, log0, inspected0, None)).failure
    ensures inspected == ScanZips(ports, dir, zipFiles, Scan(stats0, log0, inspected0, None)).requests
  {
    ghost var target := ScanZips(ports, dir, zipFiles, Scan(stats0, log0, inspected0, None));
    stats, log, inspected, failure := stats0, log0, inspected0, None;
    assert zipFiles[0..] == zipFiles;
    var j := 0;
    while j < |zipFiles|
      invariant 0 <= j <= |zipFiles|
      invariant ScanZips(ports, dir, zipFiles[j..], Scan(stats, log, inspected, None)) == target
    {
      var zipPath := zipFiles[j];
      assert zipFiles[j..][1..] == zipFiles[j + 1..];
      ghost var next := ZipStep(ports, dir, zipPath, Scan(stats, log, inspected, None));
      assert ScanZips(ports, dir, zipFiles[j + 1..], next) == target;
      stats := stats.(zipFilesChecked := stats.zipFilesChecked + 1);
      inspected := inspected + [ZipRequest(zipPath, ModelInfoFileName, dir)];
      var extracted := ports.extractZip(zipPath, ModelInfoFileName, dir);
      if extracted.Err? {
        failure := Some(extracted.error);
        assert next == Scan(stats, log, inspected, failure);
        ScanZipsFailed(ports, dir, zipFiles[j + 1..], next);
        return;
      }
      if extracted.value {
        stats := stats.(extracted := stats.extracted + 1);
      }
      log := log + [Update(stats)];
      assert next == Scan(stats, log, inspected, None);
      j := j + 1;
    }
  }

  /**
   * `extract_model_info`: report the start, run the directory callback on
   * every directory the traversal yields, stop at the first error (the
   * callback's or the traversal's), and otherwise report the finish and
   * return the counters.
   */
  method ExtractModelInfo(ports: Ports, root: Path)
    returns (result: Result<ExtractStats, ExtractError>, log: seq<Event>, ghost inspected: seq<ZipRequest>)
    ensures result == RunResult(ports, root)
    ensures log == RunLog(ports, root)
    ensures inspected == Finished(ports, root).requests
  {
    var stats := Default();
    log := [Start(root)];
    inspected := [];
    ghost var target := Finished(ports, root);
    var dirs := ports.directories;
    var i := 0;
    while i < |dirs|
      invariant 0 <= i <= |dirs|
      invariant ScanDirs(ports, dirs[i..], Scan(stats, log, inspected, None)) == target
    {
      assert dirs[i..][1..] == dirs[i + 1..];
      var failure;
      stats, log, inspected, failure := ScanDirectory(ports, dirs[i], stats, log, inspected);
      if failure.Some? {
        ScanDirsFailed(ports, dirs[i + 1..], Scan(stats, log, inspected, failure));
        result := Err(failure.value);
        return;
      }
      i := i + 1;
    }
    if ports.walkFailure.Some? {
      result := Err(ports.walkFailure.value);
      return;
    }
    log := log + [Finish(stats)];
    result := Ok(stats);
  }

  // ---------------------------------------------------------------------
  // Reference definitions: what a run does, directory by directory
  // ---------------------------------------------------------------------

  /** The requests made for the archives `zips` of directory `dir`. */
  function RequestsFor(dir: Path, zips: seq<Path>): (r: seq<ZipRequest>)
    ensures |r| == |zips|
    decreases |zips|
  {
    if zips == [] then [] else [ZipRequest(zips[0], ModelInfoFileName, dir)] + RequestsFor(dir, zips[1..])
  }

  /** How many of `zips` the port reports as extracted. */
  function CountExtracted(ports: Ports, dir: Path, zips: seq<Path>): (n: nat)
    ensures n <= |zips|
    decreases |zips|
  {
    if zips == [] then 0
    else
      (if ports.extractZip(zips[0], ModelInfoFileName, dir) == Ok(true) then 1 else 0)
      + CountExtracted(ports, dir, zips[1..])
  }

  /** Some archive of a marker directory makes the port fail. */
  predicate PortFails(ports: Ports, dir: Path, zips: seq<Path>) {
    exists k :: 0 <= k < |zips| && ports.extractZip(zips[k], ModelInfoFileName, dir).Err?
  }

  /** The directory is one the run aborts on. */
  predicate DirFaults(ports: Ports, dir: Path) {
    match ports.listFiles(dir)
    case Err(_) => true
    case Ok(files) => HasMarker(files) && PortFails(ports, dir, ZipFiles(files))
  }

  /** What one directory adds to the counters. */
  function DirTotals(ports: Ports, dir: Path): (t: ExtractStats)
    ensures WellFormed(t) && t.directoriesScanned == 1
  {
    match ports.listFiles(dir)
    case Err(_) => ExtractStats(1, 0, 0, 0)
    case Ok(files) =>
      if HasMarker(files) then
        var zips := ZipFiles(files);
        ExtractStats(1, 1, |zips|, CountExtracted(ports, dir, zips))
      else ExtractStats(1, 0, 0, 0)
  }

  /** The extraction requests one directory gives rise to. */
  function DirRequests(ports: Ports, dir: Path): seq<ZipRequest> {
    match ports.listFiles(dir)
    case Err(_) => []
    case Ok(files) => if HasMarker(files) then RequestsFor(dir, ZipFiles(files)) else []
  }

  /** The number of `on_update` calls one directory causes. */
  function DirUpdates(ports: Ports, dir: Path): nat {
    match ports.listFiles(dir)
    case Err(_) => 0
    case Ok(files) => if HasMarker(files) then 1 + |ZipFiles(files)| else 1
  }

  predicate AnyFault(ports: Ports, dirs: seq<Path>) {
    exists k :: 0 <= k < |dirs| && DirFaults(ports, dirs[k])
  }

  function Totals(ports: Ports, dirs: seq<Path>): (t: ExtractStats)
    ensures WellFormed(t) && t.directoriesScanned == |dirs|
    decreases |dirs|
  {
    if dirs == [] then Default() else Add(DirTotals(ports, dirs[0]), Totals(ports, dirs[1..]))
  }

  function Requests(ports: Ports, dirs: seq<Path>): seq<ZipRequest>
    decreases |dirs|
  {
    if dirs == [] then [] else DirRequests(ports, dirs[0]) + Requests(ports, dirs[1..])
  }

  function UpdateCount(ports: Ports, dirs: seq<Path>): nat
    decreases |dirs|
  {
    if dirs == [] then 0 else DirUpdates(ports, dirs[0]) + UpdateCount(ports, dirs[1..])
  }

  // ---------------------------------------------------------------------
  // What the steps do to the counters, the requests and the log
  // ---------------------------------------------------------------------

  /** Only counters, requests and log entries are added; nothing is taken away. */
  ghost predicate Grows(sc: Scan, r: Scan) {
    && Le(sc.stats, r.stats)
    && sc.requests <= r.requests
    && sc.log <= r.log
    && (forall k :: |sc.log| <= k < |r.log| ==> r.log[k].Update?)
  }

  lemma GrowsTransitive(a: Scan, b: Scan, c: Scan)
    requires Grows(a, b) && Grows(b, c)
    ensures Grows(a, c)
  {
    forall k | |a.log| <= k < |c.log|
      ensures c.log[k].Update?
    {
      if k < |b.log| {
        assert c.log[k] == b.log[k];
      }
    }
  }

  lemma {:induction false} ScanZipsOutcome(ports: Ports, dir: Path, zips: seq<Path>, sc: Scan)
    requires sc.failure.None?
    ensures var r := ScanZips(ports, dir, zips, sc);
      var bound := Add(sc.stats, ExtractStats(0, 0, |zips|, CountExtracted(ports, dir, zips)));
      && Grows(sc, r)
      && (r.failure.None? <==> !PortFails(ports, dir, zips))
      && Le(r.stats, bound)
      && r.stats.directoriesScanned == sc.stats.directoriesScanned
      && r.stats.safetensorsDirectories == sc.stats.safetensorsDirectories
      && r.requests <= sc.requests + RequestsFor(dir, zips)
      && (r.failure.None? ==>
            && r.stats == bound
            && r.requests == sc.requests + RequestsFor(dir, zips)
            && |r.log| == |sc.log| + |zips|)
    decreases |zips|
  {
    if zips != [] {
      var s1 := ZipStep(ports, dir, zips[0], sc);
      var rest := zips[1..];
      assert sc.requests + RequestsFor(dir, zips) == s1.requests + RequestsFor(dir, rest);
      assert forall k :: 1 <= k < |zips| ==> zips[k] == rest[k - 1];
      if s1.failure.Some? {
        ScanZipsFailed(ports, dir, rest, s1);
        assert ports.extractZip(zips[0], ModelInfoFileName, dir).Err?;
      } else {
        ScanZipsOutcome(ports, dir, rest, s1);
        if PortFails(ports, dir, rest) {
          var k :| 0 <= k < |rest| && ports.extractZip(rest[k], ModelInfoFileName, dir).Err?;
          assert ports.extractZip(zips[k + 1], ModelInfoFileName, dir).Err?;
        }
      }
    }
  }

  lemma DirStepOutcome(ports: Ports, dir: Path, sc: Scan)
    requires sc.failure.None?
    ensures var r := DirStep(ports, dir, sc);
      var bound := Add(sc.stats, DirTotals(ports, dir));
      && Grows(sc, r)
      && (r.failure.None? <==> !DirFaults(ports, dir))
      && Le(r.stats, bound)
      && r.requests <= sc.requests + DirRequests(ports, dir)
      && (r.failure.None? ==>
            && r.stats == bound
            && r.requests == sc.requests + DirRequests(ports, dir)
            && |r.log| == |sc.log| + DirUpdates(ports, dir))
  {
    var scanned := sc.stats.(directoriesScanned := sc.stats.directoriesScanned + 1);
    match ports.listFiles(dir)
    case Err(_) =>
    case Ok(files) =>
      if HasMarker(files) {
        var marked := scanned.(safetensorsDirectories := scanned.safetensorsDirectories + 1);
        ScanZipsOutcome(ports, dir, ZipFiles(files), Scan(marked, sc.log + [Update(marked)], sc.requests, None));
      }
  }

  lemma {:induction false} ScanDirsGrows(ports: Ports, dirs: seq<Path>, sc: Scan)
    requires sc.failure.None?
    ensures var r := ScanDirs(ports, dirs, sc);
      && Grows(sc, r)
      && Le(r.stats, Add(sc.stats, Totals(ports, dirs)))
      && r.requests <= sc.requests + Requests(ports, dirs)
    decreases |dirs|
  {
    if dirs == [] {
      assert sc.requests + [] == sc.requests;
    } else {
      var d := dirs[0];
      var rest := dirs[1..];
      var s1 := DirStep(ports, d, sc);
      var r := ScanDirs(ports, rest, s1);
      DirStepOutcome(ports, d, sc);
      assert ScanDirs(ports, dirs, sc) == r;
      assert Totals(ports, dirs) == Add(DirTotals(ports, d), Totals(ports, rest));
      assert Requests(ports, dirs) == DirRequests(ports, d) + Requests(ports, rest);
      if s1.failure.Some? {
        ScanDirsFailed(ports, rest, s1);
        GrowsReflexive(s1);
      } else {
        ScanDirsGrows(ports, rest, s1);
      }
      GrowsCompose(sc, s1, r, DirTotals(ports, d), Totals(ports, rest), DirRequests(ports, d), Requests(ports, rest));
    }
  }

  lemma GrowsReflexive(sc: Scan)
    ensures Grows(sc, sc)
  {
  }

  /**
   * A step bounded by its contribution, followed either by nothing (the
   * step failed) or by a stretch bounded by its own, stays bounded by the
   * sum of both.
   */
  lemma GrowsCompose(sc: Scan, s1: Scan, r: Scan, t1: ExtractStats, t2: ExtractStats, q1: seq<ZipRequest>, q2: seq<ZipRequest>)
    requires Grows(sc, s1) && Le(s1.stats, Add(sc.stats, t1)) && s1.requests <= sc.requests + q1
    requires r == s1 || (
      && s1.stats == Add(sc.stats, t1) && s1.requests == sc.requests + q1
      && Grows(s1, r) && Le(r.stats, Add(s1.stats, t2)) && r.requests <= s1.requests + q2)
    ensures Grows(sc, r)
    ensures Le(r.stats, Add(sc.stats, Add(t1, t2)))
    ensures r.requests <= sc.requests + (q1 + q2)
  {
    assert sc.requests + (q1 + q2) == (sc.requests + q1) + q2;
    if r == s1 {
      PrefixExtends(s1.requests, sc.requests + q1, q2);
    } else {
      GrowsTransitive(sc, s1, r);
    }
  }

  lemma AddAssociates(a: ExtractStats, b: ExtractStats, c: ExtractStats)
    ensures Add(Add(a, b), c) == Add(a, Add(b, c))
  {
  }

  lemma PrefixExtends<T>(p: seq<T>, q: seq<T>, tail: seq<T>)
    requires p <= q
    ensures p <= q + tail
  {
    assert forall k :: 0 <= k < |p| ==> (q + tail)[k] == q[k];
  }

  lemma {:induction false} ScanDirsFailsIff(ports: Ports, dirs: seq<Path>, sc: Scan)
    requires sc.failure.None?
    ensures ScanDirs(ports, dirs, sc).failure.None? <==> !AnyFault(ports, dirs)
    decreases |dirs|
  {
    if dirs != [] {
      var s1 := DirStep(ports, dirs[0], sc);
      var rest := dirs[1..];
      DirStepOutcome(ports, dirs[0], sc);
      assert forall k :: 1 <= k < |dirs| ==> dirs[k] == rest[k - 1];
      if s1.failure.Some? {
        ScanDirsFailed(ports, rest, s1);
      } else {
        ScanDirsFailsIff(ports, rest, s1);
        if AnyFault(ports, rest) {
          var k :| 0 <= k < |rest| && DirFaults(ports, rest[k]);
          assert DirFaults(ports, dirs[k + 1]);
        }
      }
    }
  }

  lemma {:induction false} ScanDirsSucceeds(ports: Ports, dirs: seq<Path>, sc: Scan)
    requires sc.failure.None?
    ensures var r := ScanDirs(ports, dirs, sc);
      r.failure.None? ==>
        && r.stats == Add(sc.stats, Totals(ports, dirs))
        && r.requests == sc.requests + Requests(ports, dirs)
        && |r.log| == |sc.log| + UpdateCount(ports, dirs)
    decreases |dirs|
  {
    if dirs == [] {
      assert sc.requests + [] == sc.requests;
    } else {
      var d := dirs[0];
      var rest := dirs[1..];
      var s1 := DirStep(ports, d, sc);
      DirStepOutcome(ports, d, sc);
      assert ScanDirs(ports, dirs, sc) == ScanDirs(ports, rest, s1);
      if s1.failure.Some? {
        ScanDirsFailed(ports, rest, s1);
      } else {
        ScanDirsSucceeds(ports, rest, s1);
        var r := ScanDirs(ports, rest, s1);
        if r.failure.None? {
          AddAssociates(sc.stats, DirTotals(ports, d), Totals(ports, rest));
          assert Totals(ports, dirs) == Add(DirTotals(ports, d), Totals(ports, rest));
          assert Requests(ports, dirs) == DirRequests(ports, d) + Requests(ports, rest);
          assert sc.requests + DirRequests(ports, d) + Requests(ports, rest) == sc.requests + Requests(ports, dirs);
          assert UpdateCount(ports, dirs) == DirUpdates(ports, d) + UpdateCount(ports, rest);
        }
      }
    }
  }

  // ---------------------------------------------------------------------
  // The reporter's view: every snapshot keeps the counter relations, and
  // no counter ever decreases from one snapshot to the next
  // ---------------------------------------------------------------------

  ghost predicate ProgressOk(sc: Scan, root: Path) {
    && |sc.log| >= 1 && sc.log[0] == Start(root)
    && (forall k :: 1 <= k < |sc.log| ==> sc.log[k].Update? && WellFormed(sc.log[k].stats))
    && (forall k :: 1 <= k < |sc.log| - 1 ==> Le(sc.log[k].stats, sc.log[k + 1].stats))
    && (|sc.log| > 1 ==> Le(sc.log[|sc.log| - 1].stats, sc.stats))
    && WellFormed(sc.stats)
  }

  /** Appending a snapshot of the new, larger counters keeps the reporter's view consistent. */
  lemma AppendSnapshot(sc: Scan, root: Path, stats: ExtractStats)
    requires ProgressOk(sc, root)
    requires Le(sc.stats, stats) && WellFormed(stats)
    ensures ProgressOk(Scan(stats, sc.log + [Update(stats)], sc.requests, sc.failure), root)
  {
    var log := sc.log + [Update(stats)];
    assert forall k :: 0 <= k < |sc.log| ==> log[k] == sc.log[k];
  }

  lemma ZipStepKeeps(ports: Ports, dir: Path, zip: Path, sc: Scan, root: Path)
    requires ProgressOk(sc, root)
    ensures ProgressOk(ZipStep(ports, dir, zip, sc), root)
  {
    if sc.failure.None? {
      var checked := sc.stats.(zipFilesChecked := sc.stats.zipFilesChecked + 1);
      match ports.extractZip(zip, ModelInfoFileName, dir)
      case Err(e) =>
      case Ok(done) =>
        var stats := if done then checked.(extracted := checked.extracted + 1) else checked;
        AppendSnapshot(sc.(requests := sc.requests + [ZipRequest(zip, ModelInfoFileName, dir)]), root, stats);
    }
  }

  lemma {:induction false} ScanZipsKeeps(ports: Ports, dir: Path, zips: seq<Path>, sc: Scan, root: Path)
    requires ProgressOk(sc, root)
    ensures ProgressOk(ScanZips(ports, dir, zips, sc), root)
    decreases |zips|
  {
    if zips != [] {
      ZipStepKeeps(ports, dir, zips[0], sc, root);
      ScanZipsKeeps(ports, dir, zips[1..], ZipStep(ports, dir, zips[0], sc), root);
    }
  }

  lemma DirStepKeeps(ports: Ports, dir: Path, sc: Scan, root: Path)
    requires ProgressOk(sc, root)
    ensures ProgressOk(DirStep(ports, dir, sc), root)
  {
    if sc.failure.None? {
      var scanned := sc.stats.(directoriesScanned := sc.stats.directoriesScanned + 1);
      match ports.listFiles(dir)
      case Err(e) =>
      case Ok(files) =>
        if HasMarker(files) {
          var marked := scanned.(safetensorsDirectories := scanned.safetensorsDirectories + 1);
          AppendSnapshot(sc, root, marked);
          ScanZipsKeeps(ports, dir, ZipFiles(files), Scan(marked, sc.log + [Update(marked)], sc.requests, None), root);
        } else {
          AppendSnapshot(sc, root, scanned);
        }
    }
  }

  lemma {:induction false} ScanDirsKeeps(ports: Ports, dirs: seq<Path>, sc: Scan, root: Path)
    requires ProgressOk(sc, root)
    ensures ProgressOk(ScanDirs(ports, dirs, sc), root)
    decreases |dirs|
  {
    if dirs != [] {
      DirStepKeeps(ports, dirs[0], sc, root);
      ScanDirsKeeps(ports, dirs[1..], DirStep(ports, dirs[0], sc), root);
    }
  }

  lemma {:induction false} ChainFrom(log: seq<Event>, k: nat, l: nat)
    requires forall i :: 1 <= i < |log| ==> !log[i].Start?
    requires forall i :: 1 <= i < |log| - 1 ==> Le(log[i].stats, log[i + 1].stats)
    requires 1 <= k <= l < |log|
    ensures Le(log[k].stats, log[l].stats)
    decreases l - k
  {
    if k < l {
      ChainFrom(log, k, l - 1);
    }
  }

  /** Snapshots that never decrease step by step never decrease at all. */
  lemma ChainMonotone(log: seq<Event>)
    requires forall i :: 1 <= i < |log| ==> !log[i].Start?
    requires forall i :: 1 <= i < |log| - 1 ==> Le(log[i].stats, log[i + 1].stats)
    ensures forall k, l :: 1 <= k < l < |log| ==> Le(log[k].stats, log[l].stats)
  {
    forall k, l | 1 <= k < l < |log|
      ensures Le(log[k].stats, log[l].stats)
    {
      ChainFrom(log, k, l);
    }
  }

  /**
   * The reporter sees `on_start(root)`, then `on_update` snapshots, and
   * `on_finish` with the returned counters exactly when the run succeeds.
   * Every snapshot has `extracted <= zip_files_checked` and
   * `safetensors_directories <= directories_scanned`, and no counter
   * decreases from one snapshot to any later one.
   */
  lemma RunLogShape(ports: Ports, root: Path)
    ensures var log := RunLog(ports, root);
      var result := RunResult(ports, root);
      && |log| >= 1 && log[0] == Start(root)
      && (forall k :: 1 <= k < |log| - 1 ==> log[k].Update?)
      && (forall k :: 1 <= k < |log| ==> !log[k].Start? && WellFormed(log[k].stats))
      && (forall k, l :: 1 <= k < l < |log| ==> Le(log[k].stats, log[l].stats))
      && (result.Ok? ==> |log| >= 2 && log[|log| - 1] == Finish(result.value))
      && (result.Err? ==> forall k :: 1 <= k < |log| ==> log[k].Update?)
  {
    var sc := Finished(ports, root);
    ScanDirsKeeps(ports, ports.directories, Started(root), root);
    var log := RunLog(ports, root);
    if RunResult(ports, root).Ok? {
      assert log == sc.log + [Finish(sc.stats)];
      assert forall k :: 0 <= k < |sc.log| ==> log[k] == sc.log[k];
    }
    ChainMonotone(log);
  }

  /**
   * The run fails exactly when the traversal fails, or a listing fails, or
   * the port fails on an archive of a marker directory.
   */
  lemma RunSucceedsIff(ports: Ports, root: Path)
    ensures RunResult(ports, root).Ok? <==> ports.walkFailure.None? && !AnyFault(ports, ports.directories)
  {
    ScanDirsFailsIff(ports, ports.directories, Started(root));
  }

  /**
   * A successful run returns the sum of the directories' contributions:
   * one scanned directory per directory the traversal yields, one marker
   * directory per directory holding a `.safetensors` file, one checked
   * archive per `.zip` in such a directory and one extraction per positive
   * answer of the port. The reporter receives `Start`, one update per
   * unmarked directory, 1 + (number of archives) per marked one, and `Finish`.
   */
  lemma RunTotals(ports: Ports, root: Path)
    ensures RunResult(ports, root).Ok? ==>
      && RunResult(ports, root).value == Totals(ports, ports.directories)
      && RunResult(ports, root).value.directoriesScanned == |ports.directories|
      && Finished(ports, root).requests == Requests(ports, ports.directories)
      && |RunLog(ports, root)| == 2 + UpdateCount(ports, ports.directories)
  {
    var sc := Finished(ports, root);
    var totals := Totals(ports, ports.directories);
    ScanDirsSucceeds(ports, ports.directories, Started(root));
    if RunResult(ports, root).Ok? {
      assert sc.failure.None?;
      assert Add(Default(), totals) == totals;
      assert sc.stats == totals;
      assert RunLog(ports, root) == sc.log + [Finish(sc.stats)];
    }
  }

  /** Every counter value a run reaches, and so every snapshot, fits in a `u64`. */
  lemma CountersFitU64(ports: Ports, root: Path)
    requires |ports.directories| < U64Limit
    requires Totals(ports, ports.directories).zipFilesChecked < U64Limit
    ensures FitsU64(Finished(ports, root).stats)
    ensures forall k :: 1 <= k < |RunLog(ports, root)| ==>
      !RunLog(ports, root)[k].Start? && FitsU64(RunLog(ports, root)[k].stats)
    ensures RunResult(ports, root).Ok? ==> FitsU64(RunResult(ports, root).value)
  {
    var sc := Finished(ports, root);
    var totals := Totals(ports, ports.directories);
    ScanDirsGrows(ports, ports.directories, Started(root));
    assert Add(Default(), totals) == totals;
    assert FitsU64(totals);
    FitsU64Below(sc.stats, totals);
    SnapshotsBelowFinal(ports, root);
    var log := RunLog(ports, root);
    forall k | 1 <= k < |log|
      ensures FitsU64(log[k].stats)
    {
      FitsU64Below(log[k].stats, sc.stats);
    }
  }

  /** Every snapshot the reporter receives is bounded by the final counters. */
  lemma SnapshotsBelowFinal(ports: Ports, root: Path)
    ensures forall k :: 1 <= k < |RunLog(ports, root)| ==>
      !RunLog(ports, root)[k].Start? && Le(RunLog(ports, root)[k].stats, Finished(ports, root).stats)
  {
    var sc := Finished(ports, root);
    ScanDirsKeeps(ports, ports.directories, Started(root), root);
    ChainMonotone(sc.log);
    var log := RunLog(ports, root);
    assert forall k :: 0 <= k < |sc.log| ==> log[k] == sc.log[k];
    forall k | 1 <= k < |sc.log|
      ensures Le(sc.log[k].stats, sc.stats)
    {
      if k < |sc.log| - 1 {
        assert Le(sc.log[k].stats, sc.log[|sc.log| - 1].stats);
      }
    }
  }

  // ---------------------------------------------------------------------
  // Which archives are inspected
  // ---------------------------------------------------------------------

  /** `zip` is a candidate archive of `dir`, and `dir` holds a weights marker. */
  ghost predicate MarkedArchive(ports: Ports, dir: Path, zip: Path) {
    && ports.listFiles(dir).Ok?
    && HasMarker(ports.listFiles(dir).value)
    && zip in ZipFiles(ports.listFiles(dir).value)
  }

  lemma {:induction false} RequestsForMembers(dir: Path, zips: seq<Path>)
    ensures forall q :: q in RequestsFor(dir, zips) <==>
      q.entryName == ModelInfoFileName && q.outputDir == dir && q.zip in zips
    decreases |zips|
  {
    if zips != [] {
      RequestsForMembers(dir, zips[1..]);
      assert zips == [zips[0]] + zips[1..];
    }
  }

  /**
   * The reference request list holds exactly one request per candidate
   * archive of a marker directory, naming `model_info.json` and that
   * directory as output; unmarked directories contribute none.
   */
  lemma {:induction false} RequestsAreMarkedArchives(ports: Ports, dirs: seq<Path>)
    ensures forall q :: q in Requests(ports, dirs) ==>
      q.entryName == ModelInfoFileName && q.outputDir in dirs && MarkedArchive(ports, q.outputDir, q.zip)
    ensures forall d, z :: d in dirs && MarkedArchive(ports, d, z) ==>
      ZipRequest(z, ModelInfoFileName, d) in Requests(ports, dirs)
    decreases |dirs|
  {
    if dirs != [] {
      RequestsAreMarkedArchives(ports, dirs[1..]);
      var d0 := dirs[0];
      match ports.listFiles(d0)
      case Err(_) =>
      case Ok(files) =>
        if HasMarker(files) {
          RequestsForMembers(d0, ZipFiles(files));
        }
      assert dirs == [d0] + dirs[1..];
    }
  }

  /**
   * The archives handed to the extraction port are, in order, a prefix of
   * the reference request list, and all of it when the run succeeds: only
   * candidate archives of marker directories are ever inspected.
   */
  lemma InspectedArchives(ports: Ports, root: Path)
    ensures Finished(ports, root).requests <= Requests(ports, ports.directories)
    ensures RunResult(ports, root).Ok? ==> Finished(ports, root).requests == Requests(ports, ports.directories)
    ensures forall q :: q in Finished(ports, root).requests ==>
      q.entryName == ModelInfoFileName && q.outputDir in ports.directories
      && MarkedArchive(ports, q.outputDir, q.zip)
  {
    ScanDirsGrows(ports, ports.directories, Started(root));
    ScanDirsSucceeds(ports, ports.directories, Started(root));
    RequestsAreMarkedArchives(ports, ports.directories);
    var r := Finished(ports, root).requests;
    var all := Requests(ports, ports.directories);
    assert [] + all == all;
    forall q | q in r
      ensures q in all
    {
      var k :| 0 <= k < |r| && r[k] == q;
      assert all[k] == q;
    }
  }

  /**
   * A directory without a marker file only counts as scanned and reports
   * once: no archive is inspected, whatever its archives contain.
   */
  lemma UnmarkedDirectoryIsNotInspected(ports: Ports, dir: Path, sc: Scan)
    requires sc.failure.None?
    requires ports.listFiles(dir).Ok? && !HasMarker(ports.listFiles(dir).value)
    ensures var scanned := sc.stats.(directoriesScanned := sc.stats.directoriesScanned + 1);
      DirStep(ports, dir, sc) == Scan(scanned, sc.log + [Update(scanned)], sc.requests, None)
  {
  }
}
