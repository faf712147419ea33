/**
 * One run of `extract_model_info` over the file-system ports on a small
 * tree, mirroring the repository's integration tests.
 */
module SampleRun {
  import opened Wrappers
  import opened Domain
  import opened Paths
  import opened Application
  import opened Infrastructure
  import opened SampleTree

  /*
   * A tree under /r: `bad` holds a weights file and a broken archive,
   * `good` a weights file, an archive whose `a/model_info.json` entry
   * follows a directory entry, and an upper-case `M.ZIP`; `plain` holds an
   * archive with a `model_info.json` entry but no weights file; `link` is a
   * symbolic link.
   */

  /** A traversal of the sample's shape over arbitrary paths. */
  function TreeWalk(r: Path, bad: Path, badMarker: Path, badZip: Path, good: Path, goodMarker: Path,
                    goodZip: Path, goodUpper: Path, link: Path, plain: Path, plainZip: Path): WalkItems
  {
    [Ok(DirEntry(r, Directory))]
    + ([Ok(DirEntry(bad, Directory))]
    + ([Ok(DirEntry(badMarker, RegularFile))]
    + ([Ok(DirEntry(badZip, RegularFile))]
    + ([Ok(DirEntry(good, Directory))]
    + ([Ok(DirEntry(goodMarker, RegularFile))]
    + ([Ok(DirEntry(goodZip, RegularFile))]
    + ([Ok(DirEntry(goodUpper, RegularFile))]
    + ([Ok(DirEntry(link, Symlink))]
    + ([Ok(DirEntry(plain, Directory))]
    + [Ok(DirEntry(plainZip, RegularFile))])))))))))
  }

  function SampleWalk(): WalkItems {
    TreeWalk("/r", "/r/bad", "/r/bad/m.safetensors", "/r/bad/b.zip", "/r/good", "/r/good/m.safetensors",
             "/r/good/m.zip", "/r/good/M.ZIP", "/r/link", "/r/plain", "/r/plain/m.zip")
  }

  function SampleReadDir(dir: Path): ReadDir {
    if dir == "/r" then
      Ok([ Ok(ReadDirEntry("/r/bad", Ok(Directory))),
           Ok(ReadDirEntry("/r/good", Ok(Directory))),
           Ok(ReadDirEntry("/r/link", Ok(Symlink))),
           Ok(ReadDirEntry("/r/plain", Ok(Directory))) ])
    else if dir == "/r/bad" then
      Ok([ Ok(ReadDirEntry("/r/bad/m.safetensors", Ok(RegularFile))),
           Ok(ReadDirEntry("/r/bad/b.zip", Ok(RegularFile))) ])
    else if dir == "/r/good" then
      Ok([ Ok(ReadDirEntry("/r/good/m.safetensors", Ok(RegularFile))),
           Ok(ReadDirEntry("/r/good/m.zip", Ok(RegularFile))),
           Ok(ReadDirEntry("/r/good/M.ZIP", Ok(RegularFile))) ])
    else if dir == "/r/plain" then
      Ok([ Ok(ReadDirEntry("/r/plain/m.zip", Ok(RegularFile))) ])
    else
      Err("No such file or directory")
  }

  function SampleArchive(zip: Path): ZipFile {
    if zip == "/r/bad/b.zip" then ZipFile(None, Some("invalid Zip archive"), [])
    else if zip == "/r/good/m.zip" then
      ZipFile(None, None, [ ZipEntry("a/", true, None, None), ZipEntry("a/model_info.json", false, None, None) ])
    else if zip == "/r/plain/m.zip" then ZipFile(None, None, [ ZipEntry(ModelInfoFileName, false, None, None) ])
    else ZipFile(Some("No such file or directory"), None, [])
  }

  function CreateAlways(p: Path): Option<string> {
    None
  }

  function SamplePorts(): Ports {
    FsPorts(SampleWalk(), SampleReadDir, SampleArchive, CreateAlways)
  }

  lemma WalkDirectory(p: Path, rest: WalkItems)
    ensures WalkOf([Ok(DirEntry(p, Directory))] + rest) == ([p] + WalkOf(rest).0, WalkOf(rest).1)
  {
    assert ([Ok(DirEntry(p, Directory))] + rest)[1..] == rest;
  }

  lemma WalkOther(p: Path, t: FileType, rest: WalkItems)
    requires t != Directory
    ensures WalkOf([Ok(DirEntry(p, t))] + rest) == WalkOf(rest)
  {
    assert ([Ok(DirEntry(p, t))] + rest)[1..] == rest;
  }

  /** The traversal hands over the four directories, not the files nor the link. */
  lemma TreeWalkDirectories(r: Path, bad: Path, badMarker: Path, badZip: Path, good: Path, goodMarker: Path,
                            goodZip: Path, goodUpper: Path, link: Path, plain: Path, plainZip: Path)
    ensures WalkOf(TreeWalk(r, bad, badMarker, badZip, good, goodMarker, goodZip, goodUpper, link, plain, plainZip))
         == ([r, bad, good, plain], None)
  {
    var w10: WalkItems := [Ok(DirEntry(plainZip, RegularFile))];
    WalkOther(plainZip, RegularFile, []);
    assert w10 == w10 + [];
    var w9 := [Ok(DirEntry(plain, Directory))] + w10;
    WalkDirectory(plain, w10);
    var w8 := [Ok(DirEntry(link, Symlink))] + w9;
    WalkOther(link, Symlink, w9);
    var w7 := [Ok(DirEntry(goodUpper, RegularFile))] + w8;
    WalkOther(goodUpper, RegularFile, w8);
    var w6 := [Ok(DirEntry(goodZip, RegularFile))] + w7;
    WalkOther(goodZip, RegularFile, w7);
    var w5 := [Ok(DirEntry(goodMarker, RegularFile))] + w6;
    WalkOther(goodMarker, RegularFile, w6);
    var w4 := [Ok(DirEntry(good, Directory))] + w5;
    WalkDirectory(good, w5);
    var w3 := [Ok(DirEntry(badZip, RegularFile))] + w4;
    WalkOther(badZip, RegularFile, w4);
    var w2 := [Ok(DirEntry(badMarker, RegularFile))] + w3;
    WalkOther(badMarker, RegularFile, w3);
    var w1 := [Ok(DirEntry(bad, Directory))] + w2;
    WalkDirectory(bad, w2);
    WalkDirectory(r, w1);
    assert [plain] + [] == [plain];
    assert [r] + ([bad] + ([good] + [plain])) == [r, bad, good, plain];
  }

  lemma SampleDirectories()
    ensures WalkOf(SampleWalk()) == (["/r", "/r/bad", "/r/good", "/r/plain"], None)
  {
    TreeWalkDirectories("/r", "/r/bad", "/r/bad/m.safetensors", "/r/bad/b.zip", "/r/good", "/r/good/m.safetensors",
                        "/r/good/m.zip", "/r/good/M.ZIP", "/r/link", "/r/plain", "/r/plain/m.zip");
  }

  lemma ListOther(p: Path, t: FileType, rest: seq<Result<ReadDirEntry, string>>)
    requires t != RegularFile
    ensures CollectFiles([Ok(ReadDirEntry(p, Ok(t)))] + rest) == CollectFiles(rest)
  {
    assert ([Ok(ReadDirEntry(p, Ok(t)))] + rest)[1..] == rest;
    PrependFilesConcat([], [], CollectFiles(rest));
  }

  lemma ListNothing(a: Path, ta: FileType, b: Path, tb: FileType, c: Path, tc: FileType, d: Path, td: FileType)
    requires ta != RegularFile && tb != RegularFile && tc != RegularFile && td != RegularFile
    ensures CollectFiles([Ok(ReadDirEntry(a, Ok(ta))), Ok(ReadDirEntry(b, Ok(tb))), Ok(ReadDirEntry(c, Ok(tc))), Ok(ReadDirEntry(d, Ok(td)))]) == Ok([])
  {
    var i4: seq<Result<ReadDirEntry, string>> := [Ok(ReadDirEntry(d, Ok(td)))];
    var i3 := [Ok(ReadDirEntry(c, Ok(tc)))] + i4;
    var i2 := [Ok(ReadDirEntry(b, Ok(tb)))] + i3;
    var i1 := [Ok(ReadDirEntry(a, Ok(ta)))] + i2;
    assert i4 == i4 + [];
    ListOther(d, td, []);
    ListOther(c, tc, i4);
    ListOther(b, tb, i3);
    ListOther(a, ta, i2);
    assert i1 == [Ok(ReadDirEntry(a, Ok(ta))), Ok(ReadDirEntry(b, Ok(tb))), Ok(ReadDirEntry(c, Ok(tc))), Ok(ReadDirEntry(d, Ok(td)))];
  }

  lemma ListOneFile(a: Path)
    ensures CollectFiles([Ok(ReadDirEntry(a, Ok(RegularFile)))]) == Ok([a])
  {
    var items: seq<Result<ReadDirEntry, string>> := [Ok(ReadDirEntry(a, Ok(RegularFile)))];
    assert items[1..] == [];
    assert [a] + [] == [a];
  }

  lemma ListTwoFiles(a: Path, b: Path)
    ensures CollectFiles([Ok(ReadDirEntry(a, Ok(RegularFile))), Ok(ReadDirEntry(b, Ok(RegularFile)))]) == Ok([a, b])
  {
    var items: seq<Result<ReadDirEntry, string>> := [Ok(ReadDirEntry(a, Ok(RegularFile))), Ok(ReadDirEntry(b, Ok(RegularFile)))];
    assert items[1..] == [Ok(ReadDirEntry(b, Ok(RegularFile)))];
    ListOneFile(b);
    assert [a] + [b] == [a, b];
  }

  lemma ListThreeFiles(a: Path, b: Path, c: Path)
    ensures CollectFiles([Ok(ReadDirEntry(a, Ok(RegularFile))), Ok(ReadDirEntry(b, Ok(RegularFile))), Ok(ReadDirEntry(c, Ok(RegularFile)))])
         == Ok([a, b, c])
  {
    var items: seq<Result<ReadDirEntry, string>> := [Ok(ReadDirEntry(a, Ok(RegularFile))), Ok(ReadDirEntry(b, Ok(RegularFile))), Ok(ReadDirEntry(c, Ok(RegularFile)))];
    assert items[1..] == [Ok(ReadDirEntry(b, Ok(RegularFile))), Ok(ReadDirEntry(c, Ok(RegularFile)))];
    ListTwoFiles(b, c);
    assert [a] + [b, c] == [a, b, c];
  }

  /** The root holds only directories and a link: its listing is empty. */
  lemma RootListing()
    ensures ListingOf(SampleReadDir("/r")) == Ok([])
  {
    ListNothing("/r/bad", Directory, "/r/good", Directory, "/r/link", Symlink, "/r/plain", Directory);
  }

  lemma BadListing()
    ensures ListingOf(SampleReadDir("/r/bad")) == Ok(["/r/bad/m.safetensors", "/r/bad/b.zip"])
  {
    ListTwoFiles("/r/bad/m.safetensors", "/r/bad/b.zip");
  }

  lemma GoodListing()
    ensures ListingOf(SampleReadDir("/r/good")) == Ok(["/r/good/m.safetensors", "/r/good/m.zip", "/r/good/M.ZIP"])
  {
    ListThreeFiles("/r/good/m.safetensors", "/r/good/m.zip", "/r/good/M.ZIP");
  }

  lemma PlainListing()
    ensures ListingOf(SampleReadDir("/r/plain")) == Ok(["/r/plain/m.zip"])
  {
    ListOneFile("/r/plain/m.zip");
  }

  lemma ModelInfoIsNormal()
    ensures IsNormalName(ModelInfoFileName)
  {
    assert ModelInfoFileName[0] == 'm';
    assert forall k :: 0 <= k < |ModelInfoFileName| ==> ModelInfoFileName[k] != '/';
  }

  /** The broken archive does not parse: an `InvalidZip` outcome and no output file. */
  lemma BadExtraction()
    ensures ExtractionOf(SampleArchive("/r/bad/b.zip"), ModelInfoFileName, "/r/bad", CreateAlways)
         == Extraction(InvalidZip("invalid Zip archive"), None)
  {
  }

  /** A directory entry is skipped and the matching file entry after it is found. */
  lemma FindAfterDirectory(dirEntry: ZipEntry, file: ZipEntry, name: string)
    requires dirEntry.isDir && dirEntry.readError.None? && file.readError.None? && Matches(file, name)
    ensures FindEntry([dirEntry, file], name, 0) == Found(1)
  {
  }

  /** An archive holding a directory entry and then the matching file entry: the file is copied. */
  lemma ExtractAfterDirectory(dirEntry: ZipEntry, file: ZipEntry, name: string, outputDir: Path, create: Path -> Option<string>)
    requires dirEntry.isDir && dirEntry.readError.None? && file.readError.None? && Matches(file, name)
    requires file.copyError.None? && create(Join(outputDir, name)).None?
    ensures ExtractionOf(ZipFile(None, None, [dirEntry, file]), name, outputDir, create)
         == Extraction(Extracted, Some(Output(Join(outputDir, name), 1, true)))
  {
    FindAfterDirectory(dirEntry, file, name);
  }

  lemma JoinGoodDirectory()
    ensures Join("/r/good", ModelInfoFileName) == "/r/good" + "/" + ModelInfoFileName
  {
    assert ModelInfoFileName[0] == 'm';
    assert "/r/good"[6] == 'd';
  }

  /** The archive in `plain` does hold `model_info.json`: asked for it, the port would extract it. */
  lemma PlainExtraction()
    ensures ExtractionOf(SampleArchive("/r/plain/m.zip"), ModelInfoFileName, "/r/plain", CreateAlways)
         == Extraction(Extracted, Some(Output("/r/plain" + "/" + ModelInfoFileName, 0, true)))
  {
    ModelInfoIsNormal();
    NestedEntryMatches("", ModelInfoFileName, None, None);
    assert "" + ModelInfoFileName == ModelInfoFileName;
    assert ModelInfoFileName[0] == 'm';
    assert "/r/plain"[7] == 'n';
  }

  lemma NestedEntryName()
    ensures "a/model_info.json" == "a/" + ModelInfoFileName
  {
    assert |"a/" + ModelInfoFileName| == 17;
    forall k | 0 <= k < 17
      ensures "a/model_info.json"[k] == ("a/" + ModelInfoFileName)[k]
    {
    }
  }

  /** The archive entry `a/model_info.json` is the `model_info.json` file the run looks for. */
  lemma ModelInfoEntryMatches()
    ensures Matches(ZipEntry("a/model_info.json", false, None, None), ModelInfoFileName)
  {
    ModelInfoIsNormal();
    NestedEntryMatches("a/", ModelInfoFileName, None, None);
    NestedEntryName();
  }

  /** The good archive's entry `a/model_info.json`, after a directory entry, is copied to `/r/good/model_info.json`. */
  lemma GoodExtraction()
    ensures ExtractionOf(SampleArchive("/r/good/m.zip"), ModelInfoFileName, "/r/good", CreateAlways)
         == Extraction(Extracted, Some(Output("/r/good" + "/" + ModelInfoFileName, 1, true)))
  {
    ModelInfoEntryMatches();
    ExtractAfterDirectory(ZipEntry("a/", true, None, None), ZipEntry("a/model_info.json", false, None, None), ModelInfoFileName,
                          "/r/good", CreateAlways);
    JoinGoodDirectory();
  }

  /** A weights directory with one candidate archive that the port answers. */
  lemma MarkedStep(ports: Ports, dir: Path, files: seq<Path>, zip: Path, done: bool, sc: Scan)
    requires sc.failure.None? && ports.listFiles(dir) == Ok(files) && HasMarker(files) && ZipFiles(files) == [zip]
    requires ports.extractZip(zip, ModelInfoFileName, dir) == Ok(done)
    ensures var marked := ExtractStats(sc.stats.directoriesScanned + 1, sc.stats.safetensorsDirectories + 1,
                                        sc.stats.zipFilesChecked, sc.stats.extracted);
      var after := marked.(zipFilesChecked := marked.zipFilesChecked + 1,
                           extracted := marked.extracted + if done then 1 else 0);
      DirStep(ports, dir, sc) == Scan(after, sc.log + [Update(marked), Update(after)],
                                      sc.requests + [ZipRequest(zip, ModelInfoFileName, dir)], None)
  {
    var marked := ExtractStats(sc.stats.directoriesScanned + 1, sc.stats.safetensorsDirectories + 1,
                               sc.stats.zipFilesChecked, sc.stats.extracted);
    var m := Scan(marked, sc.log + [Update(marked)], sc.requests, None);
    assert [zip][1..] == [];
    assert ScanZips(ports, dir, [zip], m) == ZipStep(ports, dir, zip, m);
    assert sc.log + [Update(marked)] + [Update(ZipStep(ports, dir, zip, m).stats)]
        == sc.log + [Update(marked), Update(ZipStep(ports, dir, zip, m).stats)];
  }

  lemma ScanFourDirectories(ports: Ports, a: Path, b: Path, c: Path, d: Path, sc: Scan)
    ensures ScanDirs(ports, [a, b, c, d], sc)
         == DirStep(ports, d, DirStep(ports, c, DirStep(ports, b, DirStep(ports, a, sc))))
  {
    var dirs := [a, b, c, d];
    var s1 := DirStep(ports, a, sc);
    var s2 := DirStep(ports, b, s1);
    var s3 := DirStep(ports, c, s2);
    assert dirs[1..] == [b, c, d];
    assert [b, c, d][1..] == [c, d];
    assert [c, d][1..] == [d];
    assert [d][1..] == [];
    assert ScanDirs(ports, [d], s3) == DirStep(ports, d, s3);
    assert ScanDirs(ports, [c, d], s2) == ScanDirs(ports, [d], s3);
    assert ScanDirs(ports, [b, c, d], s1) == ScanDirs(ports, [c, d], s2);
  }

  // The four states of the sample run after each directory, over arbitrary paths.

  function AfterRoot(r: Path): Scan {
    Scan(ExtractStats(1, 0, 0, 0), [Start(r), Update(ExtractStats(1, 0, 0, 0))], [], None)
  }

  function AfterBad(r: Path, bad: Path, badZip: Path): Scan {
    Scan(ExtractStats(2, 1, 1, 0),
         AfterRoot(r).log + [Update(ExtractStats(2, 1, 0, 0)), Update(ExtractStats(2, 1, 1, 0))],
         [ZipRequest(badZip, ModelInfoFileName, bad)], None)
  }

  function AfterGood(r: Path, bad: Path, badZip: Path, good: Path, goodZip: Path): Scan {
    Scan(ExtractStats(3, 2, 2, 1),
         AfterBad(r, bad, badZip).log + [Update(ExtractStats(3, 2, 1, 0)), Update(ExtractStats(3, 2, 2, 1))],
         AfterBad(r, bad, badZip).requests + [ZipRequest(goodZip, ModelInfoFileName, good)], None)
  }

  function AfterPlain(r: Path, bad: Path, badZip: Path, good: Path, goodZip: Path): Scan {
    var g := AfterGood(r, bad, badZip, good, goodZip);
    Scan(ExtractStats(4, 2, 2, 1), g.log + [Update(ExtractStats(4, 2, 2, 1))], g.requests, None)
  }

  lemma RootStep(ports: Ports, r: Path)
    requires ports.listFiles(r) == Ok([])
    ensures DirStep(ports, r, Started(r)) == AfterRoot(r)
  {
    assert !HasMarker([]);
    UnmarkedDirectoryIsNotInspected(ports, r, Started(r));
    assert [Start(r)] + [Update(ExtractStats(1, 0, 0, 0))] == AfterRoot(r).log;
  }

  lemma BadStep(ports: Ports, r: Path, bad: Path, badFiles: seq<Path>, badZip: Path)
    requires ports.listFiles(bad) == Ok(badFiles) && HasMarker(badFiles) && ZipFiles(badFiles) == [badZip]
    requires ports.extractZip(badZip, ModelInfoFileName, bad) == Ok(false)
    ensures DirStep(ports, bad, AfterRoot(r)) == AfterBad(r, bad, badZip)
  {
    MarkedStep(ports, bad, badFiles, badZip, false, AfterRoot(r));
    assert [] + [ZipRequest(badZip, ModelInfoFileName, bad)] == [ZipRequest(badZip, ModelInfoFileName, bad)];
  }

  lemma GoodStep(ports: Ports, r: Path, bad: Path, badZip: Path, good: Path, goodFiles: seq<Path>, goodZip: Path)
    requires ports.listFiles(good) == Ok(goodFiles) && HasMarker(goodFiles) && ZipFiles(goodFiles) == [goodZip]
    requires ports.extractZip(goodZip, ModelInfoFileName, good) == Ok(true)
    ensures DirStep(ports, good, AfterBad(r, bad, badZip)) == AfterGood(r, bad, badZip, good, goodZip)
  {
    MarkedStep(ports, good, goodFiles, goodZip, true, AfterBad(r, bad, badZip));
  }

  lemma PlainStep(ports: Ports, r: Path, bad: Path, badZip: Path, good: Path, goodZip: Path, plain: Path, plainFiles: seq<Path>)
    requires ports.listFiles(plain) == Ok(plainFiles) && !HasMarker(plainFiles)
    ensures DirStep(ports, plain, AfterGood(r, bad, badZip, good, goodZip)) == AfterPlain(r, bad, badZip, good, goodZip)
  {
    UnmarkedDirectoryIsNotInspected(ports, plain, AfterGood(r, bad, badZip, good, goodZip));
  }

  /** The log of the sample run, entry by entry. */
  lemma AfterPlainLog(r: Path, bad: Path, badZip: Path, good: Path, goodZip: Path)
    ensures AfterPlain(r, bad, badZip, good, goodZip).log + [Finish(ExtractStats(4, 2, 2, 1))] ==
      [ Start(r),
        Update(ExtractStats(1, 0, 0, 0)),
        Update(ExtractStats(2, 1, 0, 0)),
        Update(ExtractStats(2, 1, 1, 0)),
        Update(ExtractStats(3, 2, 1, 0)),
        Update(ExtractStats(3, 2, 2, 1)),
        Update(ExtractStats(4, 2, 2, 1)),
        Finish(ExtractStats(4, 2, 2, 1)) ]
    ensures AfterPlain(r, bad, badZip, good, goodZip).requests ==
      [ ZipRequest(badZip, ModelInfoFileName, bad), ZipRequest(goodZip, ModelInfoFileName, good) ]
  {
  }

  /**
   * The run over ports whose four directories answer as the sample tree
   * does: no listed file in the root, weights and one archive (which does
   * not hold the entry) in `bad`, weights and one archive (which does) in
   * `good`, and an archive without weights in `plain`.
   */
  lemma RunOverTreeAnswers(ports: Ports, r: Path, bad: Path, good: Path, plain: Path,
                           badFiles: seq<Path>, goodFiles: seq<Path>, plainFiles: seq<Path>, badZip: Path, goodZip: Path)
    requires ports.directories == [r, bad, good, plain] && ports.walkFailure == None
    requires ports.listFiles(r) == Ok([])
    requires ports.listFiles(bad) == Ok(badFiles) && HasMarker(badFiles) && ZipFiles(badFiles) == [badZip]
    requires ports.listFiles(good) == Ok(goodFiles) && HasMarker(goodFiles) && ZipFiles(goodFiles) == [goodZip]
    requires ports.listFiles(plain) == Ok(plainFiles) && !HasMarker(plainFiles)
    requires ports.extractZip(badZip, ModelInfoFileName, bad) == Ok(false)
    requires ports.extractZip(goodZip, ModelInfoFileName, good) == Ok(true)
    ensures RunResult(ports, r) == Ok(ExtractStats(4, 2, 2, 1))
    ensures Finished(ports, r).requests ==
      [ ZipRequest(badZip, ModelInfoFileName, bad), ZipRequest(goodZip, ModelInfoFileName, good) ]
    ensures RunLog(ports, r) ==
      [ Start(r),
        Update(ExtractStats(1, 0, 0, 0)),
        Update(ExtractStats(2, 1, 0, 0)),
        Update(ExtractStats(2, 1, 1, 0)),
        Update(ExtractStats(3, 2, 1, 0)),
        Update(ExtractStats(3, 2, 2, 1)),
        Update(ExtractStats(4, 2, 2, 1)),
        Finish(ExtractStats(4, 2, 2, 1)) ]
  {
    RootStep(ports, r);
    BadStep(ports, r, bad, badFiles, badZip);
    GoodStep(ports, r, bad, badZip, good, goodFiles, goodZip);
    PlainStep(ports, r, bad, badZip, good, goodZip, plain, plainFiles);
    ScanFourDirectories(ports, r, bad, good, plain, Started(r));
    AfterPlainLog(r, bad, badZip, good, goodZip);
  }

  /**
   * The run succeeds although one archive is broken, skips the archive of
   * the directory without weights (although it holds `model_info.json`)
   * and the upper-case `M.ZIP`, asks for
   * exactly two archives, and counts four directories, two with weights,
   * two archives and one extraction.
   */
  lemma SampleRunOutcome()
    ensures RunResult(SamplePorts(), "/r") == Ok(ExtractStats(4, 2, 2, 1))
    ensures Finished(SamplePorts(), "/r").requests ==
      [ ZipRequest("/r/bad/b.zip", ModelInfoFileName, "/r/bad"),
        ZipRequest("/r/good/m.zip", ModelInfoFileName, "/r/good") ]
    ensures SamplePorts().extractZip("/r/plain/m.zip", ModelInfoFileName, "/r/plain") == Ok(true)
  {
    var ports := SamplePorts();
    assert ports.directories == ["/r", "/r/bad", "/r/good", "/r/plain"] && ports.walkFailure == None by {
      SampleDirectories();
    }
    assert ports.listFiles("/r") == Ok([]) by {
      RootListing();
    }
    assert ports.listFiles("/r/bad") == Ok(["/r/bad/m.safetensors", "/r/bad/b.zip"]) by {
      BadListing();
    }
    assert ports.listFiles("/r/good") == Ok(["/r/good/m.safetensors", "/r/good/m.zip", "/r/good/M.ZIP"]) by {
      GoodListing();
    }
    assert ports.listFiles("/r/plain") == Ok(["/r/plain/m.zip"]) by {
      PlainListing();
    }
    assert ports.extractZip("/r/bad/b.zip", ModelInfoFileName, "/r/bad") == Ok(false) by {
      BadExtraction();
    }
    assert ports.extractZip("/r/good/m.zip", ModelInfoFileName, "/r/good") == Ok(true) by {
      GoodExtraction();
    }
    assert ports.extractZip("/r/plain/m.zip", ModelInfoFileName, "/r/plain") == Ok(true) by {
      PlainExtraction();
    }
    BadDirectory();
    GoodDirectory();
    PlainDirectory();
    RunOverTreeAnswers(ports, "/r", "/r/bad", "/r/good", "/r/plain",
                       ["/r/bad/m.safetensors", "/r/bad/b.zip"], ["/r/good/m.safetensors", "/r/good/m.zip", "/r/good/M.ZIP"],
                       ["/r/plain/m.zip"], "/r/bad/b.zip", "/r/good/m.zip");
  }
}
