# extract-model-info-json in Dafny

`extract-model-info-json` walks a directory tree looking for model
directories. A model directory holds at least one `*.safetensors` weights
file. From every `*.zip` archive in such a directory it copies the entry
`model_info.json` next to the archive, and it counts what it did in four
counters:

- directories scanned;
- weights directories;
- archives checked;
- files extracted.

A progress reporter sees the counters as the run goes.

This project models the run and proves what the code promises about it:

- the counters;
- which archives are asked for;
- the reporter's event log;
- the error cases.

It also models the file-system adapter's logic:

- the directory and regular-file filters of the traversal and the listing;
- the archive-entry selection rule;
- the line reporter's state machine and its output;
- the spinner message formatter.

Files:

- `wrappers.dfy`: `Option` and `Result`.
- `domain.dfy` (`Domain`): the `ExtractStats` record, the entry name `model_info.json`, the pointwise order and sum of counters, and the u64 bound.
- `paths.dfy` (`Paths`): the parts of `std::path` the code relies on for `/`-separated paths:
  - `file_name` drops empty and `.` components and refuses a trailing `..`;
  - `extension` is the text after the last dot of the file name, with no extension for a leading-dot-only name;
  - `join` replaces the base when the name is absolute.
- `decimal.dfy` (`Decimal`): the decimal rendering of an unsigned counter, with its round trip.
- `application.dfy` (`Application`): `extract_model_info` as imperative methods:
  - `ClassifyFiles` is the classification loop;
  - `InspectArchives` is the archive loop;
  - `ScanDirectory` is the directory callback;
  - `ExtractModelInfo` is the run.

  The ports are abstract:
  - the traversal is the sequence of directories it hands over, plus an optional error;
  - the listing and the extraction are functions returning `Result`.

  Each method is proved equal to a specification fold:
  - `ZipStep`/`ScanZips` and `DirStep`/`ScanDirs` build a `Scan` state of counters, reporter events and archive requests;
  - `RunResult` and `RunLog` are the run's result and log.

  The run's properties are proved against these folds, and against independent reference definitions (`Totals`, `Requests`, `UpdateCount`, `AnyFault`).
- `infrastructure.dfy` (`Infrastructure`):
  - `for_each_directory`, `list_files_in_dir` and `extract_zip_entry_if_exists` as loops over abstract traversal items, directory entries and archive entries;
  - `FsPorts`, which composes them into the run's ports;
  - `format_stats` and the reporter's stats line;
  - the `LineProgressReporter` class, with `started`, `lastStats` and a `writer` string buffer.
- `sample_tree.dfy`, `sample_run.dfy`, `reporter_scenarios.dfy`: the repository's tests, as lemmas and methods over concrete trees, archives and call sequences.

Facts about the code that shape the model, from `src/application.rs` and `src/infrastructure.rs`:

- **Sequential run.** `extract_model_info` processes one directory after another inside the traversal callback, and the counters are plain fields of one `ExtractStats` value. The model is sequential and its counters are plain fields.
- **Three reporter events.** The `ProgressReporter` trait in `src/application.rs` declares only `on_start`, `on_update` and `on_finish`, and `extract_model_info` calls only those, so the run's log has only those three kinds of event. The reporter implementations in `src/infrastructure.rs` also define `on_invalid_zip`, which the run never calls; the model keeps it as a method of the reporter class.
- **Directories are processed as they arrive.** Each directory is processed as the traversal yields it, so a traversal error comes after the directories before it have been processed. The first failing listing or extraction stops the traversal.
- **Two port signatures.** `src/application.rs` declares the extraction port as returning `Result<bool, _>`, while `src/infrastructure.rs` returns a `ZipEntryOutcome`. `FsPorts` bridges the two: `Extracted` is `true`, and `NotFound` and `InvalidZip` are `false`.
- **A listing fault aborts the run.** The `?` after `list_files_in_dir` ends the callback, and with it the traversal and the run.

## Model

| member | source | states |
|---|---|---|
| `Domain.Default` | src/domain.rs:3 | definition of the derived `ExtractStats::default()`: all four counters zero; `DefaultIsLeast` states its properties |
| `Domain.DefaultIsLeast` | src/domain.rs:3-9 | the default record has all counters zero: it is well formed, fits u64 and is below every record in the pointwise order |
| `Domain.EqualityIsFieldwise` | src/domain.rs:3 | two records are equal exactly when all four counters agree |
| `Domain.FitsU64Below` | src/domain.rs:5-8 | a record below one whose counters fit in u64 fits in u64 too |
| `Paths.FileName` | src/infrastructure.rs:87-88 | a file name, when there is one, is a single normal component (non-empty, not `.` or `..`, no separator); `FileNameAfterSeparator` gives its value for a path ending in a normal name; `Extension` (src/application.rs:52) is built on it |
| `Paths.Extension` | src/application.rs:52-57 | there is an extension exactly when the file name has a dot after its first character; the file name is then stem, dot, extension, and the extension holds no dot |
| `Paths.Join` | src/infrastructure.rs:91 | definition of `PathBuf::join` on `/`-separated paths; `JoinFileName` states where the separator goes and what the file name is |
| `Paths.FileNameAfterSeparator` | src/infrastructure.rs:87-90 | a normal name written after a `/` (or alone) is the file name of the whole path, so `a/b/model_info.json` has file name `model_info.json` |
| `Paths.JoinFileName` | src/infrastructure.rs:91 | joining a directory and a normal name gives a path whose file name is that name; it is `dir/name` when `dir` is non-empty and does not end in `/`, and `dirname` otherwise |
| `Paths.ExtensionOfName` | src/application.rs:52-57 | a path ending in `stem.ext` with a dot-free `ext` has extension exactly `ext` (case kept as written) |
| `Decimal.NatToString` | src/infrastructure.rs:234-241 | a counter is written as a non-empty string of digits with no leading zero |
| `Decimal.NatToStringRoundTrip` | src/infrastructure.rs:234-241 | reading the written digits back gives the counter |
| `Decimal.NatToStringInjective` | src/infrastructure.rs:234-241 | two counters are written the same exactly when they are equal |
| `Decimal.NumeralFieldUnique` | src/infrastructure.rs:234-241 | a numeral after a common prefix and before a non-digit is recovered uniquely, counter and remainder |
| `Application.IsMarker` | src/application.rs:52-53 | definition: a path is a weights file exactly when its extension is `safetensors`, compared case-sensitively; `SampleTree.BadMarker` and `SampleTree.UpperCaseArchive` state it on sample paths |
| `Application.IsArchive` | src/application.rs:52-56 | definition: a path is a candidate archive exactly when its extension is `zip`, compared case-sensitively; `ZipFilesMembers` states it for the listing |
| `Application.HasMarker` | src/application.rs:48-55 | definition: the flag the loop leaves set; `HasMarkerExists` proves it is set iff some listed file is a weights file |
| `Application.ZipFiles` | src/application.rs:49-58 | the candidate archives are no more than the listed files; `ZipFilesMembers` and `ZipFilesAppend` state which ones and in what order |
| `Application.HasMarkerExists` | src/application.rs:48-55 | the weights flag is set exactly when some listed file has extension `safetensors` |
| `Application.ZipFilesMembers` | src/application.rs:56-58 | the candidate archives are exactly the listed files with extension `zip` |
| `Application.ZipFilesAppend` | src/application.rs:51-58 | candidates keep listing order: the candidates of a concatenation are the concatenation of the candidates |
| `Application.ClassifyFiles` | src/application.rs:48-61 | the loop's flag is the weights test of the whole listing and its vector holds the listing's candidate archives in order |
| `Application.InspectArchives` | src/application.rs:67-80 | the archive loop counts, asks the port and reports exactly as the fold `ScanZips` does, stopping at the first port error |
| `Application.ScanDirectory` | src/application.rs:44-86 | one callback call changes counters, events and requests exactly as `DirStep` does, including the listing error that aborts it |
| `Application.ExtractModelInfo` | src/application.rs:35-91 | the run returns `RunResult`, emits `RunLog` and asks for `Finished(...).requests` |
| `Application.ZipStep` | src/application.rs:67-79 | definition of one archive iteration: count it, record the request, stop on a port error, otherwise count an extraction when the port says so and report; `ZipStepKeeps` and `ScanZipsOutcome` state its effect |
| `Application.ScanZips` | src/application.rs:67-80 | definition of the archive loop as a fold of `ZipStep`; `ScanZipsOutcome`, `ScanZipsFailed` and `ScanZipsKeeps` state its effect |
| `Application.DirStep` | src/application.rs:44-86 | definition of one callback call: count the directory, stop on a listing error, then the weights branch with `ScanZips` or the plain branch with one update; `DirStepOutcome` and `DirStepKeeps` state its effect |
| `Application.ScanDirs` | src/application.rs:44-86 | definition of the traversal as a fold of `DirStep`; `ScanDirsFailsIff`, `ScanDirsSucceeds`, `ScanDirsGrows` and `ScanDirsKeeps` state its effect |
| `Application.Started` | src/application.rs:40-42 | definition of the state after `ExtractStats::default()` and `on_start(root)`: zero counters, the log `[Start(root)]`, no requests, no failure; `RunLogShape` states that the log starts this way |
| `Application.RunResult` | src/application.rs:44-90 | definition: the callback's error first, then the traversal error, otherwise `Ok` with the counters; `RunSucceedsIff` and `RunTotals` state its value |
| `Application.RunLog` | src/application.rs:42-88 | definition: `on_start`, the updates, and `on_finish` only on success; `RunLogShape` states its shape |
| `Application.ScanZipsFailed` | src/application.rs:74 | once a port error has occurred no further archive changes the state |
| `Application.ScanDirsFailed` | src/application.rs:47 | once a callback has failed no further directory changes the state |
| `Application.DirTotals` | src/application.rs:44-80 | what one directory adds is well formed and counts that directory once |
| `Application.Totals` | src/application.rs:44-45 | the reference counters of a directory sequence are well formed and count every directory once |
| `Application.RequestsFor` | src/application.rs:67-74 | one request per candidate archive |
| `Application.CountExtracted` | src/application.rs:75-77 | at most one extraction per candidate archive |
| `Application.ScanZipsOutcome` | src/application.rs:67-80 | the archive loop fails iff some archive's port call fails; it never touches the directory counters; without failure it adds one check per archive, the port's positive answers as extractions, one update per archive, and the requests in order |
| `Application.DirStepOutcome` | src/application.rs:44-86 | one directory fails iff its listing fails or a port call for one of its archives does; without failure it adds exactly what the reference `DirTotals`, `DirRequests` and `DirUpdates` say (one update without weights, 1 + number of archives with weights) |
| `Application.ScanDirsGrows` | src/application.rs:44-86 | over any directory sequence the counters only grow, bounded by `Totals`, requests and log only get extended, and every new event is an update |
| `Application.GrowsTransitive` | src/application.rs:44-86 | growth of counters, requests and log composes over consecutive steps |
| `Application.ScanDirsFailsIff` | src/application.rs:47-86 | the scan of a directory sequence ends without failure exactly when no directory in it faults |
| `Application.ScanDirsSucceeds` | src/application.rs:44-86 | a scan without failure adds exactly `Totals` to the counters, `Requests` to the requests and `UpdateCount` updates to the log |
| `Application.AppendSnapshot` | src/application.rs:65 | reporting a larger well-formed snapshot keeps the log consistent: start first, then well-formed non-decreasing updates |
| `Application.ZipStepKeeps` | src/application.rs:67-79 | one archive step keeps the log consistent and `extracted <= zip_files_checked` |
| `Application.ScanZipsKeeps` | src/application.rs:67-80 | the archive loop keeps the log consistent |
| `Application.DirStepKeeps` | src/application.rs:44-86 | one directory keeps the log consistent and `safetensors_directories <= directories_scanned` |
| `Application.ScanDirsKeeps` | src/application.rs:44-86 | the whole traversal keeps the log consistent |
| `Application.ChainMonotone` | src/application.rs:65-82 | snapshots that grow step by step grow between any two positions |
| `Application.RunLogShape` | src/application.rs:42-90 | the log starts with `Start(root)`, holds only well-formed non-decreasing snapshots, ends with `Finish(result)` on success, and holds no `Finish` on failure |
| `Application.RunSucceedsIff` | src/application.rs:44-90 | the run succeeds exactly when the traversal does not fail and no directory faults |
| `Application.RunTotals` | src/application.rs:44-90 | on success the result equals the reference `Totals` (one scanned directory per directory handed over), every candidate of every weights directory was requested in order, and the log has two more entries than the reference update count |
| `Application.CountersFitU64` | src/domain.rs:5-8 | with fewer than 2^64 directories and candidate archives no counter in any snapshot or in the result leaves the u64 range |
| `Application.SnapshotsBelowFinal` | src/application.rs:65-88 | every snapshot reported is below the final counters |
| `Application.RequestsForMembers` | src/application.rs:67-74 | a directory's requests ask exactly for `model_info.json` from its candidate archives into that directory |
| `Application.RequestsAreMarkedArchives` | src/application.rs:63-74 | the reference requests are exactly the candidate archives of the weights directories, for `model_info.json`, into the archive's own directory |
| `Application.InspectedArchives` | src/application.rs:63-80 | the archives the run asks for are a prefix of the reference requests (all of them on success), and each is a candidate archive of a weights directory |
| `Application.UnmarkedDirectoryIsNotInspected` | src/application.rs:63-83 | a directory without weights adds one scanned directory and one update, asks for no archive and leaves the other counters unchanged |
| `Infrastructure.WalkOf` | src/infrastructure.rs:29-37 | definition of what the traversal hands over: directory entries kept, other entries skipped, the first error item ending the walk as `Message`; `WalkYieldsDirectories` characterises it |
| `Infrastructure.ForEachDirectory` | src/infrastructure.rs:29-37 | the traversal loop yields what `WalkOf` says: directory paths in order, stopping at the first traversal error as a `Message` |
| `Infrastructure.WalkYieldsDirectories` | src/infrastructure.rs:29-37 | only directory entries are handed over; the traversal fails iff some item is an error; without error the directories are exactly the directory entries in order |
| `Infrastructure.PrependFilesConcat` | src/infrastructure.rs:43-49 | pushing files in two steps is pushing their concatenation |
| `Infrastructure.CollectFiles` | src/infrastructure.rs:43-51 | definition of the entry loop: an unreadable entry or file type ends it with `Io`, a regular file is kept; `ListingIsRegularFiles` characterises it |
| `Infrastructure.ListingOf` | src/infrastructure.rs:40-53 | definition: a `read_dir` error is `Io`, otherwise `CollectFiles`; `ListFilesInDir` is proved equal to it |
| `Infrastructure.ListFilesInDir` | src/infrastructure.rs:40-53 | the listing loop returns what `ListingOf` says |
| `Infrastructure.ListingIsRegularFiles` | src/infrastructure.rs:43-51 | the listing succeeds iff every entry and its file type can be read, and then holds exactly the regular files' paths in listing order |
| `Infrastructure.Matches` | src/infrastructure.rs:83-90 | definition of the entry-match rule: a directory entry never matches, a file entry matches when its `file_name` is exactly the target; `FindEntryIsFirstMatch` and `NestedEntryMatches` state facts about it |
| `Infrastructure.FindEntry` | src/infrastructure.rs:75-104 | a found entry is one of the archive's entries from the start index on |
| `Infrastructure.FindEntryIsFirstMatch` | src/infrastructure.rs:75-104 | the search finds the first readable non-directory entry whose file name is the target, stops at the first unreadable entry with its reason, and finds nothing iff every entry is readable and none matches |
| `Infrastructure.ExtractionOf` | src/infrastructure.rs:61-106 | definition of the outcome and the output file: open and parse errors, the search, create and copy errors; `ExtractionSelectsFirstMatch` characterises it |
| `Infrastructure.ExtractZipEntryIfExists` | src/infrastructure.rs:55-107 | the index loop never returns `Err`; it returns the outcome and the output of `ExtractionOf` |
| `Infrastructure.ExtractionSelectsFirstMatch` | src/infrastructure.rs:61-106 | `Extracted` iff the archive opens and parses, the output can be created and the first match copies; `NotFound` iff it opens and nothing matches; output goes only to `output_dir` joined with the name, from the first match, and is complete iff `Extracted`; nothing is written when not found |
| `Infrastructure.NestedEntryMatches` | src/infrastructure.rs:83-90 | a file entry stored under any directories matches when its last component is the target |
| `Infrastructure.OutputNamedAfterEntry` | src/infrastructure.rs:91 | the output file is named `model_info.json`; it is `output_dir/model_info.json` when `output_dir` is non-empty and does not end in `/`, and `output_dir` directly followed by the name otherwise |
| `Infrastructure.FsPorts` | src/infrastructure.rs:23-108 | definition of the run's ports from the file system: `WalkOf`, `ListingOf`, and `true` exactly for `Extracted`; `FsRunFailsOnlyOnWalkOrListing` states what this means for a run |
| `Infrastructure.FsRunFailsOnlyOnWalkOrListing` | src/infrastructure.rs:55-107 | with the file-system ports a broken archive never aborts the run: it fails iff the traversal or some listing fails |
| `Infrastructure.FormatStats` | src/infrastructure.rs:272-279 | definition: `dirs: D zip: Z extracted: E` in decimal; `FormatStatsShowsThreeCounters` and `ReporterScenarios.SampleFormatStats` state what it shows |
| `Infrastructure.StatsLine` | src/infrastructure.rs:234-241 | definition: a carriage return and the four counters in decimal; `StatsLineInjective` and `ReporterScenarios.SampleStatsLine` state what it shows |
| `Infrastructure.FormatStatsShowsThreeCounters` | src/infrastructure.rs:272-279 | two records give the same message exactly when they agree on directories, archives and extractions; the weights counter is not shown |
| `Infrastructure.StatsLineInjective` | src/infrastructure.rs:234-241 | two records give the same stats line exactly when they are equal |
| `Infrastructure.SingleDigitField` | src/infrastructure.rs:234-241 | a counter below ten is written as its one digit |
| `Infrastructure.LineProgressReporter.WithWriter` | src/infrastructure.rs:188-197 | a new reporter keeps the given writer, has not started and remembers the default counters |
| `Infrastructure.LineProgressReporter.IntoInner` | src/infrastructure.rs:199-205 | definition: gives back the writer; the transcripts in `ReporterScenarios` read the output through it |
| `Infrastructure.LineProgressReporter.OnStart` | src/infrastructure.rs:209-222 | the first call writes `scanning: <root>` and a newline and marks the reporter started; later calls write nothing |
| `Infrastructure.LineProgressReporter.OnUpdate` | src/infrastructure.rs:224-244 | writes the stats line only when the counters differ from the last ones, then remembers them |
| `Infrastructure.LineProgressReporter.OnInvalidZip` | src/infrastructure.rs:246-259 | writes `invalid zip: <path> (<reason>)` on its own line and changes nothing else |
| `Infrastructure.LineProgressReporter.OnFinish` | src/infrastructure.rs:261-269 | an update followed by a newline: finishing with unchanged counters adds no second stats line |
| `ReporterScenarios.SampleStatsLine` | src/infrastructure.rs:234-241 | the stats line for 2, 1, 1, 1 is `\rdirs: 2 safetensors: 1 zip: 1 extracted: 1` |
| `ReporterScenarios.ExtractedField` | src/infrastructure.rs:240 | the extraction counter 1 is written ` extracted: 1` |
| `ReporterScenarios.ZipField` | src/infrastructure.rs:239 | the archive counter 1 is written ` zip: 1` |
| `ReporterScenarios.SafetensorsField` | src/infrastructure.rs:238 | the weights counter 1 is written ` safetensors: 1` |
| `ReporterScenarios.DirsField` | src/infrastructure.rs:236-237 | the directory counter 2 is written `\rdirs: 2` |
| `ReporterScenarios.SampleFormatStats` | src/infrastructure.rs:286-296 | the message for 1, 99, 2, 3 is `dirs: 1 zip: 2 extracted: 3` |
| `ReporterScenarios.InvalidZipLine` | src/infrastructure.rs:246-259 | a new reporter with an empty writer, told of the invalid archive `/tmp/bad.zip` with reason `invalid`, holds exactly `\ninvalid zip: /tmp/bad.zip (invalid)\n` |
| `ReporterScenarios.ReporterTranscript` | tests/progress_reporter.rs:6-26 | start, update and finish with the same counters write the scanning line, one stats line and a newline |
| `ReporterScenarios.InvalidZipTranscript` | tests/progress_reporter.rs:28-38 | a second start writes nothing, and the invalid archive is reported on its own line |
| `SampleTree.BadMarker` | src/application.rs:53 | `/r/bad/m.safetensors` is a weights file |
| `SampleTree.BadArchive` | src/application.rs:56 | `/r/bad/b.zip` is a candidate archive |
| `SampleTree.GoodMarker` | src/application.rs:53 | `/r/good/m.safetensors` is a weights file |
| `SampleTree.GoodArchive` | src/application.rs:56 | `/r/good/m.zip` is a candidate archive |
| `SampleTree.UpperCaseArchive` | src/application.rs:56 | `/r/good/M.ZIP` has extension `ZIP`, so the case-sensitive test skips it |
| `SampleTree.PlainArchive` | src/application.rs:56 | `/r/plain/m.zip` is a candidate archive |
| `SampleTree.ClassifyMarkerArchive` | src/application.rs:48-61 | a marker followed by an archive: weights present, that archive the only candidate |
| `SampleTree.ClassifyMarkerArchiveOther` | src/application.rs:48-61 | a marker, an archive and a file with another extension: weights present, that archive the only candidate |
| `SampleTree.ClassifyArchive` | src/application.rs:48-61 | an archive alone: no weights |
| `SampleTree.BadDirectory` | src/application.rs:48-61 | the `bad` listing has weights and one candidate archive |
| `SampleTree.GoodDirectory` | src/application.rs:48-61 | the `good` listing has weights and one candidate, `M.ZIP` not included |
| `SampleTree.PlainDirectory` | src/application.rs:48-61 | the `plain` listing has no weights |
| `SampleRun.TreeWalkDirectories` | src/infrastructure.rs:29-37 | a traversal of the sample's shape hands over the four directories, not the files nor the link |
| `SampleRun.SampleDirectories` | src/infrastructure.rs:29-37 | the sample traversal hands over `/r`, `/r/bad`, `/r/good`, `/r/plain` |
| `SampleRun.ListNothing` | src/infrastructure.rs:43-51 | a listing of four non-regular entries is empty |
| `SampleRun.ListOther` | src/infrastructure.rs:47 | a non-regular entry is not listed |
| `SampleRun.ListOneFile` | src/infrastructure.rs:43-51 | a listing of one regular file holds that path |
| `SampleRun.ListTwoFiles` | src/infrastructure.rs:43-51 | two regular files are listed in order |
| `SampleRun.ListThreeFiles` | src/infrastructure.rs:43-51 | three regular files are listed in order |
| `SampleRun.RootListing` | src/infrastructure.rs:43-51 | the root of the sample holds no regular file |
| `SampleRun.BadListing` | src/infrastructure.rs:43-51 | the `bad` listing |
| `SampleRun.GoodListing` | src/infrastructure.rs:43-51 | the `good` listing, upper-case archive included |
| `SampleRun.PlainListing` | src/infrastructure.rs:43-51 | the `plain` listing |
| `SampleRun.ModelInfoIsNormal` | src/domain.rs:1 | `model_info.json` is a single normal path component |
| `SampleRun.BadExtraction` | src/infrastructure.rs:68-73 | an archive that does not parse gives `InvalidZip` with the parser's reason and writes nothing |
| `SampleRun.FindAfterDirectory` | src/infrastructure.rs:83-90 | a directory entry is skipped and the matching file after it is found |
| `SampleRun.ExtractAfterDirectory` | src/infrastructure.rs:75-102 | an archive holding a directory entry and then the matching file extracts that file into the joined output path |
| `SampleRun.JoinGoodDirectory` | src/infrastructure.rs:91 | the output path in `/r/good` is `/r/good/model_info.json` |
| `SampleRun.ModelInfoEntryMatches` | src/infrastructure.rs:83-90 | the file entry stored as `a/model_info.json` matches `model_info.json` on its last component |
| `SampleRun.GoodExtraction` | src/infrastructure.rs:75-102 | the good archive's nested entry is copied to `/r/good/model_info.json` |
| `SampleRun.MarkedStep` | src/application.rs:63-80 | a weights directory with one candidate: one scanned and weights directory, one archive checked, one extraction if the port says so, two updates, one request |
| `SampleRun.ScanFourDirectories` | src/application.rs:44 | four directories are processed one after another in traversal order |
| `SampleRun.RootStep` | src/application.rs:81-83 | the first directory of the sample run |
| `SampleRun.BadStep` | src/application.rs:63-80 | the `bad` directory: archive checked, nothing extracted |
| `SampleRun.GoodStep` | src/application.rs:63-80 | the `good` directory: archive checked and extracted |
| `SampleRun.PlainStep` | src/application.rs:81-83 | the `plain` directory: its archive is not inspected |
| `SampleRun.RunOverTreeAnswers` | src/application.rs:35-91 | over ports answering like the sample tree the run returns (4, 2, 2, 1), asks for exactly the two archives, and logs start, six updates and finish |
| `SampleRun.PlainExtraction` | tests/extract_model_info.rs:69-74 | the archive of the directory without weights holds `model_info.json`, so asked for it the extraction would copy it |
| `SampleRun.SampleRunOutcome` | tests/extract_model_info.rs:66-193 | the file-system run over the sample tree succeeds despite the broken archive and counts 4, 2, 2, 1; it asks for exactly the two archives of the weights directories, not for the upper-case one, and not for the archive without weights although the port would extract from it |

## Left out

- Real file-system and archive I/O (`WalkDir`, `fs::read_dir`, `fs::File`, `zip::ZipArchive`, `io::copy`): foreign crates. They are parameters: traversal items, `read_dir` results, archive descriptions, and a `create` function that says whether the output file can be created.
- Byte contents of extracted files: an extraction records only which entry was chosen, where it goes, and whether the copy completed. Overwriting an existing output is the `create` function's business.
- The order of traversal items: `WalkDir`'s order is whatever the item sequence says.
- Error message texts: they are carried as opaque strings.
- `IndicatifProgressReporter`, `NoProgressReporter`, colours and spinner ticks: terminal UI with no logic beyond `format_stats`, which is modelled.
- The `Mutex` in `LineProgressReporter` and poison recovery: concurrency plumbing. The state is a class with plain fields.
- Write and flush errors of the reporter's writer: the code ignores them, and the model's writer never fails.
- `src/main.rs` (argument parsing and existence checks) and `src/lib.rs` (re-exports): not part of this model.
- Windows path separators: paths use `/` only, and a `Path` is its string.
- Counters are unbounded naturals. `CountersFitU64` proves that they stay below 2^64 whenever there are fewer than 2^64 directories and candidate archives. The model does not describe what happens past that bound; the code's `+=` would panic in a debug build or wrap in a release build.
- The callback-based `for_each_directory` is a sequence of directories plus an optional trailing traversal error. A callback error stops the traversal before later directories, and the model folds over the directories in order with the same effect.
- `ExtractStats` being `Copy`: datatypes in Dafny are values, so a reported snapshot cannot change afterwards. This needs no proof.
