# picshuffle planner, modelled in Dafny

picshuffle copies photos from an input tree to an output tree. Each photo goes
to `outdir/<year>/<month>/<file name>`, and files whose digest repeats are
skipped. In fast mode a repeat is checked in full only against the first file
with that digest. This project models the planning half of that program, which lives in
`src/actions.rs`. The planner takes the scan: each path with a SHA-256 digest
of the file, either of the whole file or, in the default "fast" mode, of its
first 64 KiB read. From the scan it builds the copy list of (source,
destination) pairs. The parts are:

- `hash_file` (module `Digest`). The opened file and the SHA-256 hasher are
  classes whose state the read loop advances. SHA-256 itself is an
  uninterpreted function of the bytes fed to the hasher.
- `get_fs_create_date`, `conv_field_datetime` and `get_exif_create_date`
  (module `Dating`). The file system and the EXIF reader are data in `Env`:
  per path, whether `File::open` succeeds, the read outcomes, the creation and
  modification dates, and the EXIF fields. A path that is absent can be
  neither stat'ed nor opened; a present path can always be stat'ed
  (`fs::metadata`) but is opened only when it is marked readable.
- `make_outpath` and `checked_add_to_copylist` (module `Placement`). Rust's
  `PathBuf::push`, `pop`, `file_name`, `file_stem` and `extension` are modelled
  on strings (module `RustPath`). The decimal rendering of year, month and
  rename index is in module `Decimal`.
- `filter_repeated` (module `Planner`). It is a method with the loop of the
  source. It is proved against `Run`, a function that folds one `Step` per
  scan entry. `Run` is then related to reference definitions stated on the
  scan alone:
  - `Hashes`: the digests seen.
  - `FirstWith`: the representative of each digest.
  - `Kept`: the entries that are placed.
  - `Allocate`: the destinations they get.
- Two of the source's unit tests are replayed as lemmas on symbolic
  environments (module `Scenarios`).

Every `expect`, `unwrap` and out-of-range index of the planner is a panic that
ends the whole run. The model returns `Failure(Fatal(reason, path))` for each
one and propagates it.

The model follows the code, including where the code does less than one might
expect of it:

- One might expect the earliest of several EXIF dates. The code reads only the
  first `DateTime` field that converts.
- One might expect that two files with the same content never both enter the
  plan. In full mode this holds when each entry carries its file's full digest
  (`Planner.FullModeDropsEqualContent`). In fast mode it does not. A file whose
  fast digest is known is compared in full only with the first file that had
  that digest. Take `a`, `b`, `c` with one fast digest, where `a` differs from
  `b` and `c` equals `b`: all three are placed.
  `Planner.FastRepeatOfNonRepresentativeKept` states this.
- One might expect the scan to be sorted first; it is not. Entries are processed in scan order, and
  the first file seen with a digest represents it for good.
- One might expect destinations to be unique; they are not. The rename probe looks up a bare name
  such as `foo-1` in a set of full paths. That lookup always misses, so every
  clash is renamed `-1`, and a renamed destination is never recorded. A third
  kept file with the same candidate (same name, same year and month)
  therefore gets the same `-1` destination as the second. `Planner.ThirdClaimRepeatsSecond` and
  `Planner.SameCandidateThriceCollides` state this.
- Read errors are not reported:
  - In full mode, a read error ends the hashing and the digest covers the
    bytes read so far.
  - In fast mode, a failed first read hashes the empty input.
  - An EXIF reader error means "no EXIF date".
- An ASCII EXIF value with no strings is indexed at `[0]`, which panics.
- `make_outpath` reads `opts.use_exif`, but `src/options.rs:3-9` declares
  `ignore_exif` instead. The model takes `useExif` as a plain flag of
  `Placement.Options`.

## Model

| member | source | states |
|---|---|---|
| Digest.HashFile | src/actions.rs:26-55 | a path that cannot be opened panics; otherwise fast mode digests the first read (nothing if it fails) and full mode digests every read up to the first empty read or error |
| Digest.File.Open | src/actions.rs:32 | an opened file starts before its first read |
| Digest.File.Read | src/actions.rs:41 | each `read` returns the next outcome of the file and advances by one call |
| Digest.Sha256.constructor | src/actions.rs:28 | a new hasher has been fed nothing |
| Digest.Sha256.Input | src/actions.rs:43 | `input` appends the given bytes to those fed so far |
| Digest.Sha256.Result | src/actions.rs:47-53 | the output is SHA-256 of every byte fed |
| Digest.DigestOf | src/actions.rs:26-55 | `hash_file` returns a digest exactly when the file can be opened, and panics with "open file" otherwise |
| Digest.DigestOfContent | src/actions.rs:26-55 | for a file read without error, the full digest is SHA-256 of its content and the fast digest is SHA-256 of a prefix of it no longer than the buffer |
| Digest.FeedToEnd | src/actions.rs:40-45 | the read loop feeds the hasher exactly `ReadAll` of the file's reads |
| Digest.ReadAllAt | src/actions.rs:41-43 | one iteration of the read loop: an error or an empty read ends the bytes fed, otherwise the read's bytes come first |
| Digest.FullModeFeedsContent | src/actions.rs:40-45 | for a file read without error, full mode feeds exactly the file's content, whatever the chunking |
| Digest.FastModeFeedsPrefix | src/actions.rs:34-38 | fast mode feeds a prefix of the content no longer than the 4096*16-byte buffer, and a non-empty one for a non-empty file |
| Digest.FullDigestIgnoresChunking | src/actions.rs:26-55 | two files with the same content have the same full digest |
| Digest.FastDigestMayCollide | src/actions.rs:35-38 | files whose first reads agree share a fast digest though their full digests differ |
| Dating.FsCreateDate | src/actions.rs:92-104 | the creation time, else the modification time; a panic when the file has no metadata or neither time |
| Dating.ConvFieldDateTime | src/actions.rs:106-117 | panics exactly on an ASCII value with no strings; a date and time it returns is the parse of the first string of an ASCII value |
| Dating.ExifCreateDate | src/actions.rs:121-147 | panics when the file cannot be opened; no date on a reader error; otherwise the only panic is an empty ASCII value |
| Dating.ExifDateFromField | src/actions.rs:131-141 | an EXIF date comes from a `DateTime` field of the file whose first string parses to that year and month |
| Dating.FirstDateTime | src/actions.rs:131-146 | `Success(None)` iff no field is a `DateTime` field that converts or panics; otherwise the outcome of the first such field |
| Dating.SkippedFieldsIgnored | src/actions.rs:106-117 | fields of other tags, and `DateTime` fields that are not ASCII or do not parse, change nothing when placed in front |
| Dating.ExifDateWins | src/actions.rs:121-147 | a file whose first deciding field is a parsable `DateTime` string is dated by it, whatever its filesystem times |
| Dating.CreateDate | src/actions.rs:200-207 | with `use_exif`, the EXIF date when there is one and the filesystem date otherwise; without it, the filesystem date |
| Dating.FsDateFallback | src/actions.rs:200-207 | without a deciding EXIF field the date is the creation time, else the modification time |
| Decimal.NatToDecimal | src/actions.rs:211 | the month renders as non-empty digits without a leading zero |
| Decimal.IntToDecimal | src/actions.rs:209 | the year renders as a '-' exactly when negative, then non-empty digits with no leading zero; it never holds '/' or '.' |
| Decimal.NatRoundTrip | src/actions.rs:211 | the decimal rendering of a natural number reads back as that number |
| Decimal.IntRoundTrip | src/actions.rs:209 | the rendering of a year reads back as that year |
| Decimal.NatToDecimalInjective | src/actions.rs:174 | different rename indices render differently |
| RustPath.FileName | src/actions.rs:215 | `file_name` returns only a normal component: non-empty, no '/', not "." or ".." |
| RustPath.Parent | src/actions.rs:171 | a parent is a strictly shorter prefix of the path |
| RustPath.Pop | src/actions.rs:171 | `pop` truncates to the parent, leaves a path without one alone, and always leaves a prefix |
| RustPath.Push | src/actions.rs:210-216 | an absolute component replaces the buffer; the result is no shorter than the component and at most one separator longer than both |
| RustPath.PushExtends | src/actions.rs:210-216 | a relative component is appended after the buffer with at most one '/' between |
| RustPath.FileStem | src/actions.rs:161-164 | a stem exists exactly when a file name does, and is a non-empty prefix of it |
| RustPath.Extension | src/actions.rs:165-168 | an extension is a dot-free, strictly shorter suffix of the file name |
| RustPath.StemExtensionRejoin | src/actions.rs:161-168 | stem, '.' and extension rejoin to the file name; without an extension the stem is the name |
| RustPath.StemExtensionNoSeparator | src/actions.rs:161-168 | the stem and the extension of a file name hold no '/' |
| RustPath.FileNameOfPush | src/actions.rs:216 | pushing a normal component makes it the path's file name |
| RustPath.ParentOfPush | src/actions.rs:170-176 | popping a pushed component gives the directory back |
| RustPath.PushHasSeparator | src/actions.rs:210-216 | a component pushed onto a non-empty path is separated from it by '/' |
| Placement.OutPath | src/actions.rs:193-219 | succeeds iff the date resolves and the source has a file name; a date panic comes first, then "bad file name" |
| Placement.OutPathShape | src/actions.rs:193-219 | the destination keeps the source's file name, its parent is `outdir/<year>/<month>`, and it holds a '/' |
| Placement.MonthDirShape | src/actions.rs:209-212 | the last two components are the unpadded month and year, which read back as the date's |
| Placement.MakeOutpath | src/actions.rs:193-219 | the successive pushes of `make_outpath` build `OutPath`, panics included |
| Placement.OutPathOfPush | src/actions.rs:209-216 | the destination of `dir/name` dated `date` is `outdir/<year>/<month>/name` |
| Placement.UnreadableFilePlaced | src/actions.rs:200-207 | without EXIF, a file that can be stat'ed but not opened is still dated and placed, though it has no digest |
| Placement.BareNameInjective | src/actions.rs:174 | different indices give different bare names |
| Placement.ProbeBound | src/actions.rs:173-182 | the probe can pass only as many indices as there are recorded paths, so it ends |
| Placement.FirstFree | src/actions.rs:173-182 | the index found is free, and every index tried before it is taken |
| Placement.Destination | src/actions.rs:152-188 | an untaken destination is kept; a taken one becomes its directory plus `stem-k.ext` for the least `k` whose bare name is untaken (the helpers `StemPart`, `ExtPart`, `BareName` and `Renamed` are the `file_stem` match, the `extension` match, the `format!` and the pop-then-push of lines 161-176) |
| Placement.PartsOfPath | src/actions.rs:161-168 | the stem and `.ext` parts of a destination are the matches on `file_stem` and `extension` |
| Placement.CheckedAddToCopyList | src/actions.rs:152-188 | appends `(src, Destination)`; records a new destination, records nothing on a rename |
| Placement.LeastFreeIsFirstFree | src/actions.rs:173-182 | the probe loop stops at the least free index |
| Placement.ProbeStopsAtOne | src/actions.rs:173-182 | when every recorded path holds a '/', the probe stops at index 1 and a clash is renamed `-1` |
| Placement.BareNameValid | src/actions.rs:174-176 | the bare name of a valid name is a valid name, longer than it |
| Placement.RenamedOfPush | src/actions.rs:161-182 | renaming `m/name` gives `m/bare`, with the same parent and a different path |
| Placement.RenamedStaysBeside | src/actions.rs:161-182 | a renamed destination stays in the same month folder, is named by the bare name, and differs from the clashing path |
| Planner.Place | src/actions.rs:261-262 | placing a kept file fails exactly when `make_outpath` panics, with its panic |
| Planner.PlaceEffect | src/actions.rs:266-267 | a placement leaves the map alone, records the candidate and appends `(src, Destination)` |
| Planner.Step | src/actions.rs:240-268 | after a step that does not panic the entry's digest is known; in full mode a known digest changes nothing |
| Planner.StepPreserves | src/actions.rs:240-268 | a step keeps every representative, adds only the entry's digest, appends at most one pair and forgets no recorded path |
| Planner.Run | src/actions.rs:239-269 | the loop over the scan; an empty scan never panics |
| Planner.RunLength | src/actions.rs:239-269 | a run that does not panic holds at most one pair per scan entry |
| Planner.RunSnoc | src/actions.rs:239-269 | one more scan entry is one more step of the loop, unless the run already aborted |
| Planner.RunMatches | src/actions.rs:224-271 | after any run that does not abort, the map holds exactly the digests seen, each mapped to its first path; the copy list holds exactly the kept entries, in order, at `Allocate`'s destinations; the recorded paths are their candidates |
| Planner.RunAbortsAt | src/actions.rs:224-271 | once a prefix of the scan panics, the whole run ends with that panic |
| Planner.FilterRepeated | src/actions.rs:224-271 | the loop's result is `Run`'s: the same panic, or the copy list whose sources are the kept entries and whose destinations are `Allocate` of their candidates |
| Planner.HashesAreCarried | src/actions.rs:245 | a digest is known exactly when some entry carries it |
| Planner.FirstWithIsFirst | src/actions.rs:263-264 | a digest's representative is the path of the first entry that carries it |
| Planner.KeptFromScan | src/actions.rs:239-268 | only scan entries are placed, each at most as often as it occurs |
| Planner.KeptSourcesDistinct | src/actions.rs:239-268 | a scan with distinct paths gives a copy list with distinct sources |
| Planner.FullModeKeepsFirstOfEachDigest | src/actions.rs:245-251 | in full mode exactly one entry per digest is kept, the first that carries it |
| Planner.FullModeDropsEqualContent | src/actions.rs:245-251 | in full mode, with each entry carrying its file's full digest (as `scan_path` stores at line 81), a file whose content equals an earlier one's is not kept |
| Planner.FastModeComparesContent | src/actions.rs:252-262 | in fast mode a digest match with equal content is dropped, and one whose content has a different SHA-256 is placed |
| Planner.FastHitOnUnreadableAborts | src/actions.rs:252-254 | in fast mode a digest hit on a file that cannot be opened panics, ending the run |
| Planner.FastRepeatOfNonRepresentativeKept | src/actions.rs:252-262 | in fast mode, of three files with one fast digest where the first differs from the second and the third equals the second, all three are kept |
| Planner.FastRepeatOfNonRepresentativePlanned | src/actions.rs:252-262 | such a run's copy list has the sources `a`, `b`, `c`, so two files with equal content are both copied |
| Planner.AllocateAt | src/actions.rs:156-187 | each placed entry gets its candidate on first claim and the `-1` name on every later claim |
| Planner.ThirdClaimRepeatsSecond | src/actions.rs:173-182 | three claims of one candidate give `[d, d-1, d-1]`: destinations are not unique |
| Planner.RunSucceeds | src/actions.rs:224-271 | a run aborts only on a source without a destination or, in fast mode, on a file that cannot be opened |
| Planner.DistinctDigestsAllKept | src/actions.rs:263-267 | with no repeated digest every entry is kept |
| Planner.DistinctDigestsAllPlaced | src/actions.rs:263-267 | with no repeated digest and every destination defined, the run succeeds and keeps every entry |
| Planner.RunPlan | src/actions.rs:224-271 | the copy list of a successful run, in terms of the scan alone |
| Planner.RunKeys | src/actions.rs:263-264 | the map's keys are the digests seen |
| Planner.SameCandidateThriceCollides | src/actions.rs:152-188 | three distinct files with one candidate send the second and the third to the same destination |
| Scenarios.RunFirst | src/actions.rs:263-267 | the first entry is recorded and placed at its candidate |
| Scenarios.RunFresh | src/actions.rs:263-267 | a new digest with an untaken candidate is recorded, placed and its candidate recorded |
| Scenarios.RunClash | src/actions.rs:156-182 | a new digest whose candidate is taken is placed at the `-1` name, which is not recorded |
| Scenarios.RunDropped | src/actions.rs:252-258 | in fast mode a known digest with equal full digests leaves the state unchanged |
| Scenarios.RunSameDestination | src/actions.rs:152-188 | two distinct files with one candidate are placed at `d` and `d-1` |
| Scenarios.SameNameTwice | src/actions.rs:193-219 | two files of the same name and month from different folders go to `name` and `stem-1.ext` in the same month folder |
| Scenarios.DeconflictOutputName | src/actions.rs:424-441 | the test's `test/ref2/foo` and `test/ref2/b/foo`, both November 2017, go to `test/out2/2017/11/foo` and `foo-1` |
| Scenarios.RunTwoThenDuplicate | src/actions.rs:252-258 | after two placed files, a fast-digest repeat of the second with equal full digest changes nothing |
| Scenarios.RunFreshAfterDuplicate | src/actions.rs:263-267 | a new file after a dropped duplicate is placed after the first two |
| Scenarios.FastDuplicateDropped | src/actions.rs:239-268 | four files where the third repeats the second's content give a copy list of the first, second and fourth |
| Scenarios.ExecCopyPlan | src/actions.rs:393-411 | the test's `test/ref` tree dated October 2017 plans `a/1`, `a/10` and `b/foo`, and drops the duplicate `b/10` |

## Left out

- `scan_path` (the directory walk with `ignore::WalkBuilder`) is not part of this model. The scan is an input, given in walk order.
- `exec_copies`, directory creation and the copy itself are file-system effects and are not part of this model.
- `main.rs` and `options.rs`: command-line parsing is not modelled. `Placement.Options` holds the three fields the planner reads: `fast_hash`, the EXIF flag and `out_dir`.
- SHA-256 is an uninterpreted function. Its collision resistance is never assumed; properties that need distinct content to give distinct digests take that as a hypothesis.
- EXIF parsing and `exif::DateTime::from_ascii` are oracles. `Env` gives the reader's fields, and a parsing function on byte strings.
- `chrono`: the conversion of a system time to a local date, and time zones, are not modelled. `Env` gives dates already as local year and month.
- `Local.ymd` panics on an invalid calendar date; such a date is not modelled. The EXIF date's day is dropped.
- `println!` of EXIF reader errors is output only and is left out.
- The fixed 64 KiB read buffer is modelled as reads returning at most `HASH_BUF_SIZE` bytes each. A read past the end of the given outcomes is end of file.
- `to_str().unwrap()` on paths cannot fail here, because paths are Dafny strings.
- Windows path rules (prefixes, '\\' separators) are left out; the path model is the Unix one.
- Global uniqueness of destinations is not stated anywhere, because the source does not provide it (see `Planner.ThirdClaimRepeatsSecond`).
