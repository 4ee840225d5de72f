# Agent Archivist: verified models

Agent Archivist keeps an append-only archive of agent sessions in object storage. Around the
product stand its release transactions, the gates a commit has to pass, and a generator of synthetic
session files. This project models the parts of those whose correctness is an argument over whole
runs or over all inputs, and proves it.

- **Releases** (`ReleaseHistory`, `ReleaseProtocol`, `Publication`, `Uploading`, `UploadResult`,
  `PublicationSafety`, `PublishedRelease`, `CompletedRelease`, `PublishRun`, `ReleaseRuns`, `ReleaseTool`,
  `ReleaseSample`): `prepare`, `tag_release` and `publish` as a state
  machine over one remote: `main`, which moves by fast-forward, tags written once, image tags, and
  releases with their assets. Jobs interleave freely, crash between any two remote effects and are
  retried with other inputs. The same operations also appear as methods of a mutable `Remote`, and a
  completed `publish` is a run of the machine. The central results: both
  repository gates accept whatever this machine can reach, a published release is the nine files of
  one run and stays so forever, no crash wedges a release, and it is said exactly which releases
  `verify_published` accepts.
- **Storage qualification** (`StorageGate`, `Semver`): which record opens the release gate, and
  that a failed rerun always closes it.
- **Generator** (`Calendar`, `Timestamp`, `Json`, `DrbgStream`, `Wording`, `Draws`, `Sessions`,
  `RewriteOrder`, `RewriteSample`, `ContentScan`, `CleanCorpus`, `CommittedCorpus`): the calendar arithmetic
  with its exact range, the byte stream and its unbiased draws, a printer whose files determine their
  records, sessions and rewrite chains whose shape holds for every draw, and the content scan, which
  accepts every key and string of every rewritten session.
- **Crate graph** (`CrateGraph`): the layering is the longest-chain layering, and its failure report
  is exactly the set of nodes that reach a cycle.
- **Comment stripping** (`RustCode`): every text has one reading as code, strings and comments, and
  the scanner returns the kept part of it.
- **Lifecycle matrix** (`Lifecycle`, `LifecycleRuns`, `LifecycleGate`, `LifecycleMatrix`,
  `LifecycleExamples`): the seven checks of the gate, and what an accepted registry can and cannot delete
  over any run of puts and rule firings.
- **Metric names and bindings** (`Metrics`, `Bindings`): when two metrics collide, and the literal printer.

`Text` holds the strings, decimals and splitting they share.

Several promises turn out to hold only under a condition. Each is stated with the exact condition and
an input that breaks it.

- `civil_from_days` is documented as valid beyond the render window. Before 0000-03-01 it
  names the next day, except on the last day of a 400-year era: its negative branch is written for
  truncating division, while the language floors. Where the true day ends a February, the result is a
  date that does not exist (`Calendar.CivilExact`, `Calendar.CivilValidExact`,
  `Calendar.CivilBeforeMarchZero`, `Calendar.CivilNoDate`).
- Timestamps sort as strings exactly between 0000-02-29 and the end of year 9999
  (`Timestamp.OrderExact`, `Timestamp.OrderFailsOutside`).
- The lifecycle note says current versions under `raw`, `control`, `catalog` and `derived` are never
  expired, and that whole objects expire only in the probe namespace. The gate skips every row of the
  family name `multipart`, also when a family of that name is declared, and it lets the probe
  namespace lie inside another family, or under one of the four prefixes beside all that is listed
  there (`LifecycleRuns.CurrentSafeExact`, `LifecycleRuns.ProbeOnlyExact`,
  `LifecycleExamples.ReservedNameEscapes`, `LifecycleExamples.ProbingEscapes`,
  `LifecycleExamples.UnlistedEscapes`).
- It also says current-pointer versions are kept. The gate compares subprefixes as whole strings, so
  an expiring family may contain the current-pointer keys (`LifecycleRuns.PointerSafeExact`,
  `LifecycleExamples.NestingEscapes`).
- Without any tag, a second `prepare` may raise the version again: when the source is below the first
  VERSION ever recorded (`ReleaseProtocol.RerunExact`, `ReleaseProtocol.RerunRaisesAgain`).
- `verify_published` does not read the scans again, so it accepts a release that `publish` would have
  refused for its scans (`PublishedRelease.VerifyWithScansExact`, `ReleaseSample.SevereScanVerifies`).
  It parses the signed record, so it also accepts a layout or further keys that no run of `publish`
  writes (`PublishedRelease.VerifyPlainExact`, `ReleaseSample.OtherLayoutVerifies`).
- A published release verifies exactly when its verification manifest was passed under the name that
  verification requires; `publish` takes any name (`ReleaseRuns.PublishedForever`).
- A generation of a rewritten session is in time order only while the generations it still holds lines
  of started in order; from the third on that can fail (`RewriteOrder.OrderedExactly`,
  `RewriteSample.ThirdGenerationRegresses`).

Conventions. A commit is its own linear history, so a commit lies on `main` when it is a prefix of it,
and equal commits have equal hashes. File contents are terms: a digest determines its content, and a
signature verifies for exactly the key and the text it was made with; signing twice may give different
bundles. Python's floor division and remainder by positive
constants are Dafny's. A raised exception or a nonzero exit is a refused result.

## Model

| member | source | states |
|---|---|---|
| ReleaseHistory.ValidateHistory | tools/check-release-container.py:862-895 | the loop over log entries reports nothing exactly when some entry introduces VERSION, no entry before it has a record, and from it on both records are present and equal; a log that never introduces VERSION is reported |
| ReleaseHistory.HistoryGateExact | tools/check-release-container.py:1019-1024 | the log lists only commits touching Cargo.toml or VERSION, and that loses nothing: the gate accepts it exactly when every commit of the whole history, touched or not, is coherent from the introduction on |
| ReleaseHistory.SameRecords | tools/check-release-container.py:1019-1024 | a commit that changes neither record changes no verdict, which is why the log may skip it |
| ReleaseHistory.ValidateTags | tools/check-release-container.py:898-913 | silent exactly when every tag whose name is a release version records that very version at its commit; other tag names never cause a violation |
| ReleaseHistory.TagNameVersion | tools/check-release-container.py:898-913 | the name `v` plus a rendered version reads back as that version, so distinct versions have distinct tags |
| ReleaseProtocol.PrepareIsAhead | scripts/release-policy.py:136-156 | once tags exist, prepare replays the tag on its own source, refuses, or chooses a version that is untagged and above every tag |
| ReleaseProtocol.RerunExact | scripts/release-policy.py:136-181 | prepare rerun on the commit it made, with main and tags unchanged, makes no second commit if and only if tags exist or the source was not below the first recorded VERSION; otherwise it raises the patch number once more |
| ReleaseProtocol.RerunRaisesAgain | scripts/release-policy.py:136-181 | an input of the failing kind: VERSION 1.0.0 lowered to 0.9.0 without a tag is raised to 0.9.1 and, on that commit, to 0.9.2 |
| ReleaseProtocol.StepKeeps | scripts/release-policy.py:126-224 | every interleaved step of concurrent prepare and tag_release jobs, outside commits and crashes keeps main coherent, every tag on a fitting commit of main, and every job in flight consistent; main and tags only grow |
| ReleaseProtocol.RunKeeps | scripts/release-policy.py:126-224 | the same for runs of any length: a tag names one commit forever, on main, with both version records equal to the tag and the storage gate open |
| ReleaseProtocol.GatesAccept | tools/check-release-container.py:862-913 | in every reachable world both `validate_history` on the log of main and `validate_tags` on the listed tags return no violation |
| ReleaseProtocol.TaggedIsQualified | scripts/release-policy.py:209-224 | every tag ever created sits on a commit whose last appended live B2 record for exactly that version is qualified |
| ReleaseProtocol.UndisturbedPrepare | scripts/release-policy.py:126-181 | the three protocol steps of a prepare job that nobody disturbs put its release commit on top of its source and change nothing else |
| ReleaseProtocol.UndisturbedTag | scripts/release-policy.py:209-224 | the two protocol steps of an undisturbed tag job put the tag on the tip of main and change nothing else |
| ReleaseProtocol.RunAscends | scripts/release-policy.py:136-181 | if no outside commit lowers VERSION, VERSION never falls along main in any run, releases prepared by racing jobs included |
| ReleaseProtocol.TagsAscend | scripts/release-policy.py:136-224 | then a tag on a later commit of main is always a strictly greater version |
| ReleaseTool.FindLatest | scripts/release-policy.py:137-139 | the chosen tag is a member of the tag set that no other tag exceeds numerically, and none is chosen exactly when there is no tag |
| ReleaseTool.Remote.constructor | scripts/release-policy.py:126-135 | a remote starts with the given main and without tags, images, signatures or releases |
| ReleaseTool.Remote.Prepare | scripts/release-policy.py:126-181 | in place: a given tag is checked and planned for without touching main; otherwise it refuses, replays, keeps or raises as the choice demands; main moves only when it still is the source, by one commit that changes the version records, lock file and SBOM and nothing else; it is never rewound |
| ReleaseTool.Remote.TagRelease | scripts/release-policy.py:209-224 | succeeds exactly when checkout, version, manifest, storage gate and main agree and the tag is new or already on this commit; no existing tag ever moves, and the tag it leaves fits main |
| ReleaseTool.Remote.Publish | scripts/release-policy.py:238-302 | a completed run leaves exactly the state that the steps of an undisturbed publisher reach: the signature, the image tag, and the published release holding what the upload loop makes of the old listing; a refused run leaves images and releases as they were |
| ReleaseTool.Remote.Replay | scripts/release-policy.py:119-124 | a release event that comes twice: after a completed publish, prepare for the same tag asks for no release if and only if no name was listed twice and the required manifest is there, and otherwise refuses; a second publish is refused whatever its inputs; neither changes anything |
| ReleaseTool.Remote.Upload | scripts/release-policy.py:294-301 | the delete-and-post loop works on the release the forge holds and leaves it with the recursive upload of all files over the listing taken before the loop; other releases stay |
| ReleaseTool.Remote.Delete | scripts/release-policy.py:297-299 | deleting the listed asset of a name takes exactly that identifier out of the held release |
| UploadResult.UploadIs | scripts/release-policy.py:294-301 | after k files the release holds the listed assets that were never deleted, in order, and then the k new ones; of a name listed twice only the first entry is ever deleted |
| UploadResult.UniqueExact | scripts/release-policy.py:294-301 | no name is held twice after the loop if and only if none was listed twice and the uploaded names are distinct |
| UploadResult.HoldsExact | scripts/release-policy.py:294-301 | the release holds exactly the files, in order, if and only if no name was listed twice and none outside the files was listed |
| UploadResult.RepeatStays | scripts/release-policy.py:294-301 | a name listed twice is still held twice after the loop, whatever is uploaded |
| CompletedRelease.Finished | scripts/release-policy.py:294-301 | for any listing and any manifest basename: names are unique after the loop if and only if they were before and the manifest takes none of the other eight names; the nine files alone are held if and only if no name was listed twice and none outside the nine was listed |
| CompletedRelease.CompletedVerifies | scripts/release-policy.py:59-124 | what publish completes passes `verify_published` on the same checkout if and only if no name was listed twice and the manifest is there under its required name; foreign assets in the draft do no harm |
| Uploading.ProgressUnique | scripts/release-policy.py:294-301 | at every point of the upload loop, between delete and post included, no two assets share a name |
| Uploading.ProgressDone | scripts/release-policy.py:294-302 | a finished loop holds the files in order exactly when the stale listing held no name outside them |
| Uploading.UploadAllProgress | scripts/release-policy.py:294-301 | the upload of the first k files over any listing with unique names and ids replaces exactly those k names and keeps the rest |
| Uploading.NameListDistinct | scripts/release-policy.py:295 | the nine uploaded names are pairwise different for every version, given a manifest basename that is none of the other eight |
| Uploading.ManifestIsTheNinth | scripts/release-policy.py:68-72 | with the manifest named verification-manifest.json the uploaded names are exactly the names verification requires |
| PublicationSafety.StepKeeps | scripts/release-policy.py:238-302 | every single remote effect of any publisher, with crashes and retries with other inputs, keeps: unique asset names and ids, a draft made of a listing plus the files sent so far, one target per release, an image tag equal to the digest in flight, and for each published release the run that published it |
| PublicationSafety.PublishedIsFrozen | scripts/release-policy.py:241-245 | no step of any publisher of any tag changes the assets, target or image tag of a published release |
| PublishRun.UndisturbedPublish | scripts/release-policy.py:238-302 | an admitted publisher whom nobody disturbs gets through all its remote effects if and only if its key and scans pass, and together they leave what the operation as a whole leaves |
| PublishedRelease.CarriedVerifies | scripts/release-policy.py:59-101 | any release that a run with good inputs and the right key accounts for in this sense, under its signed and tagged image, is accepted |
| PublishedRelease.UploadVerifies | scripts/release-policy.py:59-101 | the files of any run with good inputs and the right key, under its signed and tagged image, are accepted |
| PublishedRelease.VerifyExact | scripts/release-policy.py:59-101 | acceptance holds if and only if the release belongs to the checkout, no name occurs twice, and some run with good inputs and the right key, its image signed and tagged, accounts for the required files: the record parses to its record, in any layout and with any further keys, the bundle is any signature of that text, and the other seven files are exactly its uploads; the contents of the scans play no part, and further assets do no harm |
| PublishedRelease.VerifyPlainExact | scripts/release-policy.py:59-101 | acceptance of a record written as `publish` writes it holds if and only if the required files are exactly the nine uploads of such a run |
| ReleaseSample.OtherLayoutVerifies | scripts/release-policy.py:78-80 | an input on which the two differ: a signed record in another layout is accepted although no run of `publish` uploads those files |
| PublishedRelease.VerifyWithScansExact | scripts/release-policy.py:59-101 | acceptance together with passing scans holds if and only if such a run passes every check of `publish` |
| ReleaseSample.SevereScanVerifies | scripts/release-policy.py:81-101 | an input on which verification and publication differ: a release holding a scan with a severe finding, which `publish` would have refused, is accepted |
| ReleaseSample.SamplePublishes | scripts/release-policy.py:209-302 | the machine is not idle: from an untagged remote of the initial kind a tag job and a publisher end with a published release that verifies |
| PublishedRelease.VerifiedUpload | scripts/release-policy.py:59-101 | from an accepted release alone a run with good inputs and the right key can be reconstructed that accounts for the files found, and uploads exactly them when the record is written as `publish` writes it |
| PublishedRelease.RecordPinsBytes | scripts/release-policy.py:81-101 | two accepted releases of one version and source whose signed records parse to the same record, however laid out and signed, hold the same archives, scans and SBOM and name the same image |
| PublishedRelease.HeldVerifies | scripts/release-policy.py:59-101 | a release holding the nine files of a run with good inputs and the right key, under its signed image tag, verifies on the checkout of that run |
| PublishedRelease.PublishedVerifies | scripts/release-policy.py:59-101 | under the publication invariant every published release is tagged, and it verifies on the tagged checkout if and only if its manifest has the required name |
| ReleaseRuns.StepKeeps | scripts/release-policy.py:126-302 | repository jobs and publishers interleaved keep both invariants together: no repository step breaks a publication and none of the publishers breaks the repository |
| ReleaseRuns.ReleasesHold | scripts/release-policy.py:238-302 | for any manifest basename of its own: in every state reachable from an unreleased remote no draft or release holds two assets of one name, and a published one holds exactly the nine files of the single run that published it, with its digest signed and tagged |
| ReleaseRuns.RunFreezes | scripts/release-policy.py:238-302 | over runs of any length a published release, its image tag and its source commit stay as they are |
| ReleaseRuns.PublishedForever | scripts/release-policy.py:59-302 | whatever is published in one reachable state is unchanged in every later one, and passes verification on its tagged source in every later one if and only if its manifest has the required name |
| ReleaseRuns.Completes | scripts/release-policy.py:238-302 | from every state of the invariant an admitted run under the manifest basename of the system that is left alone ends if and only if its key and scans pass, and then with its nine files published |
| ReleaseRuns.CrashRecovers | scripts/release-policy.py:238-302 | no crash wedges a release: wherever a publisher stops, the same inputs are admitted again and signed anew with any seed, and left alone the second run publishes them if and only if their key and scans pass, which is certain once the first run had tagged the image |
| Semver.BumpIsNext | scripts/release-policy.py:153-153 | raising the patch number gives the immediate successor in SemVer precedence: no version lies between |
| Semver.ParseRender | scripts/release-policy.py:20-20 | every triple renders to a text the strict pattern accepts and reads back as the triple |
| Semver.RenderParse | scripts/release-policy.py:20-20 | every text the strict pattern accepts is the rendering of what it reads as: no leading zeros, no second spelling |
| Semver.VersionIsRelease | tools/check-storage-profiles.py:137-139 | every strict version is also a release for the storage gate, whose pattern is wider |
| StorageGate.VisitRecords | tools/check-storage-profiles.py:299-418 | the record loop reports nothing exactly when every record is well formed, and collects for each known profile exactly the dates of its records in append order |
| StorageGate.ValidateRegistry | tools/check-storage-profiles.py:239-444 | silent exactly on registries with a sound header, well-formed records, the records each profile class demands, and per-profile date order |
| StorageGate.DatesSorted | tools/check-storage-profiles.py:437-442 | the collected dates of a profile are in order exactly when any two of its dated records are in date order |
| StorageGate.SortedExact | tools/check-storage-profiles.py:439-439 | dates equal their sorted copy exactly when they are in order |
| StorageGate.CopySorts | tools/check-storage-profiles.py:439-439 | the sorted copy is in order and a permutation of the dates |
| StorageGate.LatestLive | tools/check-storage-profiles.py:476-499 | the result indexes a dated live record of exactly this profile and release |
| StorageGate.LatestIsNewest | tools/check-storage-profiles.py:476-499 | it is the maximum by date and then append position, and it is missing exactly when there is no such record |
| StorageGate.LatestIsLastAppended | tools/check-storage-profiles.py:437-499 | in an accepted registry the newest record by date is the one appended last |
| StorageGate.OpenGateIsQualified | tools/check-storage-profiles.py:502-526 | an open release gate means the last appended live B2 record of that exact release is qualified |
| StorageGate.FailedRerunCloses | tools/check-storage-profiles.py:476-526 | appending an unqualified live record for the release closes the gate whatever its date and whatever came before |
| StorageGate.OtherRecordsDoNotMatter | tools/check-storage-profiles.py:502-526 | appending any record of another release, profile or evidence kind leaves the release verdict as it was |
| Calendar.CivilExact | tools/fixturegen.py:268-283 | the conversion agrees with the inverse day count if and only if the day is on or after 0000-03-01 or is the last day of a 400-year era; from 0000-03-01 on it is a valid date |
| Calendar.CivilInEra | tools/fixturegen.py:268-283 | on those days the result is a valid proleptic Gregorian date whose day count is the argument |
| Calendar.CivilBelowEra | tools/fixturegen.py:275-276 | on all other negative days the day count of the result is one more than the argument, because the shift by 146096 is written for truncating division |
| Calendar.CivilLate | tools/fixturegen.py:275-276 | what it returns there: the date after the true one, except that on the last day of a February it is that February with one day more |
| Calendar.CivilValidExact | tools/fixturegen.py:268-283 | the result is a date at all if and only if the day is on or after 0000-03-01, or is the last day of a 400-year era, or is not the day before a 1 March |
| Calendar.CivilNoDate | tools/fixturegen.py:275-276 | a day of the failing kind: -719835 becomes 29 February of year -1, which does not exist |
| Calendar.CivilBeforeMarchZero | tools/fixturegen.py:275-276 | a concrete failure: days -719470 and -719469 both become 29 February of year 0 |
| Calendar.DaysThenCivil | tools/fixturegen.py:268-283 | every valid date from 0000-02-29 on is recovered from its day count: with CivilInEra, a bijection |
| Calendar.DaysInjective | tools/fixturegen.py:268-283 | two valid dates with one day count are the same date |
| Calendar.NextDayCounts | tools/fixturegen.py:268-283 | the reference successor, by month lengths and the leap rule, is valid and one day later |
| Calendar.CivilConsecutive | tools/fixturegen.py:268-283 | from 0000-02-29 on consecutive days become consecutive dates across month ends, leap days and centuries |
| Calendar.CivilOrder | tools/fixturegen.py:268-283 | from 0000-02-29 on later days are later dates |
| Calendar.CivilAnchors | tools/fixturegen.py:291-293 | day 0 is 1970-01-01, day 20458 is the base day 2026-01-05, and days -719469 and -719468 are 0000-02-29 and 0000-03-01 |
| Timestamp.FormatIsFields | tools/fixturegen.py:298-307 | from 0000-02-29 to the end of year 9999 the text is six zero-padded fields of fixed width with fixed marks |
| Timestamp.FormatOrder | tools/fixturegen.py:298-307 | in that window later seconds give strictly greater strings, as RFC 3339 section 5.1 promises for one fixed offset |
| Timestamp.OrderExact | tools/fixturegen.py:298-307 | the window is exact: an interval of seconds that meets it keeps its order as strings if and only if it lies within |
| Timestamp.OrderFailsOutside | tools/fixturegen.py:298-307 | at both edges the order breaks: the last seconds of the day before the window and of its first day share one text, so the first second of the window sorts below the second before it, and the first second of year 10000 sorts below the last of year 9999 |
| Json.Jstr | tools/fixturegen.py:310-328 | the byte-building loop is the quoted escape of the string, code point by code point |
| Json.DecodeEncode | tools/fixturegen.py:326-326 | UTF-8 encoding of every scalar value decodes back, whatever follows |
| Json.ReadLiteral | tools/fixturegen.py:310-328 | a reader of section 7 of RFC 8259 strings recovers every string from its literal and stops at its closing quote |
| Json.ReadEncoded | tools/fixturegen.py:331-348 | booleans, integers of either sign and strings are read back exactly, with the rest of the input untouched |
| Json.Jline | tools/fixturegen.py:331-348 | the printing loop yields the brace-enclosed, comma-separated pairs in order and one newline |
| Json.ReadPrinted | tools/fixturegen.py:331-348 | reading a printed line gives back the same pairs in the same order, for every key and value |
| Json.LineIsOneLine | tools/fixturegen.py:331-348 | a printed line contains a newline only as its last byte, control characters in strings included |
| Json.SplitConcat | tools/fixturegen.py:331-348 | splitting a file at its newlines recovers the lines it was joined from |
| Json.FileDeterminesRecords | tools/fixturegen.py:331-348 | two record lists that print to the same file are equal |
| DrbgStream.Drbg.constructor | tools/fixturegen.py:225-230 | a new generator stands at the start of its block stream |
| DrbgStream.Drbg.Take | tools/fixturegen.py:232-241 | the bytes handed out are the next bytes of the infinite block stream, the buffer is the unread rest of the blocks made so far, and the call fails exactly when the eight-byte counter would overflow |
| DrbgStream.ChunksJoin | tools/fixturegen.py:232-241 | however the requests are cut, their outputs join to one stretch of the stream |
| DrbgStream.Drbg.Below | tools/fixturegen.py:243-257 | returns what the stream yields from its position on and stands right after it; a result is below the bound, and bounds 0 and 1 give 0 and draw nothing |
| DrbgStream.BelowIsFirst | tools/fixturegen.py:243-257 | for every stream the result is the first draw below the bound, all draws before it are rejected and exactly the draws up to it are consumed; there is none only when the stream ends first |
| DrbgStream.BitLengthBounds | tools/fixturegen.py:251-252 | the bit length is the least width that holds the number |
| DrbgStream.Unbiased | tools/fixturegen.py:243-257 | every value below the bound has the same number of raw byte strings, two to the number of masked-off bits, and they are exactly the strings that draw it |
| DrbgStream.MostlyAccepted | tools/fixturegen.py:243-257 | more than half of all raw strings are accepted |
| Wording.UuidShape | tools/fixturegen.py:351-357 | any sixteen bytes become a version 4, variant 10 identifier in the form of section 5.4 of RFC 9562 |
| Wording.TakeUuid | tools/fixturegen.py:351-357 | the identifier is made of the next sixteen stream bytes and has that shape |
| Wording.Sentence | tools/fixturegen.py:380-401 | the sentence is the one its form and word draws determine, in draw order |
| ContentScan.SayIsSentence | tools/fixturegen.py:724-730 | whatever the form and the words drawn from their lists, the sentence passes the sentence rule: cut at its blanks it has no empty word, and each is in the closed lexicon or is a function word |
| Wording.Model | tools/fixturegen.py:370-372 | the label is the one its two draws determine |
| ContentScan.NumberedModel | tools/fixturegen.py:370-372 | a lower-case noun and a number from 100 to 999 make a label of the model pattern, with exactly three digits |
| ContentScan.ToolShape | tools/fixturegen.py:375-377 | two lower-case words of the lexicon make a tool name that the scan accepts |
| ContentScan.ProjectShape | tools/fixturegen.py:365-367 | two lower-case words of the lexicon make a project name that the scan accepts |
| ContentScan.AccountShape | tools/fixturegen.py:360-362 | any four bytes make an account label of the account pattern |
| ContentScan.TimestampShape | tools/fixturegen.py:183-183 | every rendered time of the window has the timestamp pattern |
| ContentScan.StreamClean | tools/fixturegen.py:351-401 | for every block stream and position, each drawn identifier, account, sentence, tool, project, model and reason passes its own rule of the scan |
| Draws.DrawsServe | tools/fixturegen.py:215-265 | the draws a block stream determines are bounded and are what a generator over that stream serves at every position |
| Sessions.BodyRecord | tools/fixturegen.py:423-458 | kind, identifier and the draws of that kind, in this order, make the record the draws determine |
| Sessions.BodyLines | tools/fixturegen.py:404-459 | the loop over time, pending tool use and list yields the body that the draws determine from the position it starts at, and stands right after its last draw |
| Sessions.BodyFromIsBody | tools/fixturegen.py:404-459 | for every draw sequence: times advance by at least one second and at most the gap, and every tool result answers an earlier tool use |
| Sessions.ExtendBody | tools/fixturegen.py:404-459 | appending a record that is later by one step keeps the body rules and the pending tool use |
| Sessions.SynthSession | tools/fixturegen.py:462-491 | the lines are those the draws determine: a start whose missing identifier is drawn, the body, and the end |
| Sessions.SessionFromIsSession | tools/fixturegen.py:462-491 | for every draw sequence a session is one start, a body of the requested length, and one end that counts every line including itself, at the computed end time |
| Sessions.SessionIncreasing | tools/fixturegen.py:462-491 | the times of a whole session strictly increase and it has one start, first, and one end, last |
| Sessions.SessionRendered | tools/fixturegen.py:462-491 | so do its rendered timestamps as strings while start and end render in the window |
| Sessions.FirstRendered | tools/fixturegen.py:638-646 | for the first generation of every rewritten session this holds without any assumption: its times always render in the window |
| Sessions.AnswersUnique | tools/fixturegen.py:404-459 | a tool result refers to the nearest earlier tool use, and no two results refer to one |
| Sessions.MakeFresh | tools/fixturegen.py:653-658 | the fresh lines are those the draws determine |
| Sessions.FreshFromIsFresh | tools/fixturegen.py:653-658 | for every draw sequence: a compaction recording how many lines were kept, a body of four to eleven records, and an end that counts the lines before it |
| Sessions.Rewrite | tools/fixturegen.py:650-659 | one turn of the loop yields the generation the draws and the predecessor determine |
| Sessions.RewriteFromIsRewrite | tools/fixturegen.py:650-659 | for every draw sequence a generation keeps at least two lines and never the old end, and restarts one to three times its number of days after the session |
| Sessions.RewriteChain | tools/fixturegen.py:638-660 | the loop yields exactly the chain the draws determine, or fails when the stream ends first |
| Sessions.ChainFromIsChain | tools/fixturegen.py:638-660 | for every draw sequence and any number of generations the first file is a session and each further one a rewrite of its predecessor |
| Sessions.RewriteShape | tools/fixturegen.py:650-659 | a rewrite of a file with one start, first, and one end, last, is such a file |
| Sessions.ChainShape | tools/fixturegen.py:638-660 | hence every generation of every chain has exactly one start, first, and one end, last |
| Sessions.KeptBytes | tools/fixturegen.py:650-659 | both files begin with the same bytes: the kept lines are those of the predecessor unchanged |
| Sessions.FreshIncreasing | tools/fixturegen.py:652-658 | the fresh part is in strict time order and its end is later than all of it |
| Sessions.FreshRendered | tools/fixturegen.py:652-658 | its rendered timestamps increase as strings while its first and last render in the window |
| Sessions.RewriteIncreasing | tools/fixturegen.py:650-659 | a whole rewritten file is in time order if and only if its kept part is and the last kept record precedes the compaction |
| Sessions.SecondGenerationIncreasing | tools/fixturegen.py:638-660 | the second generation is always in time order as a whole |
| RewriteOrder.OwnLine | tools/fixturegen.py:650-659 | every line of a generation is the line, at the same place, of the generation that wrote it |
| RewriteOrder.OwnTimes | tools/fixturegen.py:650-659 | a line lies less than a day after the start of the generation that wrote it |
| RewriteOrder.OrderedExactly | tools/fixturegen.py:638-660 | for every chain: a generation is in time order as a whole if and only if the starts of the generations whose lines it still holds strictly increase along the file |
| RewriteSample.ThirdGenerationRegresses | tools/fixturegen.py:650-652 | a byte stream on which, with the committed words, it is not: the third generation restarts before the second and keeps a line of it |
| CleanCorpus.RecordPasses | tools/fixturegen.py:803-813 | a record made of clean texts, at a time of the window, has only keys and strings that the scan accepts |
| CleanCorpus.SessionClean | tools/fixturegen.py:462-491 | every record of every session is made of clean texts |
| CleanCorpus.RewriteClean | tools/fixturegen.py:650-659 | a rewrite of clean lines is clean |
| CleanCorpus.ChainPasses | tools/fixturegen.py:638-660 | every record of every chain passes the key and string rules of the scan whenever its time renders, for any word lists of lower-case words |
| CommittedCorpus.CommittedPlain | tools/fixturegen.py:130-169 | the committed word lists are of that kind |
| CommittedCorpus.ChainRenders | tools/fixturegen.py:638-660 | the times of up to 900000 generations render; the committed number is 3 |
| CommittedCorpus.CorpusPasses | tools/fixturegen.py:750-815 | so with the committed lists every key and string of every rewritten session passes the scan, for every block stream |
| CrateGraph.CheckAcyclic | tools/check-crate-graph.py:214-234 | layers are returned exactly when the graph has no cycle; they partition the nodes in sorted order with layer k holding the nodes whose longest dependency chain has k steps; otherwise the sorted report is exactly the nodes from which a cycle can be reached |
| CrateGraph.CheckWorkspace | tools/check-crate-graph.py:255-260 | undeclared dependencies are refused first and listed in order, each as often as it is declared; otherwise the verdict of the layering |
| CrateGraph.SortAll | tools/check-crate-graph.py:255-257 | a list in order that is a permutation of the given one |
| CrateGraph.RankIsLongestChain | tools/check-crate-graph.py:214-234 | the round in which a node is freed is the length of its longest dependency chain |
| CrateGraph.RankedAvoidsCycles | tools/check-crate-graph.py:214-234 | a freed node reaches no cycle |
| CrateGraph.StuckReachesCycle | tools/check-crate-graph.py:214-234 | every node of a set in which each node depends on another of the set reaches a cycle, by a walk longer than the set |
| CrateGraph.StuckIsExact | tools/check-crate-graph.py:214-234 | what remains when no node is free is exactly the set of nodes that reach a cycle |
| CrateGraph.LayersDisjoint | tools/check-crate-graph.py:214-234 | no node is in two layers |
| CrateGraph.SortNames | tools/check-crate-graph.py:214-234 | the names of a set in strictly increasing order, each once |
| RustCode.Advance | tools/check-cli-implementation.py:184-235 | the loop body on two flags and a depth is one turn of a four-mode transducer, and keeps at most one condition on |
| RustCode.Scan | tools/check-cli-implementation.py:171-236 | the index loop emits exactly what the transducer emits on the whole text |
| RustCode.StripRendered | tools/check-cli-implementation.py:171-236 | on every well-separated list of code, strings, line and block comments, literals and ticks the output is the kept segments and the line-comment newlines |
| RustCode.SegmentsSound | tools/check-cli-implementation.py:171-236 | every text whatever is the rendering of a well-separated segment list |
| RustCode.SegmentsUnique | tools/check-cli-implementation.py:171-236 | and of only one |
| RustCode.StripKeeps | tools/check-cli-implementation.py:171-236 | so on every text the scanner returns the kept part of its one reading |
| RustCode.StripBody | tools/check-cli-implementation.py:201-211 | a block comment of any nesting is skipped whole and returns to the depth before it |
| RustCode.StripOpenBody | tools/check-cli-implementation.py:201-211 | a block comment that never closes swallows the rest of the text |
| RustCode.ReadBodyComplete | tools/check-cli-implementation.py:201-211 | a nested comment body is recovered from its text, whatever follows |
| RustCode.StripString | tools/check-cli-implementation.py:185-194 | a string survives unchanged, escaped quotes and comment markers inside it included, also when it is not closed |
| RustCode.StripLine | tools/check-cli-implementation.py:195-200 | a line comment leaves only its newline |
| Metrics.CollisionExact | tools/check-metrics.py:198-206 | two distinct signals that meet the per-signal rules export to one family if and only if neither is a counter and one is dimensionless and named as the other plus the unit suffix of the other |
| Metrics.CountersDiffer | tools/check-metrics.py:198-206 | two counters never share a family |
| Metrics.CounterAndPlainDiffer | tools/check-metrics.py:198-206 | a counter never shares a family with anything else |
| Metrics.LocalErrorsExact | tools/check-metrics.py:290-342 | the per-signal rules report nothing exactly on well-formed signals |
| Metrics.JudgeSignal | tools/check-metrics.py:290-406 | one signal is clean exactly when its own rules hold and its family is new, and then it alone is recorded under it |
| Metrics.ValidateSignals | tools/check-metrics.py:286-408 | the loop accepts exactly the tables without a local error and without such a clash, and then maps each family to its signal |
| Metrics.SoundInjective | tools/check-metrics.py:397-406 | in an accepted table different signals have different families |
| Lifecycle.CheckSubprefixes | tools/check-s3-lifecycle.py:209-215 | a family passes exactly when its subprefixes are distinct and none was seen before |
| Lifecycle.CheckFamilies | tools/check-s3-lifecycle.py:169-215 | accepts exactly family lists with distinct names, the closed vocabularies and globally distinct subprefixes |
| Lifecycle.CheckRules | tools/check-s3-lifecycle.py:246-286 | accepts exactly rule lists with distinct cells in the closed vocabulary, and returns the cells |
| Lifecycle.CheckProfiles | tools/check-s3-lifecycle.py:218-235 | accepts exactly profiles of known class and versioning with an existing note |
| Lifecycle.CheckRegistryShape | tools/check-s3-lifecycle.py:157-294 | accepts exactly the registries of the documented shape: the three loops, the row count and the full matrix |
| Lifecycle.CheckProtection | tools/check-s3-lifecycle.py:302-329 | accepts exactly when, outside the reserved family, whole objects expire only in expirable families and every family that is not source of truth is aged or declared not applicable |
| Lifecycle.CheckPointerPin | tools/check-s3-lifecycle.py:332-354 | accepts exactly when on versioned profiles the current-pointer family, and no other, retains noncurrent versions |
| Lifecycle.MatrixFilled | tools/check-s3-lifecycle.py:239-294 | an accepted shape has exactly one rule for every profile and family |
| Lifecycle.SpareRow | tools/check-s3-lifecycle.py:239-294 | and exactly one further row, a multipart row; no profile has the reserved name |
| LifecycleRuns.CurrentSafeExact | docs/notes/s3-noncurrent-lifecycle.md:71-74 | over every run of puts and rule firings the last put at a key stays current that lies under raw, control, catalog or derived, or belongs to a family other than probe, or is no probe key, if and only if no row of the family name multipart expires whole objects and, where a probe row does, no probe subprefix lies under one of those four prefixes or nests with one of another family |
| LifecycleRuns.ProbeOnlyExact | docs/notes/s3-noncurrent-lifecycle.md:82-85 | current versions are lost under `probe` alone, over every run, if and only if every row that expires whole objects is of a declared family all of whose subprefixes lie under `probe` |
| LifecycleRuns.PointerSafeExact | docs/notes/s3-noncurrent-lifecycle.md:75-81 | on a versioned profile every version of a current-pointer object stays over every run, if and only if no expiring rule of another scope overlaps current-pointer keys |
| LifecycleRuns.DocumentedIsSafe | docs/notes/s3-noncurrent-lifecycle.md:71-85 | a registry that passes the gate and is written as documented is safe in all three senses |
| LifecycleGate.CheckControlSplit | tools/check-s3-lifecycle.py:357-396 | accepts exactly when every control record is of a known class and key shape and the two control families list exactly the segments of their class |
| LifecycleGate.CheckNoteMatrix | tools/check-s3-lifecycle.py:399-447 | accepts exactly the tables whose rows have five cells, repeat no cell, agree with the rule of their cell and leave out no rule |
| LifecycleGate.NoteExact | tools/check-s3-lifecycle.py:399-447 | for rules of distinct cells that means: the table is exactly the list of rules, each once, in any order |
| LifecycleGate.RunAll | tools/check-s3-lifecycle.py:501-512 | the whole gate accepts exactly when all seven checks do |
| LifecycleMatrix.BuiltShape | tools/check-s3-lifecycle.py:157-294 | for any profiles, families and settings of the closed vocabulary the full matrix with the abort row is a registry of the accepted shape |
| LifecycleExamples.ChangePasses | tools/check-s3-lifecycle.py:489-512 | the whole gate accepts the committed registry with any raw and probe subprefixes that are no control subprefixes and differ from all others as strings, with or without a further family named multipart |
| LifecycleExamples.ReservedNameEscapes | tools/check-s3-lifecycle.py:313-314 | a change of the committed registry that all seven checks accept and that loses current versions: a family that takes the reserved name multipart |
| LifecycleExamples.NestingEscapes | tools/check-s3-lifecycle.py:209-215 | one that loses current-pointer versions: subprefixes are compared as whole strings, so raw may also list the control tree |
| LifecycleExamples.ProbingEscapes | tools/check-s3-lifecycle.py:209-215 | one that loses current versions of raw: the probe namespace may lie under raw |
| LifecycleExamples.UnlistedEscapes | tools/check-s3-lifecycle.py:209-215 | one that loses current versions under the raw prefix although no family but probe lists them: raw lists only its blobs and the probe namespace lies beside them |
| LifecycleExamples.CommittedIsSafe | tools/s3-lifecycle-rules.toml:1-236 | the committed registry passes the gate and is safe in all three senses on every versioned profile |
| Bindings.TwoPasses | tools/bindingsgen.py:132-135 | replacing backslashes and then quotes equals escaping character by character |
| Bindings.RustStringRoundTrip | tools/bindingsgen.py:132-135 | a reader of the literal recovers every value and stops at its closing quote |
| Bindings.FirstDifference | tools/bindingsgen.py:404-420 | silent exactly on identical texts; otherwise it names the first line that differs, or that one text is a proper prefix of the other by lines |
| Bindings.UrnPrefix | tools/bindingsgen.py:199-211 | the common prefix of all ids that ends in a colon and that every other such prefix is a prefix of; an error exactly when there is none |

## Left out

- Subprocess, HTTP, docker, cosign and file system calls: only their effect on the remote is modelled, and a failing call is a crash between two effects.
- Several live publishers of one tag: `publish` checks the release before it acts on it, so the model assumes publishers of one tag are serialized; publishers of different tags interleave.
- Merge commits and rewritten history: `main` is linear and moves by fast-forward.
- Lightweight tags, and tags that other people delete: a tag is what `tag_release` creates.
- The text edits of Cargo.toml and Cargo.lock and the generated SBOM: a release commit is a structured update of the version records with an arbitrary new lock file and SBOM.
- VERSION texts that are not strict SemVer: they are one malformed value, on which `prepare` and the gates refuse; before the first tag the code would still compare some of them as numbers.
- `evidence` and the manifest checker: an accepted manifest is a member of a set fixed by the checkout.
- The order in which the directory listing returns the two archives: fixed to amd64, arm64.
- ReleaseRuns.ReleasesHold: all runs of one system pass their verification manifest under one basename, none of the other eight names; runs that mix basenames, or take one of the eight, are treated for a single upload in CompletedRelease.
- ReleaseRuns.Completes: the run passes its verification manifest under the basename of the system.
- Symbolic hashing and signing: collisions and key handling are outside the model.
- `standing` and `latest_record`: they choose among same-day records differently from the release gate and are not used by it.
- StorageGate.VisitRecords: the field rules of a record that concern neither date, profile, evidence, release nor outcome are one flag.
- StorageGate.ValidateRegistry: the header rules and the field rules of a record that concern neither date, profile, evidence, release nor outcome are two flags.
- The malformed corpus and the manifest of the generator: fixed lists of cases.
- CommittedCorpus.CorpusPasses: of the content scan only the rules on keys and strings are modelled, not those on raw bytes, denied words, credentials and tokens.
- A trailing newline, which the patterns of the content scan also accept before their end.
- Strings with lone surrogates, on which the encoder of the source language raises.
- SHA-256 as the block function of the generator: any function from counters to 32-byte blocks.
- Metrics.LocalErrorsExact: label, boundary and phase rules only contribute a count of further errors per signal.
- Metrics.ValidateSignals: label, boundary and phase rules only contribute a count of further errors per signal.
- Bindings.FirstDifference: works on decoded text, not on UTF-8 bytes.
- Lifecycle.CheckProfiles: whether a referenced note file exists is a flag of the profile.
- LifecycleGate.CheckNoteMatrix: the table is given as rows of cells; cutting it out of the note, and the header test, are one flag.
- LifecycleGate.CheckControlSplit: a control record is given by its class and the segment its key pattern yields, if any.
- LifecycleGate.RunAll: the constant in the audit source and the two facts about the script are given as read.
- Lifecycle: objects expire by rules at any time; day counts only have to be in range.
- Unicode digits and line separators that the patterns and text functions of the source language also accept.
- Dockerfile, SBOM, schema, command-line, configuration, licence and document-agreement gates: long lists of flat conditions.
- Rust crates of the product itself, command-line entry points and self tests.
