/** Publishing a tagged release: the remote effects of `publish` one by one, crashes between any two
    of them, retries, and `verify_published`. File contents are terms, so a digest determines what it
    is the digest of; signatures verify exactly for the key pair that made them. */
module Publication {
  import opened Text
  import opened Semver
  import opened ReleaseHistory
  import opened ReleaseProtocol
  import StorageGate

  // ---- files ----

  datatype Digest = Sha256(of: Blob)

  /** The signed release record. */
  datatype Record = Record(
    version: Version, commit: Commit, image: nat, archives: map<string, Digest>, manifest: nat,
    sbom: Digest, scans: map<string, Digest>, storage: Storage)

  datatype Storage = Storage(release: Version, registry: StorageGate.Registry)

  datatype Blob =
    | Raw(id: nat)
    | Sums(lines: seq<(Digest, string)>)               // checksum lines in file order
    | RecordText(record: Record, layout: nat, further: nat)  // release-manifest.json: record, layout, further keys
    | Bundle(signed: Blob, key: nat, seed: nat)        // its signature bundle; signing draws a seed
    | ManifestText(json: nat, layout: nat)             // a verification manifest
    | ScanText(image: Option<nat>, severe: bool, rest: nat)
    | Sbom(id: nat)

  function LoadManifest(b: Blob): Option<nat>
  {
    if b.ManifestText? then Some(b.json) else None
  }

  function LoadRecord(b: Blob): Option<Record>
  {
    if b.RecordText? then Some(b.record) else None
  }

  /** The text `publish` writes: sorted keys, one layout, nothing further. */
  function Written(record: Record): Blob
  {
    RecordText(record, 0, 0)
  }

  predicate Signs(bundle: Blob, text: Blob, key: nat)
  {
    bundle.Bundle? && bundle.signed == text && bundle.key == key
  }

  function WithoutDot(name: string): string
  {
    if |name| >= 2 && name[..2] == "./" then name[2..] else name
  }

  /** The checksum list as a dictionary: later lines win. */
  function SumsMap(lines: seq<(Digest, string)>): map<string, Digest>
  {
    if lines == [] then map[]
    else SumsMap(lines[..|lines| - 1])[WithoutDot(lines[|lines| - 1].1) := lines[|lines| - 1].0]
  }

  // ---- names ----

  function ArchiveName(v: Version, arch: string): string
  {
    "agent-archivist-" + Render(v) + "-linux-" + arch + ".tar.gz"
  }

  function ArchiveNames(v: Version): set<string>
  {
    {ArchiveName(v, "amd64"), ArchiveName(v, "arm64")}
  }

  const SCAN_AMD := "container-scan-amd64.json"
  const SCAN_ARM := "container-scan-arm64.json"
  const SUMS := "SHA256SUMS"
  const RECORD := "release-manifest.json"
  const BUNDLE := "release-manifest.json.bundle"
  const SBOM := "sbom.json"
  const MANIFEST := "verification-manifest.json"

  /** Every uploaded name but the verification manifest's, which is the basename of the given path. */
  function FixedNames(v: Version): set<string>
  {
    ArchiveNames(v) + {SCAN_AMD, SCAN_ARM, SUMS, RECORD, BUNDLE, SBOM}
  }

  function RequiredNames(v: Version): set<string>
  {
    FixedNames(v) + {MANIFEST}
  }

  // ---- remote state ----

  datatype Asset = Asset(id: nat, name: string, blob: Blob)

  datatype Release = Release(draft: bool, target: Commit, assets: seq<Asset>)

  /** The inputs of one publish run: what the caller passes, what the directory holds, and the seed that
      signing the record draws. */
  datatype Inputs = Inputs(
    revision: Commit, image: Option<nat>, manifestName: string, manifest: Blob,
    archives: map<string, Blob>, sums: Blob, scanAmd: Blob, scanArm: Blob, key: nat, seed: nat)

  /** Image tags, signed images (digest and key), releases by tag, the forge's asset counter, and at
      most one live publisher per tag. `flips` only records which run published a tag. */
  datatype State = State(
    images: map<Version, nat>, signed: set<(nat, nat)>, releases: map<Version, Release>, nextId: nat,
    live: map<Version, Publisher>, flips: map<Version, Inputs>)

  datatype Publisher = Publisher(run: Inputs, found: bool, tagged: bool, phase: Phase)

  datatype Phase =
    | Checked                                          // every check up to the image probe has passed
    | Signed                                           // the image signature is pushed
    | Imaged                                           // the image tag is created, or was there
    | Drafted                                          // the tag is inspected and a draft release exists
    | Uploading(listing: seq<Asset>, k: nat, cleared: bool)  // files before k are up; cleared: k's old asset is gone

  // ---- the checks of publish ----

  predicate ArchivesOk(v: Version, run: Inputs)
  {
    && run.archives.Keys == ArchiveNames(v)
    && run.sums.Sums?
    && (var sums := SumsMap(run.sums.lines);
        sums.Keys == ArchiveNames(v) && forall n | n in sums :: sums[n] == Sha256(run.archives[n]))
  }

  predicate ScanOk(scan: Blob, image: nat)
  {
    scan.ScanText? && !scan.severe && scan.image == Some(image)
  }

  /** Everything `publish` checks before its first effect, except the forge and the registry. */
  predicate RunOk(v: Version, run: Inputs)
  {
    var t := Head(run.revision);
    && VersionOf(t) == Some(v)
    && StoragePasses(t, v)
    && run.image.Some?
    && LoadManifest(run.manifest).Some? && LoadManifest(run.manifest).value in t.acceptedManifests
    && t.publicKey.Some?
    && ArchivesOk(v, run)
  }

  /** The signing key is the one the checkout's public key verifies. */
  predicate KeyOk(run: Inputs)
  {
    Head(run.revision).publicKey == Some(run.key)
  }

  /** What `publish` checks once it has signed the image: its own signature, and both scans. */
  predicate SignedOk(run: Inputs)
    requires run.image.Some?
  {
    KeyOk(run) && ScanOk(run.scanAmd, run.image.value) && ScanOk(run.scanArm, run.image.value)
  }

  function StorageOf(run: Inputs, v: Version): Storage
  {
    Storage(v, Head(run.revision).registry)
  }

  function DigestsOf(files: map<string, Blob>): (ds: map<string, Digest>)
    ensures ds.Keys == files.Keys && forall n | n in files :: ds[n] == Sha256(files[n])
  {
    map n | n in files :: Sha256(files[n])
  }

  function ScanDigests(amd: Digest, arm: Digest): map<string, Digest>
  {
    map[SCAN_AMD := amd, SCAN_ARM := arm]
  }

  function RecordOf(v: Version, run: Inputs): Record
    requires RunOk(v, run)
  {
    Record(v, run.revision, run.image.value,
           DigestsOf(run.archives),
           LoadManifest(run.manifest).value,
           Sha256(Sbom(Head(run.revision).sbom)),
           ScanDigests(Sha256(run.scanAmd), Sha256(run.scanArm)),
           StorageOf(run, v))
  }

  /** The nine files in upload order. */
  function Uploads(v: Version, run: Inputs): (files: seq<(string, Blob)>)
    requires RunOk(v, run)
    ensures |files| == 9
  {
    var record := Written(RecordOf(v, run));
    [(ArchiveName(v, "amd64"), run.archives[ArchiveName(v, "amd64")]),
     (ArchiveName(v, "arm64"), run.archives[ArchiveName(v, "arm64")]),
     (SUMS, run.sums), (RECORD, record), (BUNDLE, Bundle(record, run.key, run.seed)),
     (run.manifestName, run.manifest), (SBOM, Sbom(Head(run.revision).sbom)),
     (SCAN_AMD, run.scanAmd), (SCAN_ARM, run.scanArm)]
  }

  // ---- asset lists ----

  predicate NamesUnique(assets: seq<Asset>)
  {
    forall i, j | 0 <= i < j < |assets| :: assets[i].name != assets[j].name
  }

  predicate IdsUnique(assets: seq<Asset>)
  {
    forall i, j | 0 <= i < j < |assets| :: assets[i].id != assets[j].id
  }

  /** The first asset of a listing with a name. */
  function Find(assets: seq<Asset>, name: string): (r: Option<Asset>)
    ensures r.Some? ==> r.value in assets && r.value.name == name
    ensures r.None? ==> forall i | 0 <= i < |assets| :: assets[i].name != name
  {
    if assets == [] then None else if assets[0].name == name then Some(assets[0]) else Find(assets[1..], name)
  }

  function RemoveId(assets: seq<Asset>, id: nat): seq<Asset>
  {
    if assets == [] then []
    else if assets[0].id == id then RemoveId(assets[1..], id)
    else [assets[0]] + RemoveId(assets[1..], id)
  }

  /** The assets whose names are not among the files'. */
  function Others(assets: seq<Asset>, names: set<string>): seq<Asset>
  {
    if assets == [] then []
    else if assets[0].name in names then Others(assets[1..], names)
    else [assets[0]] + Others(assets[1..], names)
  }

  function NamesOf(files: seq<(string, Blob)>): set<string>
  {
    set i | 0 <= i < |files| :: files[i].0
  }

  /** Assets holding the given files, in order. */
  predicate Holds(assets: seq<Asset>, files: seq<(string, Blob)>)
  {
    |assets| == |files| && forall i | 0 <= i < |files| :: assets[i].name == files[i].0 && assets[i].blob == files[i].1
  }

  // ---- steps ----

  datatype Step =
    | Start(run: Inputs)
    | SignImage
    | TagImage
    | Draft
    | List
    | Clear
    | Post
    | Flip
    | Stop          // a crash, or any refusal after the first effect

  /** What the first checks of a run see of the forge and the registry. */
  predicate Admits(s: State, tags: Tags, v: Version, run: Inputs)
  {
    && v in tags && tags[v] == run.revision
    && (v in s.releases ==> s.releases[v].target == run.revision && s.releases[v].draft)
    && (v in s.images ==> Some(s.images[v]) == run.image)
  }

  ghost predicate Can(base: string, s: State, tags: Tags, v: Version, step: Step)
  {
    if step.Start? then
      v !in s.live && RunOk(v, step.run) && Admits(s, tags, v, step.run) && step.run.manifestName == base
    else
      && v in s.live
      && var p := s.live[v];
         match step
         case SignImage => p.phase.Checked? && p.run.image.Some?
         case TagImage => p.phase.Signed? && p.run.image.Some? && SignedOk(p.run)
         case Draft => p.phase.Imaged? && v in s.images && Some(s.images[v]) == p.run.image
         case List => p.phase.Drafted? && v in s.releases
         case Clear => p.phase.Uploading? && p.phase.k < 9 && !p.phase.cleared && RunOk(v, p.run) && v in s.releases
         case Post => p.phase.Uploading? && p.phase.k < 9 && p.phase.cleared && RunOk(v, p.run) && v in s.releases
         case Flip => p.phase.Uploading? && p.phase.k == 9 && v in s.releases
         case _ => true
  }

  ghost function Move(s: State, v: Version, phase: Phase): State
    requires v in s.live
  {
    s.(live := s.live[v := s.live[v].(phase := phase)])
  }

  /** DELETE of the listed asset with the next file's name, if the listing has one. */
  function Cleared(assets: seq<Asset>, listing: seq<Asset>, name: string): seq<Asset>
  {
    match Find(listing, name)
    case None => assets
    case Some(a) => RemoveId(assets, a.id)
  }

  /** POST of the next file under a fresh id. */
  ghost function PostFile(s: State, v: Version, file: (string, Blob)): State
    requires v in s.live && s.live[v].phase.Uploading? && v in s.releases
  {
    var phase, rel := s.live[v].phase, s.releases[v];
    Move(s, v, phase.(k := phase.k + 1, cleared := false)).(
      releases := s.releases[v := rel.(assets := rel.assets + [Asset(s.nextId, file.0, file.1)])],
      nextId := s.nextId + 1)
  }

  ghost function Apply(base: string, s: State, tags: Tags, v: Version, step: Step): State
    requires Can(base, s, tags, v, step)
  {
    match step
    case Start(run) => s.(live := s.live[v := Publisher(run, v in s.releases, v in s.images, Checked)])
    case SignImage => Move(s, v, Signed).(signed := s.signed + {(s.live[v].run.image.value, s.live[v].run.key)})
    case TagImage =>
      var images := if s.live[v].tagged then s.images else s.images[v := s.live[v].run.image.value];
      Move(s, v, Imaged).(images := images)
    case Draft =>
      var releases := if s.live[v].found then s.releases
                      else s.releases[v := Release(true, s.live[v].run.revision, [])];
      Move(s, v, Drafted).(releases := releases)
    case List => Move(s, v, Uploading(s.releases[v].assets, 0, false))
    case Clear =>
      var p, rel := s.live[v], s.releases[v];
      var assets := Cleared(rel.assets, p.phase.listing, Uploads(v, p.run)[p.phase.k].0);
      Move(s, v, p.phase.(cleared := true)).(releases := s.releases[v := rel.(assets := assets)])
    case Post => PostFile(s, v, Uploads(v, s.live[v].run)[s.live[v].phase.k])
    case Flip =>
      s.(releases := s.releases[v := s.releases[v].(draft := false)],
         flips := s.flips[v := s.live[v].run],
         live := s.live - {v})
    case Stop => s.(live := s.live - {v})
  }
}
