/** `verify_published`: what it accepts, and that whatever is published is accepted. */
module PublishedRelease {
  import opened Text
  import opened Semver
  import opened ReleaseHistory
  import Repo = ReleaseProtocol
  import opened Publication
  import opened Uploading
  import opened PublicationSafety
  import UploadResult

  // ---- verification of a published release ----

  /** The bytes downloaded for a name. */
  function Blobs(assets: seq<Asset>, name: string): Option<Blob>
  {
    match Find(assets, name)
    case None => None
    case Some(a) => Some(a.blob)
  }

  predicate HasNames(assets: seq<Asset>, names: set<string>)
  {
    forall n | n in names :: Find(assets, n).Some?
  }

  function At(assets: seq<Asset>, name: string): Blob
    requires Find(assets, name).Some?
  {
    Find(assets, name).value.blob
  }

  predicate FileAgrees(assets: seq<Asset>, name: string, d: Digest)
  {
    Find(assets, name).Some? && Sha256(At(assets, name)) == d
  }

  predicate ArchivesAgree(assets: seq<Asset>, names: set<string>, archives: map<string, Digest>)
  {
    archives.Keys == names && forall n | n in names :: FileAgrees(assets, n, archives[n])
  }

  predicate ScansAgree(assets: seq<Asset>, scans: map<string, Digest>)
  {
    && scans.Keys == {SCAN_AMD, SCAN_ARM}
    && FileAgrees(assets, SCAN_AMD, scans[SCAN_AMD]) && FileAgrees(assets, SCAN_ARM, scans[SCAN_ARM])
  }

  /** The signed record agrees with the checkout and with every other downloaded file. */
  predicate RecordAgrees(v: Version, revision: Commit, assets: seq<Asset>, record: Record)
    requires HasNames(assets, RequiredNames(v))
  {
    var t := Head(revision);
    && record.storage == Storage(v, t.registry)
    && record.commit == revision && record.version == v
    && ArchivesAgree(assets, ArchiveNames(v), record.archives)
    && ScansAgree(assets, record.scans)
    && FileAgrees(assets, SBOM, record.sbom) && record.sbom == Sha256(Sbom(t.sbom))
    && LoadManifest(At(assets, MANIFEST)) == Some(record.manifest) && record.manifest in t.acceptedManifests
    && At(assets, SUMS).Sums? && SumsMap(At(assets, SUMS).lines) == record.archives
  }

  /** `verify_published` on a checkout of `revision`. */
  predicate Verified(s: State, v: Version, revision: Commit, rel: Release)
  {
    var t := Head(revision);
    && rel.target == revision
    && Repo.VersionOf(t) == Some(v) && Repo.StoragePasses(t, v)
    && NamesUnique(rel.assets)
    && HasNames(rel.assets, RequiredNames(v))
    && t.publicKey.Some?
    && Signs(At(rel.assets, BUNDLE), At(rel.assets, RECORD), t.publicKey.value)
    && At(rel.assets, RECORD).RecordText?
    && (var record := At(rel.assets, RECORD).record;
        && RecordAgrees(v, revision, rel.assets, record)
        && (record.image, t.publicKey.value) in s.signed
        && v in s.images && s.images[v] == record.image)
  }

  /** The required assets are exactly what a run uploads that passes the checks of `publish` before its
      signature and holds the committed key; its scans may say anything. */
  ghost predicate UploadedBy(v: Version, assets: seq<Asset>, run: Inputs)
  {
    && RunOk(v, run) && KeyOk(run) && run.manifestName == MANIFEST
    && forall i | 0 <= i < 9 :: Blobs(assets, Uploads(v, run)[i].0) == Some(Uploads(v, run)[i].1)
  }

  /** The same up to the writing of the record: any text that parses to it, further keys allowed, with any
      signature of that text. */
  ghost predicate Carries(v: Version, assets: seq<Asset>, run: Inputs)
  {
    && RunOk(v, run) && KeyOk(run) && run.manifestName == MANIFEST
    && (forall i | 0 <= i < 9 && i != 3 && i != 4 ::
          Blobs(assets, Uploads(v, run)[i].0) == Some(Uploads(v, run)[i].1))
    && Find(assets, RECORD).Some? && LoadRecord(At(assets, RECORD)) == Some(RecordOf(v, run))
    && Find(assets, BUNDLE).Some? && Signs(At(assets, BUNDLE), At(assets, RECORD), run.key)
  }

  /** The record is written as `publish` writes it. */
  predicate PlainRecord(assets: seq<Asset>)
  {
    && Find(assets, RECORD).Some? && LoadRecord(At(assets, RECORD)).Some?
    && At(assets, RECORD) == Written(LoadRecord(At(assets, RECORD)).value)
  }

  lemma RecordAndBundle(v: Version, run: Inputs)
    requires RunOk(v, run)
    ensures Uploads(v, run)[3] == (RECORD, Written(RecordOf(v, run)))
    ensures Uploads(v, run)[4] == (BUNDLE, Bundle(Written(RecordOf(v, run)), run.key, run.seed))
  {
  }

  /** What a run uploads carries it, with its record written plainly. */
  lemma UploadedCarries(v: Version, assets: seq<Asset>, run: Inputs)
    requires UploadedBy(v, assets, run)
    ensures Carries(v, assets, run) && PlainRecord(assets)
  {
    RecordAndBundle(v, run);
    assert Blobs(assets, Uploads(v, run)[3].0) == Some(Uploads(v, run)[3].1);
    assert Blobs(assets, Uploads(v, run)[4].0) == Some(Uploads(v, run)[4].1);
  }

  lemma CarriedFile(v: Version, assets: seq<Asset>, run: Inputs, i: nat, name: string, blob: Blob)
    requires Carries(v, assets, run) && i < 9 && i != 3 && i != 4 && Uploads(v, run)[i] == (name, blob)
    ensures Find(assets, name).Some? && At(assets, name) == blob
  {
    assert Blobs(assets, Uploads(v, run)[i].0) == Some(Uploads(v, run)[i].1);
  }

  lemma ArchiveUploads(v: Version, run: Inputs)
    requires RunOk(v, run)
    ensures Uploads(v, run)[0] == (ArchiveName(v, "amd64"), run.archives[ArchiveName(v, "amd64")])
    ensures Uploads(v, run)[1] == (ArchiveName(v, "arm64"), run.archives[ArchiveName(v, "arm64")])
  {
  }

  lemma CarriedArchives(v: Version, assets: seq<Asset>, run: Inputs)
    requires Carries(v, assets, run)
    ensures forall n | n in ArchiveNames(v) :: Find(assets, n).Some? && At(assets, n) == run.archives[n]
  {
    ArchiveUploads(v, run);
    var amd, arm := ArchiveName(v, "amd64"), ArchiveName(v, "arm64");
    CarriedFile(v, assets, run, 0, amd, run.archives[amd]);
    CarriedFile(v, assets, run, 1, arm, run.archives[arm]);
  }

  lemma EvidenceUploads(v: Version, run: Inputs)
    requires RunOk(v, run)
    ensures Uploads(v, run)[2] == (SUMS, run.sums) && Uploads(v, run)[5] == (run.manifestName, run.manifest)
    ensures Uploads(v, run)[6] == (SBOM, Sbom(Head(run.revision).sbom))
    ensures Uploads(v, run)[7] == (SCAN_AMD, run.scanAmd) && Uploads(v, run)[8] == (SCAN_ARM, run.scanArm)
  {
  }

  lemma CarriedEvidence(v: Version, assets: seq<Asset>, run: Inputs)
    requires Carries(v, assets, run)
    ensures Find(assets, SUMS).Some? && At(assets, SUMS) == run.sums
    ensures Find(assets, MANIFEST).Some? && At(assets, MANIFEST) == run.manifest
    ensures Find(assets, SBOM).Some? && At(assets, SBOM) == Sbom(Head(run.revision).sbom)
    ensures Find(assets, SCAN_AMD).Some? && At(assets, SCAN_AMD) == run.scanAmd
    ensures Find(assets, SCAN_ARM).Some? && At(assets, SCAN_ARM) == run.scanArm
  {
    EvidenceUploads(v, run);
    CarriedFile(v, assets, run, 2, SUMS, run.sums);
    CarriedFile(v, assets, run, 5, MANIFEST, run.manifest);
    CarriedFile(v, assets, run, 6, SBOM, Sbom(Head(run.revision).sbom));
    CarriedFile(v, assets, run, 7, SCAN_AMD, run.scanAmd);
    CarriedFile(v, assets, run, 8, SCAN_ARM, run.scanArm);
  }

  lemma CarriedHas(v: Version, assets: seq<Asset>, run: Inputs)
    requires Carries(v, assets, run)
    ensures HasNames(assets, RequiredNames(v))
  {
    CarriedArchives(v, assets, run);
    CarriedEvidence(v, assets, run);
    HasRequired(v, assets);
  }

  lemma HasRequired(v: Version, assets: seq<Asset>)
    requires HasNames(assets, ArchiveNames(v)) && Find(assets, SUMS).Some?
    requires Find(assets, RECORD).Some? && Find(assets, BUNDLE).Some? && Find(assets, MANIFEST).Some?
    requires Find(assets, SBOM).Some? && Find(assets, SCAN_AMD).Some? && Find(assets, SCAN_ARM).Some?
    ensures HasNames(assets, RequiredNames(v))
  {
    AlsoHas(assets, ArchiveNames(v), SCAN_AMD, SCAN_ARM, SUMS);
    AlsoHas(assets, ArchiveNames(v) + {SCAN_AMD, SCAN_ARM, SUMS}, RECORD, BUNDLE, SBOM);
    AlsoHas(assets, ArchiveNames(v) + {SCAN_AMD, SCAN_ARM, SUMS} + {RECORD, BUNDLE, SBOM}, SUMS, RECORD, MANIFEST);
    assert RequiredNames(v) <=
           ArchiveNames(v) + {SCAN_AMD, SCAN_ARM, SUMS} + {RECORD, BUNDLE, SBOM} + {SUMS, RECORD, MANIFEST};
  }

  lemma AlsoHas(assets: seq<Asset>, names: set<string>, a: string, b: string, c: string)
    requires HasNames(assets, names) && Find(assets, a).Some? && Find(assets, b).Some? && Find(assets, c).Some?
    ensures HasNames(assets, names + {a, b, c})
  {
  }

  lemma CarriedAgrees(v: Version, assets: seq<Asset>, run: Inputs)
    requires Carries(v, assets, run)
    ensures HasNames(assets, RequiredNames(v)) && RecordAgrees(v, run.revision, assets, RecordOf(v, run))
  {
    CarriedHas(v, assets, run);
    CarriedArchives(v, assets, run);
    CarriedEvidence(v, assets, run);
    ArchivesListed(v, run);
  }

  lemma ArchivesListed(v: Version, run: Inputs)
    requires RunOk(v, run)
    ensures run.sums.Sums? && SumsMap(run.sums.lines) == DigestsOf(run.archives)
  {
  }

  /** A release that carries a run is accepted on the same checkout. */
  lemma CarriedVerifies(s: State, v: Version, rel: Release, run: Inputs)
    requires Carries(v, rel.assets, run) && rel.target == run.revision && NamesUnique(rel.assets)
    requires (run.image.value, run.key) in s.signed && v in s.images && s.images[v] == run.image.value
    ensures Verified(s, v, run.revision, rel)
  {
    CarriedAgrees(v, rel.assets, run);
  }

  /** Whatever a run uploads is accepted on the same checkout. */
  lemma UploadVerifies(s: State, v: Version, rel: Release, run: Inputs)
    requires UploadedBy(v, rel.assets, run) && rel.target == run.revision && NamesUnique(rel.assets)
    requires (run.image.value, run.key) in s.signed && v in s.images && s.images[v] == run.image.value
    ensures Verified(s, v, run.revision, rel)
  {
    UploadedCarries(v, rel.assets, run);
    CarriedVerifies(s, v, rel, run);
  }

  /** The run whose files a verified release holds. */
  function RunOf(v: Version, revision: Commit, assets: seq<Asset>): Inputs
    requires HasNames(assets, RequiredNames(v)) && At(assets, RECORD).RecordText? && Head(revision).publicKey.Some?
  {
    Inputs(revision, Some(At(assets, RECORD).record.image), MANIFEST, At(assets, MANIFEST),
           map n | n in ArchiveNames(v) :: At(assets, n), At(assets, SUMS), At(assets, SCAN_AMD), At(assets, SCAN_ARM),
           Head(revision).publicKey.value, if At(assets, BUNDLE).Bundle? then At(assets, BUNDLE).seed else 0)
  }

  lemma VerifiedArchives(v: Version, revision: Commit, assets: seq<Asset>)
    requires HasNames(assets, RequiredNames(v)) && At(assets, RECORD).RecordText? && Head(revision).publicKey.Some?
    requires RecordAgrees(v, revision, assets, At(assets, RECORD).record)
    ensures ArchivesOk(v, RunOf(v, revision, assets))
  {
  }

  lemma BuiltRecord(v: Version, revision: Commit, assets: seq<Asset>)
    requires HasNames(assets, RequiredNames(v)) && At(assets, RECORD).RecordText? && Head(revision).publicKey.Some?
    requires RecordAgrees(v, revision, assets, At(assets, RECORD).record)
    requires RunOk(v, RunOf(v, revision, assets))
    ensures RecordOf(v, RunOf(v, revision, assets)) == At(assets, RECORD).record
  {
    var run, record := RunOf(v, revision, assets), At(assets, RECORD).record;
    ArchivesRebuilt(assets, ArchiveNames(v), run.archives, record.archives);
    ScansRebuilt(assets, record.scans);
  }

  lemma ArchivesRebuilt(assets: seq<Asset>, names: set<string>, files: map<string, Blob>, archives: map<string, Digest>)
    requires ArchivesAgree(assets, names, archives) && files.Keys == names
    requires forall n | n in names :: Find(assets, n).Some? && files[n] == At(assets, n)
    ensures DigestsOf(files) == archives
  {
    forall n | n in names ensures DigestsOf(files)[n] == archives[n] {
      assert FileAgrees(assets, n, archives[n]);
    }
  }

  lemma ScansRebuilt(assets: seq<Asset>, scans: map<string, Digest>)
    requires ScansAgree(assets, scans)
    ensures ScanDigests(Sha256(At(assets, SCAN_AMD)), Sha256(At(assets, SCAN_ARM))) == scans
  {
    FirstLetters(Version(0, 0, 0));
    assert scans == map[SCAN_AMD := scans[SCAN_AMD], SCAN_ARM := scans[SCAN_ARM]];
  }

  lemma VerifiedRun(s: State, v: Version, revision: Commit, rel: Release)
    requires Verified(s, v, revision, rel)
    ensures var run := RunOf(v, revision, rel.assets);
            RunOk(v, run) && RecordOf(v, run) == At(rel.assets, RECORD).record
  {
    VerifiedArchives(v, revision, rel.assets);
    var run := RunOf(v, revision, rel.assets);
    assert RunOk(v, run);
    BuiltRecord(v, revision, rel.assets);
  }

  lemma VerifiedLoads(s: State, v: Version, revision: Commit, rel: Release)
    requires Verified(s, v, revision, rel)
    ensures Find(rel.assets, MANIFEST).Some? && Find(rel.assets, RECORD).Some? && At(rel.assets, RECORD).RecordText?
    ensures LoadManifest(At(rel.assets, MANIFEST)) == Some(At(rel.assets, RECORD).record.manifest)
  {
    RequiredHas(v);
  }

  lemma FilesFound(v: Version, revision: Commit, assets: seq<Asset>)
    requires HasNames(assets, RequiredNames(v)) && At(assets, RECORD).RecordText? && Head(revision).publicKey.Some?
    requires RunOk(v, RunOf(v, revision, assets))
    requires RecordOf(v, RunOf(v, revision, assets)) == At(assets, RECORD).record
    requires Signs(At(assets, BUNDLE), At(assets, RECORD), Head(revision).publicKey.value)
    requires At(assets, SBOM) == Sbom(Head(revision).sbom)
    ensures Carries(v, assets, RunOf(v, revision, assets))
  {
    RequiredHas(v);
    FoundHere(assets, RequiredNames(v));
    var run := RunOf(v, revision, assets);
    ArchiveUploads(v, run);
    EvidenceUploads(v, run);
    var files := Uploads(v, run);
    assert Held(assets, files[0]) && Held(assets, files[1]) && Held(assets, files[2]);
    assert Held(assets, files[5]) && Held(assets, files[6]) && Held(assets, files[7]) && Held(assets, files[8]);
    AllHeld(assets, files);
  }

  predicate Held(assets: seq<Asset>, file: (string, Blob))
  {
    Blobs(assets, file.0) == Some(file.1)
  }

  lemma AllHeld(assets: seq<Asset>, files: seq<(string, Blob)>)
    requires |files| == 9 && Held(assets, files[0]) && Held(assets, files[1]) && Held(assets, files[2])
    requires Held(assets, files[5]) && Held(assets, files[6]) && Held(assets, files[7]) && Held(assets, files[8])
    ensures forall i | 0 <= i < 9 && i != 3 && i != 4 :: Blobs(assets, files[i].0) == Some(files[i].1)
  {
  }

  /** With its record written plainly a release that carries a run, seed included, is its upload. */
  lemma PlainUpload(v: Version, assets: seq<Asset>, run: Inputs)
    requires Carries(v, assets, run) && PlainRecord(assets) && At(assets, BUNDLE).seed == run.seed
    ensures UploadedBy(v, assets, run)
  {
    RecordAndBundle(v, run);
    forall i | 0 <= i < 9 ensures Blobs(assets, Uploads(v, run)[i].0) == Some(Uploads(v, run)[i].1) {
    }
  }

  lemma RequiredHas(v: Version)
    ensures ArchiveName(v, "amd64") in RequiredNames(v) && ArchiveName(v, "arm64") in RequiredNames(v)
    ensures SUMS in RequiredNames(v) && RECORD in RequiredNames(v) && BUNDLE in RequiredNames(v)
    ensures MANIFEST in RequiredNames(v) && SBOM in RequiredNames(v)
    ensures SCAN_AMD in RequiredNames(v) && SCAN_ARM in RequiredNames(v)
  {
  }

  lemma FoundHere(assets: seq<Asset>, names: set<string>)
    requires HasNames(assets, names)
    ensures forall n | n in names :: Find(assets, n).Some? && Blobs(assets, n) == Some(At(assets, n))
  {
  }

  /** The run of an accepted release: its files carry it, and are its very upload when the record is
      written plainly. */
  lemma VerifiedUpload(s: State, v: Version, revision: Commit, rel: Release)
    requires Verified(s, v, revision, rel)
    ensures var run := RunOf(v, revision, rel.assets);
            Carries(v, rel.assets, run) && (PlainRecord(rel.assets) ==> UploadedBy(v, rel.assets, run))
  {
    VerifiedRun(s, v, revision, rel);
    FilesFound(v, revision, rel.assets);
    if PlainRecord(rel.assets) {
      PlainUpload(v, rel.assets, RunOf(v, revision, rel.assets));
    }
  }

  ghost predicate Announced(s: State, v: Version, run: Inputs)
    requires run.image.Some?
  {
    (run.image.value, run.key) in s.signed && v in s.images && s.images[v] == run.image.value
  }

  lemma VerifiedAnnounced(s: State, v: Version, revision: Commit, rel: Release)
    requires Verified(s, v, revision, rel)
    ensures var run := RunOf(v, revision, rel.assets); run.revision == revision && Announced(s, v, run)
  {
  }

  /** Acceptance, said without the checks: the release belongs to the checkout, no name occurs twice, its
      required files carry one such run, and that run's image is signed and tagged. */
  lemma VerifyExact(s: State, v: Version, revision: Commit, rel: Release)
    ensures Verified(s, v, revision, rel) <==>
            && rel.target == revision && NamesUnique(rel.assets)
            && exists run :: Carries(v, rel.assets, run) && run.revision == revision && Announced(s, v, run)
  {
    if Verified(s, v, revision, rel) {
      VerifiedUpload(s, v, revision, rel);
      VerifiedAnnounced(s, v, revision, rel);
    }
    if rel.target == revision && NamesUnique(rel.assets) {
      forall run | Carries(v, rel.assets, run) && run.revision == revision && Announced(s, v, run)
        ensures Verified(s, v, revision, rel)
      {
        CarriedVerifies(s, v, rel, run);
      }
    }
  }

  /** With the record written plainly, acceptance is exactly the upload of one such run. */
  lemma VerifyPlainExact(s: State, v: Version, revision: Commit, rel: Release)
    ensures Verified(s, v, revision, rel) && PlainRecord(rel.assets) <==>
            && rel.target == revision && NamesUnique(rel.assets)
            && exists run :: UploadedBy(v, rel.assets, run) && run.revision == revision && Announced(s, v, run)
  {
    if Verified(s, v, revision, rel) && PlainRecord(rel.assets) {
      VerifiedUpload(s, v, revision, rel);
      VerifiedAnnounced(s, v, revision, rel);
    }
    if rel.target == revision && NamesUnique(rel.assets) {
      forall run | UploadedBy(v, rel.assets, run) && run.revision == revision && Announced(s, v, run)
        ensures Verified(s, v, revision, rel) && PlainRecord(rel.assets)
      {
        UploadedCarries(v, rel.assets, run);
        CarriedVerifies(s, v, rel, run);
      }
    }
  }

  /** Both scans are clean and of the image the record names: what `publish` checks and verification
      does not read again. */
  predicate ScansPass(assets: seq<Asset>)
  {
    && Find(assets, RECORD).Some? && At(assets, RECORD).RecordText?
    && Find(assets, SCAN_AMD).Some? && Find(assets, SCAN_ARM).Some?
    && ScanOk(At(assets, SCAN_AMD), At(assets, RECORD).record.image)
    && ScanOk(At(assets, SCAN_ARM), At(assets, RECORD).record.image)
  }

  lemma CarriedScans(v: Version, assets: seq<Asset>, run: Inputs)
    requires Carries(v, assets, run)
    ensures SignedOk(run) <==> ScansPass(assets)
  {
    CarriedEvidence(v, assets, run);
  }

  /** With the scans read again, acceptance is exactly the files of a run that passes every check of
      `publish`. */
  lemma VerifyWithScansExact(s: State, v: Version, revision: Commit, rel: Release)
    ensures Verified(s, v, revision, rel) && ScansPass(rel.assets) <==>
            && rel.target == revision && NamesUnique(rel.assets)
            && exists run :: Carries(v, rel.assets, run) && SignedOk(run) && run.revision == revision
                          && Announced(s, v, run)
  {
    if Verified(s, v, revision, rel) && ScansPass(rel.assets) {
      VerifiedUpload(s, v, revision, rel);
      VerifiedAnnounced(s, v, revision, rel);
      CarriedScans(v, rel.assets, RunOf(v, revision, rel.assets));
    }
    if rel.target == revision && NamesUnique(rel.assets) {
      forall run | Carries(v, rel.assets, run) && SignedOk(run) && run.revision == revision && Announced(s, v, run)
        ensures Verified(s, v, revision, rel) && ScansPass(rel.assets)
      {
        CarriedVerifies(s, v, rel, run);
        CarriedScans(v, rel.assets, run);
      }
    }
  }

  lemma FilePinned(a: seq<Asset>, b: seq<Asset>, n: string, d: Digest)
    requires FileAgrees(a, n, d) && FileAgrees(b, n, d)
    ensures At(a, n) == At(b, n)
  {
  }

  lemma OneRecordOneFile(v: Version, revision: Commit, a: seq<Asset>, b: seq<Asset>, record: Record, n: string)
    requires HasNames(a, RequiredNames(v)) && HasNames(b, RequiredNames(v))
    requires RecordAgrees(v, revision, a, record) && RecordAgrees(v, revision, b, record)
    requires n in ArchiveNames(v) || n == SCAN_AMD || n == SCAN_ARM || n == SBOM
    ensures Find(a, n).Some? && Find(b, n).Some? && At(a, n) == At(b, n)
  {
    if n in ArchiveNames(v) {
      FilePinned(a, b, n, record.archives[n]);
    } else if n == SBOM {
      FilePinned(a, b, n, record.sbom);
    } else {
      FilePinned(a, b, n, record.scans[n]);
    }
  }

  /** The signed record pins the bytes: two accepted releases whose records parse to the same, however
      written and signed, are the same files and one image. */
  lemma RecordPinsBytes(s: State, s': State, v: Version, revision: Commit, rel: Release, rel': Release, n: string)
    requires Verified(s, v, revision, rel) && Verified(s', v, revision, rel')
    requires LoadRecord(At(rel.assets, RECORD)) == LoadRecord(At(rel'.assets, RECORD))
    requires n in ArchiveNames(v) || n == SCAN_AMD || n == SCAN_ARM || n == SBOM
    ensures Find(rel.assets, n).Some? && Find(rel'.assets, n).Some? && At(rel.assets, n) == At(rel'.assets, n)
    ensures s.images[v] == s'.images[v]
  {
    OneRecordOneFile(v, revision, rel.assets, rel'.assets, At(rel.assets, RECORD).record, n);
  }

  /** A release that holds the files of a run verifies on the run's checkout. */
  lemma HeldVerifies(s: State, v: Version, rel: Release, run: Inputs)
    requires RunOk(v, run) && KeyOk(run) && run.manifestName == MANIFEST
    requires Holds(rel.assets, Uploads(v, run)) && NamesUnique(rel.assets) && rel.target == run.revision
    requires (run.image.value, run.key) in s.signed && v in s.images && s.images[v] == run.image.value
    ensures Verified(s, v, run.revision, rel)
  {
    var files := Uploads(v, run);
    forall i | 0 <= i < 9 ensures Blobs(rel.assets, files[i].0) == Some(files[i].1) {
      UploadResult.FindHeld(rel.assets, i);
    }
    UploadVerifies(s, v, rel, run);
  }

  /** Every published release, in every reachable state, passes verification on its own checkout if and
      only if its manifest has the required name. */
  lemma PublishedVerifies(base: string, s: State, tags: Repo.Tags, v: Version)
    requires OwnName(base) && Inv(base, s, tags) && v in s.releases && !s.releases[v].draft
    ensures v in tags && (Verified(s, v, tags[v], s.releases[v]) <==> base == MANIFEST)
  {
    var run, rel := s.flips[v], s.releases[v];
    assert PublishedBy(base, s, tags, v, run) && ReleaseOk(base, s, v, rel);
    if base == MANIFEST {
      HeldVerifies(s, v, rel, run);
    } else {
      ManifestIsTheNinth(v);
      RequiredHas(v);
    }
  }
}
