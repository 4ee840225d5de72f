/** One concrete release, and two published ones that verification accepts although no run uploads them:
    one whose scan fails, and one whose record is written otherwise. */
module ReleaseSample {
  import opened Text
  import opened Semver
  import opened ReleaseHistory
  import Repo = ReleaseProtocol
  import StorageGate
  import opened Publication
  import Uploading
  import PublishedRelease
  import UploadResult
  import CompletedRelease
  import PublishRun
  import ReleaseRuns

  const V := Version(1, 0, 0)
  const KEY := 7
  const IMAGE := 5

  function Registry(): StorageGate.Registry
  {
    StorageGate.Registry(true, map[StorageGate.B2 := "target"],
                         [StorageGate.Record(StorageGate.B2, "qualified", Some(0), StorageGate.LIVE, Render(V), true)])
  }

  function Checkout(): Tree
  {
    EMPTY.(cargo := Some(Render(V)), versionFile := Is(V), registry := Registry(), documentsOk := true,
           publicKey := Some(KEY), acceptedManifests := {0})
  }

  /** A run on that checkout; `severe` says whether the first scan found a severe vulnerability. */
  function Run(severe: bool): Inputs
  {
    var amd, arm := ArchiveName(V, "amd64"), ArchiveName(V, "arm64");
    Inputs([Checkout()], Some(IMAGE), MANIFEST, ManifestText(0, 0), map[amd := Raw(0), arm := Raw(1)],
           Sums([(Sha256(Raw(0)), amd), (Sha256(Raw(1)), arm)]),
           ScanText(Some(IMAGE), severe, 0), ScanText(Some(IMAGE), false, 0), KEY, 0)
  }

  lemma GateOpen()
    ensures Repo.StoragePasses(Checkout(), V)
  {
    VersionIsRelease(V);
    var reg := Registry();
    assert StorageGate.RecordOk(reg.profiles, reg.records[0]);
    assert StorageGate.RegistryOk(reg);
    StorageGate.LatestIsNewest(reg.records, StorageGate.B2, Render(V));
    assert StorageGate.Candidate(reg.records[0], StorageGate.B2, Render(V));
  }

  lemma SumsMatch(severe: bool)
    ensures ArchivesOk(V, Run(severe))
  {
    var amd, arm := ArchiveName(V, "amd64"), ArchiveName(V, "arm64");
    Uploading.ArchiveNamesDiffer(V);
    Uploading.FirstLetters(V);
    var lines := Run(severe).sums.lines;
    assert WithoutDot(amd) == amd && WithoutDot(arm) == arm;
    assert lines[..1] == [lines[0]] && lines[..1][..0] == [];
    assert SumsMap(lines[..1][..0]) == map[];
    assert SumsMap(lines[..1]) == map[amd := Sha256(Raw(0))];
    assert SumsMap(lines) == map[amd := Sha256(Raw(0)), arm := Sha256(Raw(1))];
  }

  /** The checks of `publish` can be met, and the scan decides about the rest. */
  lemma SampleRun(severe: bool)
    ensures RunOk(V, Run(severe)) && KeyOk(Run(severe)) && (SignedOk(Run(severe)) <==> !severe)
  {
    GateOpen();
    SumsMatch(severe);
  }

  /** Its files on the forge, its image tagged and signed. */
  function Forge(severe: bool): State
    requires RunOk(V, Run(severe))
  {
    State(map[V := IMAGE], {(IMAGE, KEY)},
          map[V := Release(false, [Checkout()], Uploading.UploadAll([], Uploads(V, Run(severe)), 9, 0))],
          9, map[], map[])
  }

  /** Verification does not read the scans again: files with a severe finding verify, though no run that
      uploads them gets past the checks of `publish`. */
  lemma SevereScanVerifies()
    ensures RunOk(V, Run(true)) && !SignedOk(Run(true))
    ensures PublishedRelease.Verified(Forge(true), V, [Checkout()], Forge(true).releases[V])
    ensures !PublishedRelease.ScansPass(Forge(true).releases[V].assets)
  {
    SampleRun(true);
    var s, run := Forge(true), Run(true);
    CompletedRelease.CompletedVerifies(s, V, run, [], 0);
    var a := CompletedRelease.ManifestAsset(V, run, [], 0);
    CompletedRelease.UploadedAs(V, run, [], 0, a);
    PublishedRelease.UploadedCarries(V, s.releases[V].assets, CompletedRelease.Renamed(run, a.blob));
    PublishedRelease.CarriedScans(V, s.releases[V].assets, CompletedRelease.Renamed(run, a.blob));
  }

  // ---- another layout of the record ----

  /** The clean run's files with the record written in another layout, and signed as written. */
  function Rewritten(): (files: seq<(string, Blob)>)
    requires RunOk(V, Run(false))
    ensures |files| == 9
  {
    var record := RecordText(RecordOf(V, Run(false)), 1, 0);
    Uploads(V, Run(false))[3 := (RECORD, record)][4 := (BUNDLE, Bundle(record, KEY, 0))]
  }

  lemma RewrittenParts()
    requires RunOk(V, Run(false))
    ensures var files, record := Rewritten(), RecordText(RecordOf(V, Run(false)), 1, 0);
            && files[3] == (RECORD, record) && files[4] == (BUNDLE, Bundle(record, KEY, 0))
            && (forall i | 0 <= i < 9 && i != 3 && i != 4 :: files[i] == Uploads(V, Run(false))[i])
            && forall i | 0 <= i < 9 :: files[i].0 == Uploads(V, Run(false))[i].0
  {
    PublishedRelease.RecordAndBundle(V, Run(false));
  }

  lemma RewrittenHeld()
    requires RunOk(V, Run(false))
    ensures var assets := Uploading.UploadAll([], Rewritten(), 9, 0);
            NamesUnique(assets) && forall i | 0 <= i < 9 :: PublishedRelease.Held(assets, Rewritten()[i])
  {
    Uploading.ManifestIsTheNinth(V);
    Uploading.UploadNames(V, Run(false));
    RewrittenParts();
    SameNames(Uploads(V, Run(false)), Rewritten());
    UploadsHeld(Rewritten());
  }

  lemma SameNames(files: seq<(string, Blob)>, others: seq<(string, Blob)>)
    requires |files| == |others| && Uploading.FilesDistinct(files)
    requires forall i | 0 <= i < |files| :: others[i].0 == files[i].0
    ensures Uploading.FilesDistinct(others)
  {
  }

  lemma UploadsHeld(files: seq<(string, Blob)>)
    requires |files| == 9 && Uploading.FilesDistinct(files)
    ensures var assets := Uploading.UploadAll([], files, 9, 0);
            NamesUnique(assets) && forall i | 0 <= i < 9 :: PublishedRelease.Held(assets, files[i])
  {
    var assets := Uploading.UploadAll([], files, 9, 0);
    UploadResult.UniqueExact([], files, 0);
    UploadResult.HoldsExact([], files, 0);
    forall i | 0 <= i < 9 ensures PublishedRelease.Held(assets, files[i]) {
      UploadResult.FindHeld(assets, i);
    }
  }

  lemma RewrittenCarries(assets: seq<Asset>)
    requires RunOk(V, Run(false)) && KeyOk(Run(false))
    requires forall i | 0 <= i < 9 :: PublishedRelease.Held(assets, Rewritten()[i])
    ensures PublishedRelease.Carries(V, assets, Run(false)) && !PublishedRelease.PlainRecord(assets)
  {
    RewrittenParts();
    var files := Rewritten();
    assert PublishedRelease.Held(assets, files[3]) && PublishedRelease.Held(assets, files[4]);
    forall i | 0 <= i < 9 && i != 3 && i != 4
      ensures PublishedRelease.Held(assets, Uploads(V, Run(false))[i])
    {
      assert PublishedRelease.Held(assets, files[i]);
    }
  }

  /** A signed record in another layout verifies, though no run of `publish` uploads it. */
  lemma OtherLayoutVerifies()
    ensures RunOk(V, Run(false))
    ensures var s, rel := Forge(false), Release(false, [Checkout()], Uploading.UploadAll([], Rewritten(), 9, 0));
            && PublishedRelease.Verified(s, V, [Checkout()], rel)
            && forall run :: !PublishedRelease.UploadedBy(V, rel.assets, run)
  {
    SampleRun(false);
    RewrittenHeld();
    var s, rel := Forge(false), Release(false, [Checkout()], Uploading.UploadAll([], Rewritten(), 9, 0));
    RewrittenCarries(rel.assets);
    PublishedRelease.CarriedVerifies(s, V, rel, Run(false));
    forall run ensures !PublishedRelease.UploadedBy(V, rel.assets, run) {
      if PublishedRelease.UploadedBy(V, rel.assets, run) {
        PublishedRelease.UploadedCarries(V, rel.assets, run);
      }
    }
  }

  // ---- a whole run ----

  /** A remote that holds the checkout on main, no tag and no release. */
  function Start(): ReleaseRuns.System
  {
    ReleaseRuns.System(MANIFEST, Repo.World([Checkout()], map[], map[]), State(map[], {}, map[], 0, map[], map[]))
  }

  ghost function SampleEvents(): seq<ReleaseRuns.Event>
  {
    ReleaseRuns.JobsOf([Repo.CheckTag(0, [Checkout()], V), Repo.PushTag(0)])
    + ReleaseRuns.EventsOf(V, PublishRun.Opening(Run(false)))
  }

  lemma StartIsInitial()
    ensures ReleaseRuns.Initial(Start()) && ReleaseRuns.Inv(Start())
  {
    GateOpen();
    assert First([Checkout()], 0);
    forall v ensures MANIFEST !in FixedNames(v) {
      Uploading.ManifestIsTheNinth(v);
    }
  }

  /** Publication is reachable: from an untagged remote the tag job and the clean run end with nine files
      published, and all that is proved of reachable states applies to them. */
  lemma SamplePublishes()
    ensures ReleaseRuns.Initial(Start())
    ensures var e := ReleaseRuns.After(Start(), SampleEvents());
            && e.Some? && V in e.value.s.releases && !e.value.s.releases[V].draft
            && PublishedRelease.Verified(e.value.s, V, [Checkout()], e.value.s.releases[V])
  {
    SampleRun(false);
    StartIsInitial();
    var y := Start();
    GateOpen();
    Repo.UndisturbedTag(y.w, 0, V);
    var w := y.w.(tags := y.w.tags[V := y.w.main]);
    var rest := ReleaseRuns.EventsOf(V, PublishRun.Opening(Run(false)));
    ReleaseRuns.JobsThen(y, [Repo.CheckTag(0, [Checkout()], V), Repo.PushTag(0)], rest);
    TaggedKeeps(y.(w := w));
    ReleaseRuns.Completes(y.(w := w), V, Run(false));
    SampleVerifies();
  }

  lemma TaggedKeeps(y: ReleaseRuns.System)
    requires y == Start().(w := Repo.World([Checkout()], map[V := [Checkout()]], map[]))
    ensures ReleaseRuns.Inv(y)
  {
    StartIsInitial();
    GateOpen();
  }

  lemma SampleVerifies()
    requires ReleaseRuns.Initial(Start()) && ReleaseRuns.After(Start(), SampleEvents()).Some?
    requires var e := ReleaseRuns.After(Start(), SampleEvents()).value;
             V in e.s.releases && !e.s.releases[V].draft && V in e.w.tags && e.w.tags[V] == [Checkout()]
    ensures var e := ReleaseRuns.After(Start(), SampleEvents()).value;
            PublishedRelease.Verified(e.s, V, [Checkout()], e.s.releases[V])
  {
    var e := ReleaseRuns.After(Start(), SampleEvents()).value;
    assert ReleaseRuns.After(e, []) == Some(e);
    ReleaseRuns.PublishedForever(Start(), SampleEvents(), [], V);
  }
}
