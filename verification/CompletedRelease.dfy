/** What a completed `publish` leaves, for any draft it started from and any manifest name. */
module CompletedRelease {
  import opened Text
  import opened Semver
  import opened Publication
  import Uploading
  import UploadResult
  import PublishedRelease

  /** The nine names differ exactly when the manifest's basename is a name of its own. */
  lemma NamesDiffer(v: Version, run: Inputs)
    requires RunOk(v, run)
    ensures Uploading.FilesDistinct(Uploads(v, run)) <==> run.manifestName !in FixedNames(v)
  {
    if run.manifestName !in FixedNames(v) {
      Uploading.UploadNames(v, run);
    } else {
      var k := FixedAt(v, run.manifestName);
      Uploading.UploadsNamed(v, run);
      var files := Uploads(v, run);
      assert files[5].0 == files[k].0 && (k < 5 || 5 < k);
    }
  }

  lemma FixedAt(v: Version, n: string) returns (k: nat)
    requires n in FixedNames(v)
    ensures k < 9 && k != 5 && Uploading.NameList(v, n)[k] == n
  {
    var names := Uploading.NameList(v, n);
    k := if n == names[0] then 0 else if n == names[1] then 1 else if n == names[2] then 2
         else if n == names[3] then 3 else if n == names[4] then 4 else if n == names[6] then 6
         else if n == names[7] then 7 else 8;
  }

  lemma NineNamed(v: Version, run: Inputs)
    requires RunOk(v, run)
    ensures NamesOf(Uploads(v, run)) == Uploading.NineNames(v, run.manifestName)
  {
    Uploading.UploadsNamed(v, run);
    var files, names := Uploads(v, run), Uploading.NameList(v, run.manifestName);
    forall n ensures n in NamesOf(files) <==> n in Uploading.NineNames(v, run.manifestName) {
      Uploading.NameListCovers(v, run.manifestName, n);
      if i :| 0 <= i < 9 && names[i] == n {
        assert files[i].0 == n;
      }
    }
  }

  /** What the loop leaves: no name twice exactly when the draft held none twice and the manifest's
      basename is none of the other eight, and nothing but the nine files exactly when the draft held
      only their names, each once. */
  lemma Finished(v: Version, run: Inputs, listing: seq<Asset>, id: nat)
    requires RunOk(v, run) && UploadResult.Issued(listing, id)
    ensures var assets := Uploading.UploadAll(listing, Uploads(v, run), 9, id);
            && (NamesUnique(assets) <==> NamesUnique(listing) && run.manifestName !in FixedNames(v))
            && (Holds(assets, Uploads(v, run)) <==>
                  && NamesUnique(listing)
                  && forall i | 0 <= i < |listing| :: listing[i].name in Uploading.NineNames(v, run.manifestName))
  {
    NamesDiffer(v, run);
    NineNamed(v, run);
    UploadResult.UniqueExact(listing, Uploads(v, run), id);
    UploadResult.HoldsExact(listing, Uploads(v, run), id);
  }

  /** The required verification manifest is there: uploaded under its name, or held by the draft with
      the same content while the uploaded one has a name of its own. */
  ghost predicate ManifestThere(v: Version, run: Inputs, listing: seq<Asset>)
  {
    || run.manifestName == MANIFEST
    || (run.manifestName !in FixedNames(v)
        && exists a :: a in listing && a.name == MANIFEST && LoadManifest(a.blob) == LoadManifest(run.manifest))
  }

  /** A run that uploads the same record with this manifest under the required name. */
  function Renamed(run: Inputs, manifest: Blob): Inputs
  {
    run.(manifestName := MANIFEST, manifest := manifest)
  }

  lemma FoundThere(assets: seq<Asset>, a: Asset)
    requires NamesUnique(assets) && a in assets
    ensures PublishedRelease.Blobs(assets, a.name) == Some(a.blob)
  {
    var i :| 0 <= i < |assets| && assets[i] == a;
    UploadResult.FindHeld(assets, i);
  }

  lemma RenamedFiles(v: Version, run: Inputs, manifest: Blob)
    requires RunOk(v, run) && LoadManifest(manifest) == LoadManifest(run.manifest)
    ensures RunOk(v, Renamed(run, manifest))
    ensures forall i | 0 <= i < 9 && i != 5 :: Uploads(v, Renamed(run, manifest))[i] == Uploads(v, run)[i]
    ensures Uploads(v, Renamed(run, manifest))[5] == (MANIFEST, manifest)
  {
    assert RecordOf(v, Renamed(run, manifest)) == RecordOf(v, run);
  }

  lemma UploadedAs(v: Version, run: Inputs, listing: seq<Asset>, id: nat, a: Asset)
    requires RunOk(v, run) && KeyOk(run) && UploadResult.Issued(listing, id)
    requires var assets := Uploading.UploadAll(listing, Uploads(v, run), 9, id); NamesUnique(assets) && a in assets
    requires a.name == MANIFEST && LoadManifest(a.blob) == LoadManifest(run.manifest)
    ensures PublishedRelease.UploadedBy(v, Uploading.UploadAll(listing, Uploads(v, run), 9, id), Renamed(run, a.blob))
  {
    var files, renamed := Uploads(v, run), Renamed(run, a.blob);
    var assets := Uploading.UploadAll(listing, files, 9, id);
    RenamedFiles(v, run, a.blob);
    FoundThere(assets, a);
    forall i | 0 <= i < 9
      ensures PublishedRelease.Blobs(assets, Uploads(v, renamed)[i].0) == Some(Uploads(v, renamed)[i].1)
    {
      if i != 5 {
        UploadResult.PostedThere(listing, files, id, i);
        FoundThere(assets, Asset(id + i, files[i].0, files[i].1));
      }
    }
  }

  lemma NthThere(listing: seq<Asset>, files: seq<(string, Blob)>, id: nat, i: nat, name: string, blob: Blob)
    returns (a: Asset)
    requires |files| == 9 && i < 9 && files[i] == (name, blob) && UploadResult.Issued(listing, id)
    ensures a in Uploading.UploadAll(listing, files, 9, id) && a.name == name && a.blob == blob
  {
    UploadResult.PostedThere(listing, files, id, i);
    a := Asset(id + i, name, blob);
  }

  lemma ManifestAsset(v: Version, run: Inputs, listing: seq<Asset>, id: nat) returns (a: Asset)
    requires RunOk(v, run) && UploadResult.Issued(listing, id) && ManifestThere(v, run, listing)
    ensures a in Uploading.UploadAll(listing, Uploads(v, run), 9, id)
    ensures a.name == MANIFEST && LoadManifest(a.blob) == LoadManifest(run.manifest)
  {
    if run.manifestName == MANIFEST {
      PublishedRelease.EvidenceUploads(v, run);
      a := NthThere(listing, Uploads(v, run), id, 5, MANIFEST, run.manifest);
    } else {
      a :| a in listing && a.name == MANIFEST && LoadManifest(a.blob) == LoadManifest(run.manifest);
      Survives(v, run, listing, id, a);
    }
  }

  /** A draft's own manifest is not touched when the uploaded one has another name. */
  lemma Survives(v: Version, run: Inputs, listing: seq<Asset>, id: nat, a: Asset)
    requires RunOk(v, run) && UploadResult.Issued(listing, id) && run.manifestName != MANIFEST && a.name == MANIFEST
    ensures a in Uploading.UploadAll(listing, Uploads(v, run), 9, id) <==> a in listing
  {
    var files := Uploads(v, run);
    NineNamed(v, run);
    Uploading.ManifestIsTheNinth(v);
    UploadResult.UploadIs(listing, files, 9, id);
    assert files[..9] == files;
    UploadResult.LeftHas(listing, listing, NamesOf(files), a);
    UploadResult.PostedNames(files, 9, id, a);
  }

  /** Whatever `publish` completes verifies on its own checkout, so a replayed event is a no-op, if and
      only if the draft held no name twice and the required manifest is there. Foreign assets do no harm. */
  lemma CompletedVerifies(s: State, v: Version, run: Inputs, listing: seq<Asset>, id: nat)
    requires RunOk(v, run) && KeyOk(run) && UploadResult.Issued(listing, id) && v in s.releases
    requires s.releases[v] == Release(false, run.revision, Uploading.UploadAll(listing, Uploads(v, run), 9, id))
    requires v in s.images && s.images[v] == run.image.value && (run.image.value, run.key) in s.signed
    ensures PublishedRelease.Verified(s, v, run.revision, s.releases[v]) <==>
            NamesUnique(listing) && ManifestThere(v, run, listing)
  {
    Finished(v, run, listing, id);
    if NamesUnique(listing) && ManifestThere(v, run, listing) {
      Uploading.ManifestIsTheNinth(v);
      var a := ManifestAsset(v, run, listing, id);
      UploadedAs(v, run, listing, id, a);
      PublishedRelease.UploadVerifies(s, v, s.releases[v], Renamed(run, a.blob));
    }
    if PublishedRelease.Verified(s, v, run.revision, s.releases[v]) && run.manifestName != MANIFEST {
      VerifiedManifest(s, v, run, listing, id);
    }
  }

  lemma VerifiedManifest(s: State, v: Version, run: Inputs, listing: seq<Asset>, id: nat)
    requires RunOk(v, run) && UploadResult.Issued(listing, id) && run.manifestName != MANIFEST
    requires v in s.releases && PublishedRelease.Verified(s, v, run.revision, s.releases[v])
    requires s.releases[v] == Release(false, run.revision, Uploading.UploadAll(listing, Uploads(v, run), 9, id))
    ensures exists a :: a in listing && a.name == MANIFEST && LoadManifest(a.blob) == LoadManifest(run.manifest)
  {
    var assets := s.releases[v].assets;
    RecordFound(v, run, listing, id, assets);
    PublishedRelease.VerifiedLoads(s, v, run.revision, s.releases[v]);
    Survives(v, run, listing, id, Find(assets, MANIFEST).value);
  }

  lemma RecordFound(v: Version, run: Inputs, listing: seq<Asset>, id: nat, assets: seq<Asset>)
    requires RunOk(v, run) && UploadResult.Issued(listing, id)
    requires assets == Uploading.UploadAll(listing, Uploads(v, run), 9, id) && NamesUnique(assets)
    ensures Find(assets, RECORD).Some? && Find(assets, RECORD).value.blob == Written(RecordOf(v, run))
  {
    PublishedRelease.RecordAndBundle(v, run);
    var a := NthThere(listing, Uploads(v, run), id, 3, RECORD, Written(RecordOf(v, run)));
    FoundThere(assets, a);
  }
}
