/** The release operations as they change the remote in place, each proved against the
    specification the protocol modules reason about. */
module ReleaseTool {
  import opened Text
  import opened Semver
  import opened ReleaseHistory
  import opened ReleaseProtocol
  import Pub = Publication
  import Uploading
  import PublishedRelease
  import PublishRun
  import UploadResult
  import CompletedRelease

  /** What `prepare` answers: nothing (it refuses), or a plan for one version at one commit. */
  datatype Plan = Refused | Planned(revision: Commit, v: Version, shouldRelease: bool)

  /** The numerically latest tag. */
  method FindLatest(tags: Tags) returns (latest: Option<Version>)
    ensures IsLatest(tags, latest)
  {
    latest := None;
    var todo := tags.Keys;
    while todo != {}
      invariant todo <= tags.Keys
      invariant latest.None? ==> todo == tags.Keys
      invariant latest.Some? ==> latest.value in tags
      invariant latest.Some? ==> forall v | v in tags && v !in todo :: v == latest.value || Less(v, latest.value)
      decreases todo
    {
      var v :| v in todo;
      if latest.None? || Less(latest.value, v) {
        latest := Some(v);
      }
      todo := todo - {v};
    }
  }

  class Remote {
    var main: Commit
    var tags: Tags
    var images: map<Version, nat>
    var signed: set<(nat, nat)>
    var releases: map<Version, Pub.Release>
    var nextId: nat

    constructor (main: Commit)
      ensures this.main == main && tags == map[] && images == map[] && signed == {} && releases == map[] && nextId == 0
    {
      this.main := main;
      tags, images, signed, releases, nextId := map[], map[], {}, map[], 0;
    }

    /** The forge and the image registry as a value. */
    function Snapshot(): Pub.State
      reads this
    {
      Pub.State(images, signed, releases, nextId, map[], map[])
    }

    /** `gate`: the checkout, its version and the tag name one commit. */
    predicate Gate(tag: Version, revision: Commit)
      reads this
    {
      VersionOf(Head(revision)) == Some(tag) && tag in tags && tags[tag] == revision
    }

    /** `release_plan`: a published release is replayed as a no-op once it verifies. */
    function ReleasePlan(source: Commit, v: Version): Plan
      reads this
    {
      if v in releases && !releases[v].draft then
        if PublishedRelease.Verified(Snapshot(), v, source, releases[v]) then Planned(source, v, false) else Refused
      else Planned(source, v, true)
    }

    /** `prepare` on a clean checkout of `source`. A given tag is only checked and planned for. `lock` and
        `sbom` stand for the regenerated lock file and SBOM. */
    method Prepare(source: Commit, tag: Option<Version>, lock: nat, sbom: nat)
      returns (plan: Plan, latest: Option<Version>)
      modifies this`main
      ensures IsLatest(tags, latest)
      ensures tag.Some? ==> main == old(main)
      ensures tag.Some? ==> plan == if Gate(tag.value, source) then ReleasePlan(source, tag.value) else Refused
      ensures tag.None? ==>
              match PrepareChoice(source, tags, latest)
              case Refuse => plan == Refused && main == old(main)
              case Replay(v) => plan == ReleasePlan(source, v) && main == old(main)
              case Keep(v) =>
                main == old(main) && plan == if old(main) == source then Planned(source, v, true) else Refused
              case Raise(v) =>
                if old(main) == source
                then && main == source + [Head(main)] && Rewrites(Head(source), Head(main), v)
                     && plan == Planned(main, v, true)
                else main == old(main) && plan == Refused
      ensures old(main) <= main
    {
      latest := FindLatest(tags);
      if tag.Some? {
        plan := if Gate(tag.value, source) then ReleasePlan(source, tag.value) else Refused;
        return;
      }
      match PrepareChoice(source, tags, latest) {
        case Refuse => plan := Refused;
        case Replay(v) => plan := ReleasePlan(source, v);
        case Keep(v) => plan := if main == source then Planned(source, v, true) else Refused;
        case Raise(v) =>
          if main != source {
            plan := Refused;
            return;
          }
          var next := Head(source).(cargo := Some(Render(v)), versionFile := Is(v), lock := lock, sbom := sbom);
          main := source + [next];
          assert Head(main) == next;
          plan := Planned(main, v, true);
      }
    }

    /** `tag_release`: an existing tag is checked, a missing one is created, none is moved. */
    method TagRelease(revision: Commit, tag: Version, manifest: Pub.Blob) returns (ok: bool)
      modifies this`tags
      ensures ok <==> && VersionOf(Head(revision)) == Some(tag)
                      && Pub.LoadManifest(manifest).Some?
                      && Pub.LoadManifest(manifest).value in Head(revision).acceptedManifests
                      && StoragePasses(Head(revision), tag) && main == revision
                      && (tag in old(tags) ==> old(tags)[tag] == revision)
      ensures tags == if ok then old(tags)[tag := revision] else old(tags)
      ensures forall v | v in old(tags) :: v in tags && tags[v] == old(tags)[v]
      ensures ok ==> TagFits(main, tags[tag], tag)
    {
      var t := Head(revision);
      if VersionOf(t) != Some(tag) {
        return false;
      }
      var json := Pub.LoadManifest(manifest);
      if json.None? || json.value !in t.acceptedManifests || !StoragePasses(t, tag) || main != revision {
        return false;
      }
      if tag in tags {
        assert tags[tag := revision] == tags || tags[tag] != revision;
        return tags[tag] == revision;
      }
      tags := tags[tag := revision];
      return true;
    }

    /** The assets a publish run starts from. */
    ghost function Listing(v: Version): seq<Pub.Asset>
      reads this
    {
      if v in releases then releases[v].assets else []
    }

    /** `publish`, run to its end without a crash. */
    method Publish(v: Version, run: Pub.Inputs) returns (ok: bool)
      modifies this`images, this`signed, this`releases, this`nextId
      ensures ok <==> old(Pub.Admits(Snapshot(), tags, v, run)) && Pub.RunOk(v, run) && Pub.SignedOk(run)
      ensures signed == if old(Pub.Admits(Snapshot(), tags, v, run)) && Pub.RunOk(v, run)
                        then old(signed) + {(run.image.value, run.key)} else old(signed)
      ensures !ok ==> images == old(images) && releases == old(releases) && nextId == old(nextId)
      ensures ok ==> images == old(images)[v := run.image.value] && nextId == old(nextId) + 9
      ensures ok ==> releases == old(releases)[v := Pub.Release(false, run.revision,
                                   Uploading.UploadAll(old(Listing(v)), Pub.Uploads(v, run), 9, old(nextId)))]
      ensures ok ==> Snapshot().(flips := map[v := run]) == PublishRun.Completed(old(Snapshot()), v, run)
    {
      if !Pub.RunOk(v, run) || !Pub.Admits(Snapshot(), tags, v, run) {
        return false;
      }
      signed := signed + {(run.image.value, run.key)};
      if !Pub.SignedOk(run) {
        return false;
      }
      Complete(v, run.image.value, run.revision, Pub.Uploads(v, run));
      return true;
    }

    /** A release event that comes twice. Once `publish` has completed, `prepare` for the same tag asks for
        no release if and only if the draft held no name twice and the required manifest is there, and
        otherwise refuses; a second `publish` is refused whatever its inputs. Neither changes anything. */
    method Replay(v: Version, run: Pub.Inputs, other: Pub.Inputs, lock: nat, sbom: nat)
      returns (ok: bool, plan: Plan, again: bool)
      requires UploadResult.Issued(Listing(v), nextId)
      modifies this
      ensures ok <==> old(Pub.Admits(Snapshot(), tags, v, run)) && Pub.RunOk(v, run) && Pub.SignedOk(run)
      ensures ok ==> plan == if Pub.NamesUnique(old(Listing(v)))
                                && CompletedRelease.ManifestThere(v, run, old(Listing(v)))
                             then Planned(run.revision, v, false) else Refused
      ensures ok ==> !again && main == old(main) && tags == old(tags)
      ensures ok ==> Snapshot().(flips := map[v := run]) == PublishRun.Completed(old(Snapshot()), v, run)
    {
      ghost var listing, id := Listing(v), nextId;
      ok := Publish(v, run);
      plan, again := Refused, false;
      if ok {
        CompletedRelease.CompletedVerifies(Snapshot(), v, run, listing, id);
        plan, again := SecondEvent(v, run.revision, other, lock, sbom);
      }
    }

    method SecondEvent(v: Version, revision: Commit, other: Pub.Inputs, lock: nat, sbom: nat)
      returns (plan: Plan, again: bool)
      requires Gate(v, revision) && v in releases && !releases[v].draft
      modifies this
      ensures !again && main == old(main) && tags == old(tags) && Snapshot() == old(Snapshot())
      ensures plan == if old(PublishedRelease.Verified(Snapshot(), v, revision, releases[v]))
                      then Planned(revision, v, false) else Refused
    {
      var latest;
      plan, latest := Prepare(revision, Some(v), lock, sbom);
      again := Publish(v, other);
    }

    /** The writes after the signature: the image tag, the draft, its assets, and the flip. */
    method Complete(v: Version, image: nat, revision: Commit, files: seq<(string, Pub.Blob)>)
      requires v in releases ==> releases[v].target == revision
      requires v in images ==> images[v] == image
      modifies this`images, this`releases, this`nextId
      ensures images == old(images)[v := image] && nextId == old(nextId) + |files|
      ensures releases == old(releases)[v := Pub.Release(false, revision,
                                   Uploading.UploadAll(old(Listing(v)), files, |files|, old(nextId)))]
    {
      if v !in images {
        images := images[v := image];
      }
      if v !in releases {
        releases := releases[v := Pub.Release(true, revision, [])];
      }
      Upload(v, files);
      releases := releases[v := releases[v].(draft := false)];
    }

    /** The upload loop on the forge's release: the assets are listed once; then for each file the listed
        asset of its name is deleted and the file is posted. */
    method Upload(v: Version, files: seq<(string, Pub.Blob)>)
      requires v in releases
      modifies this`releases, this`nextId
      ensures releases == old(releases)[v := old(releases)[v].(assets :=
                                   Uploading.UploadAll(old(releases)[v].assets, files, |files|, old(nextId)))]
      ensures nextId == old(nextId) + |files|
    {
      var listing := releases[v].assets;
      for k := 0 to |files|
        invariant nextId == old(nextId) + k
        invariant releases == old(releases)[v := old(releases)[v].(assets :=
                                Uploading.UploadAll(listing, files, k, old(nextId)))]
      {
        Delete(v, listing, files[k].0);
        var asset := Pub.Asset(nextId, files[k].0, files[k].1);
        releases := releases[v := releases[v].(assets := releases[v].assets + [asset])];
        nextId := nextId + 1;
      }
    }

    /** DELETE of the listed asset of a name, if there is one. */
    method Delete(v: Version, listing: seq<Pub.Asset>, name: string)
      requires v in releases
      modifies this`releases
      ensures releases ==
              old(releases)[v := old(releases)[v].(assets := Pub.Cleared(old(releases)[v].assets, listing, name))]
    {
      var existing := Pub.Find(listing, name);
      if existing.Some? {
        releases := releases[v := releases[v].(assets := Pub.RemoveId(releases[v].assets, existing.value.id))];
      }
    }
  }
}
