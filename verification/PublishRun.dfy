/** One publisher left alone: its steps, taken one after the other, do what `publish` does as a whole. */
module PublishRun {
  import opened Text
  import opened Semver
  import Repo = ReleaseProtocol
  import opened Publication
  import Uploading

  /** The state after a publisher's steps, if each was possible when it came. */
  ghost function After(base: string, s: State, tags: Repo.Tags, v: Version, steps: seq<Step>): Option<State>
    decreases steps
  {
    if steps == [] then Some(s)
    else if Can(base, s, tags, v, steps[0]) then After(base, Apply(base, s, tags, v, steps[0]), tags, v, steps[1..])
    else None
  }

  lemma AfterFirst(base: string, s: State, tags: Repo.Tags, v: Version, step: Step, rest: seq<Step>)
    requires Can(base, s, tags, v, step)
    ensures After(base, s, tags, v, [step] + rest) == After(base, Apply(base, s, tags, v, step), tags, v, rest)
  {
    assert ([step] + rest)[1..] == rest;
  }

  /** `s` with the publisher, release and asset counter of one tag replaced. */
  ghost function Slot(s: State, v: Version, p: Publisher, rel: Release, id: nat): State
  {
    s.(live := s.live[v := p], releases := s.releases[v := rel], nextId := id)
  }

  lemma Overwrite<K, V>(m: map<K, V>, k: K, a: V, b: V)
    ensures m[k := a][k := b] == m[k := b]
  {
  }

  // ---- the upload loop ----

  lemma ClearSlot(base: string, s: State, tags: Repo.Tags, v: Version, p: Publisher, rel: Release, id: nat)
    requires p.phase.Uploading? && p.phase.k < 9 && !p.phase.cleared && RunOk(v, p.run)
    ensures Can(base, Slot(s, v, p, rel, id), tags, v, Clear)
    ensures Apply(base, Slot(s, v, p, rel, id), tags, v, Clear) ==
            Slot(s, v, p.(phase := p.phase.(cleared := true)),
                 rel.(assets := Cleared(rel.assets, p.phase.listing, Uploads(v, p.run)[p.phase.k].0)), id)
  {
    var rel' := rel.(assets := Cleared(rel.assets, p.phase.listing, Uploads(v, p.run)[p.phase.k].0));
    Overwrite(s.live, v, p, p.(phase := p.phase.(cleared := true)));
    Overwrite(s.releases, v, rel, rel');
  }

  lemma PostSlot(s: State, v: Version, p: Publisher, rel: Release, id: nat, file: (string, Blob))
    requires p.phase.Uploading? && p.phase.cleared
    ensures PostFile(Slot(s, v, p, rel, id), v, file) ==
            Slot(s, v, p.(phase := p.phase.(k := p.phase.k + 1, cleared := false)),
                 rel.(assets := rel.assets + [Asset(id, file.0, file.1)]), id + 1)
  {
    Overwrite(s.live, v, p, p.(phase := p.phase.(k := p.phase.k + 1, cleared := false)));
    Overwrite(s.releases, v, rel, rel.(assets := rel.assets + [Asset(id, file.0, file.1)]));
  }

  lemma NextFile(listing: seq<Asset>, files: seq<(string, Blob)>, k: nat, id: nat)
    requires k < |files|
    ensures Uploading.UploadAll(listing, files, k + 1, id) ==
            Cleared(Uploading.UploadAll(listing, files, k, id), listing, files[k].0)
            + [Asset(id + k, files[k].0, files[k].1)]
  {
  }

  /** The publisher and its draft once `k` files are up. */
  ghost function AtFile(s: State, v: Version, p: Publisher, listing: seq<Asset>, files: seq<(string, Blob)>,
                        k: nat): State
    requires k <= |files|
  {
    Slot(s, v, p.(phase := Uploading(listing, k, false)),
         Release(true, p.run.revision, Uploading.UploadAll(listing, files, k, s.nextId)), s.nextId + k)
  }

  /** And once the asset of the next file's name is deleted. */
  ghost function Between(s: State, v: Version, p: Publisher, listing: seq<Asset>, files: seq<(string, Blob)>,
                         k: nat): State
    requires k < |files|
  {
    Slot(s, v, p.(phase := Uploading(listing, k, true)),
         Release(true, p.run.revision,
                 Cleared(Uploading.UploadAll(listing, files, k, s.nextId), listing, files[k].0)), s.nextId + k)
  }

  lemma ClearAt(base: string, s: State, tags: Repo.Tags, v: Version, p: Publisher, listing: seq<Asset>,
                files: seq<(string, Blob)>, k: nat)
    requires RunOk(v, p.run) && files == Uploads(v, p.run) && k < 9
    ensures Can(base, AtFile(s, v, p, listing, files, k), tags, v, Clear)
    ensures Apply(base, AtFile(s, v, p, listing, files, k), tags, v, Clear) == Between(s, v, p, listing, files, k)
  {
    var rel := Release(true, p.run.revision, Uploading.UploadAll(listing, files, k, s.nextId));
    ClearSlot(base, s, tags, v, p.(phase := Uploading(listing, k, false)), rel, s.nextId + k);
  }

  lemma PostAt(base: string, s: State, tags: Repo.Tags, v: Version, p: Publisher, listing: seq<Asset>,
               files: seq<(string, Blob)>, k: nat)
    requires RunOk(v, p.run) && files == Uploads(v, p.run) && k < 9
    ensures Can(base, Between(s, v, p, listing, files, k), tags, v, Post)
    ensures Apply(base, Between(s, v, p, listing, files, k), tags, v, Post) == AtFile(s, v, p, listing, files, k + 1)
  {
    PostBetween(s, v, p, listing, files, k);
  }

  lemma PostBetween(s: State, v: Version, p: Publisher, listing: seq<Asset>, files: seq<(string, Blob)>, k: nat)
    requires k < |files|
    ensures PostFile(Between(s, v, p, listing, files, k), v, files[k]) == AtFile(s, v, p, listing, files, k + 1)
  {
    var assets := Cleared(Uploading.UploadAll(listing, files, k, s.nextId), listing, files[k].0);
    PostSlot(s, v, p.(phase := Uploading(listing, k, true)), Release(true, p.run.revision, assets), s.nextId + k,
             files[k]);
    NextFile(listing, files, k, s.nextId);
  }

  lemma Round(base: string, s: State, tags: Repo.Tags, v: Version, p: Publisher, listing: seq<Asset>,
              files: seq<(string, Blob)>, k: nat, rest: seq<Step>)
    requires RunOk(v, p.run) && files == Uploads(v, p.run) && k < 9
    ensures After(base, AtFile(s, v, p, listing, files, k), tags, v, [Clear] + ([Post] + rest)) ==
            After(base, AtFile(s, v, p, listing, files, k + 1), tags, v, rest)
  {
    ClearAt(base, s, tags, v, p, listing, files, k);
    PostAt(base, s, tags, v, p, listing, files, k);
    TwoSteps(base, AtFile(s, v, p, listing, files, k), Between(s, v, p, listing, files, k), tags, v, Clear, Post, rest);
  }

  lemma TwoSteps(base: string, s: State, s1: State, tags: Repo.Tags, v: Version, a: Step, b: Step, rest: seq<Step>)
    requires Can(base, s, tags, v, a) && Apply(base, s, tags, v, a) == s1 && Can(base, s1, tags, v, b)
    ensures After(base, s, tags, v, [a] + ([b] + rest)) == After(base, Apply(base, s1, tags, v, b), tags, v, rest)
  {
    AfterFirst(base, s, tags, v, a, [b] + rest);
    AfterFirst(base, s1, tags, v, b, rest);
  }

  ghost function Rounds(k: nat): seq<Step>
    requires k <= 9
    decreases 9 - k
  {
    if k == 9 then [Flip] else [Clear] + ([Post] + Rounds(k + 1))
  }

  lemma {:induction false} AllRounds(base: string, s: State, tags: Repo.Tags, v: Version, p: Publisher,
                                     listing: seq<Asset>, files: seq<(string, Blob)>, k: nat)
    requires RunOk(v, p.run) && files == Uploads(v, p.run) && k <= 9
    ensures After(base, AtFile(s, v, p, listing, files, k), tags, v, Rounds(k)) ==
            After(base, AtFile(s, v, p, listing, files, 9), tags, v, [Flip])
    decreases 9 - k
  {
    if k < 9 {
      Round(base, s, tags, v, p, listing, files, k, Rounds(k + 1));
      AllRounds(base, s, tags, v, p, listing, files, k + 1);
    }
  }

  // ---- before the loop ----

  ghost function Listing(s: State, v: Version): seq<Asset>
  {
    if v in s.releases then s.releases[v].assets else []
  }

  /** The publisher of a run as it starts. */
  ghost function Starting(s: State, v: Version, run: Inputs): Publisher
  {
    Publisher(run, v in s.releases, v in s.images, Checked)
  }

  /** `s` once the run has signed its image. */
  ghost function WithSignature(s: State, run: Inputs): State
    requires run.image.Some?
  {
    s.(signed := s.signed + {(run.image.value, run.key)})
  }

  /** And once the image tag is there. */
  ghost function WithImage(s: State, v: Version, run: Inputs): State
    requires run.image.Some?
  {
    WithSignature(s, run).(images := s.images[v := run.image.value])
  }

  ghost function Opening(run: Inputs): seq<Step>
  {
    [Start(run)] + ([SignImage] + ([TagImage] + ([Draft] + ([List] + Rounds(0)))))
  }

  lemma StartAndSign(base: string, s: State, tags: Repo.Tags, v: Version, run: Inputs, rest: seq<Step>)
    requires v !in s.live && RunOk(v, run) && Admits(s, tags, v, run) && run.manifestName == base
    ensures var p := Starting(s, v, run).(phase := Signed); var t := WithSignature(s, run);
            After(base, s, tags, v, [Start(run)] + ([SignImage] + rest)) ==
            After(base, t.(live := s.live[v := p]), tags, v, rest)
  {
    var p := Starting(s, v, run);
    var s1 := s.(live := s.live[v := p]);
    Overwrite(s.live, v, p, p.(phase := Signed));
    TwoSteps(base, s, s1, tags, v, Start(run), SignImage, rest);
  }

  lemma TagAndDraft(base: string, s: State, tags: Repo.Tags, v: Version, run: Inputs, rest: seq<Step>)
    requires v !in s.live && RunOk(v, run) && Admits(s, tags, v, run) && SignedOk(run)
    ensures var p := Starting(s, v, run); var t := WithSignature(s, run); var u := WithImage(s, v, run);
            After(base, t.(live := s.live[v := p.(phase := Signed)]), tags, v, [TagImage] + ([Draft] + rest)) ==
            After(base, Slot(u, v, p.(phase := Drafted), Release(true, run.revision, Listing(s, v)), s.nextId), tags, v,
                  rest)
  {
    var p := Starting(s, v, run);
    var s1 := WithImage(s, v, run).(live := s.live[v := p.(phase := Imaged)]);
    Overwrite(s.live, v, p.(phase := Signed), p.(phase := Imaged));
    Overwrite(s.live, v, p.(phase := Imaged), p.(phase := Drafted));
    assert v in s.images ==> s.images[v := run.image.value] == s.images;
    assert v in s.releases ==> s.releases[v := Release(true, run.revision, Listing(s, v))] == s.releases;
    TwoSteps(base, WithSignature(s, run).(live := s.live[v := p.(phase := Signed)]), s1, tags, v, TagImage, Draft,
             rest);
  }

  lemma ListAssets(base: string, s: State, tags: Repo.Tags, v: Version, p: Publisher, listing: seq<Asset>,
                   files: seq<(string, Blob)>, rest: seq<Step>)
    requires p.phase.Drafted?
    ensures After(base, Slot(s, v, p, Release(true, p.run.revision, listing), s.nextId), tags, v, [List] + rest) ==
            After(base, AtFile(s, v, p, listing, files, 0), tags, v, rest)
  {
    var rel := Release(true, p.run.revision, listing);
    Overwrite(s.live, v, p, p.(phase := Uploading(listing, 0, false)));
    AfterFirst(base, Slot(s, v, p, rel, s.nextId), tags, v, List, rest);
  }

  /** `s` with the run published. */
  ghost function Published(s: State, v: Version, run: Inputs, listing: seq<Asset>, files: seq<(string, Blob)>): State
  {
    s.(releases := s.releases[
                     v := Release(false, run.revision, Uploading.UploadAll(listing, files, |files|, s.nextId))],
       nextId := s.nextId + |files|, flips := s.flips[v := run])
  }

  lemma FlipDraft(base: string, s: State, tags: Repo.Tags, v: Version, p: Publisher, listing: seq<Asset>,
                  files: seq<(string, Blob)>)
    requires |files| == 9 && v !in s.live
    ensures After(base, AtFile(s, v, p, listing, files, 9), tags, v, [Flip]) ==
            Some(Published(s, v, p.run, listing, files))
  {
    var assets := Uploading.UploadAll(listing, files, 9, s.nextId);
    var q := p.(phase := Uploading(listing, 9, false));
    Overwrite(s.releases, v, Release(true, p.run.revision, assets), Release(false, p.run.revision, assets));
    assert s.live[v := q] - {v} == s.live;
    var e := AtFile(s, v, p, listing, files, 9);
    assert Can(base, e, tags, v, Flip);
    assert Apply(base, e, tags, v, Flip) == Published(s, v, p.run, listing, files);
    AfterFirst(base, e, tags, v, Flip, []);
    assert [Flip] == [Flip] + [];
  }

  /** What a whole run leaves. */
  ghost function Completed(s: State, v: Version, run: Inputs): State
    requires RunOk(v, run)
  {
    Published(WithImage(s, v, run), v, run, Listing(s, v), Uploads(v, run))
  }

  /** Undisturbed, an admitted publisher gets through all its steps if and only if its key and its scans
      pass, and they leave what `publish` leaves: the signature, the image tag, and the release. */
  lemma UndisturbedPublish(base: string, s: State, tags: Repo.Tags, v: Version, run: Inputs)
    requires v !in s.live && RunOk(v, run) && Admits(s, tags, v, run) && run.manifestName == base
    ensures After(base, s, tags, v, Opening(run)) == if SignedOk(run) then Some(Completed(s, v, run)) else None
  {
    if SignedOk(run) {
      AllSteps(base, s, tags, v, run);
    } else {
      StartAndSign(base, s, tags, v, run, [TagImage] + ([Draft] + ([List] + Rounds(0))));
    }
  }

  lemma AllSteps(base: string, s: State, tags: Repo.Tags, v: Version, run: Inputs)
    requires v !in s.live && RunOk(v, run) && Admits(s, tags, v, run) && SignedOk(run) && run.manifestName == base
    ensures After(base, s, tags, v, Opening(run)) == Some(Completed(s, v, run))
  {
    var p, u, l, files := Starting(s, v, run).(phase := Drafted), WithImage(s, v, run), Listing(s, v), Uploads(v, run);
    StartAndSign(base, s, tags, v, run, [TagImage] + ([Draft] + ([List] + Rounds(0))));
    TagAndDraft(base, s, tags, v, run, [List] + Rounds(0));
    ListAssets(base, u, tags, v, p, l, files, Rounds(0));
    AllRounds(base, u, tags, v, p, l, files, 0);
    FlipDraft(base, u, tags, v, p, l, files);
  }
}
