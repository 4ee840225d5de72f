/** What every effect of every publisher keeps, crashes between any two effects included. */
module PublicationSafety {
  import opened Text
  import opened Semver
  import Repo = ReleaseProtocol
  import opened Publication
  import opened Uploading

  // ---- invariant ----

  ghost predicate AssetsOk(s: State, assets: seq<Asset>, names: set<string>)
  {
    && NamesUnique(assets) && IdsUnique(assets)
    && forall i | 0 <= i < |assets| :: assets[i].id < s.nextId && assets[i].name in names
  }

  ghost predicate ReleaseOk(base: string, s: State, v: Version, rel: Release)
  {
    AssetsOk(s, rel.assets, NineNames(v, base))
  }

  predicate Past(p: Publisher)
  {
    p.phase.Imaged? || p.phase.Drafted? || p.phase.Uploading?
  }

  ghost predicate LiveOk(base: string, s: State, tags: Repo.Tags, v: Version, p: Publisher)
  {
    && RunOk(v, p.run) && v in tags && tags[v] == p.run.revision && p.run.manifestName == base
    && v !in s.flips
    && (v in s.releases <==> p.found || p.phase.Drafted? || p.phase.Uploading?)
    && (v in s.releases ==> s.releases[v].draft && s.releases[v].target == p.run.revision)
    && (v in s.images <==> p.tagged || Past(p))
    && (v in s.images ==> s.images[v] == p.run.image.value)
    && (!p.phase.Checked? ==> (p.run.image.value, p.run.key) in s.signed)
    && (Past(p) ==> SignedOk(p.run))
    && (p.phase.Uploading? ==>
          && p.phase.k <= 9
          && AssetsOk(s, p.phase.listing, NineNames(v, base))
          && Progress(s.releases[v].assets, p.phase.listing, Uploads(v, p.run), p.phase.k, p.phase.cleared))
  }

  /** A published release is the work of one run: its nine files, its target, its signed image. */
  ghost predicate PublishedBy(base: string, s: State, tags: Repo.Tags, v: Version, run: Inputs)
  {
    && RunOk(v, run) && v in tags && tags[v] == run.revision && run.manifestName == base
    && v in s.releases && !s.releases[v].draft && s.releases[v].target == run.revision
    && Holds(s.releases[v].assets, Uploads(v, run))
    && v in s.images && s.images[v] == run.image.value
    && (run.image.value, run.key) in s.signed && SignedOk(run)
  }

  ghost predicate Inv(base: string, s: State, tags: Repo.Tags)
  {
    && (forall v | v in s.releases :: ReleaseOk(base, s, v, s.releases[v]))
    && (forall v | v in s.live :: LiveOk(base, s, tags, v, s.live[v]))
    && (forall v | v in s.releases && !s.releases[v].draft :: v in s.flips)
    && (forall v | v in s.flips :: PublishedBy(base, s, tags, v, s.flips[v]))
  }

  /** The basename of the verification manifest is a name of its own for every version. */
  ghost predicate OwnName(base: string)
  {
    forall v :: base !in FixedNames(v)
  }

  /** Everything about another tag stays as it is. */
  lemma OnlyItsTag(base: string, s: State, tags: Repo.Tags, v: Version, step: Step, u: Version)
    requires Can(base, s, tags, v, step) && u != v
    ensures var s' := Apply(base, s, tags, v, step);
            && (u in s'.images <==> u in s.images) && (u in s.images ==> s'.images[u] == s.images[u])
            && (u in s'.releases <==> u in s.releases) && (u in s.releases ==> s'.releases[u] == s.releases[u])
            && (u in s'.live <==> u in s.live) && (u in s.live ==> s'.live[u] == s.live[u])
            && (u in s'.flips <==> u in s.flips) && (u in s.flips ==> s'.flips[u] == s.flips[u])
  {
  }

  lemma OnlyGrows(base: string, s: State, tags: Repo.Tags, v: Version, step: Step)
    requires Can(base, s, tags, v, step)
    ensures var s' := Apply(base, s, tags, v, step); s.signed <= s'.signed && s.nextId <= s'.nextId
  {
  }

  lemma LiveElsewhere(base: string, s: State, tags: Repo.Tags, v: Version, step: Step, u: Version)
    requires Inv(base, s, tags) && Can(base, s, tags, v, step) && u != v && u in s.live
    ensures LiveOk(base, Apply(base, s, tags, v, step), tags, u, s.live[u])
  {
    OnlyItsTag(base, s, tags, v, step, u);
    OnlyGrows(base, s, tags, v, step);
    assert LiveOk(base, s, tags, u, s.live[u]);
  }

  lemma FlippedElsewhere(base: string, s: State, tags: Repo.Tags, v: Version, step: Step, u: Version)
    requires Inv(base, s, tags) && Can(base, s, tags, v, step) && u in s.flips
    ensures u != v
    ensures PublishedBy(base, Apply(base, s, tags, v, step), tags, u, s.flips[u])
  {
    assert PublishedBy(base, s, tags, u, s.flips[u]);
    assert u != v;
    OnlyGrows(base, s, tags, v, step);
    OnlyItsTag(base, s, tags, v, step, u);
  }

  lemma ReleaseElsewhere(base: string, s: State, tags: Repo.Tags, v: Version, step: Step, u: Version)
    requires Inv(base, s, tags) && Can(base, s, tags, v, step) && u != v && u in s.releases
    ensures ReleaseOk(base, Apply(base, s, tags, v, step), u, s.releases[u])
  {
    OnlyGrows(base, s, tags, v, step);
    assert ReleaseOk(base, s, u, s.releases[u]);
  }

  // ---- the publisher's own steps ----

  lemma StartKeeps(base: string, s: State, tags: Repo.Tags, v: Version, run: Inputs)
    requires Inv(base, s, tags) && Can(base, s, tags, v, Start(run))
    ensures var s' := Apply(base, s, tags, v, Start(run)); LiveOk(base, s', tags, v, s'.live[v])
  {
    assert v !in s.flips;
  }

  lemma SignKeeps(base: string, s: State, tags: Repo.Tags, v: Version)
    requires Inv(base, s, tags) && Can(base, s, tags, v, SignImage)
    ensures var s' := Apply(base, s, tags, v, SignImage); LiveOk(base, s', tags, v, s'.live[v])
  {
    assert LiveOk(base, s, tags, v, s.live[v]);
  }

  lemma TagImageKeeps(base: string, s: State, tags: Repo.Tags, v: Version)
    requires Inv(base, s, tags) && Can(base, s, tags, v, TagImage)
    ensures var s' := Apply(base, s, tags, v, TagImage); LiveOk(base, s', tags, v, s'.live[v])
  {
    assert LiveOk(base, s, tags, v, s.live[v]);
  }

  lemma DraftKeeps(base: string, s: State, tags: Repo.Tags, v: Version)
    requires Inv(base, s, tags) && Can(base, s, tags, v, Draft)
    ensures var s' := Apply(base, s, tags, v, Draft); LiveOk(base, s', tags, v, s'.live[v])
    ensures var s' := Apply(base, s, tags, v, Draft); ReleaseOk(base, s', v, s'.releases[v])
  {
    assert LiveOk(base, s, tags, v, s.live[v]);
    if v in s.releases {
      assert ReleaseOk(base, s, v, s.releases[v]);
    }
  }

  lemma ListKeeps(base: string, s: State, tags: Repo.Tags, v: Version)
    requires Inv(base, s, tags) && Can(base, s, tags, v, List)
    ensures var s' := Apply(base, s, tags, v, List); LiveOk(base, s', tags, v, s'.live[v])
  {
    assert LiveOk(base, s, tags, v, s.live[v]);
    assert ReleaseOk(base, s, v, s.releases[v]);
    ProgressStart(s.releases[v].assets, Uploads(v, s.live[v].run));
  }

  /** The assets after a step of the upload loop still have distinct ids, known names, old ids. */
  lemma {:induction false} RemoveIdKeeps(s: State, assets: seq<Asset>, names: set<string>, id: nat)
    requires IdsUnique(assets) && forall i | 0 <= i < |assets| :: assets[i].id < s.nextId && assets[i].name in names
    ensures var left := RemoveId(assets, id);
            && IdsUnique(left)
            && (forall i | 0 <= i < |left| :: left[i] in assets)
            && (forall i | 0 <= i < |left| :: left[i].id < s.nextId && left[i].name in names)
  {
    if assets != [] {
      RemoveIdKeeps(s, assets[1..], names, id);
      var left := RemoveId(assets[1..], id);
      forall i | 0 <= i < |left| ensures left[i] in assets && left[i].id != assets[0].id {
        var k :| 0 <= k < |assets[1..]| && assets[1..][k] == left[i];
        assert assets[k + 1] == left[i];
      }
    }
  }

  lemma ClearKeeps(base: string, s: State, tags: Repo.Tags, v: Version)
    requires OwnName(base) && Inv(base, s, tags) && Can(base, s, tags, v, Clear)
    ensures var s' := Apply(base, s, tags, v, Clear); LiveOk(base, s', tags, v, s'.live[v])
    ensures var s' := Apply(base, s, tags, v, Clear); ReleaseOk(base, s', v, s'.releases[v])
  {
    var p, rel := s.live[v], s.releases[v];
    assert LiveOk(base, s, tags, v, p) && ReleaseOk(base, s, v, rel);
    var files := Uploads(v, p.run);
    UploadNames(v, p.run);
    ProgressClear(rel.assets, p.phase.listing, files, p.phase.k);
    var assets := Cleared(rel.assets, p.phase.listing, files[p.phase.k].0);
    ProgressUnique(assets, p.phase.listing, files, p.phase.k, true);
    match Find(p.phase.listing, files[p.phase.k].0)
    case None =>
    case Some(a) => RemoveIdKeeps(s, rel.assets, NineNames(v, base), a.id);
  }

  lemma AppendAsset(s: State, s': State, assets: seq<Asset>, a: Asset, names: set<string>)
    requires AssetsOk(s, assets, names) && a.id == s.nextId && s'.nextId == s.nextId + 1 && a.name in names
    requires NamesUnique(assets + [a])
    ensures AssetsOk(s', assets + [a], names)
  {
  }

  lemma PostAssets(base: string, s: State, tags: Repo.Tags, v: Version)
    requires OwnName(base) && Inv(base, s, tags) && Can(base, s, tags, v, Post)
    ensures var s', p := Apply(base, s, tags, v, Post), s.live[v];
            && Progress(s'.releases[v].assets, p.phase.listing, Uploads(v, p.run), p.phase.k + 1, false)
            && NamesUnique(s'.releases[v].assets)
            && Uploads(v, p.run)[p.phase.k].0 in NineNames(v, base)
  {
    var p, rel := s.live[v], s.releases[v];
    assert LiveOk(base, s, tags, v, p);
    var files, k := Uploads(v, p.run), p.phase.k;
    UploadNames(v, p.run);
    ProgressPost(rel.assets, p.phase.listing, files, k, s.nextId);
    var assets := rel.assets + [Asset(s.nextId, files[k].0, files[k].1)];
    ProgressUnique(assets, p.phase.listing, files, k + 1, false);
    assert files[k].0 in NamesOf(files);
  }

  lemma PostKeeps(base: string, s: State, tags: Repo.Tags, v: Version)
    requires OwnName(base) && Inv(base, s, tags) && Can(base, s, tags, v, Post)
    ensures var s' := Apply(base, s, tags, v, Post); LiveOk(base, s', tags, v, s'.live[v])
    ensures var s' := Apply(base, s, tags, v, Post); ReleaseOk(base, s', v, s'.releases[v])
  {
    var s', p, rel := Apply(base, s, tags, v, Post), s.live[v], s.releases[v];
    assert LiveOk(base, s, tags, v, p) && ReleaseOk(base, s, v, rel);
    PostAssets(base, s, tags, v);
    var (name, blob) := Uploads(v, p.run)[p.phase.k];
    AppendAsset(s, s', rel.assets, Asset(s.nextId, name, blob), NineNames(v, base));
  }

  lemma FlipKeeps(base: string, s: State, tags: Repo.Tags, v: Version)
    requires OwnName(base) && Inv(base, s, tags) && Can(base, s, tags, v, Flip)
    ensures PublishedBy(base, Apply(base, s, tags, v, Flip), tags, v, s.live[v].run)
    ensures var s' := Apply(base, s, tags, v, Flip); ReleaseOk(base, s', v, s'.releases[v])
  {
    assert LiveOk(base, s, tags, v, s.live[v]) && ReleaseOk(base, s, v, s.releases[v]);
    FinishedDraft(base, s, tags, v, s.live[v]);
  }

  lemma FinishedDraft(base: string, s: State, tags: Repo.Tags, v: Version, p: Publisher)
    requires OwnName(base) && LiveOk(base, s, tags, v, p) && p.phase.Uploading? && p.phase.k == 9 && !p.phase.cleared
    ensures v in s.releases && Holds(s.releases[v].assets, Uploads(v, p.run))
  {
    UploadNames(v, p.run);
    ProgressDone(s.releases[v].assets, p.phase.listing, Uploads(v, p.run));
  }

  lemma OwnLiveKeeps(base: string, s: State, tags: Repo.Tags, v: Version, step: Step)
    requires OwnName(base) && Inv(base, s, tags) && Can(base, s, tags, v, step)
    requires v in Apply(base, s, tags, v, step).live
    ensures var s' := Apply(base, s, tags, v, step); LiveOk(base, s', tags, v, s'.live[v])
  {
    match step
    case Start(run) => StartKeeps(base, s, tags, v, run);
    case List => ListKeeps(base, s, tags, v);
    case Clear => ClearKeeps(base, s, tags, v);
    case Post => PostKeeps(base, s, tags, v);
    case SignImage => SignKeeps(base, s, tags, v);
    case TagImage => TagImageKeeps(base, s, tags, v);
    case Draft => DraftKeeps(base, s, tags, v);
    case _ =>
  }

  lemma OwnReleaseKeeps(base: string, s: State, tags: Repo.Tags, v: Version, step: Step)
    requires OwnName(base) && Inv(base, s, tags) && Can(base, s, tags, v, step)
    requires v in Apply(base, s, tags, v, step).releases
    ensures var s' := Apply(base, s, tags, v, step); ReleaseOk(base, s', v, s'.releases[v])
    ensures var s' := Apply(base, s, tags, v, step); !s'.releases[v].draft ==> v in s'.flips
  {
    match step
    case Clear => ClearKeeps(base, s, tags, v);
    case Post => PostKeeps(base, s, tags, v);
    case Flip => FlipKeeps(base, s, tags, v);
    case Draft => DraftKeeps(base, s, tags, v);
    case _ => assert ReleaseOk(base, s, v, s.releases[v]);
  }

  lemma OwnFlipKeeps(base: string, s: State, tags: Repo.Tags, v: Version, step: Step)
    requires OwnName(base) && Inv(base, s, tags) && Can(base, s, tags, v, step)
    requires v in Apply(base, s, tags, v, step).flips
    ensures var s' := Apply(base, s, tags, v, step); PublishedBy(base, s', tags, v, s'.flips[v])
  {
    if v in s.flips {
      FlippedElsewhere(base, s, tags, v, step, v);
    } else {
      FlipKeeps(base, s, tags, v);
    }
  }

  lemma ReleaseKeeps(base: string, s: State, tags: Repo.Tags, v: Version, step: Step, u: Version)
    requires OwnName(base) && Inv(base, s, tags) && Can(base, s, tags, v, step)
    requires u in Apply(base, s, tags, v, step).releases
    ensures var s' := Apply(base, s, tags, v, step);
            ReleaseOk(base, s', u, s'.releases[u]) && (!s'.releases[u].draft ==> u in s'.flips)
  {
    if u == v {
      OwnReleaseKeeps(base, s, tags, v, step);
    } else {
      OnlyItsTag(base, s, tags, v, step, u);
      ReleaseElsewhere(base, s, tags, v, step, u);
    }
  }

  /** Every effect of every publisher keeps the invariant. */
  lemma StepKeeps(base: string, s: State, tags: Repo.Tags, v: Version, step: Step)
    requires OwnName(base) && Inv(base, s, tags) && Can(base, s, tags, v, step)
    ensures Inv(base, Apply(base, s, tags, v, step), tags)
  {
    var s' := Apply(base, s, tags, v, step);
    forall u | u in s'.releases
      ensures ReleaseOk(base, s', u, s'.releases[u]) && (!s'.releases[u].draft ==> u in s'.flips)
    {
      ReleaseKeeps(base, s, tags, v, step, u);
    }
    forall u | u in s'.live ensures LiveOk(base, s', tags, u, s'.live[u]) {
      LiveKeeps(base, s, tags, v, step, u);
    }
    forall u | u in s'.flips ensures PublishedBy(base, s', tags, u, s'.flips[u]) {
      FlipsKeep(base, s, tags, v, step, u);
    }
  }

  lemma LiveKeeps(base: string, s: State, tags: Repo.Tags, v: Version, step: Step, u: Version)
    requires OwnName(base) && Inv(base, s, tags) && Can(base, s, tags, v, step)
    requires u in Apply(base, s, tags, v, step).live
    ensures var s' := Apply(base, s, tags, v, step); LiveOk(base, s', tags, u, s'.live[u])
  {
    if u == v {
      OwnLiveKeeps(base, s, tags, v, step);
    } else {
      OnlyItsTag(base, s, tags, v, step, u);
      LiveElsewhere(base, s, tags, v, step, u);
    }
  }

  lemma FlipsKeep(base: string, s: State, tags: Repo.Tags, v: Version, step: Step, u: Version)
    requires OwnName(base) && Inv(base, s, tags) && Can(base, s, tags, v, step)
    requires u in Apply(base, s, tags, v, step).flips
    ensures var s' := Apply(base, s, tags, v, step); PublishedBy(base, s', tags, u, s'.flips[u])
  {
    if u == v {
      OwnFlipKeeps(base, s, tags, v, step);
    } else {
      OnlyItsTag(base, s, tags, v, step, u);
      FlippedElsewhere(base, s, tags, v, step, u);
    }
  }

  /** Published means final: no step of anybody changes the assets, target or image tag. */
  lemma PublishedIsFrozen(base: string, s: State, tags: Repo.Tags, v: Version, step: Step, u: Version)
    requires Inv(base, s, tags) && Can(base, s, tags, v, step) && u in s.releases && !s.releases[u].draft
    ensures var s' := Apply(base, s, tags, v, step);
            && u in s'.releases && s'.releases[u] == s.releases[u]
            && u in s.images && u in s'.images && s'.images[u] == s.images[u]
            && u in s.flips && u in s'.flips && s'.flips[u] == s.flips[u]
  {
    FlippedElsewhere(base, s, tags, v, step, u);
    assert PublishedBy(base, s, tags, u, s.flips[u]);
    OnlyItsTag(base, s, tags, v, step, u);
  }

  /** After a crash the same inputs are admitted again. */
  lemma RetryAdmitted(base: string, s: State, tags: Repo.Tags, v: Version, p: Publisher, seed: nat)
    requires LiveOk(base, s, tags, v, p)
    ensures RunOk(v, p.run.(seed := seed)) && p.run.manifestName == base
    ensures Admits(s.(live := s.live - {v}), tags, v, p.run.(seed := seed))
    ensures SignedOk(p.run.(seed := seed)) <==> SignedOk(p.run)
  {
  }
}
