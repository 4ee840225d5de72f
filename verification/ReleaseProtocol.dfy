/** Concurrent `prepare` and `tag_release` runs over one remote repository. `main` moves only by
    fast-forward and a tag is written once: neither push carries a force flag. */
module ReleaseProtocol {
  import opened Text
  import opened Semver
  import opened ReleaseHistory
  import StorageGate

  type Tags = map<Version, Commit>

  /** `version()`: the version of a checkout, if both records are there and equal. */
  function VersionOf(t: Tree): Option<Version>
  {
    if Agrees(t) then Some(t.versionFile.v) else None
  }

  /** The storage gate on a checkout, for the checkout's own version. */
  predicate StoragePasses(t: Tree, v: Version)
  {
    t.documentsOk && StorageGate.GatePasses(t.registry, Render(v))
  }

  // ---- the choice prepare makes ----

  ghost predicate IsLatest(tags: Tags, latest: Option<Version>)
  {
    match latest
    case None => tags == map[]
    case Some(l) => l in tags && forall v | v in tags :: v == l || Less(v, l)
  }

  datatype Choice = Refuse | Replay(v: Version) | Keep(v: Version) | Raise(v: Version)

  /** The version in the first commit that has a VERSION file. */
  function FirstVersion(h: seq<Tree>): Option<Version>
  {
    if h == [] then None
    else if h[0].versionFile.Absent? then FirstVersion(h[1..])
    else Recorded(h[0])
  }

  /** `prepare` without an explicit tag: replay the tag at this very source, keep a version that is
      already ahead, or raise the patch number. */
  function PrepareChoice(source: Commit, tags: Tags, latest: Option<Version>): Choice
  {
    match VersionOf(Head(source))
    case None => Refuse
    case Some(current) =>
      if current in tags && tags[current] == source then Replay(current)
      else if latest.Some? && Less(current, latest.value) then Refuse
      else
        match (if latest.Some? then latest else FirstVersion(source))
        case None => Refuse
        case Some(prior) => if Less(prior, current) then Keep(current) else Raise(Bump(current))
  }

  /** Once tags exist, prepare replays the tag of its source or picks a version above every tag. */
  lemma PrepareIsAhead(source: Commit, tags: Tags, latest: Option<Version>)
    requires IsLatest(tags, latest) && tags != map[]
    ensures match PrepareChoice(source, tags, latest)
            case Refuse => true
            case Replay(v) => v in tags && tags[v] == source && VersionOf(Head(source)) == Some(v)
            case Keep(v) => v !in tags && forall w | w in tags :: Less(w, v)
            case Raise(v) => v !in tags && forall w | w in tags :: Less(w, v)
  {
    if latest.Some? && VersionOf(Head(source)).Some? {
      BumpIsNext(VersionOf(Head(source)).value, latest.value);
    }
  }

  /** The release commit: both records move together to `v`; the registry and all else stay, except
      the lock file and the SBOM. */
  predicate Rewrites(before: Tree, after: Tree, v: Version)
  {
    && after.versionFile == Is(v) && after.cargo == Some(Render(v)) && after.cargoRest == before.cargoRest
    && after.registry == before.registry && after.documentsOk == before.documentsOk
    && after.publicKey == before.publicKey && after.acceptedManifests == before.acceptedManifests
    && after.rest == before.rest
  }

  lemma {:induction false} FirstVersionKept(h: seq<Tree>, t: Tree)
    requires exists i :: 0 <= i < |h| && !h[i].versionFile.Absent?
    ensures FirstVersion(h + [t]) == FirstVersion(h)
  {
    assert (h + [t])[0] == h[0];
    if h[0].versionFile.Absent? {
      assert (h + [t])[1..] == h[1..] + [t];
      var i :| 0 <= i < |h| && !h[i].versionFile.Absent?;
      assert h[1..][i - 1] == h[i];
      FirstVersionKept(h[1..], t);
    }
  }

  /** Running prepare again on its own release commit, with `main` and the tags as it left them, makes
      no second commit; without any tag this holds exactly when the source is not below the first
      recorded version. */
  lemma RerunExact(source: Commit, tags: Tags, latest: Option<Version>, next: Tree, v: Version)
    requires IsLatest(tags, latest) && PrepareChoice(source, tags, latest) == Raise(v)
    requires Rewrites(Head(source), next, v)
    ensures PrepareChoice(source + [next], tags, latest) == Keep(v)
       <==> tags != map[] || !Less(VersionOf(Head(source)).value, FirstVersion(source).value)
    ensures PrepareChoice(source + [next], tags, latest) in {Keep(v), Raise(Bump(v))}
  {
    var current := VersionOf(Head(source)).value;
    assert Head(source + [next]) == next && VersionOf(next) == Some(v);
    if latest.Some? {
      PrepareIsAhead(source, tags, latest);
      BumpIsNext(current, latest.value);
    } else {
      assert !source[|source| - 1].versionFile.Absent?;
      FirstVersionKept(source, next);
      BumpIsNext(current, FirstVersion(source).value);
    }
  }

  /** An input on which the second run raises again: VERSION was 1.0.0, was lowered to 0.9.0, and nothing
      is tagged. `prepare` chooses 0.9.1, and on its own commit 0.9.2. */
  lemma RerunRaisesAgain()
    ensures var one, low, next := EMPTY.(versionFile := Is(Version(1, 0, 0)), cargo := Some(Render(Version(1, 0, 0)))),
                                  EMPTY.(versionFile := Is(Version(0, 9, 0)), cargo := Some(Render(Version(0, 9, 0)))),
                                  EMPTY.(versionFile := Is(Version(0, 9, 1)), cargo := Some(Render(Version(0, 9, 1))));
            && PrepareChoice([one, low], map[], None) == Raise(Version(0, 9, 1))
            && Rewrites(low, next, Version(0, 9, 1))
            && PrepareChoice([one, low, next], map[], None) == Raise(Version(0, 9, 2))
  {
    var one := EMPTY.(versionFile := Is(Version(1, 0, 0)), cargo := Some(Render(Version(1, 0, 0))));
    var low := EMPTY.(versionFile := Is(Version(0, 9, 0)), cargo := Some(Render(Version(0, 9, 0))));
    var next := EMPTY.(versionFile := Is(Version(0, 9, 1)), cargo := Some(Render(Version(0, 9, 1))));
    assert FirstVersion([one, low]) == Some(Version(1, 0, 0));
    RerunExact([one, low], map[], None, next, Version(0, 9, 1));
    assert [one, low] + [next] == [one, low, next];
  }

  // ---- the world ----

  datatype Job =
    | Fetched(source: Commit, tags: Tags, latest: Option<Version>)
    | Bumping(source: Commit, next: Tree, v: Version)
    | Tagging(revision: Commit, tag: Version)

  datatype World = World(main: Commit, tags: Tags, jobs: map<nat, Job>)

  datatype Action =
    | Outside(t: Tree)                                        // somebody pushes a commit
    | Fetch(j: nat, source: Commit, latest: Option<Version>)  // prepare fetches the tags
    | Decide(j: nat, next: Tree)                              // it finds main at its source and commits
    | PushMain(j: nat)                                        // it pushes the commit, or is rejected
    | CheckTag(j: nat, revision: Commit, tag: Version)        // tag_release passes its checks
    | PushTag(j: nat)                                         // it pushes the tag, or is rejected
    | Crash(j: nat)

  ghost predicate Can(w: World, a: Action)
  {
    match a
    case Outside(t) => Agrees(t)
    case Fetch(j, _, latest) => j !in w.jobs && IsLatest(w.tags, latest)
    case Decide(j, next) =>
      && j in w.jobs && w.jobs[j].Fetched?
      && var job := w.jobs[j];
         var choice := PrepareChoice(job.source, job.tags, job.latest);
         choice.Raise? && Rewrites(Head(job.source), next, choice.v) && w.main == job.source
    case PushMain(j) => j in w.jobs && w.jobs[j].Bumping?
    case CheckTag(j, revision, tag) =>
      && j !in w.jobs && VersionOf(Head(revision)) == Some(tag) && StoragePasses(Head(revision), tag)
      && w.main == revision && tag !in w.tags
    case PushTag(j) => j in w.jobs && w.jobs[j].Tagging?
    case Crash(j) => j in w.jobs
  }

  ghost function Apply(w: World, a: Action): World
    requires Can(w, a)
  {
    match a
    case Outside(t) => w.(main := w.main + [t])
    case Fetch(j, source, latest) => w.(jobs := w.jobs[j := Fetched(source, w.tags, latest)])
    case Decide(j, next) =>
      var job := w.jobs[j];
      w.(jobs := w.jobs[j := Bumping(job.source, next, PrepareChoice(job.source, job.tags, job.latest).v)])
    case PushMain(j) =>
      var commit := w.jobs[j].source + [w.jobs[j].next];
      World(if w.main <= commit then commit else w.main, w.tags, w.jobs - {j})
    case CheckTag(j, revision, tag) => w.(jobs := w.jobs[j := Tagging(revision, tag)])
    case PushTag(j) =>
      var job := w.jobs[j];
      World(w.main, if job.tag in w.tags then w.tags else w.tags[job.tag := job.revision], w.jobs - {j})
    case Crash(j) => w.(jobs := w.jobs - {j})
  }

  /** A commit fit to be tagged `v`: on main, both records equal to the tag, storage qualified. */
  ghost predicate TagFits(main: Commit, c: Commit, v: Version)
  {
    c <= main && VersionOf(Head(c)) == Some(v) && StoragePasses(Head(c), v)
  }

  ghost predicate JobOk(w: World, job: Job)
  {
    match job
    case Fetched(_, tags, latest) => IsLatest(tags, latest)
    case Bumping(source, next, v) =>
      && source <= w.main && VersionOf(Head(source)).Some?
      && Less(VersionOf(Head(source)).value, v) && Rewrites(Head(source), next, v)
    case Tagging(revision, tag) => TagFits(w.main, revision, tag)
  }

  ghost predicate Inv(w: World)
  {
    && Coherent(w.main)
    && (forall v | v in w.tags :: TagFits(w.main, w.tags[v], v))
    && (forall j | j in w.jobs :: JobOk(w, w.jobs[j]))
  }

  /** Nothing published on the remote is taken back: main grows, tags stay where they are. */
  ghost predicate Grows(w: World, w': World)
  {
    w.main <= w'.main && forall v | v in w.tags :: v in w'.tags && w'.tags[v] == w.tags[v]
  }

  lemma FitsLater(main: Commit, main': Commit, c: Commit, v: Version)
    requires main <= main' && TagFits(main, c, v)
    ensures TagFits(main', c, v)
  {
  }

  lemma JobLater(w: World, w': World, job: Job)
    requires JobOk(w, job) && w.main <= w'.main
    ensures JobOk(w', job)
  {
  }

  lemma CoherentGrows(h: seq<Tree>, t: Tree)
    requires Coherent(h) && Agrees(t)
    ensures Coherent(h + [t])
  {
    CoherentStep(h, t);
  }

  lemma PrefixEither(source: Commit, main: Commit, next: Tree)
    requires source <= main <= source + [next]
    ensures main == source || main == source + [next]
  {
    if |main| == |source| {
      assert main == source;
    } else {
      assert main == (source + [next])[..|main|];
    }
  }

  lemma PushMainKeeps(w: World, j: nat)
    requires Inv(w) && Can(w, PushMain(j))
    ensures var w' := Apply(w, PushMain(j)); Coherent(w'.main) && w.main <= w'.main
  {
    var job := w.jobs[j];
    assert JobOk(w, job);
    if w.main <= job.source + [job.next] {
      PrefixEither(job.source, w.main, job.next);
      if w.main == job.source {
        CoherentGrows(job.source, job.next);
      }
    }
  }

  lemma NewJobOk(w: World, a: Action)
    requires Inv(w) && Can(w, a) && (a.Fetch? || a.Decide? || a.CheckTag?)
    ensures JobOk(w, Apply(w, a).jobs[a.j])
  {
    if a.Decide? {
      var job := w.jobs[a.j];
      assert JobOk(w, job);
      BumpIsNext(VersionOf(Head(job.source)).value, VersionOf(Head(job.source)).value);
    }
  }

  lemma MainStep(w: World, a: Action)
    requires Inv(w) && Can(w, a)
    ensures w.main <= Apply(w, a).main && Coherent(Apply(w, a).main)
  {
    match a
    case Outside(t) => CoherentGrows(w.main, t);
    case PushMain(j) => PushMainKeeps(w, j);
    case _ =>
  }

  lemma NewTagFits(w: World, j: nat)
    requires Inv(w) && Can(w, PushTag(j))
    ensures TagFits(w.main, w.jobs[j].revision, w.jobs[j].tag)
  {
    assert JobOk(w, w.jobs[j]);
  }

  lemma TagsAfter(w: World, a: Action, v: Version)
    requires Can(w, a) && v in Apply(w, a).tags
    ensures if v in w.tags then Apply(w, a).tags[v] == w.tags[v]
            else a.PushTag? && v == w.jobs[a.j].tag && Apply(w, a).tags[v] == w.jobs[a.j].revision
  {
  }

  lemma TagStep(w: World, a: Action, v: Version)
    requires Inv(w) && Can(w, a) && v in Apply(w, a).tags
    ensures TagFits(Apply(w, a).main, Apply(w, a).tags[v], v)
    ensures v in w.tags ==> Apply(w, a).tags[v] == w.tags[v]
  {
    MainStep(w, a);
    TagsAfter(w, a, v);
    if v !in w.tags {
      NewTagFits(w, a.j);
    }
    FitsLater(w.main, Apply(w, a).main, Apply(w, a).tags[v], v);
  }

  lemma JobStep(w: World, a: Action, k: nat)
    requires Inv(w) && Can(w, a) && k in Apply(w, a).jobs
    ensures JobOk(Apply(w, a), Apply(w, a).jobs[k])
  {
    MainStep(w, a);
    if (a.Fetch? || a.Decide? || a.CheckTag?) && k == a.j {
      NewJobOk(w, a);
      JobLater(w, Apply(w, a), Apply(w, a).jobs[k]);
    } else {
      assert k in w.jobs && Apply(w, a).jobs[k] == w.jobs[k];
      JobLater(w, Apply(w, a), w.jobs[k]);
    }
  }

  /** Every step of every job keeps the invariant and only adds. */
  lemma StepKeeps(w: World, a: Action)
    requires Inv(w) && Can(w, a)
    ensures Inv(Apply(w, a)) && Grows(w, Apply(w, a))
  {
    MainStep(w, a);
    forall v | v in Apply(w, a).tags
      ensures TagFits(Apply(w, a).main, Apply(w, a).tags[v], v) && (v in w.tags ==> Apply(w, a).tags[v] == w.tags[v])
    {
      TagStep(w, a, v);
    }
    forall k | k in Apply(w, a).jobs ensures JobOk(Apply(w, a), Apply(w, a).jobs[k]) {
      JobStep(w, a, k);
    }
    NoTagLost(w, a);
  }

  lemma NoTagLost(w: World, a: Action)
    requires Can(w, a)
    ensures w.tags.Keys <= Apply(w, a).tags.Keys
  {
  }

  // ---- runs ----

  /** The world after a sequence of actions of any jobs, if each was possible in its turn. */
  ghost function After(w: World, actions: seq<Action>): Option<World>
    decreases actions
  {
    if actions == [] then Some(w)
    else if Can(w, actions[0]) then After(Apply(w, actions[0]), actions[1..])
    else None
  }

  lemma GrowsTransitive(a: World, b: World, c: World)
    requires Grows(a, b) && Grows(b, c)
    ensures Grows(a, c)
  {
  }

  /** In every reachable world each tag names one commit forever: a commit on main whose Cargo and
      VERSION records both equal the tag and whose storage gate was open. */
  lemma {:induction false} RunKeeps(w: World, actions: seq<Action>)
    requires Inv(w) && After(w, actions).Some?
    ensures Inv(After(w, actions).value) && Grows(w, After(w, actions).value)
    decreases actions
  {
    if actions != [] {
      StepKeeps(w, actions[0]);
      RunKeeps(Apply(w, actions[0]), actions[1..]);
      GrowsTransitive(w, Apply(w, actions[0]), After(w, actions).value);
    }
  }

  /** A repository before any release: coherent records, no tag, no job. */
  ghost predicate Fresh(w: World)
  {
    Coherent(w.main) && w.tags == map[] && w.jobs == map[]
  }

  /** What the gates read from a world: the tags in some order with the version at their commit. */
  ghost predicate ListsTags(w: World, tags: seq<(string, Option<Version>)>)
  {
    forall i | 0 <= i < |tags| :: ListedTag(w, tags[i])
  }

  ghost predicate ListedTag(w: World, entry: (string, Option<Version>))
  {
    exists v :: v in w.tags && entry.0 == TagName(v) && entry.1 == Recorded(Head(w.tags[v]))
  }

  /** Both gates accept whatever the protocol can reach. */
  method GatesAccept(w0: World, actions: seq<Action>, w: World, tags: seq<(string, Option<Version>)>)
    returns (history: seq<HistoryViolation>, release: seq<TagViolation>)
    requires Fresh(w0) && After(w0, actions) == Some(w) && ListsTags(w, tags)
    ensures history == [] && release == []
  {
    RunKeeps(w0, actions);
    HistoryGateExact(w.main);
    history := ValidateHistory(Log(w.main));
    forall i | 0 <= i < |tags| ensures TagOk(tags[i].0, tags[i].1) {
      assert ListedTag(w, tags[i]);
      var v :| v in w.tags && tags[i].0 == TagName(v) && tags[i].1 == Recorded(Head(w.tags[v]));
      TagNameVersion(v);
      assert TagFits(w.main, w.tags[v], v);
    }
    release := ValidateTags(tags);
  }

  /** Every tag sits on a commit whose last appended live record for that version is qualified. */
  lemma TaggedIsQualified(w0: World, actions: seq<Action>, v: Version)
    requires Fresh(w0) && After(w0, actions).Some? && v in After(w0, actions).value.tags
    ensures var t := Head(After(w0, actions).value.tags[v]);
            exists i: nat :: StorageGate.LastAppended(t.registry.records, StorageGate.B2, Render(v), i)
                          && t.registry.records[i].outcome == "qualified"
  {
    RunKeeps(w0, actions);
    var w := After(w0, actions).value;
    assert TagFits(w.main, w.tags[v], v);
    StorageGate.OpenGateIsQualified(Head(w.tags[v]).registry, Render(v));
  }

  /** Undisturbed, the steps of a prepare run put its release commit on top of its source. */
  lemma UndisturbedPrepare(w: World, j: nat, latest: Option<Version>, next: Tree, v: Version)
    requires j !in w.jobs && IsLatest(w.tags, latest) && PrepareChoice(w.main, w.tags, latest) == Raise(v)
    requires Rewrites(Head(w.main), next, v)
    ensures After(w, [Fetch(j, w.main, latest), Decide(j, next), PushMain(j)]) == Some(w.(main := w.main + [next]))
  {
    var a := Apply(w, Fetch(j, w.main, latest));
    var b := Apply(a, Decide(j, next));
    var c := Apply(b, PushMain(j));
    assert c.jobs == w.jobs;
    assert After(c, []) == Some(c);
    assert [PushMain(j)][1..] == [];
    assert After(b, [PushMain(j)]) == Some(c);
    assert [Decide(j, next), PushMain(j)][1..] == [PushMain(j)];
    assert After(a, [Decide(j, next), PushMain(j)]) == Some(c);
    assert [Fetch(j, w.main, latest), Decide(j, next), PushMain(j)][1..] == [Decide(j, next), PushMain(j)];
  }

  /** Undisturbed, the steps of a tag run put the tag on main's tip. */
  lemma UndisturbedTag(w: World, j: nat, tag: Version)
    requires j !in w.jobs && tag !in w.tags && VersionOf(Head(w.main)) == Some(tag) && StoragePasses(Head(w.main), tag)
    ensures After(w, [CheckTag(j, w.main, tag), PushTag(j)]) == Some(w.(tags := w.tags[tag := w.main]))
  {
    var a := Apply(w, CheckTag(j, w.main, tag));
    var b := Apply(a, PushTag(j));
    assert b.jobs == w.jobs;
    assert After(b, []) == Some(b) && [PushTag(j)][1..] == [];
    assert After(a, [PushTag(j)]) == Some(b);
    assert [CheckTag(j, w.main, tag), PushTag(j)][1..] == [PushTag(j)];
  }

  // ---- versions along main ----

  ghost predicate Ascending(h: seq<Tree>)
  {
    forall i, j | 0 <= i < j < |h| && h[i].versionFile.Is? && h[j].versionFile.Is? ::
      !Less(h[j].versionFile.v, h[i].versionFile.v)
  }

  /** An outside commit that does not lower VERSION. */
  ghost predicate NotLowering(w: World, a: Action)
  {
    a.Outside? && a.t.versionFile.Is? ==>
      forall i | 0 <= i < |w.main| && w.main[i].versionFile.Is? :: !Less(a.t.versionFile.v, w.main[i].versionFile.v)
  }

  ghost predicate NeverLowering(w: World, actions: seq<Action>)
    requires After(w, actions).Some?
    decreases actions
  {
    actions == [] || (NotLowering(w, actions[0]) && NeverLowering(Apply(w, actions[0]), actions[1..]))
  }

  lemma AscendingExtends(h: seq<Tree>, t: Tree)
    requires Ascending(h) && t.versionFile.Is?
    requires forall i | 0 <= i < |h| && h[i].versionFile.Is? :: !Less(t.versionFile.v, h[i].versionFile.v)
    ensures Ascending(h + [t])
  {
  }

  lemma AscendingStep(w: World, a: Action)
    requires Inv(w) && Can(w, a) && Ascending(w.main) && NotLowering(w, a)
    ensures Ascending(Apply(w, a).main)
  {
    if a.Outside? {
      AscendingExtends(w.main, a.t);
    } else if a.PushMain? {
      var job := w.jobs[a.j];
      assert JobOk(w, job);
      if w.main <= job.source + [job.next] {
        PrefixEither(job.source, w.main, job.next);
        if w.main == job.source {
          var last := |w.main| - 1;
          forall i | 0 <= i < |w.main| && w.main[i].versionFile.Is? ensures !Less(job.v, w.main[i].versionFile.v) {
            assert i == last || !Less(w.main[last].versionFile.v, w.main[i].versionFile.v);
          }
          AscendingExtends(w.main, job.next);
        }
      }
    }
  }

  lemma {:induction false} RunAscends(w: World, actions: seq<Action>)
    requires Inv(w) && After(w, actions).Some? && Ascending(w.main) && NeverLowering(w, actions)
    ensures Ascending(After(w, actions).value.main)
    decreases actions
  {
    if actions != [] {
      AscendingStep(w, actions[0]);
      StepKeeps(w, actions[0]);
      RunAscends(Apply(w, actions[0]), actions[1..]);
    }
  }

  lemma LaterIsHigher(main: Commit, c: Commit, d: Commit, v: Version, u: Version)
    requires Ascending(main) && c <= main && d <= main && |c| < |d| && v != u
    requires VersionOf(Head(c)) == Some(v) && VersionOf(Head(d)) == Some(u)
    ensures Less(v, u)
  {
    assert main[|c| - 1] == Head(c) && main[|d| - 1] == Head(d);
  }

  /** If nobody lowers VERSION, a later commit on main never carries an earlier release. */
  lemma TagsAscend(w0: World, actions: seq<Action>, v: Version, u: Version)
    requires Fresh(w0) && Ascending(w0.main) && After(w0, actions).Some? && NeverLowering(w0, actions)
    requires var tags := After(w0, actions).value.tags; v in tags && u in tags && |tags[v]| < |tags[u]|
    ensures Less(v, u)
  {
    RunKeeps(w0, actions);
    RunAscends(w0, actions);
    var w := After(w0, actions).value;
    assert TagFits(w.main, w.tags[v], v) && TagFits(w.main, w.tags[u], u);
    LaterIsHigher(w.main, w.tags[v], w.tags[u], v, u);
  }
}
