/** Whole release runs: repository jobs and publishers interleaved in any order, with crashes and
    retries, over one remote. At most one publisher per tag is alive at a time. */
module ReleaseRuns {
  import opened Text
  import opened Semver
  import Repo = ReleaseProtocol
  import Pub = Publication
  import Uploading
  import Safety = PublicationSafety
  import PublishedRelease
  import PublishRun

  /** The repository, the forge with its publishers, and the basename under which every run passes its
      verification manifest. */
  datatype System = System(base: string, w: Repo.World, s: Pub.State)

  datatype Event =
    | Repository(a: Repo.Action)
    | Publisher(v: Version, step: Pub.Step)

  ghost predicate Can(y: System, e: Event)
  {
    match e
    case Repository(a) => Repo.Can(y.w, a)
    case Publisher(v, step) => Pub.Can(y.base, y.s, y.w.tags, v, step)
  }

  ghost function Apply(y: System, e: Event): System
    requires Can(y, e)
  {
    match e
    case Repository(a) => y.(w := Repo.Apply(y.w, a))
    case Publisher(v, step) => y.(s := Pub.Apply(y.base, y.s, y.w.tags, v, step))
  }

  ghost function After(y: System, events: seq<Event>): Option<System>
    decreases events
  {
    if events == [] then Some(y)
    else if Can(y, events[0]) then After(Apply(y, events[0]), events[1..])
    else None
  }

  ghost predicate Inv(y: System)
  {
    Safety.OwnName(y.base) && Repo.Inv(y.w) && Safety.Inv(y.base, y.s, y.w.tags)
  }

  /** Before the first release; image tags and signatures may already exist. The manifest's basename is
      none of the other eight names. */
  ghost predicate Initial(y: System)
  {
    Safety.OwnName(y.base) && Repo.Fresh(y.w) && y.s.releases == map[] && y.s.live == map[] && y.s.flips == map[]
  }

  /** Tags only get more: what publishers rely on stays true. */
  lemma TagsGrow(base: string, s: Pub.State, tags: Repo.Tags, tags': Repo.Tags)
    requires Safety.Inv(base, s, tags) && forall v | v in tags :: v in tags' && tags'[v] == tags[v]
    ensures Safety.Inv(base, s, tags')
  {
    forall v | v in s.live ensures Safety.LiveOk(base, s, tags', v, s.live[v]) {
      assert Safety.LiveOk(base, s, tags, v, s.live[v]);
    }
    forall v | v in s.flips ensures Safety.PublishedBy(base, s, tags', v, s.flips[v]) {
      assert Safety.PublishedBy(base, s, tags, v, s.flips[v]);
    }
  }

  lemma StepKeeps(y: System, e: Event)
    requires Inv(y) && Can(y, e)
    ensures Inv(Apply(y, e)) && Repo.Grows(y.w, Apply(y, e).w) && Apply(y, e).base == y.base
  {
    match e
    case Repository(a) =>
      Repo.StepKeeps(y.w, a);
      TagsGrow(y.base, y.s, y.w.tags, Repo.Apply(y.w, a).tags);
    case Publisher(v, step) =>
      Safety.StepKeeps(y.base, y.s, y.w.tags, v, step);
  }

  lemma {:induction false} RunKeeps(y: System, events: seq<Event>)
    requires Inv(y) && After(y, events).Some?
    ensures Inv(After(y, events).value) && After(y, events).value.base == y.base
    decreases events
  {
    if events != [] {
      StepKeeps(y, events[0]);
      RunKeeps(Apply(y, events[0]), events[1..]);
    }
  }

  /** In every reachable state no draft or release holds two assets of one name, and a published
      one holds exactly the nine files of the run that published it, under that run's signed image. */
  lemma ReleasesHold(y: System, events: seq<Event>, v: Version)
    requires Initial(y) && After(y, events).Some? && v in After(y, events).value.s.releases
    ensures var e := After(y, events).value;
            && e.base == y.base && Pub.NamesUnique(e.s.releases[v].assets)
            && (!e.s.releases[v].draft ==>
                  v in e.s.flips && Safety.PublishedBy(e.base, e.s, e.w.tags, v, e.s.flips[v]))
  {
    RunKeeps(y, events);
    var e := After(y, events).value;
    assert Safety.ReleaseOk(e.base, e.s, v, e.s.releases[v]);
  }

  /** What a published tag is bound to. */
  ghost predicate SameRelease(y: System, e: System, v: Version)
  {
    && v in y.s.releases && v in e.s.releases && e.s.releases[v] == y.s.releases[v]
    && v in y.s.images && v in e.s.images && e.s.images[v] == y.s.images[v]
    && v in y.w.tags && v in e.w.tags && e.w.tags[v] == y.w.tags[v]
  }

  lemma StepFreezes(y: System, e: Event, v: Version)
    requires Inv(y) && Can(y, e) && v in y.s.releases && !y.s.releases[v].draft
    ensures SameRelease(y, Apply(y, e), v)
  {
    assert v in y.s.flips && Safety.PublishedBy(y.base, y.s, y.w.tags, v, y.s.flips[v]);
    StepKeeps(y, e);
    if e.Publisher? {
      Safety.PublishedIsFrozen(y.base, y.s, y.w.tags, e.v, e.step, v);
    }
  }

  lemma {:induction false} RunFreezes(y: System, events: seq<Event>, v: Version)
    requires Inv(y) && After(y, events).Some? && v in y.s.releases && !y.s.releases[v].draft
    ensures SameRelease(y, After(y, events).value, v)
    decreases events
  {
    if events == [] {
      assert v in y.s.flips && Safety.PublishedBy(y.base, y.s, y.w.tags, v, y.s.flips[v]);
    } else {
      StepFreezes(y, events[0], v);
      StepKeeps(y, events[0]);
      RunFreezes(Apply(y, events[0]), events[1..], v);
    }
  }

  /** Once published, always published: whatever happens next, assets, target, image tag and source
      commit stay, and the release verifies on its checkout, then as now, if and only if its manifest has the
      required name. */
  lemma PublishedForever(y: System, before: seq<Event>, later: seq<Event>, v: Version)
    requires Initial(y) && After(y, before).Some? && After(After(y, before).value, later).Some?
    requires var m := After(y, before).value; v in m.s.releases && !m.s.releases[v].draft
    ensures var m := After(y, before).value; var e := After(m, later).value;
            && SameRelease(m, e, v)
            && (PublishedRelease.Verified(e.s, v, e.w.tags[v], e.s.releases[v]) <==> y.base == Pub.MANIFEST)
  {
    RunKeeps(y, before);
    var m := After(y, before).value;
    RunKeeps(m, later);
    RunFreezes(m, later, v);
    var e := After(m, later).value;
    PublishedRelease.PublishedVerifies(y.base, e.s, e.w.tags, v);
  }

  // ---- crashes do not wedge a release ----

  ghost function EventsOf(v: Version, steps: seq<Pub.Step>): seq<Event>
  {
    if steps == [] then [] else [Publisher(v, steps[0])] + EventsOf(v, steps[1..])
  }

  /** The system with another publication state, if there is one. */
  ghost function With(y: System, s: Option<Pub.State>): Option<System>
  {
    match s
    case None => None
    case Some(t) => Some(y.(s := t))
  }

  lemma {:induction false} Lift(y: System, v: Version, steps: seq<Pub.Step>)
    ensures After(y, EventsOf(v, steps)) == With(y, PublishRun.After(y.base, y.s, y.w.tags, v, steps))
    decreases steps
  {
    if steps != [] && Pub.Can(y.base, y.s, y.w.tags, v, steps[0]) {
      var e := Publisher(v, steps[0]);
      assert EventsOf(v, steps)[0] == e && EventsOf(v, steps)[1..] == EventsOf(v, steps[1..]);
      Lift(Apply(y, e), v, steps[1..]);
    }
  }

  ghost function JobsOf(actions: seq<Repo.Action>): seq<Event>
  {
    if actions == [] then [] else [Repository(actions[0])] + JobsOf(actions[1..])
  }

  /** A run of repository steps, and then whatever follows from the repository it leaves. */
  lemma {:induction false} JobsThen(y: System, actions: seq<Repo.Action>, rest: seq<Event>)
    requires Repo.After(y.w, actions).Some?
    ensures After(y, JobsOf(actions) + rest) == After(y.(w := Repo.After(y.w, actions).value), rest)
    decreases actions
  {
    if actions == [] {
      assert JobsOf(actions) + rest == rest;
    } else {
      var e, events := Repository(actions[0]), JobsOf(actions) + rest;
      assert events[0] == e && events[1..] == JobsOf(actions[1..]) + rest;
      JobsThen(Apply(y, e), actions[1..], rest);
    }
  }

  /** An admitted run that is left alone ends if and only if its key and scans pass, and then with its
      nine files published. */
  lemma Completes(y: System, v: Version, run: Pub.Inputs)
    requires Inv(y) && v !in y.s.live && Pub.RunOk(v, run) && Pub.Admits(y.s, y.w.tags, v, run)
    requires run.manifestName == y.base
    ensures var e := After(y, EventsOf(v, PublishRun.Opening(run)));
            && (e.Some? <==> Pub.SignedOk(run))
            && (e.Some? ==> e.value.w == y.w && Safety.PublishedBy(y.base, e.value.s, y.w.tags, v, run))
  {
    var steps := PublishRun.Opening(run);
    PublishRun.UndisturbedPublish(y.base, y.s, y.w.tags, v, run);
    Lift(y, v, steps);
    if Pub.SignedOk(run) {
      RunKeeps(y, EventsOf(v, steps));
      var s := PublishRun.After(y.base, y.s, y.w.tags, v, steps).value;
      assert v in s.flips && s.flips[v] == run;
    }
  }

  ghost function Crashed(y: System, v: Version): System
  {
    y.(s := y.s.(live := y.s.live - {v}))
  }

  lemma CrashIsAStep(y: System, v: Version)
    requires v in y.s.live
    ensures Can(y, Publisher(v, Pub.Stop)) && Apply(y, Publisher(v, Pub.Stop)) == Crashed(y, v)
  {
  }

  lemma CrashKeeps(y: System, v: Version)
    requires Inv(y) && v in y.s.live
    ensures Inv(Crashed(y, v))
  {
    CrashIsAStep(y, v);
    StepKeeps(y, Publisher(v, Pub.Stop));
  }

  /** A publisher that crashes, wherever it stands, can be run again with the same inputs, and signs
      again with any seed. Left alone the second run publishes its nine files if and only if its key and
      scans pass, which is certain once the first run had tagged the image. */
  lemma CrashRecovers(y: System, v: Version, seed: nat)
    requires Inv(y) && v in y.s.live
    ensures var run := y.s.live[v].run.(seed := seed);
            var e := After(Crashed(y, v), EventsOf(v, PublishRun.Opening(run)));
            && run.image.Some? && (e.Some? <==> Pub.SignedOk(run))
            && (Safety.Past(y.s.live[v]) ==> e.Some?)
            && (e.Some? ==> e.value.w == y.w && Safety.PublishedBy(y.base, e.value.s, y.w.tags, v, run))
  {
    CrashKeeps(y, v);
    assert Safety.LiveOk(y.base, y.s, y.w.tags, v, y.s.live[v]);
    Safety.RetryAdmitted(y.base, y.s, y.w.tags, v, y.s.live[v], seed);
    Completes(Crashed(y, v), v, y.s.live[v].run.(seed := seed));
  }
}
