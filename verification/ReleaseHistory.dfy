/** Commits as linear histories of trees, the log of version-record changes, and the two gates
    over it: `validate_history` and `validate_tags`. */
module ReleaseHistory {
  import opened Text
  import opened Semver
  import StorageGate

  /** The committed VERSION file: missing, not a strict SemVer, or a version. */
  datatype VersionFile = Absent | Malformed | Is(v: Version)

  /** What a commit's tree holds for the release tooling. `cargo` is the workspace version, `lock` the
      lock file; `cargoRest`, `versionLayout` and `rest` stand for all other content. */
  datatype Tree = Tree(
    cargo: Option<string>, cargoRest: nat, lock: nat,
    versionFile: VersionFile, versionLayout: nat,
    registry: StorageGate.Registry, documentsOk: bool,
    sbom: nat, publicKey: Option<nat>, acceptedManifests: set<nat>, rest: nat)

  /** A commit is its own history, oldest tree first: the hash of a commit pins its ancestry. */
  type Commit = c: seq<Tree> | c != [] witness [EMPTY]

  const EMPTY := Tree(None, 0, 0, Absent, 0, StorageGate.Registry(false, map[], []), false, 0, None, {}, 0)

  function Head(c: Commit): Tree
  {
    c[|c| - 1]
  }

  function Recorded(t: Tree): Option<Version>
  {
    match t.versionFile
    case Is(v) => Some(v)
    case _ => None
  }

  /** Both records present and equal. */
  predicate Agrees(t: Tree)
  {
    t.versionFile.Is? && t.cargo == Some(Render(t.versionFile.v))
  }

  // ---- the log over the two version files ----

  /** One log entry: the workspace version and the VERSION record at a commit. */
  datatype Entry = Entry(cargo: Option<string>, version: Option<Version>)

  function EntryOf(t: Tree): Entry
  {
    Entry(t.cargo, Recorded(t))
  }

  /** The commit changes Cargo.toml or VERSION against its parent. */
  predicate Touches(parent: Tree, t: Tree)
  {
    t.cargo != parent.cargo || t.cargoRest != parent.cargoRest
    || t.versionFile != parent.versionFile || t.versionLayout != parent.versionLayout
  }

  function Parent(h: seq<Tree>, i: nat): Tree
    requires i < |h|
  {
    if i == 0 then EMPTY else h[i - 1]
  }

  /** `git log -- Cargo.toml VERSION`, oldest first. */
  function Log(h: seq<Tree>): seq<Entry>
  {
    if h == [] then []
    else
      var n := |h| - 1;
      Log(h[..n]) + if Touches(Parent(h, n), h[n]) then [EntryOf(h[n])] else []
  }

  // ---- validate_history ----

  datatype HistoryViolation =
    | NeverCommitted
    | IntroductionMismatch(at: nat)
    | Disappears(at: nat)
    | WorkspaceMoved(at: nat)
    | VersionMoved(at: nat)
    | Diverged(at: nat)

  predicate EntryAgrees(e: Entry)
  {
    e.version.Some? && e.cargo == Some(Render(e.version.value))
  }

  /** The VERSION record exists, and from its introduction on both records are there and equal. */
  ghost predicate LogOk(entries: seq<Entry>)
  {
    exists k :: Introduced(entries, k) && forall i | k <= i < |entries| :: EntryAgrees(entries[i])
  }

  ghost predicate Introduced(entries: seq<Entry>, k: int)
  {
    0 <= k < |entries| && entries[k].version.Some? && forall i | 0 <= i < k :: entries[i].version.None?
  }

  lemma IntroductionUnique(entries: seq<Entry>, j: int, k: int)
    requires Introduced(entries, j) && Introduced(entries, k)
    ensures j == k
  {
  }

  /** `validate_history`: silent exactly on the logs the version contract describes. */
  method ValidateHistory(entries: seq<Entry>) returns (violations: seq<HistoryViolation>)
    ensures violations == [] <==> LogOk(entries)
  {
    var introduced := 0;
    while introduced < |entries| && entries[introduced].version.None?
      invariant 0 <= introduced <= |entries|
      invariant forall i | 0 <= i < introduced :: entries[i].version.None?
    {
      introduced := introduced + 1;
    }
    if introduced == |entries| {
      return [NeverCommitted];
    }
    assert Introduced(entries, introduced);
    forall k | Introduced(entries, k) ensures k == introduced {
      IntroductionUnique(entries, k, introduced);
    }
    violations := [];
    if entries[introduced].cargo != Some(Render(entries[introduced].version.value)) {
      violations := violations + [IntroductionMismatch(introduced)];
    }
    for i := introduced + 1 to |entries|
      invariant violations == [] <==> forall k | introduced <= k < i :: EntryAgrees(entries[k])
    {
      var e, prev := entries[i], entries[i - 1];
      if e.version.None? {
        violations := violations + [Disappears(i)];
        continue;
      }
      if e.cargo != Some(Render(e.version.value)) {
        var detail :=
          if e.cargo != prev.cargo && e.version == prev.version then WorkspaceMoved(i)
          else if e.version != prev.version && e.cargo == prev.cargo then VersionMoved(i)
          else Diverged(i);
        violations := violations + [detail];
      }
    }
  }

  /** What the gate is for, said of the whole history and not only of the log. */
  ghost predicate Coherent(h: seq<Tree>)
  {
    exists k :: First(h, k) && forall i | k <= i < |h| :: Agrees(h[i])
  }

  ghost predicate First(h: seq<Tree>, k: int)
  {
    0 <= k < |h| && Recorded(h[k]).Some? && forall i | 0 <= i < k :: Recorded(h[i]).None?
  }

  /** No VERSION yet. */
  ghost predicate Unstarted(entries: seq<Entry>)
  {
    forall i | 0 <= i < |entries| :: entries[i].version.None?
  }

  ghost predicate UnstartedTrees(h: seq<Tree>)
  {
    forall i | 0 <= i < |h| :: Recorded(h[i]).None?
  }

  lemma LogStep(entries: seq<Entry>, e: Entry)
    ensures LogOk(entries + [e]) <==> EntryAgrees(e) && (LogOk(entries) || Unstarted(entries))
    ensures Unstarted(entries + [e]) <==> Unstarted(entries) && e.version.None?
  {
    var more, n := entries + [e], |entries|;
    assert more[n] == e && forall i | 0 <= i < n :: more[i] == entries[i];
    if LogOk(more) {
      var k :| Introduced(more, k) && forall i | k <= i < |more| :: EntryAgrees(more[i]);
      assert EntryAgrees(more[n]);
      if k < n {
        assert Introduced(entries, k) && forall i | k <= i < n :: EntryAgrees(entries[i]);
      }
    }
    if EntryAgrees(e) && LogOk(entries) {
      var k :| Introduced(entries, k) && forall i | k <= i < n :: EntryAgrees(entries[i]);
      assert Introduced(more, k);
    }
    if EntryAgrees(e) && Unstarted(entries) {
      assert Introduced(more, n);
    }
  }

  lemma CoherentStep(h: seq<Tree>, t: Tree)
    ensures Coherent(h + [t]) <==> Agrees(t) && (Coherent(h) || UnstartedTrees(h))
    ensures UnstartedTrees(h + [t]) <==> UnstartedTrees(h) && Recorded(t).None?
  {
    var more, n := h + [t], |h|;
    assert more[n] == t && forall i | 0 <= i < n :: more[i] == h[i];
    if Coherent(more) {
      var k :| First(more, k) && forall i | k <= i < |more| :: Agrees(more[i]);
      assert Agrees(more[n]);
      if k < n {
        assert First(h, k) && forall i | k <= i < n :: Agrees(h[i]);
      }
    }
    if Agrees(t) && Coherent(h) {
      var k :| First(h, k) && forall i | k <= i < n :: Agrees(h[i]);
      assert First(more, k);
    }
    if Agrees(t) && UnstartedTrees(h) {
      assert First(more, n);
    }
  }

  /** The gate is exact: reading only the commits that touch the two files, it accepts a history
      exactly when every commit from the introduction on carries equal records. */
  lemma {:induction false} HistoryGateExact(h: seq<Tree>)
    ensures LogOk(Log(h)) <==> Coherent(h)
    ensures Unstarted(Log(h)) <==> UnstartedTrees(h)
  {
    if h != [] {
      var n := |h| - 1;
      var before, t := h[..n], h[n];
      HistoryGateExact(before);
      assert h == before + [t];
      CoherentStep(before, t);
      if Touches(Parent(h, n), t) {
        LogStep(Log(before), EntryOf(t));
      } else {
        SameRecords(before, t);
        assert Log(h) == Log(before);
      }
    }
  }

  /** A commit that leaves both records alone changes neither verdict. */
  lemma SameRecords(h: seq<Tree>, t: Tree)
    requires EntryOf(t) == EntryOf(if h == [] then EMPTY else h[|h| - 1])
    ensures Coherent(h + [t]) <==> Coherent(h)
    ensures UnstartedTrees(h + [t]) <==> UnstartedTrees(h)
  {
    CoherentStep(h, t);
    if Coherent(h) {
      var k :| First(h, k) && forall i | k <= i < |h| :: Agrees(h[i]);
      assert Agrees(h[|h| - 1]);
    }
  }

  // ---- validate_tags ----

  datatype TagViolation = NoRecord(tag: string) | Mismatch(tag: string)

  /** The version a release tag's name states, if it is a release tag. */
  function TagVersion(tag: string): Option<Version>
  {
    if tag == "" || tag[0] != 'v' then None else Parse(tag[1..])
  }

  predicate TagOk(tag: string, recorded: Option<Version>)
  {
    TagVersion(tag).Some? ==> recorded == TagVersion(tag)
  }

  /** `validate_tags`: silent exactly when every release tag names the version recorded at its commit. */
  method ValidateTags(tags: seq<(string, Option<Version>)>) returns (violations: seq<TagViolation>)
    ensures violations == [] <==> forall i | 0 <= i < |tags| :: TagOk(tags[i].0, tags[i].1)
  {
    violations := [];
    for i := 0 to |tags|
      invariant violations == [] <==> forall k | 0 <= k < i :: TagOk(tags[k].0, tags[k].1)
    {
      var (tag, recorded) := tags[i];
      var named := TagVersion(tag);
      if named.None? {
        continue;
      }
      if recorded.None? {
        violations := violations + [NoRecord(tag)];
      } else if recorded != named {
        violations := violations + [Mismatch(tag)];
      }
    }
  }

  function TagName(v: Version): string
  {
    "v" + Render(v)
  }

  lemma TagNameVersion(v: Version)
    ensures TagVersion(TagName(v)) == Some(v)
  {
    ParseRender(v);
    assert TagName(v)[1..] == Render(v);
  }
}
