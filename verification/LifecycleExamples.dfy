/** The committed lifecycle registry, which is safe, and four changes of it that the whole gate accepts
    although they let a rule delete what the note protects. */
module LifecycleExamples {
  import opened Text
  import opened Lifecycle
  import opened LifecycleRuns
  import opened LifecycleGate
  import opened LifecycleMatrix

  const GUIDANCE := "sto-009-noncurrent-version-expiration"
  const B2 := "backblaze-b2"
  const PROFILES: seq<string> := ["minio", B2, "armor"]

  function ProfileOf(p: string): Profile
  {
    if p == "minio" then Profile("reference", "raw-bucket-only", true) else Profile("target", "enabled", true)
  }

  /** The committed matrix; a family named multipart, if there is one, is set like the probe family. */
  function Policy(p: string, f: string): Setting
  {
    if p == "minio" then
      if f == "raw" then Setting("expire-noncurrent", Some(30), "")
      else Setting("not-applicable", None, "no such versions")
    else if f == PINNED then Setting("retain-noncurrent", None, "")
    else if f == PROBE || f == MULTIPART then Setting("expire-objects", Some(1), "")
    else if f == "catalog" || f == "derived" then Setting("expire-noncurrent", Some(7), "")
    else Setting("expire-noncurrent", Some(30), "")
  }

  const CURRENT_SEGMENTS: seq<string> := ["clients", "delegations"]
  const IMMUTABLE_SEGMENTS: seq<string> :=
    ["revocations", "rotations", "receipt-keys", "authority-rotations", "retention"]

  function Controls(segments: seq<string>): (s: seq<string>)
    ensures |s| == |segments| && forall i | 0 <= i < |s| :: s[i] == Control(segments[i])
  {
    seq(|segments|, i requires 0 <= i < |segments| => Control(segments[i]))
  }

  /** The committed families, with the subprefixes of raw and probe and further families left open. */
  function Families(raw: seq<string>, probe: seq<string>, extra: seq<Family>): seq<Family>
  {
    [Family("raw", "convergent", Some(true), "protected", raw),
     Family(PINNED, "epoch-replacement", Some(true), "protected", Controls(CURRENT_SEGMENTS)),
     Family(IMMUTABLE_FAMILY, "convergent", Some(true), "protected", Controls(IMMUTABLE_SEGMENTS)),
     Family("catalog", "convergent", Some(false), "protected", ["catalog"]),
     Family("derived", "convergent", Some(false), "protected", ["derived"]),
     Family(PROBE, "convergent", Some(false), "expirable", probe)] + extra
  }

  function Changed(raw: seq<string>, probe: seq<string>, extra: seq<Family>): Registry
  {
    Built(GUIDANCE, PROFILES, ProfileOf, Families(raw, probe, extra), Policy)
  }

  function Records(segments: seq<string>, writeClass: string): (rs: seq<ControlRecord>)
    ensures |rs| == |segments| && forall i | 0 <= i < |rs| :: rs[i] == ControlRecord(writeClass, Some(segments[i]))
  {
    seq(|segments|, i requires 0 <= i < |segments| => ControlRecord(writeClass, Some(segments[i])))
  }

  /** The committed control records, audit source and script, with the note's table kept in step. */
  function Around(reg: Registry): Documents
  {
    Documents(Records(CURRENT_SEGMENTS, CURRENT) + Records(IMMUTABLE_SEGMENTS, IMMUTABLE), Some(NoteOf(reg.rules)),
              Some(GUIDANCE), Some(30), true)
  }

  const COMMITTED := Changed(["raw"], ["probe"], [])

  /** A family that takes the reserved name. */
  const NAMED := Changed(["raw"], ["probe"], [Family(MULTIPART, "convergent", Some(true), "protected", ["multipart"])])

  /** The raw family lists the whole control tree beside its own. */
  const NESTED := Changed(["raw", "control"], ["probe"], [])

  /** The probe namespace is moved under raw. */
  const PROBING := Changed(["raw"], ["raw/tmp"], [])

  /** Raw lists only its blobs, and the probe namespace lies beside them under the raw prefix. */
  const BESIDE := Changed(["raw/blobs"], ["raw/tmp"], [])

  // ---- what the gate sees ----

  lemma PolicyOk(p: string, f: string)
    ensures SettingOk(Policy(p, f))
  {
  }

  lemma ProfilesDiffer()
    ensures Distinct(PROFILES) && ALL !in PROFILES
  {
    assert |"minio"| == 5 && |B2| == 12 && |"armor"| == 5 && |ALL| == 3;
    assert "minio"[0] == 'm' && "armor"[0] == 'a';
  }

  /** Protection and pin of a built registry: they follow from the policy alone. */
  lemma PolicyProtects(fs: seq<Family>)
    requires EachOk(fs) && forall i | 0 <= i < |fs| :: fs[i].sourceOfTruth == Some(false) ==> fs[i].id != PINNED
    ensures var reg := Built(GUIDANCE, PROFILES, ProfileOf, fs, Policy); ProtectionOk(reg) && PinOk(reg)
  {
    var reg := Built(GUIDANCE, PROFILES, ProfileOf, fs, Policy);
    forall k | 0 <= k < |reg.rules| ensures Protected(fs, reg.rules[k]) && Pinned(reg.profiles, reg.rules[k]) {
      var r := reg.rules[k];
      BuiltRule(GUIDANCE, PROFILES, ProfileOf, fs, Policy, r);
      if r != ABORT {
        CellProtected(fs, r);
        CellPinned(fs, r);
      }
    }
  }

  lemma CellPinned(fs: seq<Family>, r: Rule)
    requires IsCell(PROFILES, fs, Policy, r)
    ensures Pinned(Profiles(PROFILES, ProfileOf), r)
  {
  }

  lemma PolicyActions(p: string, f: string)
    ensures Policy(p, f).action == "expire-objects" ==> f == PROBE || f == MULTIPART
    ensures f != PINNED ==> Policy(p, f).action in {"expire-objects", "expire-noncurrent", "not-applicable"}
  {
    assert "expire-noncurrent"[0] == 'e' && "retain-noncurrent"[0] == 'r' && "not-applicable"[0] == 'n';
    assert |"expire-noncurrent"| == 17 && |"expire-objects"| == 14;
  }

  lemma CellProtected(fs: seq<Family>, r: Rule)
    requires EachOk(fs) && IsCell(PROFILES, fs, Policy, r)
    requires forall i | 0 <= i < |fs| :: fs[i].sourceOfTruth == Some(false) ==> fs[i].id != PINNED
    ensures Protected(fs, r)
  {
    NamedIsLast(fs, r.family);
    var j :| r.profile in PROFILES && 0 <= j < |fs| && r == RuleAt(r.profile, fs[j].id, Policy);
    assert fs[j].id in FamilyIds(fs);
    var f := FamilyNamed(fs, r.family).value;
    var i :| 0 <= i < |fs| && fs[i] == f;
    assert FamilyOk(fs[i]);
    assert r.action == Policy(r.profile, r.family).action;
    PolicyActions(r.profile, r.family);
    NamedProtected(fs, r, f);
  }

  lemma NamedProtected(fs: seq<Family>, r: Rule, f: Family)
    requires FamilyNamed(fs, r.family) == Some(f) && f.id == r.family && FamilyOk(f)
    requires r.action == "expire-objects" ==> r.family == PROBE || r.family == MULTIPART
    requires r.family != PINNED ==> r.action in {"expire-objects", "expire-noncurrent", "not-applicable"}
    requires f.sourceOfTruth == Some(false) ==> r.family != PINNED
    ensures Protected(fs, r)
  {
    assert f.sourceOfTruth == Some(true) || f.sourceOfTruth == Some(false) by {
      assert f.sourceOfTruth.value || !f.sourceOfTruth.value;
    }
  }

  // ---- the families ----

  lemma ControlDiffers(a: string, b: string)
    requires a != b
    ensures Control(a) != Control(b)
  {
    assert Control(a)[8..] == a && Control(b)[8..] == b;
  }

  lemma SegmentsDiffer()
    ensures Distinct(CURRENT_SEGMENTS) && Distinct(IMMUTABLE_SEGMENTS)
    ensures NothingShared(CURRENT_SEGMENTS, IMMUTABLE_SEGMENTS)
  {
    assert |"clients"| == 7 && |"delegations"| == 11 && |"revocations"| == 11 && |"rotations"| == 9;
    assert |"receipt-keys"| == 12 && |"authority-rotations"| == 19 && |"retention"| == 9;
    assert "delegations"[0] == 'd' && "revocations"[0] == 'r' && "rotations"[1] == 'o' && "retention"[1] == 'e';
  }

  lemma ControlsDiffer(a: seq<string>, b: seq<string>)
    ensures Distinct(a) ==> Distinct(Controls(a))
    ensures NothingShared(a, b) ==> NothingShared(Controls(a), Controls(b))
  {
    if Distinct(a) {
      forall i, j | 0 <= i < j < |a| ensures Controls(a)[i] != Controls(a)[j] {
        ControlDiffers(a[i], a[j]);
      }
    }
    if NothingShared(a, b) {
      forall i, j | 0 <= i < |a| && 0 <= j < |b| ensures Controls(a)[i] != Controls(b)[j] {
        assert a[i] != b[j];
        ControlDiffers(a[i], b[j]);
      }
    }
  }

  /** Not empty, and by its eighth character no control subprefix. */
  predicate OffControl(s: seq<string>)
  {
    forall i | 0 <= i < |s| :: s[i] != "" && (|s[i]| < 8 || s[i][7] != '/')
  }

  lemma ControlElsewhere(s: seq<string>, segments: seq<string>)
    requires OffControl(s)
    ensures NothingShared(s, Controls(segments)) && NothingShared(Controls(segments), s)
  {
    forall i, j | 0 <= i < |s| && 0 <= j < |segments| ensures s[i] != Controls(segments)[j] {
      assert Control(segments[j])[7] == '/';
    }
  }

  lemma IdsDiffer(raw: seq<string>, probe: seq<string>, extra: seq<Family>)
    requires extra == [] || (|extra| == 1 && extra[0].id == MULTIPART)
    ensures DistinctIds(Families(raw, probe, extra))
  {
    assert |"raw"| == 3 && |PINNED| == 23 && |IMMUTABLE_FAMILY| == 17 && |"catalog"| == 7 && |"derived"| == 7;
    assert |PROBE| == 5 && |MULTIPART| == 9 && "catalog"[0] == 'c' && "derived"[0] == 'd';
  }

  /** The changes considered: subprefixes outside the control tree that differ from all others. */
  predicate Apart(raw: seq<string>, probe: seq<string>)
  {
    && raw != [] && probe != [] && OffControl(raw) && OffControl(probe)
    && Distinct(raw) && Distinct(probe)
    && NothingShared(raw, probe)
    && NothingShared(raw, ["catalog"]) && NothingShared(raw, ["derived"]) && NothingShared(raw, ["multipart"])
    && NothingShared(["catalog"], probe) && NothingShared(["derived"], probe) && NothingShared(probe, ["multipart"])
  }

  predicate Further(extra: seq<Family>)
  {
    extra == [] || extra == [Family(MULTIPART, "convergent", Some(true), "protected", ["multipart"])]
  }

  lemma FixedApart()
    ensures OffControl(["catalog"]) && OffControl(["derived"]) && OffControl(["multipart"])
    ensures NothingShared(["catalog"], ["derived"]) && NothingShared(["catalog"], ["multipart"])
    ensures NothingShared(["derived"], ["multipart"])
  {
    assert |"catalog"| == 7 && |"derived"| == 7 && |"multipart"| == 9 && "multipart"[7] == 'r';
    assert "catalog"[0] == 'c' && "derived"[0] == 'd';
  }

  /** The subprefixes of the i-th family. */
  function Sub(raw: seq<string>, probe: seq<string>, i: nat): seq<string>
  {
    if i == 0 then raw else if i == 1 then Controls(CURRENT_SEGMENTS) else if i == 2 then Controls(IMMUTABLE_SEGMENTS)
    else if i == 3 then ["catalog"] else if i == 4 then ["derived"] else if i == 5 then probe else ["multipart"]
  }

  lemma SubOf(raw: seq<string>, probe: seq<string>, extra: seq<Family>)
    requires Further(extra)
    ensures var fs := Families(raw, probe, extra);
            6 <= |fs| <= 7 && forall i | 0 <= i < |fs| :: fs[i].subprefixes == Sub(raw, probe, i)
  {
  }

  lemma OtherPair(raw: seq<string>, probe: seq<string>, i: nat, j: nat)
    requires Apart(raw, probe) && i < j < 7 && i != 1 && i != 2 && j != 1 && j != 2
    ensures NothingShared(Sub(raw, probe, i), Sub(raw, probe, j))
  {
    FixedApart();
  }

  lemma SubPair(raw: seq<string>, probe: seq<string>, i: nat, j: nat)
    requires Apart(raw, probe) && i < j < 7
    ensures NothingShared(Sub(raw, probe, i), Sub(raw, probe, j))
  {
    FixedApart();
    if i == 1 && j == 2 {
      SegmentsDiffer();
      ControlsDiffer(CURRENT_SEGMENTS, IMMUTABLE_SEGMENTS);
    } else if i == 1 || i == 2 {
      ControlElsewhere(Sub(raw, probe, j), if i == 1 then CURRENT_SEGMENTS else IMMUTABLE_SEGMENTS);
    } else if j == 1 || j == 2 {
      ControlElsewhere(Sub(raw, probe, i), if j == 1 then CURRENT_SEGMENTS else IMMUTABLE_SEGMENTS);
    } else {
      OtherPair(raw, probe, i, j);
    }
  }

  lemma SubDistinct(raw: seq<string>, probe: seq<string>, i: nat)
    requires Apart(raw, probe) && i < 7
    ensures Distinct(Sub(raw, probe, i)) && Sub(raw, probe, i) != []
    ensures forall k | 0 <= k < |Sub(raw, probe, i)| :: Sub(raw, probe, i)[k] != ""
  {
    SegmentsDiffer();
    FixedApart();
    ControlsDiffer(CURRENT_SEGMENTS, []);
    ControlsDiffer(IMMUTABLE_SEGMENTS, []);
  }

  lemma SoundFamilies(raw: seq<string>, probe: seq<string>, extra: seq<Family>)
    requires Apart(raw, probe) && Further(extra)
    ensures FamiliesOk(Families(raw, probe, extra))
  {
    var fs := Families(raw, probe, extra);
    SubOf(raw, probe, extra);
    IdsDiffer(raw, probe, extra);
    forall i | 0 <= i < |fs| ensures FamilyOk(fs[i]) && Distinct(fs[i].subprefixes) {
      SubDistinct(raw, probe, i);
      IdsKnown(raw, probe, extra, i);
    }
    forall i, j | 0 <= i < j < |fs| ensures NothingShared(fs[i].subprefixes, fs[j].subprefixes) {
      SubPair(raw, probe, i, j);
    }
  }

  lemma IdsKnown(raw: seq<string>, probe: seq<string>, extra: seq<Family>, i: nat)
    requires Further(extra) && i < |Families(raw, probe, extra)|
    ensures var f := Families(raw, probe, extra)[i];
            && f.id != "" && f.overwrite in OVERWRITES && f.sourceOfTruth.Some?
            && (f.sourceOfTruth == Some(false) ==> f.id != PINNED)
            && f.currentVersions == if f.id == PROBE then "expirable" else "protected"
  {
    assert |"raw"| == 3 && |PINNED| == 23 && |IMMUTABLE_FAMILY| == 17 && |"catalog"| == 7 && |"derived"| == 7;
    assert |PROBE| == 5 && |MULTIPART| == 9;
  }

  // ---- the gate accepts every such change ----

  lemma {:induction false} NamedAt(fs: seq<Family>, i: nat)
    requires DistinctIds(fs) && i < |fs|
    ensures FamilyNamed(fs, fs[i].id) == Some(fs[i])
  {
    var n := |fs| - 1;
    if i < n {
      NamedAt(fs[..n], i);
    }
  }

  lemma DerivedIs(current: seq<string>, immutable: seq<string>)
    ensures var rs := Records(current, CURRENT) + Records(immutable, IMMUTABLE);
            && (forall i | 0 <= i < |rs| :: RecordKnown(rs[i]))
            && Derived(rs, CURRENT) == Listed(Controls(current))
            && Derived(rs, IMMUTABLE) == Listed(Controls(immutable))
  {
    var rs := Records(current, CURRENT) + Records(immutable, IMMUTABLE);
    assert |CURRENT| != |IMMUTABLE|;
    forall i | 0 <= i < |current| ensures Controls(current)[i] in Derived(rs, CURRENT) {
      assert rs[i] == ControlRecord(CURRENT, Some(current[i]));
    }
    forall i | 0 <= i < |immutable| ensures Controls(immutable)[i] in Derived(rs, IMMUTABLE) {
      assert rs[|current| + i] == ControlRecord(IMMUTABLE, Some(immutable[i]));
    }
  }

  lemma SplitHolds(raw: seq<string>, probe: seq<string>, extra: seq<Family>)
    requires Further(extra)
    ensures SplitOk(Changed(raw, probe, extra), Around(Changed(raw, probe, extra)).records)
  {
    IdsDiffer(raw, probe, extra);
    var fs := Families(raw, probe, extra);
    NamedAt(fs, 1);
    NamedAt(fs, 2);
    DerivedIs(CURRENT_SEGMENTS, IMMUTABLE_SEGMENTS);
  }

  lemma ScriptHolds(raw: seq<string>, probe: seq<string>, extra: seq<Family>)
    requires Further(extra) && DistinctCells(Changed(raw, probe, extra).rules)
    ensures ScriptOk(Changed(raw, probe, extra), Some(30), true)
  {
    var fs, r := Families(raw, probe, extra), RuleAt("minio", "raw", Policy);
    assert fs[0].id == "raw" && PROFILES[0] == "minio";
    assert r == RuleAt(r.profile, fs[0].id, Policy);
    assert IsCell(PROFILES, fs, Policy, r);
    BuiltRule(GUIDANCE, PROFILES, ProfileOf, fs, Policy, r);
    RuleForRule(Changed(raw, probe, extra).rules, r);
    assert CellOf(r) == ("minio", "raw");
  }

  lemma ChangePasses(raw: seq<string>, probe: seq<string>, extra: seq<Family>)
    requires Apart(raw, probe) && Further(extra)
    ensures GateOk(Changed(raw, probe, extra), Around(Changed(raw, probe, extra)))
  {
    var reg, fs := Changed(raw, probe, extra), Families(raw, probe, extra);
    SoundFamilies(raw, probe, extra);
    ProfilesDiffer();
    forall i, j | 0 <= i < |PROFILES| && 0 <= j < |fs| ensures SettingOk(Policy(PROFILES[i], fs[j].id)) {
      PolicyOk(PROFILES[i], fs[j].id);
    }
    BuiltShape(GUIDANCE, PROFILES, ProfileOf, fs, Policy);
    forall i | 0 <= i < |fs| ensures fs[i].sourceOfTruth == Some(false) ==> fs[i].id != PINNED {
      IdsKnown(raw, probe, extra, i);
    }
    PolicyProtects(fs);
    SplitHolds(raw, probe, extra);
    NoteOfOk(reg);
    ScriptHolds(raw, probe, extra);
  }

  // ---- paths ----

  lemma ControlPath(segment: string)
    requires '/' !in segment
    ensures PathOf(Control(segment)) == ["control", segment] && PathOf("control") == ["control"]
  {
    SplitFirst("control", segment, '/');
    SplitFirst(segment, "", '/');
    assert "control" + ['/'] + segment == Control(segment);
  }

  lemma ListedAt(raw: seq<string>, probe: seq<string>, extra: seq<Family>, i: nat, k: nat)
    requires Further(extra) && i < |Families(raw, probe, extra)| && k < |Families(raw, probe, extra)[i].subprefixes|
    ensures var f := Families(raw, probe, extra)[i]; ListedFor(Changed(raw, probe, extra), f.id, f.subprefixes[k])
  {
    var f := Families(raw, probe, extra)[i];
    assert f.subprefixes[k] in f.subprefixes;
  }

  lemma RuleThere(raw: seq<string>, probe: seq<string>, extra: seq<Family>, i: nat)
    requires i < |Families(raw, probe, extra)|
    ensures RuleAt(B2, Families(raw, probe, extra)[i].id, Policy) in Changed(raw, probe, extra).rules
  {
    var fs := Families(raw, probe, extra);
    var r := RuleAt(B2, fs[i].id, Policy);
    assert PROFILES[1] == B2;
    assert IsCell(PROFILES, fs, Policy, r);
    BuiltRule(GUIDANCE, PROFILES, ProfileOf, fs, Policy, r);
  }

  // ---- the four changes ----

  /** A family that takes the reserved name loses current versions. */
  lemma ReservedNameEscapes()
    ensures GateOk(NAMED, Around(NAMED)) && !CurrentSafe(NAMED)
  {
    var extra := [Family(MULTIPART, "convergent", Some(true), "protected", ["multipart"])];
    CommittedApart();
    ChangePasses(["raw"], ["probe"], extra);
    RuleThere(["raw"], ["probe"], extra, 6);
    CurrentSafeExact(NAMED);
  }

  lemma CommittedApart()
    ensures Apart(["raw"], ["probe"])
  {
    assert |"raw"| == 3 && |"probe"| == 5 && |"catalog"| == 7 && |"derived"| == 7 && |"multipart"| == 9;
  }

  lemma NestedLoses(reg: Registry)
    requires Accepted(reg) && Enabled(reg.profiles, B2) && RuleAt(B2, "raw", Policy) in reg.rules
    requires ListedFor(reg, "raw", "control") && ListedFor(reg, PINNED, Control("clients"))
    ensures !PointerSafe(reg, B2)
  {
    RawRule();
    ClientsNest();
    Overlaps(reg, B2, RuleAt(B2, "raw", Policy), "control", Control("clients"));
    PointerSafeExact(reg, B2);
  }

  lemma RawRule()
    ensures var r := RuleAt(B2, "raw", Policy); r.profile == B2 && r.family == "raw" != PINNED && Expires(r)
  {
    assert |B2| == 12 && |"minio"| == 5 && |"raw"| == 3 && |PINNED| == 23;
  }

  lemma ClientsListed(raw: seq<string>, probe: seq<string>)
    ensures ListedFor(Changed(raw, probe, []), PINNED, Control("clients"))
  {
    ListedAt(raw, probe, [], 1, 0);
    assert Controls(CURRENT_SEGMENTS)[0] == Control("clients");
  }

  lemma ClientsNest()
    ensures PathOf("control") <= PathOf(Control("clients"))
  {
    ControlPath("clients");
  }

  lemma B2Enabled(raw: seq<string>, probe: seq<string>, extra: seq<Family>)
    ensures Enabled(Changed(raw, probe, extra).profiles, B2)
  {
    assert PROFILES[1] == B2 && |B2| == 12 && |"minio"| == 5;
  }

  /** A family that also lists the control tree loses versions of current pointers. */
  lemma NestingEscapes()
    ensures GateOk(NESTED, Around(NESTED)) && !PointerSafe(NESTED, B2)
  {
    var raw, probe := ["raw", "control"], ["probe"];
    NestedApart();
    ChangePasses(raw, probe, []);
    ListedAt(raw, probe, [], 0, 1);
    ClientsListed(raw, probe);
    RuleThere(raw, probe, [], 0);
    B2Enabled(raw, probe, []);
    NestedLoses(Changed(raw, probe, []));
  }

  lemma NestedApart()
    ensures Apart(["raw", "control"], ["probe"])
  {
    assert |"raw"| == 3 && |"probe"| == 5 && |"catalog"| == 7;
    assert |"derived"| == 7 && |"multipart"| == 9 && |"control"| == 7;
    assert "control"[1] == 'o' && "catalog"[1] == 'a' && "derived"[1] == 'e';
  }

  lemma Overlaps(reg: Registry, p: string, r: Rule, s: string, t: string)
    requires r in reg.rules && r.profile == p && Expires(r) && r.family != PINNED
    requires ListedFor(reg, r.family, s) && ListedFor(reg, PINNED, t) && PathOf(s) <= PathOf(t)
    ensures !NoOverlap(reg, p)
  {
    assert !Clear(reg, r.family, t);
  }

  lemma ProbeLoses(reg: Registry)
    requires Accepted(reg) && RuleAt(B2, PROBE, Policy) in reg.rules
    requires ListedFor(reg, "raw", "raw") && ListedFor(reg, PROBE, "raw/tmp")
    ensures !CurrentSafe(reg) && InFamily(reg, "raw", PathOf("raw/tmp")) && InFamily(reg, PROBE, PathOf("raw/tmp"))
  {
    TmpNests();
    ProbeNests(reg, "raw/tmp", "raw");
    CurrentSafeExact(reg);
  }

  lemma TmpNests()
    ensures PathOf("raw") <= PathOf("raw/tmp")
  {
    SplitFirst("raw", "tmp", '/');
    assert "raw" + ['/'] + "tmp" == "raw/tmp";
  }

  lemma ProbeNests(reg: Registry, s: string, t: string)
    requires ListedFor(reg, PROBE, s) && ListedFor(reg, "raw", t) && PathOf(t) <= PathOf(s)
    ensures !ProbeApart(reg)
  {
    assert Comparable(PathOf(s), PathOf(t)) && "raw" != PROBE;
  }

  /** A probe namespace under raw loses current versions of raw. */
  lemma ProbingEscapes()
    ensures GateOk(PROBING, Around(PROBING)) && !CurrentSafe(PROBING)
    ensures InFamily(PROBING, "raw", PathOf("raw/tmp")) && InFamily(PROBING, PROBE, PathOf("raw/tmp"))
  {
    var raw, probe := ["raw"], ["raw/tmp"];
    ProbingApart();
    ChangePasses(raw, probe, []);
    ListedAt(raw, probe, [], 0, 0);
    ListedAt(raw, probe, [], 5, 0);
    RuleThere(raw, probe, [], 5);
    ProbeLoses(Changed(raw, probe, []));
  }

  /** A probe namespace under the raw prefix, beside all that raw lists, loses current versions there. */
  lemma UnlistedEscapes()
    ensures GateOk(BESIDE, Around(BESIDE)) && !CurrentSafe(BESIDE) && !ProbeOnly(BESIDE)
    ensures UnderTenant(PathOf("raw/tmp")) && InFamily(BESIDE, PROBE, PathOf("raw/tmp"))
  {
    var raw, probe := ["raw/blobs"], ["raw/tmp"];
    BesideApart();
    ChangePasses(raw, probe, []);
    ListedAt(raw, probe, [], 5, 0);
    RuleThere(raw, probe, [], 5);
    TmpNests();
    BesideLoses(Changed(raw, probe, []));
  }

  lemma BesideLoses(reg: Registry)
    requires Accepted(reg) && RuleAt(B2, PROBE, Policy) in reg.rules
    requires ListedFor(reg, PROBE, "raw/tmp") && PathOf("raw") <= PathOf("raw/tmp")
    ensures !CurrentSafe(reg) && !ProbeOnly(reg) && UnderTenant(PathOf("raw/tmp"))
  {
    CommittedPath(0, "raw");
    assert PathOf("raw/tmp")[0] == "raw";
    assert !ProbeApart(reg);
    CurrentSafeExact(reg);
    assert "raw"[0] == 'r' && !UnderProbe(PathOf("raw/tmp"));
    ProbeOnlyExact(reg);
  }

  lemma BesideApart()
    ensures Apart(["raw/blobs"], ["raw/tmp"])
  {
    assert |"raw/blobs"| == 9 && |"raw/tmp"| == 7 && |"catalog"| == 7 && |"derived"| == 7 && |"multipart"| == 9;
    assert "raw/tmp"[0] == 'r' && "raw/blobs"[0] == 'r' && "raw/blobs"[7] == 'b' && "multipart"[0] == 'm';
    assert "catalog"[0] == 'c' && "derived"[0] == 'd';
  }

  lemma ProbingApart()
    ensures Apart(["raw"], ["raw/tmp"])
  {
    assert |"raw"| == 3 && |"raw/tmp"| == 7 && |"catalog"| == 7 && |"derived"| == 7 && |"multipart"| == 9;
    assert "raw/tmp"[0] == 'r' && "catalog"[0] == 'c' && "derived"[0] == 'd';
  }

  // ---- the committed registry ----

  function Segments(i: nat): seq<string>
  {
    if i == 1 then CURRENT_SEGMENTS else IMMUTABLE_SEGMENTS
  }

  predicate NoSlash(s: string)
  {
    '/' !in s
  }

  lemma PlainSegments(i: nat, k: nat)
    requires 1 <= i <= 2 && k < |Segments(i)|
    ensures NoSlash(Segments(i)[k])
  {
  }

  lemma PlainNames()
    ensures NoSlash("raw") && NoSlash("catalog") && NoSlash("derived") && NoSlash("probe")
    ensures "raw" != "control" && "catalog" != "control" && "derived" != "control" && "probe" != "control"
  {
    assert |"raw"| == 3 && |"probe"| == 5 && |"control"| == 7;
    assert "control"[1] == 'o' && "catalog"[1] == 'a' && "derived"[1] == 'e';
  }

  /** Where the i-th committed family's keys live. */
  lemma CommittedPath(i: nat, s: string)
    requires i < 6 && s in Sub(["raw"], ["probe"], i)
    ensures i != 1 && i != 2 ==> PathOf(s) == [s] && s != "control"
    ensures i == 1 || i == 2 ==> exists k :: 0 <= k < |Segments(i)| && PathOf(s) == ["control", Segments(i)[k]]
  {
    PlainNames();
    if i == 1 || i == 2 {
      var k :| 0 <= k < |Segments(i)| && Controls(Segments(i))[k] == s;
      PlainSegments(i, k);
      ControlPath(Segments(i)[k]);
    } else {
      SplitFirst(s, "", '/');
    }
  }

  lemma CommittedApartPaths(i: nat, j: nat, s: string, t: string)
    requires i < j < 6 && s in Sub(["raw"], ["probe"], i) && t in Sub(["raw"], ["probe"], j)
    ensures !Comparable(PathOf(s), PathOf(t))
  {
    CommittedPath(i, s);
    CommittedPath(j, t);
    CommittedApart();
    SubPair(["raw"], ["probe"], i, j);
    NotShared(Sub(["raw"], ["probe"], i), Sub(["raw"], ["probe"], j), s, t);
    SegmentsDiffer();
    DifferAt(PathOf(s), PathOf(t), if i == 1 && j == 2 then 1 else 0);
  }

  lemma NotShared(a: seq<string>, b: seq<string>, s: string, t: string)
    requires NothingShared(a, b) && s in a && t in b
    ensures s != t
  {
  }

  lemma DifferAt(a: Path, b: Path, k: nat)
    requires k < |a| && k < |b| && a[k] != b[k]
    ensures !Comparable(a, b)
  {
  }

  lemma CommittedFamily(f: string, s: string) returns (i: nat)
    requires ListedFor(COMMITTED, f, s)
    ensures i < 6 && Families(["raw"], ["probe"], [])[i].id == f && s in Sub(["raw"], ["probe"], i)
  {
    SubOf(["raw"], ["probe"], []);
    i :| 0 <= i < |COMMITTED.families| && COMMITTED.families[i].id == f && s in COMMITTED.families[i].subprefixes;
  }

  lemma CommittedNesting(f: string, g: string, s: string, t: string)
    requires f != g && ListedFor(COMMITTED, f, s) && ListedFor(COMMITTED, g, t)
    ensures !Comparable(PathOf(s), PathOf(t))
  {
    var i := CommittedFamily(f, s);
    var j := CommittedFamily(g, t);
    if i < j {
      CommittedApartPaths(i, j, s, t);
    } else {
      CommittedApartPaths(j, i, t, s);
    }
  }

  lemma CommittedProbe(s: string)
    requires ListedFor(COMMITTED, PROBE, s)
    ensures UnderProbe(PathOf(s))
  {
    var i := CommittedFamily(PROBE, s);
    assert |"raw"| == 3 && |PINNED| == 23 && |IMMUTABLE_FAMILY| == 17 && |"catalog"| == 7 && |"derived"| == 7;
    assert |PROBE| == 5;
    CommittedPath(i, s);
  }

  lemma CommittedRows(r: Rule)
    requires r in COMMITTED.rules && r.family == MULTIPART
    ensures r == ABORT
  {
    BuiltRule(GUIDANCE, PROFILES, ProfileOf, COMMITTED.families, Policy, r);
    NoMultipart();
    CellFamily(COMMITTED.families, r);
  }

  lemma CellFamily(fs: seq<Family>, r: Rule)
    ensures IsCell(PROFILES, fs, Policy, r) ==> r.family in FamilyIds(fs)
  {
    if j :| 0 <= j < |fs| && r == RuleAt(r.profile, fs[j].id, Policy) {
      assert fs[j].id in FamilyIds(fs);
    }
  }

  lemma NoMultipart()
    ensures MULTIPART !in FamilyIds(COMMITTED.families)
  {
    assert |"raw"| == 3 && |PINNED| == 23 && |IMMUTABLE_FAMILY| == 17 && |"catalog"| == 7 && |"derived"| == 7;
    assert |PROBE| == 5 && |MULTIPART| == 9;
  }

  /** The committed registry passes the gate and is safe in both senses on every versioned profile. */
  lemma CommittedIsSafe(p: string)
    requires Enabled(COMMITTED.profiles, p)
    ensures GateOk(COMMITTED, Around(COMMITTED))
    ensures CurrentSafe(COMMITTED) && ProbeOnly(COMMITTED) && PointerSafe(COMMITTED, p)
  {
    CommittedApart();
    ChangePasses(["raw"], ["probe"], []);
    NoMultipart();
    forall r | r in COMMITTED.rules && r.family == MULTIPART ensures r.action == "abort-incomplete-multipart" {
      CommittedRows(r);
    }
    forall f, g, s, t | f != g && ListedFor(COMMITTED, f, s) && ListedFor(COMMITTED, g, t)
      ensures !Comparable(PathOf(s), PathOf(t))
    {
      CommittedNesting(f, g, s, t);
    }
    forall s | ListedFor(COMMITTED, PROBE, s) ensures UnderProbe(PathOf(s)) {
      CommittedProbe(s);
    }
    DocumentedIsSafe(COMMITTED, p);
  }
}
