/** The S3 lifecycle registry: the three checks on its own content. */
module Lifecycle {
  import opened Text

  const SCHEMA := "archivist.s3-lifecycle/v1"
  const ACTION_DAYS: set<string> := {"expire-noncurrent", "expire-objects", "abort-incomplete-multipart"}
  const ACTIONS: set<string> := ACTION_DAYS + {"retain-noncurrent", "not-applicable"}
  const OVERWRITES: set<string> := {"convergent", "epoch-replacement"}
  const CLASSES: set<string> := {"reference", "target"}
  const SHAPES: set<string> := {"enabled", "raw-bucket-only"}
  const ALL := "all"
  const MULTIPART := "multipart"
  const PROBE := "probe"
  const PINNED := "control-current-pointer"

  datatype Family = Family(id: string, overwrite: string, sourceOfTruth: Option<bool>, currentVersions: string,
                           subprefixes: seq<string>)
  datatype Profile = Profile(cls: string, versioning: string, noteExists: bool)
  datatype Rule = Rule(profile: string, family: string, action: string, days: Option<int>, reason: string)
  datatype Registry = Registry(schema: string, guidanceId: string, families: seq<Family>,
                               profiles: map<string, Profile>, rules: seq<Rule>)

  // ---- what the shape check demands ----

  predicate FamilyOk(f: Family)
  {
    && f.id != ""
    && f.overwrite in OVERWRITES
    && f.sourceOfTruth.Some?
    && f.currentVersions == (if f.id == PROBE then "expirable" else "protected")
    && f.subprefixes != []
    && forall k | 0 <= k < |f.subprefixes| :: f.subprefixes[k] != ""
  }

  predicate ProfileOk(p: Profile)
  {
    p.cls in CLASSES && p.versioning in SHAPES && p.noteExists
  }

  function FamilyIds(families: seq<Family>): set<string>
  {
    set i | 0 <= i < |families| :: families[i].id
  }

  predicate RuleOk(r: Rule, profiles: set<string>, families: set<string>)
  {
    && r.action in ACTIONS
    && (r.action in ACTION_DAYS ==> r.days.Some? && 1 <= r.days.value <= 365)
    && (r.action !in ACTION_DAYS ==> r.days.None?)
    && (r.action == "not-applicable" <==> r.reason != "")
    && (r.profile != ALL ==> r.profile in profiles)
    && (r.profile == ALL ==> r.family == MULTIPART)
    && (r.family != MULTIPART ==> r.family in families)
  }

  type Cell = (string, string)

  function CellOf(r: Rule): Cell
  {
    (r.profile, r.family)
  }

  function Cells(rules: seq<Rule>): set<Cell>
  {
    set i | 0 <= i < |rules| :: CellOf(rules[i])
  }

  predicate DistinctIds(families: seq<Family>)
  {
    forall i, j | 0 <= i < j < |families| :: families[i].id != families[j].id
  }

  /** No subprefix is listed twice, in one family or in two. */
  predicate DistinctSubprefixes(families: seq<Family>)
  {
    && (forall i | 0 <= i < |families| :: Distinct(families[i].subprefixes))
    && (forall i, j | 0 <= i < j < |families| :: NothingShared(families[i].subprefixes, families[j].subprefixes))
  }

  predicate Distinct(s: seq<string>)
  {
    forall i, j | 0 <= i < j < |s| :: s[i] != s[j]
  }

  predicate NothingShared(s: seq<string>, t: seq<string>)
  {
    forall i | 0 <= i < |s| :: s[i] !in t
  }

  predicate DistinctCells(rules: seq<Rule>)
  {
    forall i, j | 0 <= i < j < |rules| :: CellOf(rules[i]) != CellOf(rules[j])
  }

  predicate EachOk(families: seq<Family>)
  {
    forall i | 0 <= i < |families| :: FamilyOk(families[i])
  }

  predicate FamiliesOk(families: seq<Family>)
  {
    && EachOk(families)
    && DistinctIds(families)
    && DistinctSubprefixes(families)
  }

  predicate RulesOk(reg: Registry)
  {
    var ids := FamilyIds(reg.families);
    && |reg.rules| == |reg.profiles| * |reg.families| + 1
    && DistinctCells(reg.rules)
    && (forall i | 0 <= i < |reg.rules| :: RuleOk(reg.rules[i], reg.profiles.Keys, ids))
    && (forall p, f | p in reg.profiles && f in ids :: (p, f) in Cells(reg.rules))
  }

  predicate ShapeOk(reg: Registry)
  {
    && reg.schema == SCHEMA && reg.guidanceId != ""
    && reg.families != [] && reg.profiles != map[]
    && FamiliesOk(reg.families)
    && (forall p | p in reg.profiles :: ProfileOk(reg.profiles[p]))
    && RulesOk(reg)
  }

  // ---- the checks ----

  function Listed(s: seq<string>): set<string>
  {
    set i | 0 <= i < |s| :: s[i]
  }

  function AllListed(families: seq<Family>): set<string>
  {
    if families == [] then {}
    else AllListed(families[..|families| - 1]) + Listed(families[|families| - 1].subprefixes)
  }

  lemma {:induction false} AllListedHas(families: seq<Family>, x: string)
    ensures x in AllListed(families) <==> exists i :: 0 <= i < |families| && x in families[i].subprefixes
  {
    if families != [] {
      var n := |families| - 1;
      AllListedHas(families[..n], x);
      assert families == families[..n] + [families[n]];
      assert x in Listed(families[n].subprefixes) <==> x in families[n].subprefixes;
    }
  }

  method CheckSubprefixes(subprefixes: seq<string>, before: set<string>) returns (ok: bool, seen: set<string>)
    ensures seen == before + Listed(subprefixes)
    ensures ok <==> Distinct(subprefixes) && forall j | 0 <= j < |subprefixes| :: subprefixes[j] !in before
  {
    ok, seen := true, before;
    for k := 0 to |subprefixes|
      invariant seen == before + Listed(subprefixes[..k])
      invariant ok <==> Distinct(subprefixes[..k]) && forall j | 0 <= j < k :: subprefixes[j] !in before
    {
      var s := subprefixes[k];
      assert subprefixes[..k + 1] == subprefixes[..k] + [s];
      assert s in Listed(subprefixes[..k]) <==> s in subprefixes[..k];
      assert Distinct(subprefixes[..k + 1]) <==> Distinct(subprefixes[..k]) && s !in subprefixes[..k];
      if s in seen {
        ok := false;
      }
      seen := seen + {s};
      assert Listed(subprefixes[..k + 1]) == Listed(subprefixes[..k]) + {s};
    }
    assert subprefixes[..|subprefixes|] == subprefixes;
  }

  lemma ListedNext(families: seq<Family>, i: nat)
    requires i < |families|
    ensures FamilyIds(families[..i + 1]) == FamilyIds(families[..i]) + {families[i].id}
    ensures AllListed(families[..i + 1]) == AllListed(families[..i]) + Listed(families[i].subprefixes)
  {
    assert families[..i + 1][..i] == families[..i];
    assert families[..i + 1] == families[..i] + [families[i]];
  }

  lemma IdsNext(families: seq<Family>, i: nat)
    requires i < |families|
    ensures DistinctIds(families[..i + 1]) <==>
            DistinctIds(families[..i]) && families[i].id !in FamilyIds(families[..i])
  {
    assert families[..i + 1] == families[..i] + [families[i]];
  }

  /** The new family shares no subprefix with an earlier one. */
  predicate Apart(families: seq<Family>, i: nat)
    requires i < |families|
  {
    forall k | 0 <= k < i :: NothingShared(families[k].subprefixes, families[i].subprefixes)
  }

  lemma ApartListed(families: seq<Family>, i: nat)
    requires i < |families|
    ensures Apart(families, i) <==>
            forall j | 0 <= j < |families[i].subprefixes| :: families[i].subprefixes[j] !in AllListed(families[..i])
  {
    var s := families[i].subprefixes;
    forall j | 0 <= j < |s|
      ensures s[j] in AllListed(families[..i]) <==> exists k :: 0 <= k < i && s[j] in families[k].subprefixes
    {
      AllListedHas(families[..i], s[j]);
      assert forall k | 0 <= k < i :: families[..i][k] == families[k];
    }
  }

  lemma SubprefixesNext(families: seq<Family>, i: nat)
    requires i < |families|
    ensures DistinctSubprefixes(families[..i + 1]) <==>
            DistinctSubprefixes(families[..i]) && Distinct(families[i].subprefixes) && Apart(families, i)
  {
    var before, after := families[..i], families[..i + 1];
    assert after == before + [families[i]];
    if DistinctSubprefixes(after) {
      forall k | 0 <= k < i ensures NothingShared(families[k].subprefixes, families[i].subprefixes) {
        assert NothingShared(after[k].subprefixes, after[i].subprefixes);
      }
      forall j, k | 0 <= j < k < i ensures NothingShared(before[j].subprefixes, before[k].subprefixes) {
        assert NothingShared(after[j].subprefixes, after[k].subprefixes);
      }
      forall k | 0 <= k < i ensures Distinct(before[k].subprefixes) {
        assert Distinct(after[k].subprefixes);
      }
      assert Distinct(after[i].subprefixes);
    }
  }

  lemma FamiliesNext(families: seq<Family>, i: nat)
    requires i < |families|
    ensures FamiliesOk(families[..i + 1]) <==>
            && FamiliesOk(families[..i])
            && FamilyOk(families[i]) && families[i].id !in FamilyIds(families[..i])
            && Distinct(families[i].subprefixes)
            && forall j | 0 <= j < |families[i].subprefixes| :: families[i].subprefixes[j] !in AllListed(families[..i])
  {
    IdsNext(families, i);
    SubprefixesNext(families, i);
    ApartListed(families, i);
    EachNext(families, i);
  }

  lemma EachNext(families: seq<Family>, i: nat)
    requires i < |families|
    ensures EachOk(families[..i + 1]) <==> EachOk(families[..i]) && FamilyOk(families[i])
  {
    assert families[..i + 1] == families[..i] + [families[i]];
  }

  /** The family loop of `check_registry_shape`. */
  method CheckFamilies(families: seq<Family>) returns (ok: bool)
    ensures ok <==> FamiliesOk(families)
  {
    ok := true;
    var ids: set<string> := {};
    var seen: set<string> := {};
    for i := 0 to |families|
      invariant ok <==> FamiliesOk(families[..i])
      invariant ok ==> ids == FamilyIds(families[..i]) && seen == AllListed(families[..i])
    {
      var f := families[i];
      FamiliesNext(families, i);
      ListedNext(families, i);
      if f.id == "" || f.id in ids {
        ok := false;
      } else {
        ids := ids + {f.id};
        if !FamilyOk(f) {
          ok := false;
        }
        var apart;
        apart, seen := CheckSubprefixes(f.subprefixes, seen);
        ok := ok && apart;
      }
    }
    assert families[..|families|] == families;
  }

  /** The rule loop: the same cell twice, or a rule outside the closed vocabulary. */
  method CheckRules(rules: seq<Rule>, profiles: set<string>, families: set<string>) returns (ok: bool, seen: set<Cell>)
    ensures seen == Cells(rules)
    ensures ok <==> DistinctCells(rules) && forall i | 0 <= i < |rules| :: RuleOk(rules[i], profiles, families)
  {
    ok, seen := true, {};
    for i := 0 to |rules|
      invariant seen == Cells(rules[..i])
      invariant ok <==> DistinctCells(rules[..i]) && forall k | 0 <= k < i :: RuleOk(rules[k], profiles, families)
    {
      CellsNext(rules, i);
      if CellOf(rules[i]) in seen {
        ok := false;
      }
      seen := seen + {CellOf(rules[i])};
      if !RuleOk(rules[i], profiles, families) {
        ok := false;
      }
    }
    assert rules[..|rules|] == rules;
  }

  lemma CellsNext(rules: seq<Rule>, i: nat)
    requires i < |rules|
    ensures Cells(rules[..i + 1]) == Cells(rules[..i]) + {CellOf(rules[i])}
    ensures DistinctCells(rules[..i + 1]) <==> DistinctCells(rules[..i]) && CellOf(rules[i]) !in Cells(rules[..i])
  {
    var before, after := rules[..i], rules[..i + 1];
    assert after == before + [rules[i]];
  }

  method CheckProfiles(profiles: map<string, Profile>) returns (ok: bool)
    ensures ok <==> forall p | p in profiles :: ProfileOk(profiles[p])
  {
    ok := true;
    var todo := profiles.Keys;
    while todo != {}
      invariant todo <= profiles.Keys
      invariant ok <==> forall p | p in profiles && p !in todo :: ProfileOk(profiles[p])
      decreases todo
    {
      var p :| p in todo;
      if !ProfileOk(profiles[p]) {
        ok := false;
      }
      todo := todo - {p};
    }
  }

  /** `check_registry_shape`: it accepts exactly the registries of the documented shape. */
  method CheckRegistryShape(reg: Registry) returns (ok: bool)
    ensures ok <==> ShapeOk(reg)
  {
    if reg.schema != SCHEMA || reg.guidanceId == "" || reg.families == [] {
      return false;
    }
    ok := CheckFamilies(reg.families);
    if reg.profiles == map[] {
      return false;
    }
    var profilesOk := CheckProfiles(reg.profiles);
    var counted := |reg.rules| == |reg.profiles| * |reg.families| + 1;
    var ids := FamilyIds(reg.families);
    var rulesOk, seen := CheckRules(reg.rules, reg.profiles.Keys, ids);
    var covered := forall p, f | p in reg.profiles && f in ids :: (p, f) in seen;
    ok := ok && profilesOk && counted && rulesOk && covered;
  }

  function FamilyNamed(families: seq<Family>, id: string): Option<Family>
  {
    if families == [] then None
    else if families[|families| - 1].id == id then Some(families[|families| - 1])
    else FamilyNamed(families[..|families| - 1], id)
  }

  /** What `check_protection_invariant` demands of one rule. */
  predicate Protected(families: seq<Family>, r: Rule)
  {
    r.family == MULTIPART ||
    (var f := FamilyNamed(families, r.family);
     && (r.action == "expire-objects" ==> f.Some? && f.value.currentVersions == "expirable")
     && (f.Some? && f.value.sourceOfTruth != Some(true) ==>
           r.action in {"expire-objects", "expire-noncurrent", "not-applicable"}))
  }

  predicate ProtectionOk(reg: Registry)
  {
    forall i | 0 <= i < |reg.rules| :: Protected(reg.families, reg.rules[i])
  }

  method CheckProtection(reg: Registry) returns (ok: bool)
    ensures ok <==> ProtectionOk(reg)
  {
    ok := true;
    for i := 0 to |reg.rules|
      invariant ok <==> forall k | 0 <= k < i :: Protected(reg.families, reg.rules[k])
    {
      var r := reg.rules[i];
      if r.family != MULTIPART {
        var f := FamilyNamed(reg.families, r.family);
        if !(f.Some? && f.value.currentVersions == "expirable") && r.action == "expire-objects" {
          ok := false;
        }
        if f.Some? && f.value.sourceOfTruth != Some(true)
           && r.action !in {"expire-objects", "expire-noncurrent", "not-applicable"} {
          ok := false;
        }
      }
    }
  }

  predicate Enabled(profiles: map<string, Profile>, p: string)
  {
    p in profiles && profiles[p].versioning == "enabled"
  }

  /** What `check_current_pointer_pin` demands of one rule. */
  predicate Pinned(profiles: map<string, Profile>, r: Rule)
  {
    r.profile != ALL && Enabled(profiles, r.profile) ==>
      (r.family == PINNED <==> r.action == "retain-noncurrent")
  }

  predicate PinOk(reg: Registry)
  {
    forall i | 0 <= i < |reg.rules| :: Pinned(reg.profiles, reg.rules[i])
  }

  method CheckPointerPin(reg: Registry) returns (ok: bool)
    ensures ok <==> PinOk(reg)
  {
    ok := true;
    for i := 0 to |reg.rules|
      invariant ok <==> forall k | 0 <= k < i :: Pinned(reg.profiles, reg.rules[k])
    {
      var r := reg.rules[i];
      if r.profile != ALL && Enabled(reg.profiles, r.profile) {
        if r.family == PINNED {
          if r.action != "retain-noncurrent" {
            ok := false;
          }
        } else if r.action == "retain-noncurrent" {
          ok := false;
        }
      }
    }
  }

  // ---- the matrix ----

  ghost function Product(ps: set<string>, fs: set<string>): set<Cell>
  {
    set p, f | p in ps && f in fs :: (p, f)
  }

  lemma {:induction false} CountProduct(ps: set<string>, fs: set<string>)
    ensures |Product(ps, fs)| == |ps| * |fs|
  {
    if ps == {} {
      assert Product(ps, fs) == {};
    } else {
      var p :| p in ps;
      CountProduct(ps - {p}, fs);
      CountRow(p, fs);
      SplitRow(ps, fs, p);
      assert |ps| == |ps - {p}| + 1;
      assert (|ps| - 1) * |fs| + |fs| == |ps| * |fs|;
    }
  }

  lemma SplitRow(ps: set<string>, fs: set<string>, p: string)
    requires p in ps
    ensures |Product(ps, fs)| == |Product(ps - {p}, fs)| + |Product({p}, fs)|
  {
    assert Product(ps, fs) == Product(ps - {p}, fs) + Product({p}, fs);
    assert Product(ps - {p}, fs) !! Product({p}, fs);
  }

  lemma {:induction false} CountRow(p: string, fs: set<string>)
    ensures |Product({p}, fs)| == |fs|
  {
    if fs == {} {
      assert Product({p}, fs) == {};
    } else {
      var f :| f in fs;
      CountRow(p, fs - {f});
      assert Product({p}, fs) == Product({p}, fs - {f}) + {(p, f)};
    }
  }

  lemma {:induction false} CountIds(families: seq<Family>)
    requires DistinctIds(families)
    ensures |FamilyIds(families)| == |families|
  {
    if families != [] {
      var n := |families| - 1;
      CountIds(families[..n]);
      assert families == families[..n] + [families[n]];
      assert FamilyIds(families) == FamilyIds(families[..n]) + {families[n].id};
      assert families[n].id !in FamilyIds(families[..n]);
    }
  }

  lemma {:induction false} CountCells(rules: seq<Rule>)
    requires DistinctCells(rules)
    ensures |Cells(rules)| == |rules|
  {
    if rules != [] {
      var n := |rules| - 1;
      CountCells(rules[..n]);
      assert rules[..n + 1] == rules;
      CellsNext(rules, n);
    }
  }

  lemma CellsUnique(rules: seq<Rule>, i: nat, j: nat)
    requires DistinctCells(rules) && i < |rules| && j < |rules| && CellOf(rules[i]) == CellOf(rules[j])
    ensures i == j
  {
  }

  /** A cell of the matrix: a profile and a family of the registry. */
  ghost predicate InMatrix(reg: Registry, r: Rule)
  {
    r.profile in reg.profiles && r.family in FamilyIds(reg.families)
  }

  lemma OneSpare(reg: Registry)
    requires ShapeOk(reg)
    ensures |Cells(reg.rules) - Product(reg.profiles.Keys, FamilyIds(reg.families))| == 1
  {
    var cells, matrix := Cells(reg.rules), Product(reg.profiles.Keys, FamilyIds(reg.families));
    CountCells(reg.rules);
    CountIds(reg.families);
    CountProduct(reg.profiles.Keys, FamilyIds(reg.families));
    assert matrix <= cells;
    assert |cells| == |matrix| + |cells - matrix| by {
      assert cells == matrix + (cells - matrix);
    }
  }

  /** An accepted registry has exactly one rule per cell. */
  lemma MatrixFilled(reg: Registry, p: string, f: string)
    requires ShapeOk(reg) && p in reg.profiles && f in FamilyIds(reg.families)
    ensures exists i :: 0 <= i < |reg.rules| && CellOf(reg.rules[i]) == (p, f)
                     && forall j | 0 <= j < |reg.rules| && CellOf(reg.rules[j]) == (p, f) :: j == i
  {
    assert (p, f) in Cells(reg.rules);
    var i :| 0 <= i < |reg.rules| && CellOf(reg.rules[i]) == (p, f);
    forall j | 0 <= j < |reg.rules| && CellOf(reg.rules[j]) == (p, f) ensures j == i {
      CellsUnique(reg.rules, i, j);
    }
  }

  /** And exactly one further row, which is a multipart row. The reserved scope is no profile. */
  lemma SpareRow(reg: Registry) returns (i: nat)
    requires ShapeOk(reg)
    ensures i < |reg.rules| && !InMatrix(reg, reg.rules[i]) && reg.rules[i].family == MULTIPART
    ensures forall j | 0 <= j < |reg.rules| && !InMatrix(reg, reg.rules[j]) :: j == i
    ensures ALL !in reg.profiles
  {
    var matrix := Product(reg.profiles.Keys, FamilyIds(reg.families));
    OneSpare(reg);
    var spare := Cells(reg.rules) - matrix;
    var cell :| cell in spare;
    assert spare == {cell} by {
      assert |spare - {cell}| == 0;
    }
    i :| 0 <= i < |reg.rules| && CellOf(reg.rules[i]) == cell;
    forall j | 0 <= j < |reg.rules| && !InMatrix(reg, reg.rules[j]) ensures j == i {
      assert CellOf(reg.rules[j]) in spare;
      CellsUnique(reg.rules, i, j);
    }
    NoProfileNamedAll(reg, i);
  }

  lemma NoProfileNamedAll(reg: Registry, i: nat)
    requires ShapeOk(reg) && i < |reg.rules| && !InMatrix(reg, reg.rules[i]) && reg.rules[i].family == MULTIPART
    ensures ALL !in reg.profiles
  {
    var f := reg.families[0].id;
    assert f in FamilyIds(reg.families);
    assert RuleOk(reg.rules[i], reg.profiles.Keys, FamilyIds(reg.families));
  }
}
