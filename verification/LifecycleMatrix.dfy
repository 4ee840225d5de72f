/** Registries built from a policy: one rule per profile and family, and the row that aborts uploads. */
module LifecycleMatrix {
  import opened Text
  import opened Lifecycle
  import opened LifecycleGate

  datatype Setting = Setting(action: string, days: Option<int>, reason: string)

  type Policy = (string, string) -> Setting

  const ABORT := Rule(ALL, MULTIPART, "abort-incomplete-multipart", Some(1), "")

  function RuleAt(p: string, f: string, policy: Policy): Rule
  {
    Rule(p, f, policy(p, f).action, policy(p, f).days, policy(p, f).reason)
  }

  function Row(p: string, fs: seq<Family>, policy: Policy): (rules: seq<Rule>)
    ensures |rules| == |fs| && forall j | 0 <= j < |fs| :: rules[j] == RuleAt(p, fs[j].id, policy)
  {
    seq(|fs|, j requires 0 <= j < |fs| => RuleAt(p, fs[j].id, policy))
  }

  function Matrix(ps: seq<string>, fs: seq<Family>, policy: Policy): (rules: seq<Rule>)
    ensures |rules| == |ps| * |fs|
  {
    if ps == [] then []
    else Matrix(ps[..|ps| - 1], fs, policy) + Row(ps[|ps| - 1], fs, policy)
  }

  /** `r` is the rule of one cell. */
  ghost predicate IsCell(ps: seq<string>, fs: seq<Family>, policy: Policy, r: Rule)
  {
    exists j :: r.profile in ps && 0 <= j < |fs| && r == RuleAt(r.profile, fs[j].id, policy)
  }

  lemma {:induction false} MatrixHas(ps: seq<string>, fs: seq<Family>, policy: Policy, r: Rule)
    ensures r in Matrix(ps, fs, policy) <==> IsCell(ps, fs, policy, r)
  {
    if ps != [] {
      var n := |ps| - 1;
      MatrixHas(ps[..n], fs, policy, r);
      assert ps == ps[..n] + [ps[n]];
      if r in Row(ps[n], fs, policy) {
        var j :| 0 <= j < |fs| && Row(ps[n], fs, policy)[j] == r;
      }
      if j :| r.profile in ps && 0 <= j < |fs| && r == RuleAt(r.profile, fs[j].id, policy) {
        if r.profile == ps[n] {
          assert Row(ps[n], fs, policy)[j] == r;
        }
      }
    }
  }

  lemma {:induction false} MatrixDistinct(ps: seq<string>, fs: seq<Family>, policy: Policy)
    requires Distinct(ps) && DistinctIds(fs)
    ensures DistinctCells(Matrix(ps, fs, policy))
  {
    if ps != [] {
      var n := |ps| - 1;
      var before, row := Matrix(ps[..n], fs, policy), Row(ps[n], fs, policy);
      MatrixDistinct(ps[..n], fs, policy);
      forall k | 0 <= k < |before| ensures before[k].profile != ps[n] {
        MatrixHas(ps[..n], fs, policy, before[k]);
      }
      Appended(before, row, ps[n]);
    }
  }

  lemma Appended(before: seq<Rule>, row: seq<Rule>, p: string)
    requires DistinctCells(before) && DistinctCells(row)
    requires forall k | 0 <= k < |before| :: before[k].profile != p
    requires forall k | 0 <= k < |row| :: row[k].profile == p
    ensures DistinctCells(before + row)
  {
  }

  predicate SettingOk(s: Setting)
  {
    && s.action in ACTIONS
    && (s.action in ACTION_DAYS ==> s.days.Some? && 1 <= s.days.value <= 365)
    && (s.action !in ACTION_DAYS ==> s.days.None?)
    && (s.action == "not-applicable" <==> s.reason != "")
  }

  function Profiles(ps: seq<string>, profile: string -> Profile): map<string, Profile>
  {
    map p | p in ps :: profile(p)
  }

  function Built(guidance: string, ps: seq<string>, profile: string -> Profile, fs: seq<Family>,
                 policy: Policy): Registry
  {
    Registry(SCHEMA, guidance, fs, Profiles(ps, profile), Matrix(ps, fs, policy) + [ABORT])
  }

  lemma {:induction false} CountNames(ps: seq<string>)
    requires Distinct(ps)
    ensures |(set p | p in ps)| == |ps|
  {
    if ps != [] {
      var n := |ps| - 1;
      CountNames(ps[..n]);
      var before := set p | p in ps[..n];
      assert ps[n] !in before;
      assert (set p | p in ps) == before + {ps[n]};
    }
  }

  lemma CountProfiles(ps: seq<string>, profile: string -> Profile)
    requires Distinct(ps)
    ensures |Profiles(ps, profile)| == |ps|
  {
    CountNames(ps);
    var m := Profiles(ps, profile);
    assert m.Keys == set p | p in ps;
    assert |m| == |m.Keys|;
  }

  /** A sound policy over distinct profiles and sound families makes a registry of the demanded shape. */
  lemma BuiltShape(guidance: string, ps: seq<string>, profile: string -> Profile, fs: seq<Family>, policy: Policy)
    requires guidance != "" && ps != [] && fs != [] && Distinct(ps) && ALL !in ps && FamiliesOk(fs)
    requires forall p | p in ps :: ProfileOk(profile(p))
    requires forall i, j | 0 <= i < |ps| && 0 <= j < |fs| :: SettingOk(policy(ps[i], fs[j].id))
    ensures ShapeOk(Built(guidance, ps, profile, fs, policy))
    ensures DistinctCells(Built(guidance, ps, profile, fs, policy).rules)
  {
    var reg := Built(guidance, ps, profile, fs, policy);
    CountProfiles(ps, profile);
    MatrixDistinct(ps, fs, policy);
    BuiltRules(reg, ps, fs, policy);
    BuiltCovers(reg, ps, fs, policy);
    assert ps[0] in reg.profiles;
  }

  lemma BuiltRules(reg: Registry, ps: seq<string>, fs: seq<Family>, policy: Policy)
    requires ALL !in ps && reg.families == fs && (forall p | p in ps :: p in reg.profiles)
    requires reg.rules == Matrix(ps, fs, policy) + [ABORT] && DistinctCells(Matrix(ps, fs, policy))
    requires forall i, j | 0 <= i < |ps| && 0 <= j < |fs| :: SettingOk(policy(ps[i], fs[j].id))
    ensures DistinctCells(reg.rules)
    ensures forall k | 0 <= k < |reg.rules| :: RuleOk(reg.rules[k], reg.profiles.Keys, FamilyIds(fs))
  {
    var rules := Matrix(ps, fs, policy);
    forall k | 0 <= k < |rules| ensures rules[k].profile in ps && RuleOk(rules[k], reg.profiles.Keys, FamilyIds(fs)) {
      MatrixHas(ps, fs, policy, rules[k]);
      var j :| rules[k].profile in ps && 0 <= j < |fs| && rules[k] == RuleAt(rules[k].profile, fs[j].id, policy);
      assert fs[j].id in FamilyIds(fs);
      var i :| 0 <= i < |ps| && ps[i] == rules[k].profile;
      assert SettingOk(policy(ps[i], fs[j].id));
    }
  }

  lemma BuiltCovers(reg: Registry, ps: seq<string>, fs: seq<Family>, policy: Policy)
    requires reg.families == fs && (forall p | p in reg.profiles :: p in ps)
    requires reg.rules == Matrix(ps, fs, policy) + [ABORT]
    ensures forall p, f | p in reg.profiles && f in FamilyIds(fs) :: (p, f) in Cells(reg.rules)
  {
    forall p, f | p in reg.profiles && f in FamilyIds(fs) ensures (p, f) in Cells(reg.rules) {
      var j :| 0 <= j < |fs| && fs[j].id == f;
      var r := RuleAt(p, f, policy);
      assert IsCell(ps, fs, policy, r);
      MatrixHas(ps, fs, policy, r);
      CellThere(reg.rules, r);
    }
  }

  lemma CellThere(rules: seq<Rule>, r: Rule)
    requires r in rules
    ensures CellOf(r) in Cells(rules)
  {
  }

  /** Every rule but the last is a cell of the policy. */
  lemma BuiltRule(guidance: string, ps: seq<string>, profile: string -> Profile, fs: seq<Family>, policy: Policy,
                  r: Rule)
    ensures r in Built(guidance, ps, profile, fs, policy).rules <==> r == ABORT || IsCell(ps, fs, policy, r)
  {
    MatrixHas(ps, fs, policy, r);
  }

  // ---- the note of a registry ----

  function NoteOf(rules: seq<Rule>): (rows: seq<Option<NoteRow>>)
    ensures |rows| == |rules| && forall i | 0 <= i < |rules| :: rows[i] == Some(RowOf(rules[i]))
  {
    seq(|rules|, i requires 0 <= i < |rules| => Some(RowOf(rules[i])))
  }

  /** A table that copies the rules passes the note check. */
  lemma NoteOfOk(reg: Registry)
    requires DistinctCells(reg.rules)
    ensures NoteOk(reg, Some(NoteOf(reg.rules)))
  {
    var rows := NoteOf(reg.rules);
    forall i, j | 0 <= i < j < |rows|
      ensures rows[i].value.profile != rows[j].value.profile || rows[i].value.family != rows[j].value.family
    {
      assert CellOf(reg.rules[i]) != CellOf(reg.rules[j]);
    }
    forall r | r in reg.rules ensures Some(RowOf(r)) in rows {
      var k :| 0 <= k < |reg.rules| && reg.rules[k] == r;
      assert rows[k] == Some(RowOf(r));
    }
    forall row | Some(row) in rows ensures exists r :: r in reg.rules && RowOf(r) == row {
      var k :| 0 <= k < |rows| && rows[k] == Some(row);
      assert reg.rules[k] in reg.rules;
    }
    RulesMakeNote(reg, rows);
  }
}
