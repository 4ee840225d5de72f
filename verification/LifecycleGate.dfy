/** The whole S3 lifecycle gate: the registry checks, and the four that hold the registry to the control
    records, the note, the audit source and the provisioning script. */
module LifecycleGate {
  import opened Text
  import opened Lifecycle
  import LifecycleRuns

  const CURRENT := "current-pointer"
  const IMMUTABLE := "immutable"
  const IMMUTABLE_FAMILY := "control-immutable"

  /** A control record: its write class, and the segment of its object key if the key has the right shape. */
  datatype ControlRecord = ControlRecord(writeClass: string, segment: Option<string>)

  /** One row of the note's matrix table. */
  datatype NoteRow = NoteRow(profile: string, family: string, action: string, days: Option<int>)

  /** What the gate reads beside the registry. `rows` is missing when the note has no such table, and a
      row is when it has not five cells; `noncurrentOnly` says the script selects noncurrent versions. */
  datatype Documents = Documents(records: seq<ControlRecord>, rows: Option<seq<Option<NoteRow>>>,
                                 guidance: Option<string>, scriptDays: Option<int>, noncurrentOnly: bool)

  // ---- the control split ----

  function Control(segment: string): string
  {
    "control/" + segment
  }

  predicate RecordKnown(r: ControlRecord)
  {
    (r.writeClass == CURRENT || r.writeClass == IMMUTABLE) && r.segment.Some?
  }

  /** The subprefixes the records of a write class live under. */
  function Derived(records: seq<ControlRecord>, writeClass: string): set<string>
  {
    set i | 0 <= i < |records| && records[i].writeClass == writeClass && records[i].segment.Some? ::
      Control(records[i].segment.value)
  }

  function Declared(families: seq<Family>, id: string): set<string>
  {
    match FamilyNamed(families, id)
    case None => {}
    case Some(f) => Listed(f.subprefixes)
  }

  predicate SplitOk(reg: Registry, records: seq<ControlRecord>)
  {
    && (forall i | 0 <= i < |records| :: RecordKnown(records[i]))
    && Declared(reg.families, PINNED) == Derived(records, CURRENT)
    && Declared(reg.families, IMMUTABLE_FAMILY) == Derived(records, IMMUTABLE)
  }

  lemma DerivedNext(records: seq<ControlRecord>, i: nat, writeClass: string)
    requires i < |records| && records[i].segment.Some?
    ensures Derived(records[..i + 1], writeClass) ==
            Derived(records[..i], writeClass) +
            if records[i].writeClass == writeClass then {Control(records[i].segment.value)} else {}
  {
    var before, after := records[..i], records[..i + 1];
    assert after == before + [records[i]];
    forall s | s in Derived(after, writeClass)
      ensures s in Derived(before, writeClass)
              || (records[i].writeClass == writeClass && s == Control(records[i].segment.value))
    {
      var k :| 0 <= k < |after| && after[k].writeClass == writeClass && after[k].segment.Some?
               && Control(after[k].segment.value) == s;
      assert k < i ==> before[k] == after[k];
    }
    forall s | s in Derived(before, writeClass) ensures s in Derived(after, writeClass) {
      var k :| 0 <= k < |before| && before[k].writeClass == writeClass && before[k].segment.Some?
               && Control(before[k].segment.value) == s;
      assert after[k] == before[k];
    }
    assert after[i] == records[i];
  }

  /** `check_control_split`: the two control families hold exactly the subprefixes of their write class. */
  method CheckControlSplit(reg: Registry, records: seq<ControlRecord>) returns (ok: bool)
    ensures ok <==> SplitOk(reg, records)
  {
    var current, immutable: set<string> := {}, {};
    for i := 0 to |records|
      invariant forall k | 0 <= k < i :: RecordKnown(records[k])
      invariant current == Derived(records[..i], CURRENT) && immutable == Derived(records[..i], IMMUTABLE)
    {
      if !RecordKnown(records[i]) {
        return false;
      }
      DerivedNext(records, i, CURRENT);
      DerivedNext(records, i, IMMUTABLE);
      if records[i].writeClass == CURRENT {
        current := current + {Control(records[i].segment.value)};
      } else {
        immutable := immutable + {Control(records[i].segment.value)};
      }
    }
    assert records[..|records|] == records;
    ok := Declared(reg.families, PINNED) == current;
    ok := ok && Declared(reg.families, IMMUTABLE_FAMILY) == immutable;
  }

  // ---- the note ----

  /** The rule of a cell; a later rule of the same cell wins. */
  function RuleFor(rules: seq<Rule>, cell: Cell): Option<Rule>
  {
    if rules == [] then None
    else if CellOf(rules[|rules| - 1]) == cell then Some(rules[|rules| - 1])
    else RuleFor(rules[..|rules| - 1], cell)
  }

  predicate RowOk(rules: seq<Rule>, row: Option<NoteRow>)
  {
    && row.Some?
    && (var rule := RuleFor(rules, (row.value.profile, row.value.family));
        rule.Some? && row.value.action == rule.value.action && row.value.days == rule.value.days)
  }

  function RowCells(rows: seq<Option<NoteRow>>): set<Cell>
  {
    set i | 0 <= i < |rows| && rows[i].Some? :: (rows[i].value.profile, rows[i].value.family)
  }

  predicate RowsDiffer(rows: seq<Option<NoteRow>>)
  {
    forall i, j | 0 <= i < j < |rows| && rows[i].Some? && rows[j].Some? ::
      rows[i].value.profile != rows[j].value.profile || rows[i].value.family != rows[j].value.family
  }

  predicate NoteOk(reg: Registry, rows: Option<seq<Option<NoteRow>>>)
  {
    && rows.Some?
    && (forall i | 0 <= i < |rows.value| :: RowOk(reg.rules, rows.value[i]))
    && RowsDiffer(rows.value)
    && Cells(reg.rules) <= RowCells(rows.value)
  }

  lemma RowsNext(rows: seq<Option<NoteRow>>, i: nat)
    requires i < |rows|
    ensures rows[i].None? ==> RowCells(rows[..i + 1]) == RowCells(rows[..i])
    ensures rows[i].None? ==> (RowsDiffer(rows[..i + 1]) <==> RowsDiffer(rows[..i]))
    ensures rows[i].Some? ==>
              var cell := (rows[i].value.profile, rows[i].value.family);
              && RowCells(rows[..i + 1]) == RowCells(rows[..i]) + {cell}
              && (RowsDiffer(rows[..i + 1]) <==> RowsDiffer(rows[..i]) && cell !in RowCells(rows[..i]))
  {
    var before, after := rows[..i], rows[..i + 1];
    assert after == before + [rows[i]];
    assert forall k | 0 <= k < i :: after[k] == before[k];
    if rows[i].Some? {
      var cell := (rows[i].value.profile, rows[i].value.family);
      if cell in RowCells(before) {
        var k :| 0 <= k < |before| && before[k].Some? && (before[k].value.profile, before[k].value.family) == cell;
        assert after[k] == before[k] && after[i] == rows[i];
      }
      assert after[i] == rows[i];
      assert cell in RowCells(after);
    }
  }

  /** `check_note_matrix`: the table has each cell of the registry once, with its action and days. */
  method CheckNoteMatrix(reg: Registry, table: Option<seq<Option<NoteRow>>>) returns (ok: bool)
    ensures ok <==> NoteOk(reg, table)
  {
    if table.None? {
      return false;
    }
    var rows := table.value;
    ok := true;
    var seen: set<Cell> := {};
    for i := 0 to |rows|
      invariant seen == RowCells(rows[..i])
      invariant ok <==> RowsDiffer(rows[..i]) && forall k | 0 <= k < i :: RowOk(reg.rules, rows[k])
    {
      RowsNext(rows, i);
      if rows[i].None? {
        ok := false;
      } else {
        var row := rows[i].value;
        var cell := (row.profile, row.family);
        ok := ok && cell !in seen && RowOk(reg.rules, rows[i]);
        seen := seen + {cell};
      }
    }
    assert rows[..|rows|] == rows;
    ok := ok && Cells(reg.rules) <= seen;
  }

  function RowOf(r: Rule): NoteRow
  {
    NoteRow(r.profile, r.family, r.action, r.days)
  }

  lemma {:induction false} RuleForSound(rules: seq<Rule>, cell: Cell)
    ensures match RuleFor(rules, cell)
            case None => cell !in Cells(rules)
            case Some(r) => r in rules && CellOf(r) == cell
  {
    if rules != [] {
      var n := |rules| - 1;
      RuleForSound(rules[..n], cell);
      assert rules == rules[..n] + [rules[n]];
    }
  }

  lemma RuleForRule(rules: seq<Rule>, r: Rule)
    requires DistinctCells(rules) && r in rules
    ensures RuleFor(rules, CellOf(r)) == Some(r)
  {
    RuleForSound(rules, CellOf(r));
    var i :| 0 <= i < |rules| && rules[i] == r;
    assert CellOf(rules[i]) in Cells(rules);
    var found := RuleFor(rules, CellOf(r)).value;
    var j :| 0 <= j < |rules| && rules[j] == found;
    assert i == j;
  }

  /** The note check says the table is the registry: its rows are the rules, each once. */
  lemma NoteExact(reg: Registry, rows: seq<Option<NoteRow>>)
    requires DistinctCells(reg.rules)
    ensures NoteOk(reg, Some(rows)) <==>
            && RowsDiffer(rows) && None !in rows
            && (forall r | r in reg.rules :: Some(RowOf(r)) in rows)
            && (forall row | Some(row) in rows :: exists r :: r in reg.rules && RowOf(r) == row)
  {
    if NoteOk(reg, Some(rows)) {
      NoteRowsAreRules(reg, rows);
    } else if RowsDiffer(rows) && None !in rows && (forall r | r in reg.rules :: Some(RowOf(r)) in rows)
              && (forall row | Some(row) in rows :: exists r :: r in reg.rules && RowOf(r) == row) {
      RulesMakeNote(reg, rows);
    }
  }

  lemma NoteRowsAreRules(reg: Registry, rows: seq<Option<NoteRow>>)
    requires DistinctCells(reg.rules) && NoteOk(reg, Some(rows))
    ensures None !in rows
    ensures forall r | r in reg.rules :: Some(RowOf(r)) in rows
    ensures forall row | Some(row) in rows :: exists r :: r in reg.rules && RowOf(r) == row
  {
    forall row | Some(row) in rows ensures exists r :: r in reg.rules && RowOf(r) == row {
      var i :| 0 <= i < |rows| && rows[i] == Some(row);
      assert RowOk(reg.rules, rows[i]);
      RuleForSound(reg.rules, (row.profile, row.family));
      assert RowOf(RuleFor(reg.rules, (row.profile, row.family)).value) == row;
    }
    forall r | r in reg.rules ensures Some(RowOf(r)) in rows {
      var k :| 0 <= k < |reg.rules| && reg.rules[k] == r;
      assert CellOf(r) in RowCells(rows);
      var i :| 0 <= i < |rows| && rows[i].Some? && (rows[i].value.profile, rows[i].value.family) == CellOf(r);
      assert RowOk(reg.rules, rows[i]);
      RuleForRule(reg.rules, r);
      assert rows[i] == Some(RowOf(r));
    }
  }

  lemma RulesMakeNote(reg: Registry, rows: seq<Option<NoteRow>>)
    requires DistinctCells(reg.rules) && RowsDiffer(rows) && None !in rows
    requires forall r | r in reg.rules :: Some(RowOf(r)) in rows
    requires forall row | Some(row) in rows :: exists r :: r in reg.rules && RowOf(r) == row
    ensures NoteOk(reg, Some(rows))
  {
    forall i | 0 <= i < |rows| ensures RowOk(reg.rules, rows[i]) {
      assert rows[i] in rows;
      var row := rows[i].value;
      var r :| r in reg.rules && RowOf(r) == row;
      RuleForRule(reg.rules, r);
    }
    forall c | c in Cells(reg.rules) ensures c in RowCells(rows) {
      var k :| 0 <= k < |reg.rules| && CellOf(reg.rules[k]) == c;
      assert reg.rules[k] in reg.rules;
      var i :| 0 <= i < |rows| && rows[i] == Some(RowOf(reg.rules[k]));
    }
  }

  // ---- the script ----

  predicate ScriptOk(reg: Registry, days: Option<int>, noncurrentOnly: bool)
  {
    var rule := RuleFor(reg.rules, ("minio", "raw"));
    rule.Some? && days.Some? && rule.value.days == days && noncurrentOnly
  }

  /** What `run_all` accepts. */
  ghost predicate GateOk(reg: Registry, docs: Documents)
  {
    && LifecycleRuns.Accepted(reg)
    && SplitOk(reg, docs.records)
    && NoteOk(reg, docs.rows)
    && docs.guidance == Some(reg.guidanceId)
    && ScriptOk(reg, docs.scriptDays, docs.noncurrentOnly)
  }

  /** `run_all`: the seven checks. */
  method RunAll(reg: Registry, docs: Documents) returns (ok: bool)
    ensures ok <==> GateOk(reg, docs)
  {
    var shape := CheckRegistryShape(reg);
    var protection := CheckProtection(reg);
    var pin := CheckPointerPin(reg);
    var split := CheckControlSplit(reg, docs.records);
    var note := CheckNoteMatrix(reg, docs.rows);
    var guidance := docs.guidance == Some(reg.guidanceId);
    var script := ScriptOk(reg, docs.scriptDays, docs.noncurrentOnly);
    ok := shape && protection && pin && split && note && guidance && script;
  }
}
