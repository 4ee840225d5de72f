/** The metric registry gate: the exported family name of a signal, when two signals
    collide, and the loop that keeps the translation injective. */
module Metrics {
  import opened Text

  const UNITS: map<string, string> := map[
    "1" := "", "s" := "seconds", "By" := "bytes", "{attempts}" := "attempts", "{errors}" := "errors",
    "{objects}" := "objects", "{records}" := "records", "{requests}" := "requests", "{sources}" := "sources"]

  const RESERVED: set<string> := {"total", "sum", "count", "bucket", "info", "created"}
  const KINDS: set<string> := {"counter", "gauge", "histogram"}
  const SURFACES: set<string> := {"server", "client", "adapter", "storage", "pilot", "exact"}
  const NAME_MAX := 100

  /** One declared signal. `otherErrors` counts what the remaining, purely local rules report. */
  datatype Signal = Signal(name: string, kind: string, unit: string, otherErrors: nat)

  // ---- names ----

  predicate Free(s: string, c: char)
  {
    forall i | 0 <= i < |s| :: s[i] != c
  }

  predicate IsSegment(s: string)
  {
    && 1 <= |s| <= 24 && 'a' <= s[0] <= 'z'
    && forall i | 0 <= i < |s| :: 'a' <= s[i] <= 'z' || '0' <= s[i] <= '9'
  }

  /** The name grammar; its closing anchor also admits one trailing newline. */
  predicate NameMatches(name: string)
  {
    var core := if name != "" && name[|name| - 1] == '\n' then name[..|name| - 1] else name;
    var parts := Split(core, '.');
    && 3 <= |parts| <= 6 && parts[0] == "archivist" && parts[1] in SURFACES
    && forall i | 2 <= i < |parts| :: IsSegment(parts[i])
  }

  /** The text after the last dot. */
  function Final(name: string): string
  {
    if name == "" || name[|name| - 1] == '.' then ""
    else Final(name[..|name| - 1]) + [name[|name| - 1]]
  }

  predicate NameOk(name: string)
  {
    NameMatches(name) && |name| <= NAME_MAX
  }

  /** The rules on one signal that bear on its exported name. */
  predicate SignalOk(s: Signal)
  {
    && NameOk(s.name)
    && s.kind in KINDS
    && s.unit in UNITS
    && Final(s.name) !in RESERVED
    && (s.unit != "1" ==> Final(s.name) != UNITS[s.unit])
    && !(s.kind == "counter" && (s.unit == "1" || s.unit == "s"))
  }

  // ---- the translation ----

  function Underscored(name: string): (u: string)
    ensures |u| == |name|
    ensures forall i | 0 <= i < |name| :: u[i] == if name[i] == '.' then '_' else name[i]
  {
    seq(|name|, i requires 0 <= i < |name| => if name[i] == '.' then '_' else name[i])
  }

  function Exported(s: Signal): string
    requires s.unit in UNITS
  {
    var suffix := UNITS[s.unit];
    Underscored(s.name) + (if suffix != "" then "_" + suffix else "") + (if s.kind == "counter" then "_total" else "")
  }

  lemma {:induction false} PartsFree(s: string, c: char)
    requires c != '.' && forall k | 0 <= k < |Split(s, '.')| :: Free(Split(s, '.')[k], c)
    ensures Free(s, c)
  {
    if s != "" {
      var parts, rest := Split(s, '.'), Split(s[1..], '.');
      forall k | 0 <= k < |rest| ensures Free(rest[k], c) {
        if s[0] == '.' {
          assert parts[k + 1] == rest[k];
        } else if k == 0 {
          assert rest[0] == parts[0][1..];
        } else {
          assert parts[k] == rest[k];
        }
      }
      PartsFree(s[1..], c);
      if s[0] != '.' {
        assert parts[0][0] == s[0];
      }
    }
  }

  /** A well-formed name holds no underscore. */
  lemma NoUnderscore(name: string)
    requires NameMatches(name)
    ensures Free(name, '_')
  {
    var core := if name != "" && name[|name| - 1] == '\n' then name[..|name| - 1] else name;
    forall k | 0 <= k < |Split(core, '.')| ensures Free(Split(core, '.')[k], '_') {
      assert k == 0 || k == 1 || IsSegment(Split(core, '.')[k]);
    }
    PartsFree(core, '_');
  }

  lemma UnderscoredInjective(a: string, b: string)
    requires Free(a, '_') && Free(b, '_') && Underscored(a) == Underscored(b)
    ensures a == b
  {
    forall i | 0 <= i < |a| ensures a[i] == b[i] {
      assert Underscored(a)[i] == Underscored(b)[i];
    }
  }

  lemma LastSegment(x: string, s: string, y: string, t: string)
    requires x + "_" + s == y + "_" + t && Free(s, '_') && Free(t, '_')
    ensures x == y && s == t
  {
    var u := x + "_" + s;
    assert u[|x|] == '_' && u[|y|] == '_';
    assert x == u[..|x|] && y == u[..|y|] && s == u[|x| + 1..] && t == u[|y| + 1..];
  }

  lemma {:induction false} FinalOf(x: string, s: string)
    requires Free(s, '.')
    ensures Final(x + "." + s) == s
  {
    var name := x + "." + s;
    if s != "" {
      FinalOf(x, s[..|s| - 1]);
      assert name[..|name| - 1] == x + "." + s[..|s| - 1];
      assert s == s[..|s| - 1] + [s[|s| - 1]];
    }
  }

  lemma SuffixFacts(unit: string)
    requires unit in UNITS
    ensures Free(UNITS[unit], '_') && Free(UNITS[unit], '.') && UNITS[unit] != "total"
    ensures UNITS[unit] == "" <==> unit == "1"
  {
  }

  lemma UnderscoredExtend(x: string, s: string)
    requires Free(s, '.')
    ensures Underscored(x + "." + s) == Underscored(x) + "_" + s
  {
  }

  /** A name whose export ends in a segment ends in that segment itself. */
  lemma EndsInSegment(name: string, x: string, s: string)
    requires Free(name, '_') && Free(s, '.') && Free(s, '_') && Underscored(name) == x + "_" + s
    ensures name[..|x|] + "." + s == name && Final(name) == s
  {
    TailSegment(name, |x|, s);
    FinalOf(name[..|x|], s);
  }

  lemma TailSegment(name: string, k: nat, s: string)
    requires Free(name, '_') && Free(s, '_') && |name| == k + 1 + |s|
    requires Underscored(name)[k] == '_' && Underscored(name)[k + 1..] == s
    ensures name[..k] + "." + s == name
  {
    forall i | k < i < |name| ensures name[i] == s[i - k - 1] {
      assert Underscored(name)[i] == Underscored(name)[k + 1..][i - k - 1];
    }
  }

  // ---- collisions ----

  /** `a` is dimensionless and named as `b` with `b`'s unit suffix appended as a segment. */
  predicate Spells(a: Signal, b: Signal)
    requires a.unit in UNITS && b.unit in UNITS
  {
    a.unit == "1" && b.unit != "1" && a.name == b.name + "." + UNITS[b.unit]
  }

  predicate Clash(a: Signal, b: Signal)
    requires a.unit in UNITS && b.unit in UNITS
  {
    a.kind != "counter" && b.kind != "counter" && (Spells(a, b) || Spells(b, a))
  }

  /** A counter's family ends in `_total` after its unit. */
  lemma CounterForm(s: Signal)
    requires SignalOk(s) && s.kind == "counter"
    ensures UNITS[s.unit] != ""
    ensures Exported(s) == Underscored(s.name) + "_" + UNITS[s.unit] + "_" + "total"
  {
    SuffixFacts(s.unit);
    var x := Underscored(s.name);
    assert x + ("_" + UNITS[s.unit]) + "_total" == x + "_" + UNITS[s.unit] + "_" + "total";
  }

  lemma PlainForm(s: Signal)
    requires SignalOk(s) && s.kind != "counter"
    ensures Exported(s) == if s.unit == "1" then Underscored(s.name) else Underscored(s.name) + "_" + UNITS[s.unit]
  {
    SuffixFacts(s.unit);
    var x := Underscored(s.name);
    assert x + "" + "" == x && x + ("_" + UNITS[s.unit]) + "" == x + "_" + UNITS[s.unit];
  }

  lemma CountersDiffer(a: Signal, b: Signal)
    requires SignalOk(a) && SignalOk(b) && a.name != b.name && a.kind == "counter" && b.kind == "counter"
    ensures Exported(a) != Exported(b)
  {
    CounterForm(a);
    CounterForm(b);
    SuffixFacts(a.unit);
    SuffixFacts(b.unit);
    NoUnderscore(a.name);
    NoUnderscore(b.name);
    if Exported(a) == Exported(b) {
      var x, y := Underscored(a.name) + "_" + UNITS[a.unit], Underscored(b.name) + "_" + UNITS[b.unit];
      LastSegment(x, "total", y, "total");
      LastSegment(Underscored(a.name), UNITS[a.unit], Underscored(b.name), UNITS[b.unit]);
      UnderscoredInjective(a.name, b.name);
    }
  }

  lemma CounterAndPlainDiffer(a: Signal, b: Signal)
    requires SignalOk(a) && SignalOk(b) && a.kind == "counter" && b.kind != "counter"
    ensures Exported(a) != Exported(b)
  {
    CounterForm(a);
    PlainForm(b);
    SuffixFacts(b.unit);
    var x := Underscored(a.name) + "_" + UNITS[a.unit];
    if b.unit == "1" {
      NotTotal(b.name, x);
    } else {
      OtherSegment(x, Underscored(b.name), UNITS[b.unit]);
    }
  }

  /** No legal name exports as a text ending in the reserved last segment. */
  lemma NotTotal(name: string, x: string)
    requires NameOk(name) && Final(name) !in RESERVED
    ensures Underscored(name) != x + "_" + "total"
  {
    NoUnderscore(name);
    if Underscored(name) == x + "_" + "total" {
      EndsInSegment(name, x, "total");
    }
  }

  lemma OtherSegment(x: string, y: string, suffix: string)
    requires Free(suffix, '_') && suffix != "total"
    ensures x + "_" + "total" != y + "_" + suffix
  {
    if x + "_" + "total" == y + "_" + suffix {
      LastSegment(x, "total", y, suffix);
    }
  }

  lemma DimensionlessMeets(a: Signal, b: Signal)
    requires SignalOk(a) && SignalOk(b) && a.kind != "counter" && b.kind != "counter" && a.unit == "1" && b.unit != "1"
    ensures Exported(a) == Exported(b) <==> Spells(a, b)
  {
    PlainForm(a);
    PlainForm(b);
    SuffixFacts(b.unit);
    NoUnderscore(a.name);
    NoUnderscore(b.name);
    var long := b.name + "." + UNITS[b.unit];
    UnderscoredExtend(b.name, UNITS[b.unit]);
    assert Free(long, '_');
    if Exported(a) == Exported(b) {
      UnderscoredInjective(a.name, long);
    }
  }

  lemma SameShapeDiffer(a: Signal, b: Signal)
    requires SignalOk(a) && SignalOk(b) && a.name != b.name && a.kind != "counter" && b.kind != "counter"
    requires a.unit == "1" <==> b.unit == "1"
    ensures Exported(a) != Exported(b)
  {
    PlainForm(a);
    PlainForm(b);
    SuffixFacts(a.unit);
    SuffixFacts(b.unit);
    NoUnderscore(a.name);
    NoUnderscore(b.name);
    if Exported(a) == Exported(b) {
      if a.unit != "1" {
        LastSegment(Underscored(a.name), UNITS[a.unit], Underscored(b.name), UNITS[b.unit]);
      }
      UnderscoredInjective(a.name, b.name);
    }
  }

  /** Two distinct well-formed signals share a family exactly when neither is a counter and
      one spells out the other's unit; so counters never collide with anything. */
  lemma CollisionExact(a: Signal, b: Signal)
    requires SignalOk(a) && SignalOk(b) && a.name != b.name
    ensures Exported(a) == Exported(b) <==> Clash(a, b)
  {
    if a.kind == "counter" && b.kind == "counter" {
      CountersDiffer(a, b);
    } else if a.kind == "counter" {
      CounterAndPlainDiffer(a, b);
    } else if b.kind == "counter" {
      CounterAndPlainDiffer(b, a);
    } else if a.unit == "1" && b.unit != "1" {
      DimensionlessMeets(a, b);
    } else if a.unit != "1" && b.unit == "1" {
      DimensionlessMeets(b, a);
    } else {
      SameShapeDiffer(a, b);
    }
  }

  // ---- the gate ----

  datatype Error =
    | BadName(name: string)
    | BadKind(name: string)
    | BadUnit(name: string)
    | ReservedFinal(name: string)
    | DoubledUnit(name: string)
    | CounterUnit(name: string)
    | Other(name: string)
    | Collision(name: string, earlier: string)

  /** What the rules report on one signal before its family is looked up. */
  function LocalErrors(s: Signal): seq<Error>
  {
    if !NameOk(s.name) then [BadName(s.name)]
    else
      (if s.kind !in KINDS then [BadKind(s.name)] else [])
      + (if s.unit !in UNITS then [BadUnit(s.name)] else [])
      + (if Final(s.name) in RESERVED then [ReservedFinal(s.name)] else [])
      + (if s.unit in UNITS && s.unit != "1" && Final(s.name) == UNITS[s.unit] then [DoubledUnit(s.name)] else [])
      + (if s.kind == "counter" && (s.unit == "1" || s.unit == "s") then [CounterUnit(s.name)] else [])
      + (if s.otherErrors > 0 then [Other(s.name)] else [])
  }

  lemma LocalErrorsExact(s: Signal)
    ensures LocalErrors(s) == [] <==> SignalOk(s) && s.otherErrors == 0
  {
  }

  /** The signals are the entries of one table, so their names differ. */
  predicate DistinctNames(signals: seq<Signal>)
  {
    forall i, j | 0 <= i < j < |signals| :: signals[i].name != signals[j].name
  }

  /** Every signal obeys the local rules and no two share a family. */
  ghost predicate Sound(signals: seq<Signal>)
  {
    && (forall i | 0 <= i < |signals| :: SignalOk(signals[i]) && signals[i].otherErrors == 0)
    && (forall i, j | 0 <= i < j < |signals| :: !Clash(signals[i], signals[j]))
  }

  /** Once nothing has been reported, `exported` maps each family to the one signal producing it. */
  ghost predicate Tracks(exported: map<string, string>, signals: seq<Signal>, i: nat)
    requires i <= |signals|
    requires forall k | 0 <= k < i :: signals[k].unit in UNITS
  {
    && (forall k | 0 <= k < i :: Exported(signals[k]) in exported && exported[Exported(signals[k])] == signals[k].name)
    && (forall f | f in exported :: exists k :: 0 <= k < i && Exported(signals[k]) == f)
  }

  lemma SoundExtends(signals: seq<Signal>, i: nat, exported: map<string, string>)
    requires DistinctNames(signals) && i < |signals| && Sound(signals[..i]) && SignalOk(signals[i])
    requires signals[i].otherErrors == 0
    requires forall k | 0 <= k < i :: signals[k].unit in UNITS
    requires Tracks(exported, signals, i)
    ensures Sound(signals[..i + 1]) <==> Exported(signals[i]) !in exported
  {
    var s := signals[i];
    SoundAppend(signals[..i], s);
    assert signals[..i + 1] == signals[..i] + [s];
    forall k | 0 <= k < i ensures Exported(signals[k]) == Exported(s) <==> Clash(signals[..i][k], s) {
      assert signals[..i][k] == signals[k];
      CollisionExact(signals[k], s);
    }
    if Exported(s) in exported {
      var k :| 0 <= k < i && Exported(signals[k]) == Exported(s);
      assert Clash(signals[..i][k], s);
    }
  }

  lemma SoundAppend(signals: seq<Signal>, s: Signal)
    requires Sound(signals) && SignalOk(s) && s.otherErrors == 0
    ensures Sound(signals + [s]) <==> forall k | 0 <= k < |signals| :: !Clash(signals[k], s)
  {
    var after := signals + [s];
    if Sound(after) {
      forall k | 0 <= k < |signals| ensures !Clash(signals[k], s) {
        assert !Clash(after[k], after[|signals|]);
      }
    }
  }

  lemma SoundPrefix(signals: seq<Signal>, i: nat)
    requires i <= |signals| && Sound(signals)
    ensures Sound(signals[..i])
  {
  }

  /** The loop's invariant: nothing reported so far exactly when the visited signals are sound. */
  ghost predicate Judged(signals: seq<Signal>, i: nat, clean: bool, exported: map<string, string>)
    requires i <= |signals|
  {
    && (clean <==> Sound(signals[..i]))
    && (clean ==> (forall k | 0 <= k < i :: signals[k].unit in UNITS) && Tracks(exported, signals, i))
  }

  lemma JudgeNext(signals: seq<Signal>, i: nat, clean: bool, exported: map<string, string>)
    requires DistinctNames(signals) && i < |signals| && Judged(signals, i, clean, exported)
    ensures var s := signals[i];
            if clean && LocalErrors(s) == [] && Exported(s) !in exported
            then Judged(signals, i + 1, true, exported[Exported(s) := s.name])
            else !Sound(signals[..i + 1])
  {
    var s := signals[i];
    LocalErrorsExact(s);
    if Sound(signals[..i + 1]) {
      SoundPrefix(signals[..i + 1], i);
      assert signals[..i + 1][..i] == signals[..i] && signals[..i + 1][i] == s;
    }
    if clean && LocalErrors(s) == [] {
      SoundExtends(signals, i, exported);
      if Exported(s) !in exported {
        TrackNext(signals, i, exported);
      }
    }
  }

  lemma TrackNext(signals: seq<Signal>, i: nat, exported: map<string, string>)
    requires i < |signals| && forall k | 0 <= k <= i :: signals[k].unit in UNITS
    requires Tracks(exported, signals, i) && Exported(signals[i]) !in exported
    ensures Tracks(exported[Exported(signals[i]) := signals[i].name], signals, i + 1)
  {
    var more := exported[Exported(signals[i]) := signals[i].name];
    forall f | f in more ensures exists k :: 0 <= k < i + 1 && Exported(signals[k]) == f {
      if f in exported {
        var k :| 0 <= k < i && Exported(signals[k]) == f;
      } else {
        assert Exported(signals[i]) == f;
      }
    }
  }

  /** Sound tables translate injectively. */
  lemma SoundInjective(signals: seq<Signal>, i: nat, j: nat)
    requires DistinctNames(signals) && Sound(signals) && i < |signals| && j < |signals|
    requires Exported(signals[i]) == Exported(signals[j])
    ensures i == j
  {
    if i < j {
      CollisionExact(signals[i], signals[j]);
    } else if j < i {
      CollisionExact(signals[j], signals[i]);
    }
  }

  /** The loop body: the local rules, then the family looked up and recorded. */
  method JudgeSignal(s: Signal, known: map<string, string>) returns (errors: seq<Error>, exported: map<string, string>)
    ensures errors == [] <==> LocalErrors(s) == [] && Exported(s) !in known
    ensures errors == [] ==> exported == known[Exported(s) := s.name]
    ensures forall f | f in known :: f in exported && exported[f] == known[f]
  {
    errors, exported := LocalErrors(s), known;
    if NameOk(s.name) && s.kind in KINDS && s.unit in UNITS {
      var family := Exported(s);
      if family in exported {
        errors := errors + [Collision(s.name, exported[family])];
      } else {
        exported := exported[family := s.name];
      }
    }
  }

  /** `validate_signals`, over the rules that bear on names: it accepts exactly the sound tables. */
  method ValidateSignals(signals: seq<Signal>) returns (errors: seq<Error>, exported: map<string, string>)
    requires DistinctNames(signals)
    ensures errors == [] <==> Sound(signals)
    ensures errors == [] ==>
              forall i | 0 <= i < |signals| ::
                Exported(signals[i]) in exported && exported[Exported(signals[i])] == signals[i].name
  {
    errors, exported := [], map[];
    for i := 0 to |signals|
      invariant Judged(signals, i, errors == [], exported)
    {
      var s := signals[i];
      JudgeNext(signals, i, errors == [], exported);
      var reported;
      reported, exported := JudgeSignal(s, exported);
      errors := errors + reported;
    }
    assert signals[..|signals|] == signals;
  }
}
