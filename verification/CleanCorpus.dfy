/** Every record of every generated session and rewrite chain passes the content scan's rules on keys
    and strings. */
module CleanCorpus {
  import opened Text
  import opened Json
  import opened Timestamp
  import opened DrbgStream
  import opened Wording
  import opened Draws
  import opened Sessions
  import opened ContentScan

  /** A rule for each kind of text. */
  datatype Rules = Rules(
    id: string -> bool, account: string -> bool, sentence: string -> bool, tool: string -> bool,
    project: string -> bool, model: string -> bool, reason: string -> bool)

  /** The rules of the scan. */
  function RulesOf(voc: Vocabulary): Rules
  {
    Rules(s => IsUuid4(s), s => IsAccount(s), s => IsSentence(s, voc), s => IsTool(s, voc), s => IsProject(s, voc),
          s => IsModel(s), s => s in voc.reasons)
  }

  /** The texts of a record pass their rules. */
  predicate CleanRecord(r: Record, k: Rules)
  {
    && k.id(r.id)
    && match r
       case SessionStart(_, _, account, project, model) => k.account(account) && k.project(project) && k.model(model)
       case User(_, _, text) => k.sentence(text)
       case Assistant(_, _, text, _, extra) => k.sentence(text) && (extra.Some? ==> k.sentence(extra.value.1))
       case ToolUse(_, _, tool, _, _) => k.tool(tool)
       case ToolResult(_, _, toolRef, _) => k.id(toolRef)
       case System(_, _, text) => k.sentence(text)
       case Compaction(_, _, _) => true
       case SessionEnd(_, _, _, reason) => k.reason(reason)
  }

  /** Every text the draws yield passes its rule. */
  ghost predicate Passes(g: Draws, k: Rules)
  {
    && (forall p {:trigger g.uuid(p)} :: g.uuid(p).Some? ==> k.id(g.uuid(p).value.0))
    && (forall p {:trigger g.account(p)} :: g.account(p).Some? ==> k.account(g.account(p).value.0))
    && (forall p {:trigger g.sentence(p)} :: g.sentence(p).Some? ==> k.sentence(g.sentence(p).value.0))
    && (forall p {:trigger g.tool(p)} :: g.tool(p).Some? ==> k.tool(g.tool(p).value.0))
    && (forall p {:trigger g.project(p)} :: g.project(p).Some? ==> k.project(g.project(p).value.0))
    && (forall p {:trigger g.model(p)} :: g.model(p).Some? ==> k.model(g.model(p).value.0))
    && (forall p {:trigger g.reason(p)} :: g.reason(p).Some? ==> k.reason(g.reason(p).value.0))
  }

  predicate AllClean(lines: seq<Record>, k: Rules)
  {
    forall i | 0 <= i < |lines| :: CleanRecord(lines[i], k)
  }

  /** What the scan demands of one pair of a parsed line. */
  predicate PairOk(p: Pair, voc: Vocabulary)
  {
    p.0 in RECORD_KEYS && (p.1.Str? ==> Synthetic(p.1.s, voc))
  }

  predicate PairsOk(ps: seq<Pair>, voc: Vocabulary)
  {
    forall i | 0 <= i < |ps| :: PairOk(ps[i], voc)
  }

  function FirstPairs(r: Record): seq<Pair>
  {
    [("type", Str(TypeName(r))), ("id", Str(r.id)), ("ts", Str(FormatTs(r.ts)))]
  }

  lemma FirstPairsOk(r: Record, voc: Vocabulary)
    requires IsUuid4(r.id) && Renders(r.ts)
    ensures PairsOk(FirstPairs(r), voc)
  {
    TimestampShape(r.ts);
    assert TypeName(r) in TYPE_VALUES;
  }

  /** A clean record whose time renders prints pairs the scan passes. */
  lemma RecordPasses(r: Record, voc: Vocabulary)
    requires CleanRecord(r, RulesOf(voc)) && Renders(r.ts)
    ensures PairsOk(Pairs(r), voc)
  {
    assert RulesOf(voc).id(r.id);
    FirstPairsOk(r, voc);
    OtherPairsOk(r, voc, Pairs(r)[3..]);
    assert Pairs(r) == FirstPairs(r) + Pairs(r)[3..];
    BothOk(FirstPairs(r), Pairs(r)[3..], voc);
  }

  lemma BothOk(a: seq<Pair>, b: seq<Pair>, voc: Vocabulary)
    requires PairsOk(a, voc) && PairsOk(b, voc)
    ensures PairsOk(a + b, voc)
  {
  }

  lemma OtherPairsOk(r: Record, voc: Vocabulary, rest: seq<Pair>)
    requires CleanRecord(r, RulesOf(voc)) && rest == Pairs(r)[3..]
    ensures PairsOk(rest, voc)
  {
    match r
    case SessionStart(_, _, account, project, model) => StartPairs(account, project, model, rest, voc);
    case User(_, _, text) => TextPairs(text, rest[..1], voc);
    case Assistant(_, _, text, _, extra) =>
      TextPairs(text, rest[..1], voc);
      if extra.Some? {
        assert RulesOf(voc).sentence(extra.value.1);
      }
    case ToolUse(_, _, tool, _, _) => assert RulesOf(voc).tool(tool);
    case ToolResult(_, _, toolRef, _) => assert RulesOf(voc).id(toolRef);
    case System(_, _, text) => TextPairs(text, rest[..1], voc);
    case Compaction(_, _, _) =>
    case SessionEnd(_, _, _, reason) => assert RulesOf(voc).reason(reason);
  }

  lemma StartPairs(account: string, project: string, model: string, rest: seq<Pair>, voc: Vocabulary)
    requires RulesOf(voc).account(account) && RulesOf(voc).project(project) && RulesOf(voc).model(model)
    requires rest == [("account", Str(account)), ("project", Str(project)), ("model", Str(model)), ("schema", Int(1))]
    ensures PairsOk(rest, voc)
  {
  }

  lemma TextPairs(text: string, rest: seq<Pair>, voc: Vocabulary)
    requires RulesOf(voc).sentence(text) && rest == [("text", Str(text))]
    ensures PairsOk(rest, voc)
  {
  }

  // ---- what the generator makes ----

  predicate CleanPending(pending: Option<string>, k: Rules)
  {
    pending.Some? ==> k.id(pending.value)
  }

  lemma NextClean(g: Draws, p: nat, ts: int, maxGap: nat, extraFields: bool, pending: Option<string>, k: Rules)
    requires Passes(g, k) && CleanPending(pending, k) && NextFrom(g, p, ts, maxGap, extraFields, pending).Some?
    ensures var r := NextFrom(g, p, ts, maxGap, extraFields, pending).value.0;
            CleanRecord(r, k) && CleanPending(PendingAfter(r, pending), k)
  {
    var p1 := g.below(p, maxGap).value.1;
    var (kind, p2) := g.below(p1, 10).value;
    var (id, p3) := g.uuid(p2).value;
    var t := ts + 1 + g.below(p, maxGap).value.0;
    KindClean(g, p3, kind, id, t, extraFields, pending, k);
    assert NextFrom(g, p, ts, maxGap, extraFields, pending) == KindFrom(g, p3, kind, id, t, extraFields, pending);
  }

  lemma KindClean(g: Draws, p: nat, kind: nat, id: string, ts: int, extraFields: bool, pending: Option<string>,
                  k: Rules)
    requires Passes(g, k) && CleanPending(pending, k) && k.id(id)
    requires KindFrom(g, p, kind, id, ts, extraFields, pending).Some?
    ensures var r := KindFrom(g, p, kind, id, ts, extraFields, pending).value.0; CleanRecord(r, k) && r.id == id
  {
    if 4 <= kind < 7 {
      AssistantClean(g, p, id, ts, extraFields, k);
    }
  }

  lemma AssistantClean(g: Draws, p: nat, id: string, ts: int, extraFields: bool, k: Rules)
    requires Passes(g, k) && k.id(id) && AssistantFrom(g, p, id, ts, extraFields).Some?
    ensures var r := AssistantFrom(g, p, id, ts, extraFields).value.0; CleanRecord(r, k) && r.id == id
  {
    var (text, p1) := g.sentence(p).value;
    var p2 := g.below(p1, 4000).value.1;
    if extraFields {
      var p3 := g.below(p2, 1000).value.1;
      assert k.sentence(g.sentence(p3).value.0);
    }
  }

  lemma {:induction false} BodyClean(g: Draws, p: nat, count: nat, ts: int, maxGap: nat, extraFields: bool,
                                     pending: Option<string>, k: Rules)
    requires Passes(g, k) && CleanPending(pending, k)
    requires BodyOf(NextOf(g, maxGap, extraFields), p, count, ts, pending).Some?
    ensures AllClean(BodyOf(NextOf(g, maxGap, extraFields), p, count, ts, pending).value.0, k)
    decreases count
  {
    if count > 0 {
      var (r, p1) := NextFrom(g, p, ts, maxGap, extraFields, pending).value;
      NextClean(g, p, ts, maxGap, extraFields, pending, k);
      BodyClean(g, p1, count - 1, r.ts, maxGap, extraFields, PendingAfter(r, pending), k);
      var rest := BodyOf(NextOf(g, maxGap, extraFields), p1, count - 1, r.ts, PendingAfter(r, pending));
      FirstThenClean(r, rest.value.0, k);
    }
  }

  lemma FirstThenClean(r: Record, rest: seq<Record>, k: Rules)
    requires CleanRecord(r, k) && AllClean(rest, k)
    ensures AllClean([r] + rest, k)
  {
  }

  lemma EndClean(g: Draws, p: nat, ts: int, records: nat, k: Rules)
    requires Passes(g, k) && EndFrom(g, p, ts, records).Some?
    ensures CleanRecord(EndFrom(g, p, ts, records).value.0, k)
  {
  }

  lemma StartClean(g: Draws, p: nat, sid: string, account: string, ts: int, k: Rules)
    requires Passes(g, k) && k.account(account) && (sid != "" ==> k.id(sid)) && StartFrom(g, p, sid, account, ts).Some?
    ensures CleanRecord(StartFrom(g, p, sid, account, ts).value.0, k)
  {
  }

  lemma Around(first: Record, body: seq<Record>, last: Record, k: Rules)
    requires CleanRecord(first, k) && AllClean(body, k) && CleanRecord(last, k)
    ensures AllClean([first] + body + [last], k)
  {
  }

  /** Every line of a session is clean, whatever is drawn. */
  lemma SessionClean(g: Draws, p: nat, sid: string, account: string, start: int, bodyCount: nat, maxGap: nat,
                     extraFields: bool, k: Rules)
    requires Passes(g, k) && k.account(account) && (sid != "" ==> k.id(sid))
    requires SessionFrom(g, p, sid, account, start, bodyCount, maxGap, extraFields).Some?
    ensures AllClean(SessionFrom(g, p, sid, account, start, bodyCount, maxGap, extraFields).value.0, k)
  {
    var (first, p1) := StartFrom(g, p, sid, account, start).value;
    var (body, p2) := BodyFrom(g, p1, bodyCount, start, maxGap, extraFields).value;
    StartClean(g, p, sid, account, start, k);
    WholeBodyClean(g, p1, bodyCount, start, maxGap, extraFields, k);
    ClosedClean(g, p2, first, body, start + (bodyCount + 2) * (1 + maxGap), bodyCount + 2, k);
  }

  lemma FreshClean(g: Draws, p: nat, keep: nat, start: int, k: Rules)
    requires Passes(g, k) && FreshFrom(g, p, keep, start).Some?
    ensures AllClean(FreshFrom(g, p, keep, start).value.0, k)
  {
    var first, p2, count := FreshParts(g, p, keep, start);
    var (body, p3) := BodyFrom(g, p2, count, start, GAP, false).value;
    WholeBodyClean(g, p2, count, start, GAP, false, k);
    CompactionClean(g, p, first, k);
    ClosedClean(g, p3, first, body, start + END_AFTER, keep + 1 + |body|, k);
  }

  lemma WholeBodyClean(g: Draws, p: nat, count: nat, start: int, maxGap: nat, extraFields: bool, k: Rules)
    requires Passes(g, k) && BodyFrom(g, p, count, start, maxGap, extraFields).Some?
    ensures AllClean(BodyFrom(g, p, count, start, maxGap, extraFields).value.0, k)
  {
    BodyClean(g, p, count, start, maxGap, extraFields, None, k);
  }

  lemma CompactionClean(g: Draws, p: nat, first: Record, k: Rules)
    requires Passes(g, k) && g.uuid(p).Some? && first.Compaction? && first.id == g.uuid(p).value.0
    ensures CleanRecord(first, k)
  {
  }

  lemma FreshParts(g: Draws, p: nat, keep: nat, start: int) returns (first: Record, p2: nat, count: nat)
    requires FreshFrom(g, p, keep, start).Some?
    ensures g.uuid(p).Some? && first == Compaction(g.uuid(p).value.0, start, keep)
    ensures BodyFrom(g, p2, count, start, GAP, false).Some?
    ensures var (body, p3) := BodyFrom(g, p2, count, start, GAP, false).value;
            && EndFrom(g, p3, start + END_AFTER, keep + 1 + |body|).Some?
            && FreshFrom(g, p, keep, start).value.0 ==
               [first] + body + [EndFrom(g, p3, start + END_AFTER, keep + 1 + |body|).value.0]
  {
    var (id, p1) := g.uuid(p).value;
    var (more, q) := g.below(p1, 8).value;
    first, p2, count := Compaction(id, start, keep), q, 4 + more;
  }

  lemma ClosedClean(g: Draws, p: nat, first: Record, body: seq<Record>, ts: int, records: nat, k: Rules)
    requires Passes(g, k) && CleanRecord(first, k) && AllClean(body, k) && EndFrom(g, p, ts, records).Some?
    ensures AllClean([first] + body + [EndFrom(g, p, ts, records).value.0], k)
  {
    EndClean(g, p, ts, records, k);
    Around(first, body, EndFrom(g, p, ts, records).value.0, k);
  }

  lemma RewriteClean(g: Draws, p: nat, start: int, prev: seq<Record>, gen: nat, k: Rules)
    requires Bounded(g) && Passes(g, k) && |prev| >= 4 && AllClean(prev, k) && RewriteFrom(g, p, start, prev, gen).Some?
    ensures AllClean(RewriteFrom(g, p, start, prev, gen).value.0.lines, k)
  {
    var ((keep, genStart), p1) := RestartFrom(g, p, start, |prev|, gen).value;
    FreshClean(g, p1, keep, genStart, k);
  }

  type LinesRule = seq<Record> -> bool

  predicate GensOk(gens: seq<Generation>, ok: LinesRule)
  {
    forall h | 0 <= h < |gens| :: ok(gens[h].lines)
  }

  ghost predicate Tried(p: nat, prev: seq<Record>, gen: nat)
  {
    true
  }

  /** A rewrite of lines that are all right is all right. */
  ghost predicate Inherited(g: Draws, start: int, ok: LinesRule)
    requires Bounded(g)
  {
    forall p, prev, gen {:trigger Tried(p, prev, gen)} ::
      Tried(p, prev, gen) && |prev| >= 4 && ok(prev) && RewriteFrom(g, p, start, prev, gen).Some? ==>
        ok(RewriteFrom(g, p, start, prev, gen).value.0.lines)
  }

  lemma RestNext(g: Draws, p: nat, start: int, gens: seq<Generation>, gen: nat, generations: nat, ok: LinesRule)
    returns (next: Generation, q: nat)
    requires Bounded(g) && Inherited(g, start, ok) && Extensible(gens) && GensOk(gens, ok) && gen <= generations
    requires RestFrom(g, p, start, gens, gen, generations).Some?
    ensures Extensible(gens + [next]) && GensOk(gens + [next], ok)
    ensures RestFrom(g, p, start, gens, gen, generations) == RestFrom(g, q, start, gens + [next], gen + 1, generations)
  {
    var prev := gens[|gens| - 1].lines;
    assert Tried(p, prev, gen);
    next, q := RewriteFrom(g, p, start, prev, gen).value.0, RewriteFrom(g, p, start, prev, gen).value.1;
  }

  lemma {:induction false} RestOk(g: Draws, p: nat, start: int, gens: seq<Generation>, gen: nat, generations: nat,
                                  ok: LinesRule)
    requires Bounded(g) && Inherited(g, start, ok) && Extensible(gens) && GensOk(gens, ok)
    requires RestFrom(g, p, start, gens, gen, generations).Some?
    ensures GensOk(RestFrom(g, p, start, gens, gen, generations).value, ok)
    decreases generations + 1 - gen
  {
    if gen <= generations {
      var next, q := RestNext(g, p, start, gens, gen, generations, ok);
      RestOk(g, q, start, gens + [next], gen + 1, generations, ok);
    }
  }

  function CleanLines(k: Rules): LinesRule
  {
    lines => AllClean(lines, k)
  }

  lemma CleanInherited(g: Draws, start: int, k: Rules)
    requires Bounded(g) && Passes(g, k)
    ensures Inherited(g, start, CleanLines(k))
  {
    forall p, prev, gen {:trigger Tried(p, prev, gen)}
      | |prev| >= 4 && AllClean(prev, k) && RewriteFrom(g, p, start, prev, gen).Some?
      ensures AllClean(RewriteFrom(g, p, start, prev, gen).value.0.lines, k)
    {
      RewriteClean(g, p, start, prev, gen, k);
    }
  }

  lemma FirstClean(g: Draws, p: nat, k: Rules)
    requires Passes(g, k) && FirstFrom(g, p).Some?
    ensures AllClean(FirstFrom(g, p).value.0.lines, k)
  {
    var ((sid, account, start, count), p1) := HeadFrom(g, p).value;
    SessionClean(g, p1, sid, account, start, count, GAP, false, k);
  }

  /** Every line of every generation passes the scan's key and string rules, for every stream over a
      vocabulary of lower-case words, while its time renders. */
  lemma ChainPasses(block: nat -> Block, p: nat, generations: nat, voc: Vocabulary, h: nat, i: nat)
    requires Plain(voc) && ChainFrom(DrawsOf(block, voc), p, generations).Some?
    requires var gens := ChainFrom(DrawsOf(block, voc), p, generations).value; h < |gens| && i < |gens[h].lines|
    ensures var r := ChainFrom(DrawsOf(block, voc), p, generations).value[h].lines[i];
            CleanRecord(r, RulesOf(voc)) && (Renders(r.ts) ==> PairsOk(Pairs(r), voc))
  {
    StreamPasses(block, voc);
    ChainClean(DrawsOf(block, voc), p, generations, RulesOf(voc));
    var r := ChainFrom(DrawsOf(block, voc), p, generations).value[h].lines[i];
    if Renders(r.ts) {
      RecordPasses(r, voc);
    }
  }

  lemma StreamPasses(block: nat -> Block, voc: Vocabulary)
    requires Plain(voc)
    ensures Passes(DrawsOf(block, voc), RulesOf(voc))
  {
    StreamClean(block, voc);
  }

  lemma ChainClean(g: Draws, p: nat, generations: nat, k: Rules)
    requires Bounded(g) && Passes(g, k) && ChainFrom(g, p, generations).Some?
    ensures GensOk(ChainFrom(g, p, generations).value, CleanLines(k))
  {
    var (first, q) := FirstFrom(g, p).value;
    FirstClean(g, p, k);
    CleanInherited(g, first.start, k);
    RestOk(g, q, first.start, [first], 2, generations, CleanLines(k));
  }
}
