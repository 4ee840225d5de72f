/** Synthetic sessions and rewrite chains: what every draw sequence yields. */
module Sessions {
  import opened Text
  import opened Json
  import opened Timestamp
  import opened DrbgStream
  import opened Wording
  import opened Draws

  // ---- records ----

  datatype Record =
    | SessionStart(id: string, ts: int, account: string, project: string, model: string)
    | User(id: string, ts: int, text: string)
    | Assistant(id: string, ts: int, text: string, tokens: nat, extra: Option<(nat, string)>)
    | ToolUse(id: string, ts: int, tool: string, argsBytes: nat, ok: bool)
    | ToolResult(id: string, ts: int, toolRef: string, bytes: nat)
    | System(id: string, ts: int, text: string)
    | Compaction(id: string, ts: int, priorRecords: nat)
    | SessionEnd(id: string, ts: int, records: nat, reason: string)

  function TypeName(r: Record): string
  {
    match r
    case SessionStart(_, _, _, _, _) => "session_start"
    case User(_, _, _) => "user"
    case Assistant(_, _, _, _, _) => "assistant"
    case ToolUse(_, _, _, _, _) => "tool_use"
    case ToolResult(_, _, _, _) => "tool_result"
    case System(_, _, _) => "system"
    case Compaction(_, _, _) => "compaction"
    case SessionEnd(_, _, _, _) => "session_end"
  }

  /** The ordered pairs a record is printed as. */
  function Pairs(r: Record): seq<Pair>
  {
    [("type", Str(TypeName(r))), ("id", Str(r.id)), ("ts", Str(FormatTs(r.ts)))] +
    match r
    case SessionStart(_, _, account, project, model) =>
      [("account", Str(account)), ("project", Str(project)), ("model", Str(model)), ("schema", Int(1))]
    case User(_, _, text) => [("text", Str(text))]
    case Assistant(_, _, text, tokens, extra) =>
      [("text", Str(text)), ("tokens", Int(tokens))] +
      (match extra
       case None => []
       case Some((future, note)) => [("future_field", Int(future)), ("vendor_note", Str(note))])
    case ToolUse(_, _, tool, argsBytes, ok) => [("tool", Str(tool)), ("args_bytes", Int(argsBytes)), ("ok", Bool(ok))]
    case ToolResult(_, _, toolRef, bytes) => [("tool_ref", Str(toolRef)), ("bytes", Int(bytes))]
    case System(_, _, text) => [("text", Str(text))]
    case Compaction(_, _, prior) => [("prior_records", Int(prior))]
    case SessionEnd(_, _, records, reason) => [("records", Int(records)), ("reason", Str(reason))]
  }

  function LinesOf(records: seq<Record>): (ls: seq<Bytes>)
    ensures |ls| == |records| && forall i | 0 <= i < |records| :: ls[i] == Line(Pairs(records[i]))
  {
    seq(|records|, i requires 0 <= i < |records| => Line(Pairs(records[i])))
  }

  // ---- what a body is ----

  predicate BodyKind(r: Record)
  {
    r.User? || r.Assistant? || r.ToolUse? || r.ToolResult? || r.System?
  }

  function Gap(maxGap: nat): nat
  {
    if maxGap <= 1 then 1 else maxGap
  }

  predicate Step(before: int, after: int, maxGap: nat)
  {
    before < after <= before + Gap(maxGap)
  }

  /** Times advance by at least one second and at most the gap. */
  ghost predicate TimesAdvance(body: seq<Record>, start: int, maxGap: nat)
  {
    && (body != [] ==> Step(start, body[0].ts, maxGap))
    && forall i, j | 0 <= i < j < |body| && j == i + 1 :: Step(body[i].ts, body[j].ts, maxGap)
  }

  predicate ToolKind(r: Record)
  {
    r.ToolUse? || r.ToolResult?
  }

  /** Record `j` is the tool use that result `i` answers: nothing of either kind lies between. */
  ghost predicate Answers(body: seq<Record>, i: nat, j: nat)
    requires i < |body|
  {
    && j < i
    && body[i].ToolResult? && body[j].ToolUse?
    && body[i].toolRef == body[j].id
    && forall k | j < k < i :: !ToolKind(body[k])
  }

  ghost predicate ResultsAnswered(body: seq<Record>)
  {
    forall i {:trigger HasAnswer(body, i)} | 0 <= i < |body| && body[i].ToolResult? :: HasAnswer(body, i)
  }

  ghost predicate HasAnswer(body: seq<Record>, i: nat)
    requires i < |body|
  {
    exists j :: Answers(body, i, j)
  }

  /** The tool use still waiting for a result, if any. */
  ghost predicate Pending(body: seq<Record>, pending: Option<string>)
  {
    pending.Some? ==>
      exists j {:trigger body[j]} :: 0 <= j < |body| && body[j].ToolUse? && body[j].id == pending.value
           && forall k | j < k < |body| :: !ToolKind(body[k])
  }

  ghost predicate Body(body: seq<Record>, start: int, maxGap: nat)
  {
    && (forall i | 0 <= i < |body| :: BodyKind(body[i]))
    && TimesAdvance(body, start, maxGap)
    && ResultsAnswered(body)
  }

  lemma ExtendBody(body: seq<Record>, start: int, maxGap: nat, r: Record, pending: Option<string>)
    requires Body(body, start, maxGap) && Pending(body, pending) && BodyKind(r)
    requires Step(if body == [] then start else body[|body| - 1].ts, r.ts, maxGap)
    requires r.ToolResult? ==> pending == Some(r.toolRef)
    ensures Body(body + [r], start, maxGap)
    ensures r.ToolUse? ==> Pending(body + [r], Some(r.id))
    ensures !ToolKind(r) ==> Pending(body + [r], pending)
  {
    var more := body + [r];
    forall i | 0 <= i < |more| && more[i].ToolResult? ensures HasAnswer(more, i) {
      if i < |body| {
        assert HasAnswer(body, i);
        var j :| Answers(body, i, j);
        assert Answers(more, i, j);
      } else {
        var j :| 0 <= j < |body| && body[j].ToolUse? && body[j].id == pending.value
                 && forall k | j < k < |body| :: !ToolKind(body[k]);
        assert Answers(more, i, j);
      }
    }
    if r.ToolUse? {
      assert more[|body|] == r;
    } else if !ToolKind(r) && pending.Some? {
      var j :| 0 <= j < |body| && body[j].ToolUse? && body[j].id == pending.value
               && forall k | j < k < |body| :: !ToolKind(body[k]);
      assert more[j] == body[j];
    }
  }

  // ---- generation ----

  ghost function AssistantFrom(g: Draws, p: nat, id: string, ts: int, extraFields: bool)
    : Option<(Record, nat)>
  {
    var (text, p1) :- g.sentence(p);
    var (tokens, p2) :- g.below(p1, 4000);
    if !extraFields then Some((Assistant(id, ts, text, 40 + tokens, None), p2))
    else
      var (future, p3) :- g.below(p2, 1000);
      var (note, q) :- g.sentence(p3);
      Some((Assistant(id, ts, text, 40 + tokens, Some((future, note))), q))
  }

  method AssistantRecord(d: Drbg, voc: Vocabulary, ghost g: Draws, id: string, ts: int, extraFields: bool)
    returns (r: Option<Record>)
    requires Ready(d, voc, g)
    modifies d
    ensures Ready(d, voc, g) && Yields(AssistantFrom(g, old(d.Position()), id, ts, extraFields), r, d.Position())
  {
    var text :- SynthSentence(d, voc, g);
    var tokens :- Below(d, voc, g, 4000);
    var extra := None;
    if extraFields {
      var future :- Below(d, voc, g, 1000);
      var note :- SynthSentence(d, voc, g);
      extra := Some((future, note));
    }
    return Some(Assistant(id, ts, text, 40 + tokens, extra));
  }

  ghost function ToolUseFrom(g: Draws, p: nat, id: string, ts: int): Option<(Record, nat)>
  {
    var (tool, p1) :- g.tool(p);
    var (args, p2) :- g.below(p1, 4096);
    var (odds, q) :- g.below(p2, 8);
    Some((ToolUse(id, ts, tool, 16 + args, odds != 0), q))
  }

  method ToolUseRecord(d: Drbg, voc: Vocabulary, ghost g: Draws, id: string, ts: int) returns (r: Option<Record>)
    requires Ready(d, voc, g)
    modifies d
    ensures Ready(d, voc, g) && Yields(ToolUseFrom(g, old(d.Position()), id, ts), r, d.Position())
  {
    var tool :- SynthTool(d, voc, g);
    var args :- Below(d, voc, g, 4096);
    var odds :- Below(d, voc, g, 8);
    return Some(ToolUse(id, ts, tool, 16 + args, odds != 0));
  }

  /** The record of one kind: four in ten user turns, three assistant turns, two tool uses, and one
      tool result, or a system note when no tool use is pending. */
  ghost function KindFrom(g: Draws, p: nat, kind: nat, id: string, ts: int,
                          extraFields: bool, pending: Option<string>)
    : Option<(Record, nat)>
  {
    if kind < 4 then
      var (text, q) :- g.sentence(p);
      Some((User(id, ts, text), q))
    else if kind < 7 then AssistantFrom(g, p, id, ts, extraFields)
    else if kind < 9 then ToolUseFrom(g, p, id, ts)
    else if pending.Some? then
      var (size, q) :- g.below(p, 16384);
      Some((ToolResult(id, ts, pending.value, 16 + size), q))
    else
      var (text, q) :- g.sentence(p);
      Some((System(id, ts, text), q))
  }

  method KindRecord(d: Drbg, voc: Vocabulary, ghost g: Draws, kind: nat, id: string, ts: int, extraFields: bool,
                    pending: Option<string>)
    returns (r: Option<Record>)
    requires Ready(d, voc, g)
    modifies d
    ensures Ready(d, voc, g)
    ensures Yields(KindFrom(g, old(d.Position()), kind, id, ts, extraFields, pending), r, d.Position())
  {
    if kind < 4 {
      var text :- SynthSentence(d, voc, g);
      return Some(User(id, ts, text));
    } else if kind < 7 {
      r := AssistantRecord(d, voc, g, id, ts, extraFields);
    } else if kind < 9 {
      r := ToolUseRecord(d, voc, g, id, ts);
    } else if pending.Some? {
      var size :- Below(d, voc, g, 16384);
      return Some(ToolResult(id, ts, pending.value, 16 + size));
    } else {
      var text :- SynthSentence(d, voc, g);
      return Some(System(id, ts, text));
    }
  }

  /** The tool use waiting for a result after a record. */
  function PendingAfter(r: Record, pending: Option<string>): Option<string>
  {
    if r.ToolUse? then Some(r.id) else if r.ToolResult? then None else pending
  }

  /** One body record: its kind, its identifier, then its own draws. */
  ghost function RecordFrom(g: Draws, p: nat, ts: int, extraFields: bool, pending: Option<string>)
    : (r: Option<(Record, nat)>)
    ensures r.Some? ==> BodyKind(r.value.0) && r.value.0.ts == ts
    ensures r.Some? && r.value.0.ToolResult? ==> pending == Some(r.value.0.toolRef)
  {
    var (kind, p1) :- g.below(p, 10);
    var (id, p2) :- g.uuid(p1);
    KindFrom(g, p2, kind, id, ts, extraFields, pending)
  }

  method BodyRecord(d: Drbg, voc: Vocabulary, ghost g: Draws, ts: int, extraFields: bool, pending: Option<string>)
    returns (r: Option<Record>)
    requires Ready(d, voc, g)
    modifies d
    ensures Ready(d, voc, g) && Yields(RecordFrom(g, old(d.Position()), ts, extraFields, pending), r, d.Position())
  {
    var kind :- Below(d, voc, g, 10);
    var id :- SynthUuid(d, voc, g);
    r := KindRecord(d, voc, g, kind, id, ts, extraFields, pending);
  }

  /** The next body record: the gap to it, then the record. */
  ghost function NextFrom(g: Draws, p: nat, ts: int, maxGap: nat, extraFields: bool, pending: Option<string>)
    : (r: Option<(Record, nat)>)
    ensures r.Some? ==> BodyKind(r.value.0) && (r.value.0.ToolResult? ==> pending == Some(r.value.0.toolRef))
    ensures Bounded(g) && r.Some? ==> Step(ts, r.value.0.ts, maxGap)
  {
    var (step, p1) :- g.below(p, maxGap);
    RecordFrom(g, p1, ts + 1 + step, extraFields, pending)
  }

  /** A source of body records: by position, time so far and pending tool use. */
  type Next = (nat, int, Option<string>) -> Option<(Record, nat)>

  ghost function NextOf(g: Draws, maxGap: nat, extraFields: bool): Next
  {
    (p, ts, pending) => NextFrom(g, p, ts, maxGap, extraFields, pending)
  }

  ghost predicate Wanted(p: nat, ts: int, pending: Option<string>)
  {
    true
  }

  /** `next` is the source the draws make, looked up only where a record is wanted. */
  ghost predicate Follows(next: Next, g: Draws, maxGap: nat, extraFields: bool)
  {
    forall p, ts, pending {:trigger Wanted(p, ts, pending)} ::
      Wanted(p, ts, pending) ==> next(p, ts, pending) == NextFrom(g, p, ts, maxGap, extraFields, pending)
  }

  method NextRecord(d: Drbg, voc: Vocabulary, ghost g: Draws, ghost next: Next, ts: int, maxGap: nat, extraFields: bool,
                    pending: Option<string>)
    returns (r: Option<Record>)
    requires Ready(d, voc, g) && Follows(next, g, maxGap, extraFields)
    modifies d
    ensures Ready(d, voc, g) && Yields(next(old(d.Position()), ts, pending), r, d.Position())
  {
    assert Wanted(d.Position(), ts, pending);
    var step :- Below(d, voc, g, maxGap);
    r := BodyRecord(d, voc, g, ts + 1 + step, extraFields, pending);
  }

  /** A body of which the first records are made. */
  ghost function Behind(lines: seq<Record>, rest: Option<(seq<Record>, nat)>): Option<(seq<Record>, nat)>
  {
    var (more, q) :- rest;
    Some((lines + more, q))
  }

  /** `count` records of a source. */
  ghost function BodyOf(next: Next, p: nat, count: nat, ts: int,
                        pending: Option<string>): (r: Option<(seq<Record>, nat)>)
    ensures r.Some? ==> |r.value.0| == count
    decreases count
  {
    if count == 0 then Some(([], p))
    else
      var (record, p1) :- next(p, ts, pending);
      Behind([record], BodyOf(next, p1, count - 1, record.ts, PendingAfter(record, pending)))
  }

  /** The body the draws determine. */
  ghost function BodyFrom(g: Draws, p: nat, count: nat, start: int, maxGap: nat,
                          extraFields: bool): (r: Option<(seq<Record>, nat)>)
    ensures r.Some? ==> |r.value.0| == count
  {
    BodyOf(NextOf(g, maxGap, extraFields), p, count, start, None)
  }

  lemma BehindNothing(rest: Option<(seq<Record>, nat)>)
    ensures Behind([], rest) == rest
  {
    assert rest.Some? ==> [] + rest.value.0 == rest.value.0;
  }

  lemma BehindNext(lines: seq<Record>, record: Record, rest: Option<(seq<Record>, nat)>)
    ensures Behind(lines, Behind([record], rest)) == Behind(lines + [record], rest)
  {
    if rest.Some? {
      assert lines + ([record] + rest.value.0) == lines + [record] + rest.value.0;
    }
  }

  /** The loop of `body_lines`, over time, list and pending tool use. */
  method BodyLoop(d: Drbg, voc: Vocabulary, ghost g: Draws, ghost next: Next, count: nat, start: int, maxGap: nat,
                  extraFields: bool)
    returns (r: Option<seq<Record>>)
    requires Ready(d, voc, g) && Follows(next, g, maxGap, extraFields)
    modifies d
    ensures Ready(d, voc, g) && Yields(BodyOf(next, old(d.Position()), count, start, None), r, d.Position())
  {
    var ts := start;
    var lines: seq<Record> := [];
    var pending: Option<string> := None;
    ghost var whole := BodyOf(next, d.Position(), count, start, None);
    BehindNothing(whole);
    for i := 0 to count
      invariant Ready(d, voc, g)
      invariant whole == Behind(lines, BodyOf(next, d.Position(), count - i, ts, pending))
    {
      var record :- NextRecord(d, voc, g, next, ts, maxGap, extraFields, pending);
      BehindNext(lines, record, BodyOf(next, d.Position(), count - i - 1, record.ts, PendingAfter(record, pending)));
      ts, lines, pending := record.ts, lines + [record], PendingAfter(record, pending);
    }
    assert lines + [] == lines;
    return Some(lines);
  }

  /** `body_lines`. */
  method BodyLines(d: Drbg, voc: Vocabulary, ghost g: Draws, count: nat, start: int, maxGap: nat, extraFields: bool)
    returns (r: Option<seq<Record>>)
    requires Ready(d, voc, g)
    modifies d
    ensures Ready(d, voc, g)
    ensures Yields(BodyFrom(g, old(d.Position()), count, start, maxGap, extraFields), r, d.Position())
  {
    r := BodyLoop(d, voc, g, NextOf(g, maxGap, extraFields), count, start, maxGap, extraFields);
  }

  /** Every record of a source is later by one step, and a tool result answers the pending tool use. */
  ghost predicate Advances(next: Next, maxGap: nat)
  {
    forall p, ts, pending {:trigger next(p, ts, pending)} :: next(p, ts, pending).Some? ==>
      var r := next(p, ts, pending).value.0;
      BodyKind(r) && (r.ToolResult? ==> pending == Some(r.toolRef)) && Step(ts, r.ts, maxGap)
  }

  lemma {:induction false} BodyGrows(next: Next, p: nat, count: nat, ts: int, maxGap: nat,
                                     pending: Option<string>, before: seq<Record>, start: int)
    requires Advances(next, maxGap) && BodyOf(next, p, count, ts, pending).Some?
    requires Body(before, start, maxGap) && Pending(before, pending)
    requires ts == if before == [] then start else before[|before| - 1].ts
    ensures Body(before + BodyOf(next, p, count, ts, pending).value.0, start, maxGap)
    decreases count
  {
    if count == 0 {
      assert before + [] == before;
    } else {
      var (record, p1) := next(p, ts, pending).value;
      var after := PendingAfter(record, pending);
      ExtendBody(before, start, maxGap, record, pending);
      BodyGrows(next, p1, count - 1, record.ts, maxGap, after, before + [record], start);
      BehindNext(before, record, BodyOf(next, p1, count - 1, record.ts, after));
    }
  }

  /** For every draw: times advance by at least a second and at most the gap, and every tool result
      answers an earlier tool use. */
  lemma BodyFromIsBody(g: Draws, p: nat, count: nat, start: int, maxGap: nat, extraFields: bool)
    requires Bounded(g) && BodyFrom(g, p, count, start, maxGap, extraFields).Some?
    ensures Body(BodyFrom(g, p, count, start, maxGap, extraFields).value.0, start, maxGap)
  {
    BodyGrows(NextOf(g, maxGap, extraFields), p, count, start, maxGap, None, [], start);
    var lines := BodyFrom(g, p, count, start, maxGap, extraFields).value.0;
    assert [] + lines == lines;
  }

  // ---- sessions ----

  ghost predicate Increasing(lines: seq<Record>)
  {
    forall i, j | 0 <= i < j < |lines| :: lines[i].ts < lines[j].ts
  }

  /** A complete session: start, body, and an end that counts every line, itself included. */
  ghost predicate Session(lines: seq<Record>, start: int, maxGap: nat)
  {
    var n := |lines|;
    && n >= 2
    && lines[0].SessionStart? && lines[0].ts == start
    && Body(lines[1..n - 1], start, maxGap)
    && lines[n - 1].SessionEnd? && lines[n - 1].records == n
    && lines[n - 1].ts == start + n * (1 + maxGap)
  }

  ghost predicate OneStartOneEnd(lines: seq<Record>)
  {
    && |lines| >= 2
    && (forall i | 0 <= i < |lines| :: lines[i].SessionStart? <==> i == 0)
    && (forall i | 0 <= i < |lines| :: lines[i].SessionEnd? <==> i == |lines| - 1)
  }

  /** The last line of a file: an identifier and a reason are drawn. */
  ghost function EndFrom(g: Draws, p: nat, ts: int, records: nat): Option<(Record, nat)>
  {
    var (id, p1) :- g.uuid(p);
    var (reason, q) :- g.reason(p1);
    Some((SessionEnd(id, ts, records, reason), q))
  }

  /** `end_line`. */
  method EndLine(d: Drbg, voc: Vocabulary, ghost g: Draws, ts: int, records: nat) returns (r: Option<Record>)
    requires Ready(d, voc, g)
    modifies d
    ensures Ready(d, voc, g) && Yields(EndFrom(g, old(d.Position()), ts, records), r, d.Position())
  {
    var id :- SynthUuid(d, voc, g);
    var reason :- SynthReason(d, voc, g);
    return Some(SessionEnd(id, ts, records, reason));
  }

  /** The first line: the identifier is drawn unless it is given. */
  ghost function StartFrom(g: Draws, p: nat, sid: string, account: string, ts: int): Option<(Record, nat)>
  {
    var (id, p1) :- if sid != "" then Some((sid, p)) else g.uuid(p);
    var (project, p2) :- g.project(p1);
    var (model, q) :- g.model(p2);
    Some((SessionStart(id, ts, account, project, model), q))
  }

  method StartLine(d: Drbg, voc: Vocabulary, ghost g: Draws, sid: string, account: string, ts: int)
    returns (r: Option<Record>)
    requires Ready(d, voc, g)
    modifies d
    ensures Ready(d, voc, g) && Yields(StartFrom(g, old(d.Position()), sid, account, ts), r, d.Position())
  {
    var id := sid;
    if sid == "" {
      id :- SynthUuid(d, voc, g);
    }
    var project :- SynthProject(d, voc, g);
    var model :- SynthModel(d, voc, g);
    return Some(SessionStart(id, ts, account, project, model));
  }

  ghost function SessionFrom(g: Draws, p: nat, sid: string, account: string,
                             start: int, bodyCount: nat, maxGap: nat, extraFields: bool)
    : (r: Option<(seq<Record>, nat)>)
    ensures r.Some? ==> |r.value.0| == bodyCount + 2
  {
    var (first, p1) :- StartFrom(g, p, sid, account, start);
    var (body, p2) :- BodyFrom(g, p1, bodyCount, start, maxGap, extraFields);
    var (last, q) :- EndFrom(g, p2, start + (bodyCount + 2) * (1 + maxGap), bodyCount + 2);
    Some(([first] + body + [last], q))
  }

  /** `synth_session`. */
  method SynthSession(d: Drbg, voc: Vocabulary, ghost g: Draws, sid: string, account: string,
                      start: int, bodyCount: nat, maxGap: nat, extraFields: bool)
    returns (r: Option<seq<Record>>)
    requires Ready(d, voc, g)
    modifies d
    ensures Ready(d, voc, g)
    ensures Yields(SessionFrom(g, old(d.Position()), sid, account, start, bodyCount, maxGap, extraFields), r,
                   d.Position())
  {
    var first :- StartLine(d, voc, g, sid, account, start);
    var lines := [first];
    var body :- BodyLines(d, voc, g, bodyCount, start, maxGap, extraFields);
    lines := lines + body;
    var last :- EndLine(d, voc, g, start + (bodyCount + 2) * (1 + maxGap), |lines| + 1);
    return Some(lines + [last]);
  }

  /** For every draw a session is a start, a body and an end that counts every line. */
  lemma SessionFromIsSession(g: Draws, p: nat, sid: string, account: string,
                             start: int, bodyCount: nat, maxGap: nat, extraFields: bool)
    requires Bounded(g) && SessionFrom(g, p, sid, account, start, bodyCount, maxGap, extraFields).Some?
    ensures var lines := SessionFrom(g, p, sid, account, start, bodyCount, maxGap, extraFields).value.0;
            |lines| == bodyCount + 2 && Session(lines, start, maxGap) && lines[0].account == account
  {
    var p1 := StartFrom(g, p, sid, account, start).value.1;
    var body := BodyFrom(g, p1, bodyCount, start, maxGap, extraFields).value.0;
    BodyFromIsBody(g, p1, bodyCount, start, maxGap, extraFields);
    var lines := SessionFrom(g, p, sid, account, start, bodyCount, maxGap, extraFields).value.0;
    assert lines[1..|lines| - 1] == body;
  }

  lemma {:induction false} BodyTimes(body: seq<Record>, start: int, maxGap: nat, i: nat)
    requires TimesAdvance(body, start, maxGap) && i < |body|
    ensures start < body[i].ts <= start + (i + 1) * Gap(maxGap)
  {
    if i > 0 {
      BodyTimes(body, start, maxGap, i - 1);
      assert Step(body[i - 1].ts, body[i].ts, maxGap);
      assert (i + 1) * Gap(maxGap) == i * Gap(maxGap) + Gap(maxGap);
    }
  }

  lemma {:induction false} BodyIncreasing(body: seq<Record>, start: int, maxGap: nat, i: nat, j: nat)
    requires TimesAdvance(body, start, maxGap) && i < j < |body|
    ensures body[i].ts < body[j].ts
  {
    assert Step(body[j - 1].ts, body[j].ts, maxGap);
    if i < j - 1 {
      BodyIncreasing(body, start, maxGap, i, j - 1);
    }
  }

  lemma SessionEndsLast(lines: seq<Record>, start: int, maxGap: nat, i: nat)
    requires Session(lines, start, maxGap) && i < |lines| - 1
    ensures start <= lines[i].ts <= start + i * Gap(maxGap)
    ensures lines[i].ts < lines[|lines| - 1].ts
  {
    var n := |lines|;
    var body := lines[1..n - 1];
    if i > 0 {
      BodyTimes(body, start, maxGap, i - 1);
      assert body[i - 1] == lines[i];
    }
    EndBound(i, n, maxGap);
  }

  lemma EndBound(i: nat, n: nat, maxGap: nat)
    requires i < n
    ensures i * Gap(maxGap) < n * (1 + maxGap)
  {
    assert i * Gap(maxGap) <= i * (1 + maxGap);
    assert n * (1 + maxGap) == i * (1 + maxGap) + (n - i) * (1 + maxGap);
    assert (n - i) * (1 + maxGap) >= 1;
  }

  /** Time strictly increases over the whole session, for every draw sequence. */
  lemma SessionIncreasing(lines: seq<Record>, start: int, maxGap: nat)
    requires Session(lines, start, maxGap)
    ensures Increasing(lines) && OneStartOneEnd(lines)
  {
    var n := |lines|;
    var body := lines[1..n - 1];
    assert forall k | 0 < k < n - 1 :: lines[k] == body[k - 1];
    forall i, j | 0 <= i < j < n ensures lines[i].ts < lines[j].ts {
      if j == n - 1 {
        SessionEndsLast(lines, start, maxGap, i);
      } else if i == 0 {
        BodyTimes(body, start, maxGap, j - 1);
      } else {
        BodyIncreasing(body, start, maxGap, i - 1, j - 1);
      }
    }
  }

  /** And so do the rendered timestamps, as strings, while they stay in the four-digit window. */
  lemma SessionRendered(lines: seq<Record>, start: int, maxGap: nat, i: nat, j: nat)
    requires Session(lines, start, maxGap) && Renders(start) && Renders(start + |lines| * (1 + maxGap))
    requires i < j < |lines|
    ensures StrLess(FormatTs(lines[i].ts), FormatTs(lines[j].ts))
  {
    SessionIncreasing(lines, start, maxGap);
    SessionEndsLast(lines, start, maxGap, i);
    if j < |lines| - 1 {
      SessionEndsLast(lines, start, maxGap, j);
    }
    FormatOrder(lines[i].ts, lines[j].ts);
  }

  /** The tool use a result answers is the nearest earlier one, and answers no other result. */
  lemma AnswersUnique(body: seq<Record>, i: nat, i': nat, j: nat, j': nat)
    requires i < |body| && i' < |body| && Answers(body, i, j) && Answers(body, i', j')
    ensures forall k | j < k < i :: !body[k].ToolUse?
    ensures j == j' <==> i == i'
  {
    assert i < i' && j == j' ==> ToolKind(body[i]);
    assert i' < i && j == j' ==> ToolKind(body[i']);
    assert i == i' && j < j' ==> ToolKind(body[j']);
    assert i == i' && j' < j ==> ToolKind(body[j]);
  }

  // ---- rewrite chains ----

  const GAP := 600
  const END_AFTER := 7200

  /** One file of a chain: its lines, how many it kept, and where its fresh part starts in time. */
  datatype Generation = Generation(lines: seq<Record>, keep: nat, start: int)

  /** `next` keeps a prefix of `prev` without its end, then compacts and goes on afresh. */
  ghost predicate RewriteOf(prev: seq<Record>, next: Generation)
  {
    var lines, n, keep := next.lines, |next.lines|, next.keep;
    && 2 <= keep <= |prev| - 2 && keep + 6 <= n <= keep + 13
    && lines[..keep] == prev[..keep]
    && lines[keep].Compaction? && lines[keep].ts == next.start && lines[keep].priorRecords == keep
    && Body(lines[keep + 1..n - 1], next.start, GAP)
    && lines[n - 1].SessionEnd? && lines[n - 1].ts == next.start + END_AFTER && lines[n - 1].records == n - 1
  }

  /** Generation `g` (from zero) starts one to three times `g + 1` days after the session. */
  predicate Restart(gen: Generation, start: int, g: nat)
  {
    RestartTime(gen.start, start, g)
  }

  predicate RestartTime(ts: int, start: int, g: nat)
  {
    var days := (g + 1) * DAY;
    ts == start + days || ts == start + 2 * days || ts == start + 3 * days
  }

  ghost predicate Chain(gens: seq<Generation>, start: int)
  {
    && gens != []
    && Session(gens[0].lines, start, GAP) && 14 <= |gens[0].lines| <= 25
    && forall g, h | 0 <= g < h < |gens| && h == g + 1 ::
         RewriteOf(gens[g].lines, gens[h]) && Restart(gens[h], start, h)
  }

  /** What follows the kept prefix: a compaction, a body, and an end counting the lines before it. */
  ghost predicate FreshPart(added: seq<Record>, keep: nat, start: int)
  {
    var m := |added|;
    && 6 <= m <= 13
    && added[0].Compaction? && added[0].ts == start && added[0].priorRecords == keep
    && Body(added[1..m - 1], start, GAP)
    && added[m - 1].SessionEnd? && added[m - 1].ts == start + END_AFTER && added[m - 1].records == keep + m - 1
  }

  ghost function FreshFrom(g: Draws, p: nat, keep: nat, start: int): (r: Option<(seq<Record>, nat)>)
    ensures r.Some? ==> |r.value.0| >= 6
  {
    var (id, p1) :- g.uuid(p);
    var (more, p2) :- g.below(p1, 8);
    var (body, p3) :- BodyFrom(g, p2, 4 + more, start, GAP, false);
    var (last, q) :- EndFrom(g, p3, start + END_AFTER, keep + 1 + |body|);
    Some(([Compaction(id, start, keep)] + body + [last], q))
  }

  method MakeFresh(d: Drbg, voc: Vocabulary, ghost g: Draws, keep: nat, start: int) returns (r: Option<seq<Record>>)
    requires Ready(d, voc, g)
    modifies d
    ensures Ready(d, voc, g) && Yields(FreshFrom(g, old(d.Position()), keep, start), r, d.Position())
  {
    var id :- SynthUuid(d, voc, g);
    var added := [Compaction(id, start, keep)];
    var more :- Below(d, voc, g, 8);
    var body :- BodyLines(d, voc, g, 4 + more, start, GAP, false);
    added := added + body;
    var last :- EndLine(d, voc, g, start + END_AFTER, keep + |added|);
    return Some(added + [last]);
  }

  lemma FreshFromIsFresh(g: Draws, p: nat, keep: nat, start: int)
    requires Bounded(g) && FreshFrom(g, p, keep, start).Some?
    ensures FreshPart(FreshFrom(g, p, keep, start).value.0, keep, start)
  {
    var p1 := g.uuid(p).value.1;
    var (more, p2) := g.below(p1, 8).value;
    var body := BodyFrom(g, p2, 4 + more, start, GAP, false).value.0;
    BodyFromIsBody(g, p2, 4 + more, start, GAP, false);
    var added := FreshFrom(g, p, keep, start).value.0;
    assert added[1..|added| - 1] == body;
  }

  /** How many lines generation `gen`, counted from 1, keeps of `n`, and when its fresh part starts. */
  ghost function RestartFrom(g: Draws, p: nat, start: int, n: nat, gen: nat): (r: Option<((nat, int), nat)>)
    requires Bounded(g) && n >= 4
    ensures r.Some? ==> 2 <= r.value.0.0 <= n - 2
    ensures r.Some? && gen >= 1 ==> RestartTime(r.value.0.1, start, gen - 1)
  {
    var (cut, p1) :- g.below(p, n - 3);
    var (days, q) :- g.below(p1, 3);
    RestartDays(gen * DAY, days);
    Some(((2 + cut, start + gen * DAY * (1 + days)), q))
  }

  method RestartAt(d: Drbg, voc: Vocabulary, ghost g: Draws, start: int, n: nat, gen: nat)
    returns (r: Option<(nat, int)>)
    requires Ready(d, voc, g) && n >= 4
    modifies d
    ensures Ready(d, voc, g) && Yields(RestartFrom(g, old(d.Position()), start, n, gen), r, d.Position())
  {
    var cut :- Below(d, voc, g, n - 3);
    var days :- Below(d, voc, g, 3);
    return Some((2 + cut, start + gen * DAY * (1 + days)));
  }

  /** Generation `gen`, counted from 1, made from its predecessor. */
  ghost function RewriteFrom(g: Draws, p: nat, start: int, prev: seq<Record>, gen: nat): (r: Option<(Generation, nat)>)
    requires Bounded(g) && |prev| >= 4
    ensures r.Some? ==> |r.value.0.lines| >= 4
  {
    var ((keep, genStart), p1) :- RestartFrom(g, p, start, |prev|, gen);
    var (added, q) :- FreshFrom(g, p1, keep, genStart);
    Some((Generation(prev[..keep] + added, keep, genStart), q))
  }

  /** One turn of the rewrite loop: `gen` counts from 2. */
  method Rewrite(d: Drbg, voc: Vocabulary, ghost g: Draws, start: int, prev: seq<Record>, gen: nat)
    returns (r: Option<Generation>)
    requires Ready(d, voc, g) && |prev| >= 4
    modifies d
    ensures Ready(d, voc, g) && Yields(RewriteFrom(g, old(d.Position()), start, prev, gen), r, d.Position())
  {
    var restart :- RestartAt(d, voc, g, start, |prev|, gen);
    var (keep, genStart) := restart;
    var added :- MakeFresh(d, voc, g, keep, genStart);
    return Some(Generation(prev[..keep] + added, keep, genStart));
  }

  /** For every draw it keeps a prefix without the old end, compacts, and goes on afresh. */
  lemma RewriteFromIsRewrite(g: Draws, p: nat, start: int, prev: seq<Record>, gen: nat)
    requires Bounded(g) && |prev| >= 4 && gen >= 1 && RewriteFrom(g, p, start, prev, gen).Some?
    ensures var next := RewriteFrom(g, p, start, prev, gen).value.0;
            RewriteOf(prev, next) && Restart(next, start, gen - 1)
  {
    var ((keep, genStart), p1) := RestartFrom(g, p, start, |prev|, gen).value;
    FreshFromIsFresh(g, p1, keep, genStart);
    Assembled(prev, keep, FreshFrom(g, p1, keep, genStart).value.0, genStart);
  }

  lemma RestartDays(span: nat, days: nat)
    requires days < 3
    ensures span * (1 + days) == span || span * (1 + days) == 2 * span || span * (1 + days) == 3 * span
  {
  }

  lemma Assembled(prev: seq<Record>, keep: nat, added: seq<Record>, start: int)
    requires 2 <= keep <= |prev| - 2 && FreshPart(added, keep, start)
    ensures RewriteOf(prev, Generation(prev[..keep] + added, keep, start))
  {
    var lines := prev[..keep] + added;
    assert lines[keep + 1..|lines| - 1] == added[1..|added| - 1];
  }

  predicate Extensible(gens: seq<Generation>)
  {
    gens != [] && |gens[|gens| - 1].lines| >= 4
  }

  /** The chain from generation `gen` on. */
  ghost function RestFrom(g: Draws, p: nat, start: int, gens: seq<Generation>, gen: nat, generations: nat)
    : Option<seq<Generation>>
    requires Bounded(g) && Extensible(gens)
    decreases generations + 1 - gen
  {
    if gen > generations then Some(gens)
    else
      var (next, q) :- RewriteFrom(g, p, start, gens[|gens| - 1].lines, gen);
      RestFrom(g, q, start, gens + [next], gen + 1, generations)
  }

  const BASE_TS := 20458 * DAY
  const WINDOW_SECONDS := 120 * DAY

  /** Who the session belongs to, when it starts, and how many records its body has. */
  ghost function HeadFrom(g: Draws, p: nat): (r: Option<((string, string, int, nat), nat)>)
    ensures r.Some? ==> r.value.0.3 >= 12
    ensures Bounded(g) && r.Some? ==> r.value.0.3 <= 23 && BASE_TS <= r.value.0.2 < BASE_TS + WINDOW_SECONDS
  {
    var (sid, p1) :- g.uuid(p);
    var (account, p2) :- g.account(p1);
    var (offset, p3) :- g.below(p2, WINDOW_SECONDS);
    var (more, q) :- g.below(p3, 12);
    Some(((sid, account, BASE_TS + offset, 12 + more), q))
  }

  method DrawHead(d: Drbg, voc: Vocabulary, ghost g: Draws) returns (r: Option<(string, string, int, nat)>)
    requires Ready(d, voc, g)
    modifies d
    ensures Ready(d, voc, g) && Yields(HeadFrom(g, old(d.Position())), r, d.Position())
  {
    var sid :- SynthUuid(d, voc, g);
    var account :- SynthAccount(d, voc, g);
    var offset :- Below(d, voc, g, WINDOW_SECONDS);
    var more :- Below(d, voc, g, 12);
    return Some((sid, account, BASE_TS + offset, 12 + more));
  }

  /** The first generation: an ordinary session of twelve to 23 body records. */
  ghost function FirstFrom(g: Draws, p: nat): (r: Option<(Generation, nat)>)
    ensures r.Some? ==> |r.value.0.lines| >= 4
  {
    var ((sid, account, start, count), p1) :- HeadFrom(g, p);
    var (lines, q) :- SessionFrom(g, p1, sid, account, start, count, GAP, false);
    Some((Generation(lines, 0, start), q))
  }

  method FirstGeneration(d: Drbg, voc: Vocabulary, ghost g: Draws) returns (r: Option<Generation>)
    requires Ready(d, voc, g)
    modifies d
    ensures Ready(d, voc, g) && Yields(FirstFrom(g, old(d.Position())), r, d.Position())
  {
    var head :- DrawHead(d, voc, g);
    var (sid, account, start, count) := head;
    var lines :- SynthSession(d, voc, g, sid, account, start, count, GAP, false);
    return Some(Generation(lines, 0, start));
  }

  ghost function ChainFrom(g: Draws, p: nat, generations: nat): Option<seq<Generation>>
    requires Bounded(g)
  {
    var (first, q) :- FirstFrom(g, p);
    RestFrom(g, q, first.start, [first], 2, generations)
  }

  /** One rewritten session of `build_corpus`, for any number of generations. */
  method RewriteChain(d: Drbg, voc: Vocabulary, ghost g: Draws, generations: nat) returns (r: Option<seq<Generation>>)
    requires Ready(d, voc, g)
    modifies d
    ensures Ready(d, voc, g) && r == ChainFrom(g, old(d.Position()), generations)
  {
    var first :- FirstGeneration(d, voc, g);
    var gens := [first];
    var gen := 2;
    ghost var whole := RestFrom(g, d.Position(), first.start, gens, gen, generations);
    while gen <= generations
      invariant Ready(d, voc, g) && Extensible(gens)
      invariant whole == RestFrom(g, d.Position(), first.start, gens, gen, generations)
    {
      var next :- Rewrite(d, voc, g, first.start, gens[|gens| - 1].lines, gen);
      gens := gens + [next];
      gen := gen + 1;
    }
    return Some(gens);
  }

  lemma ChainGrows(gens: seq<Generation>, start: int, next: Generation)
    requires Chain(gens, start) && RewriteOf(gens[|gens| - 1].lines, next) && Restart(next, start, |gens|)
    ensures Chain(gens + [next], start)
  {
    var more := gens + [next];
    forall g, h | 0 <= g < h < |more| && h == g + 1
      ensures RewriteOf(more[g].lines, more[h]) && Restart(more[h], start, h)
    {
      if h < |gens| {
        assert RewriteOf(gens[g].lines, gens[h]) && Restart(gens[h], start, h);
      }
    }
  }

  lemma {:induction false} RestIsChain(g: Draws, p: nat, start: int, gens: seq<Generation>, gen: nat, generations: nat)
    requires Bounded(g) && Extensible(gens) && Chain(gens, start) && |gens| == gen - 1
    requires RestFrom(g, p, start, gens, gen, generations).Some?
    ensures Chain(RestFrom(g, p, start, gens, gen, generations).value, start)
    ensures |RestFrom(g, p, start, gens, gen, generations).value| == if gen > generations then gen - 1 else generations
    decreases generations + 1 - gen
  {
    if gen <= generations {
      var (next, q) := RewriteFrom(g, p, start, gens[|gens| - 1].lines, gen).value;
      RewriteFromIsRewrite(g, p, start, gens[|gens| - 1].lines, gen);
      ChainGrows(gens, start, next);
      RestIsChain(g, q, start, gens + [next], gen + 1, generations);
    }
  }

  /** For every draw and any number of generations: a session, and each further file a rewrite of
      the one before. */
  lemma ChainFromIsChain(g: Draws, p: nat, generations: nat)
    requires Bounded(g) && ChainFrom(g, p, generations).Some?
    ensures var gens := ChainFrom(g, p, generations).value;
            && FirstFrom(g, p).Some?
            && Chain(gens, FirstFrom(g, p).value.0.start)
            && |gens| == if generations == 0 then 1 else generations
  {
    FirstIsChain(g, p);
    var (first, q) := FirstFrom(g, p).value;
    RestIsChain(g, q, first.start, [first], 2, generations);
  }

  lemma FirstIsChain(g: Draws, p: nat)
    requires Bounded(g) && FirstFrom(g, p).Some?
    ensures var first := FirstFrom(g, p).value.0;
            Chain([first], first.start) && BASE_TS <= first.start < BASE_TS + WINDOW_SECONDS
  {
    var ((sid, account, start, count), p1) := HeadFrom(g, p).value;
    SessionFromIsSession(g, p1, sid, account, start, count, GAP, false);
  }

  /** A rewrite keeps the shape: one start, first, and one end, last. */
  lemma RewriteShape(prev: seq<Record>, next: Generation)
    requires OneStartOneEnd(prev) && RewriteOf(prev, next)
    ensures OneStartOneEnd(next.lines)
  {
    var lines, n, keep := next.lines, |next.lines|, next.keep;
    var body := lines[keep + 1..n - 1];
    forall i | 0 <= i < keep ensures lines[i] == prev[i] {
      assert lines[..keep][i] == prev[..keep][i];
    }
    forall i | keep < i < n - 1 ensures BodyKind(lines[i]) {
      assert body[i - keep - 1] == lines[i];
    }
  }

  /** Every generation of every chain has exactly one start, first, and one end, last. */
  lemma {:induction false} ChainShape(gens: seq<Generation>, start: int, g: nat)
    requires Chain(gens, start) && g < |gens|
    ensures OneStartOneEnd(gens[g].lines)
  {
    if g == 0 {
      SessionIncreasing(gens[0].lines, start, GAP);
    } else {
      ChainShape(gens, start, g - 1);
      assert RewriteOf(gens[g - 1].lines, gens[g]);
      RewriteShape(gens[g - 1].lines, gens[g]);
    }
  }

  /** The fresh part of a rewrite is in time order, and its end is later than all of it. */
  lemma FreshIncreasing(prev: seq<Record>, next: Generation)
    requires RewriteOf(prev, next)
    ensures Increasing(next.lines[next.keep..])
  {
    var lines, n, keep := next.lines, |next.lines|, next.keep;
    var added, body := lines[keep..], lines[keep + 1..n - 1];
    var m := |added|;
    assert forall k | 0 < k < m - 1 :: added[k] == body[k - 1];
    forall i, j | 0 <= i < j < m ensures added[i].ts < added[j].ts {
      if i > 0 {
        BodyTimes(body, next.start, GAP, i - 1);
      }
      if 0 < j < m - 1 {
        BodyTimes(body, next.start, GAP, j - 1);
        if i > 0 {
          BodyIncreasing(body, next.start, GAP, i - 1, j - 1);
        }
      }
    }
  }

  /** So its timestamps increase as strings while its first and last render in the window. */
  lemma FreshRendered(prev: seq<Record>, next: Generation, i: nat, j: nat)
    requires RewriteOf(prev, next) && Renders(next.start) && Renders(next.start + END_AFTER)
    requires next.keep <= i < j < |next.lines|
    ensures StrLess(FormatTs(next.lines[i].ts), FormatTs(next.lines[j].ts))
  {
    FreshIncreasing(prev, next);
    var added := next.lines[next.keep..];
    var a, b, last := i - next.keep, j - next.keep, |added| - 1;
    assert added[a].ts < added[b].ts && (b < last ==> added[b].ts < added[last].ts);
    assert a > 0 ==> added[0].ts < added[a].ts;
    FormatOrder(next.lines[i].ts, next.lines[j].ts);
  }

  /** The generated sessions always render in the window: no assumption is left. */
  lemma FirstRendered(g: Draws, p: nat, i: nat, j: nat)
    requires Bounded(g) && FirstFrom(g, p).Some? && i < j < |FirstFrom(g, p).value.0.lines|
    ensures var lines := FirstFrom(g, p).value.0.lines; StrLess(FormatTs(lines[i].ts), FormatTs(lines[j].ts))
  {
    FirstIsChain(g, p);
    var first := FirstFrom(g, p).value.0;
    SessionRendered(first.lines, first.start, GAP, i, j);
  }

  /** A rewritten file is in time order as a whole exactly when its kept part is and the
      compaction is later than the last kept record. */
  lemma RewriteIncreasing(prev: seq<Record>, next: Generation)
    requires RewriteOf(prev, next)
    ensures Increasing(next.lines)
       <==> Increasing(prev[..next.keep]) && prev[next.keep - 1].ts < next.start
  {
    var lines, keep := next.lines, next.keep;
    FreshIncreasing(prev, next);
    var kept, added := prev[..keep], lines[keep..];
    assert lines == kept + added;
    assert kept[keep - 1] == prev[keep - 1] && added[0].ts == next.start;
    if Increasing(lines) {
      assert lines[keep - 1].ts < lines[keep].ts;
      forall i, j | 0 <= i < j < keep ensures kept[i].ts < kept[j].ts {
        assert lines[i] == kept[i] && lines[j] == kept[j];
      }
    }
    if Increasing(kept) && kept[keep - 1].ts < added[0].ts {
      JoinIncreasing(kept, added);
    }
  }

  lemma JoinIncreasing(a: seq<Record>, b: seq<Record>)
    requires Increasing(a) && Increasing(b) && a != [] && b != [] && a[|a| - 1].ts < b[0].ts
    ensures Increasing(a + b)
  {
    forall i, j | 0 <= i < j < |a + b| ensures (a + b)[i].ts < (a + b)[j].ts {
      if i < |a| <= j {
        assert a[i].ts <= a[|a| - 1].ts;
        assert b[0].ts <= b[j - |a|].ts;
      }
    }
  }

  /** The second generation is always in time order as a whole. */
  lemma SecondGenerationIncreasing(gens: seq<Generation>, start: int)
    requires Chain(gens, start) && |gens| >= 2
    ensures Increasing(gens[1].lines)
  {
    var prev := gens[0].lines;
    assert RewriteOf(prev, gens[1]) && Restart(gens[1], start, 1);
    SessionIncreasing(prev, start, GAP);
    SessionEndsLast(prev, start, GAP, gens[1].keep - 1);
    RewriteIncreasing(prev, gens[1]);
  }

  lemma {:induction false} ConcatAppend(a: seq<Bytes>, b: seq<Bytes>)
    ensures Concat(a + b) == Concat(a) + Concat(b)
  {
    if a == [] {
      assert a + b == b;
    } else {
      ConcatAppend(a[1..], b);
      assert (a + b)[1..] == a[1..] + b;
      assert Concat(a + b) == a[0] + (Concat(a[1..]) + Concat(b)) == a[0] + Concat(a[1..]) + Concat(b);
    }
  }

  /** The kept lines are the predecessor's byte for byte: both files start with the same bytes. */
  lemma KeptBytes(prev: seq<Record>, next: Generation)
    requires RewriteOf(prev, next)
    ensures LinesOf(next.lines)[..next.keep] == LinesOf(prev)[..next.keep]
    ensures var kept := Concat(LinesOf(prev)[..next.keep]);
            kept <= Concat(LinesOf(prev)) && kept <= Concat(LinesOf(next.lines))
  {
    var a, b, k := LinesOf(prev), LinesOf(next.lines), next.keep;
    LinesPrefix(prev, k);
    LinesPrefix(next.lines, k);
    PrefixFile(a, k);
    PrefixFile(b, k);
  }

  lemma LinesPrefix(records: seq<Record>, k: nat)
    requires k <= |records|
    ensures LinesOf(records)[..k] == LinesOf(records[..k])
  {
    forall i | 0 <= i < k ensures LinesOf(records)[i] == LinesOf(records[..k])[i] {
      assert records[..k][i] == records[i];
    }
  }

  lemma PrefixFile(lines: seq<Bytes>, k: nat)
    requires k <= |lines|
    ensures Concat(lines[..k]) <= Concat(lines)
  {
    assert lines == lines[..k] + lines[k..];
    ConcatAppend(lines[..k], lines[k..]);
  }
}
