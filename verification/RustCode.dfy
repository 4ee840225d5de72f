/** The comment-stripping scanner `rust_code`: a loop over four modes, proved against the
    segments (code, strings, comments, character literals) that a Rust text is made of. */
module RustCode {
  import opened Text

  // ---- the scanner ----

  datatype Mode = Code | InString | InLine | InBlock(depth: nat)

  predicate StartsWith(t: string, c: char, d: char)
  {
    |t| >= 2 && t[0] == c && t[1] == d
  }

  /** Length of the character literal at the front of `t`, or 0: the pattern is a tick, then an
      escaped character other than a newline or a plain one other than tick and backslash, then a tick. */
  function CharLiteralLength(t: string): (k: nat)
    ensures k <= |t|
  {
    if |t| >= 4 && t[0] == '\'' && t[1] == '\\' && t[2] != '\n' && t[3] == '\'' then 4
    else if |t| >= 3 && t[0] == '\'' && t[1] != '\'' && t[1] != '\\' && t[2] == '\'' then 3
    else 0
  }

  function Shallower(d: nat): Mode
  {
    if d <= 1 then Code else InBlock(d - 1)
  }

  /** One turn of the loop: how far it moves, what it emits, and the next mode. */
  datatype Turn = Turn(step: nat, emit: string, next: Mode)

  function TurnAt(t: string, m: Mode): (r: Turn)
    requires t != ""
    ensures 0 < r.step <= |t|
  {
    match m
    case InString =>
      if t[0] == '\\' && |t| > 1 then Turn(2, t[..2], InString)
      else Turn(1, [t[0]], if t[0] == '"' then Code else InString)
    case InLine => if t[0] == '\n' then Turn(1, "\n", Code) else Turn(1, "", InLine)
    case InBlock(d) =>
      if StartsWith(t, '/', '*') then Turn(2, "", InBlock(d + 1))
      else if StartsWith(t, '*', '/') then Turn(2, "", Shallower(d))
      else Turn(1, "", m)
    case Code =>
      if t[0] == '"' then Turn(1, "\"", InString)
      else if StartsWith(t, '/', '/') then Turn(2, "", InLine)
      else if StartsWith(t, '/', '*') then Turn(2, "", InBlock(1))
      else if t[0] == '\'' then
        (var k := CharLiteralLength(t); if k > 0 then Turn(k, t[..k], Code) else Turn(1, "", Code))
      else Turn(1, [t[0]], Code)
  }

  /** What the scanner emits for the text `t` from mode `m` on. */
  function Strip(t: string, m: Mode): string
    decreases |t|
  {
    if t == "" then ""
    else
      var r := TurnAt(t, m);
      r.emit + Strip(t[r.step..], r.next)
  }

  ghost function ModeOf(inString: bool, inLine: bool, depth: nat): Mode
  {
    if inString then InString else if inLine then InLine else if depth > 0 then InBlock(depth) else Code
  }

  /** At most one of the scanner's three conditions is on. */
  predicate OneMode(inString: bool, inLine: bool, depth: nat)
  {
    !(inString && inLine) && (inString || inLine ==> depth == 0)
  }

  /** The loop body of `rust_code` at the text `rest`. */
  method Advance(rest: string, wasString: bool, wasLine: bool, wasDepth: nat)
    returns (emit: string, step: nat, inString: bool, inLine: bool, depth: nat)
    requires rest != "" && OneMode(wasString, wasLine, wasDepth)
    ensures OneMode(inString, inLine, depth)
    ensures Turn(step, emit, ModeOf(inString, inLine, depth)) == TurnAt(rest, ModeOf(wasString, wasLine, wasDepth))
  {
    emit, step := "", 1;
    inString, inLine, depth := wasString, wasLine, wasDepth;
    var c := rest[0];
    if inString {
      emit := [c];
      if c == '\\' && 1 < |rest| {
        emit, step := emit + [rest[1]], 2;
      } else if c == '"' {
        inString := false;
      }
    } else if inLine {
      if c == '\n' {
        inLine, emit := false, [c];
      }
    } else if depth > 0 {
      if StartsWith(rest, '/', '*') {
        depth, step := depth + 1, 2;
      } else if StartsWith(rest, '*', '/') {
        depth, step := depth - 1, 2;
      }
    } else if c == '"' {
      inString, emit := true, [c];
    } else if StartsWith(rest, '/', '/') {
      inLine, step := true, 2;
    } else if StartsWith(rest, '/', '*') {
      depth, step := 1, 2;
    } else if c == '\'' {
      var k := CharLiteralLength(rest);
      if k > 0 {
        emit, step := rest[..k], k;
      }
    } else {
      emit := [c];
    }
  }

  /** One turn of the loop in place: what is out and what is still to come stay the same text. */
  method Proceed(text: string, was: string, index: nat, wasString: bool, wasLine: bool, wasDepth: nat)
    returns (out: string, next: nat, inString: bool, inLine: bool, depth: nat)
    requires index < |text| && OneMode(wasString, wasLine, wasDepth)
    ensures index < next <= |text| && OneMode(inString, inLine, depth)
    ensures out + Strip(text[next..], ModeOf(inString, inLine, depth)) ==
            was + Strip(text[index..], ModeOf(wasString, wasLine, wasDepth))
  {
    var emit, step;
    emit, step, inString, inLine, depth := Advance(text[index..], wasString, wasLine, wasDepth);
    ScanStep(text, index, was, ModeOf(wasString, wasLine, wasDepth), Turn(step, emit, ModeOf(inString, inLine, depth)));
    out, next := was + emit, index + step;
  }

  /** `rust_code`: one index, two flags, a nesting depth and an output list. */
  method Scan(text: string) returns (out: string)
    ensures out == Strip(text, Code)
  {
    out := "";
    var index: nat := 0;
    var inString, inLine := false, false;
    var depth: nat := 0;
    assert text[0..] == text;
    while index < |text|
      invariant index <= |text| && OneMode(inString, inLine, depth)
      invariant out + Strip(text[index..], ModeOf(inString, inLine, depth)) == Strip(text, Code)
    {
      out, index, inString, inLine, depth := Proceed(text, out, index, inString, inLine, depth);
    }
    assert text[index..] == "";
  }

  lemma ScanStep(text: string, index: nat, out: string, m: Mode, r: Turn)
    requires index < |text| && r == TurnAt(text[index..], m)
    ensures out + Strip(text[index..], m) == (out + r.emit) + Strip(text[index + r.step..], r.next)
  {
    var t := text[index..];
    assert t[r.step..] == text[index + r.step..];
    Associate(out, r.emit, Strip(t[r.step..], r.next));
  }

  // ---- nested block comments ----

  /** The inside of a block comment up to and including its closing marker. */
  datatype Body = End | Ch(c: char, rest: Body) | Sub(inner: Body, rest: Body)

  function RenderBody(b: Body): (t: string)
    ensures |t| >= 2
  {
    match b
    case End => "*/"
    case Ch(c, rest) => [c] + RenderBody(rest)
    case Sub(inner, rest) => "/*" + (RenderBody(inner) + RenderBody(rest))
  }

  /** No character of the comment forms a marker with its successor. */
  predicate BodyOk(b: Body)
  {
    match b
    case End => true
    case Ch(c, rest) =>
      && BodyOk(rest)
      && !(c == '/' && RenderBody(rest)[0] == '*')
      && !(c == '*' && RenderBody(rest)[0] == '/')
    case Sub(inner, rest) => BodyOk(inner) && BodyOk(rest)
  }

  lemma StripEnd(tail: string, d: nat)
    requires d >= 1
    ensures Strip(RenderBody(End) + tail, InBlock(d)) == Strip(tail, Shallower(d))
  {
    StripCloses("*/" + tail, d);
    assert ("*/" + tail)[2..] == tail;
  }

  lemma StripCh(c: char, rest: Body, tail: string, d: nat)
    requires BodyOk(Ch(c, rest)) && d >= 1
    ensures Strip(RenderBody(Ch(c, rest)) + tail, InBlock(d)) == Strip(RenderBody(rest) + tail, InBlock(d))
  {
    RenderedCh(c, rest, tail);
    StripInside(RenderBody(Ch(c, rest)) + tail, d);
  }

  lemma StripSub(inner: Body, rest: Body, tail: string, d: nat)
    requires d >= 1
    ensures Strip(RenderBody(Sub(inner, rest)) + tail, InBlock(d)) ==
            Strip(RenderBody(inner) + (RenderBody(rest) + tail), InBlock(d + 1))
  {
    RenderedSub(inner, rest, tail);
    StripOpens(RenderBody(Sub(inner, rest)) + tail, d);
  }

  type Stripper = (string, Mode) -> string

  /** A body that is looked at. */
  ghost predicate Shown(b: Body, tail: string, d: nat)
  {
    true
  }

  /** What one item of a comment body does, looked up only where a body is shown. */
  ghost predicate Skips(strip: Stripper)
  {
    forall b, tail, d: nat {:trigger Shown(b, tail, d)} :: Shown(b, tail, d) && BodyOk(b) && d >= 1 ==>
      strip(RenderBody(b) + tail, InBlock(d)) ==
      match b
      case End => strip(tail, Shallower(d))
      case Ch(_, rest) => strip(RenderBody(rest) + tail, InBlock(d))
      case Sub(inner, rest) => strip(RenderBody(inner) + (RenderBody(rest) + tail), InBlock(d + 1))
  }

  lemma {:induction false} SkipBody(strip: Stripper, b: Body, tail: string, d: nat)
    requires Skips(strip) && BodyOk(b) && d >= 1
    ensures strip(RenderBody(b) + tail, InBlock(d)) == strip(tail, Shallower(d))
  {
    assert Shown(b, tail, d);
    match b
    case End =>
    case Ch(_, rest) =>
      SkipBody(strip, rest, tail, d);
    case Sub(inner, rest) =>
      SkipBody(strip, inner, RenderBody(rest) + tail, d + 1);
      SkipBody(strip, rest, tail, d);
  }

  function Scanner(): Stripper
  {
    (t, m) => Strip(t, m)
  }

  lemma ScannerSkips()
    ensures Skips(Scanner())
  {
    forall b, tail, d: nat {:trigger Shown(b, tail, d)} | BodyOk(b) && d >= 1
      ensures Strip(RenderBody(b) + tail, InBlock(d)) ==
              match b
              case End => Strip(tail, Shallower(d))
              case Ch(_, rest) => Strip(RenderBody(rest) + tail, InBlock(d))
              case Sub(inner, rest) => Strip(RenderBody(inner) + (RenderBody(rest) + tail), InBlock(d + 1))
    {
      match b
      case End => StripEnd(tail, d);
      case Ch(c, rest) => StripCh(c, rest, tail, d);
      case Sub(inner, rest) => StripSub(inner, rest, tail, d);
    }
  }

  /** A comment of any nesting is skipped whole, whatever follows it. */
  lemma StripBody(b: Body, tail: string, d: nat)
    requires BodyOk(b) && d >= 1
    ensures Strip(RenderBody(b) + tail, InBlock(d)) == Strip(tail, Shallower(d))
  {
    ScannerSkips();
    SkipBody(Scanner(), b, tail, d);
  }

  lemma RenderedCh(c: char, rest: Body, tail: string)
    requires BodyOk(Ch(c, rest))
    ensures var t := RenderBody(Ch(c, rest)) + tail;
            && t[1..] == RenderBody(rest) + tail && t[0] == c
            && !StartsWith(t, '/', '*') && !StartsWith(t, '*', '/')
  {
    assert (RenderBody(Ch(c, rest)) + tail)[1] == RenderBody(rest)[0];
  }

  lemma RenderedSub(inner: Body, rest: Body, tail: string)
    ensures var t := RenderBody(Sub(inner, rest)) + tail;
            StartsWith(t, '/', '*') && t[2..] == RenderBody(inner) + (RenderBody(rest) + tail)
  {
    BlockText(RenderBody(inner) + RenderBody(rest), tail);
    Associate(RenderBody(inner), RenderBody(rest), tail);
  }

  lemma StripCloses(t: string, d: nat)
    requires StartsWith(t, '*', '/') && d >= 1
    ensures Strip(t, InBlock(d)) == Strip(t[2..], Shallower(d))
  {
  }

  lemma StripInside(t: string, d: nat)
    requires t != "" && !StartsWith(t, '/', '*') && !StartsWith(t, '*', '/')
    ensures Strip(t, InBlock(d)) == Strip(t[1..], InBlock(d))
  {
  }

  lemma StripOpens(t: string, d: nat)
    requires StartsWith(t, '/', '*')
    ensures Strip(t, InBlock(d)) == Strip(t[2..], InBlock(d + 1))
  {
  }

  /** Reads one comment body off the front of a text, if one closes there. */
  function ReadBody(t: string): (r: Option<(Body, string)>)
    ensures r.Some? ==> |r.value.1| < |t|
    decreases |t|
  {
    if t == "" then None
    else if StartsWith(t, '*', '/') then Some((End, t[2..]))
    else if StartsWith(t, '/', '*') then
      var (inner, t1) :- ReadBody(t[2..]);
      var (rest, t2) :- ReadBody(t1);
      Some((Sub(inner, rest), t2))
    else
      var (rest, t1) :- ReadBody(t[1..]);
      Some((Ch(t[0], rest), t1))
  }

  lemma {:induction false} ReadBodySound(t: string)
    requires ReadBody(t).Some?
    ensures var (b, rest) := ReadBody(t).value; BodyOk(b) && RenderBody(b) + rest == t
    decreases |t|
  {
    var (b, end) := ReadBody(t).value;
    if StartsWith(t, '*', '/') {
      assert t == t[..2] + t[2..];
    } else if StartsWith(t, '/', '*') {
      var (inner, t1) := ReadBody(t[2..]).value;
      var (rest, t2) := ReadBody(t1).value;
      ReadBodySound(t[2..]);
      ReadBodySound(t1);
      JoinSub(t, inner, rest, end);
    } else {
      var (rest, t1) := ReadBody(t[1..]).value;
      ReadBodySound(t[1..]);
      JoinCh(t, rest, end);
    }
  }

  lemma JoinSub(t: string, inner: Body, rest: Body, end: string)
    requires StartsWith(t, '/', '*') && t[2..] == RenderBody(inner) + (RenderBody(rest) + end)
    ensures RenderBody(Sub(inner, rest)) + end == t
  {
    assert t == "/*" + t[2..];
  }

  lemma JoinCh(t: string, rest: Body, end: string)
    requires |t| > 0 && t[1..] == RenderBody(rest) + end && BodyOk(rest)
    requires !StartsWith(t, '/', '*') && !StartsWith(t, '*', '/')
    ensures RenderBody(Ch(t[0], rest)) + end == t && BodyOk(Ch(t[0], rest))
  {
    assert t == [t[0]] + t[1..];
    assert t[1] == t[1..][0] == RenderBody(rest)[0];
  }

  lemma {:induction false} ReadBodyComplete(b: Body, tail: string)
    requires BodyOk(b)
    ensures ReadBody(RenderBody(b) + tail) == Some((b, tail))
  {
    match b
    case End =>
      assert (RenderBody(b) + tail)[2..] == tail;
    case Ch(c, rest) =>
      RenderedCh(c, rest, tail);
      ReadBodyComplete(rest, tail);
    case Sub(inner, rest) =>
      RenderedSub(inner, rest, tail);
      ReadBodyComplete(inner, RenderBody(rest) + tail);
      ReadBodyComplete(rest, tail);
  }

  /** A comment that never closes swallows the rest of the text. */
  lemma {:induction false} StripOpenBody(t: string, d: nat)
    requires ReadBody(t).None? && d >= 1
    ensures Strip(t, InBlock(d)) == ""
    decreases |t|
  {
    if t != "" {
      OpenBody(t);
      if !StartsWith(t, '/', '*') {
        StripInside(t, d);
        StripOpenBody(t[1..], d);
      } else if ReadBody(t[2..]).None? {
        StripOpens(t, d);
        StripOpenBody(t[2..], d + 1);
      } else {
        StripInner(t, d);
        StripOpenBody(ReadBody(t[2..]).value.1, d);
      }
    }
  }

  lemma OpenBody(t: string)
    requires t != "" && ReadBody(t).None?
    ensures !StartsWith(t, '*', '/')
    ensures if !StartsWith(t, '/', '*') then ReadBody(t[1..]).None?
            else ReadBody(t[2..]).None? || ReadBody(ReadBody(t[2..]).value.1).None?
  {
  }

  lemma StripInner(t: string, d: nat)
    requires StartsWith(t, '/', '*') && ReadBody(t[2..]).Some? && d >= 1
    ensures Strip(t, InBlock(d)) == Strip(ReadBody(t[2..]).value.1, InBlock(d))
  {
    ReadBodySound(t[2..]);
    var (body, rest) := ReadBody(t[2..]).value;
    SkipInner(t, d, body, rest);
  }

  lemma SkipInner(t: string, d: nat, body: Body, rest: string)
    requires StartsWith(t, '/', '*') && BodyOk(body) && t[2..] == RenderBody(body) + rest && d >= 1
    ensures Strip(t, InBlock(d)) == Strip(rest, InBlock(d))
  {
    StripOpens(t, d);
    StripText(t[2..], body, rest, d + 1);
  }

  lemma StripText(t: string, body: Body, rest: string, d: nat)
    requires BodyOk(body) && t == RenderBody(body) + rest && d >= 1
    ensures Strip(t, InBlock(d)) == Strip(rest, Shallower(d))
  {
    StripBody(body, rest, d);
  }

  // ---- string literals ----

  datatype Item = Raw(c: char) | Escape(c: char)

  function RenderItems(items: seq<Item>): string
  {
    if items == [] then ""
    else (if items[0].Raw? then [items[0].c] else ['\\', items[0].c]) + RenderItems(items[1..])
  }

  predicate ItemsOk(items: seq<Item>)
  {
    forall i | 0 <= i < |items| && items[i].Raw? :: items[i].c != '"' && items[i].c != '\\'
  }

  /** What ends a string: its closing quote, the end of the text, or a last lone backslash. */
  predicate StringEnd(end: string)
  {
    end == "\"" || end == "" || end == "\\"
  }

  lemma StripItem(item: Item, more: string)
    requires item.Raw? ==> item.c != '"' && item.c != '\\'
    ensures var head := if item.Raw? then [item.c] else ['\\', item.c];
            Strip(head + more, InString) == head + Strip(more, InString)
  {
    var head := if item.Raw? then [item.c] else ['\\', item.c];
    assert (head + more)[|head|..] == more && (head + more)[..|head|] == head;
  }

  lemma {:induction false} StripItems(items: seq<Item>, more: string)
    requires ItemsOk(items)
    ensures Strip(RenderItems(items) + more, InString) == RenderItems(items) + Strip(more, InString)
  {
    if items == [] {
      assert RenderItems(items) + more == more;
    } else {
      StripItems(items[1..], more);
      var head := if items[0].Raw? then [items[0].c] else ['\\', items[0].c];
      var tail := RenderItems(items[1..]);
      StripItem(items[0], tail + more);
      assert head + tail + more == head + (tail + more);
      assert head + tail + Strip(more, InString) == head + (tail + Strip(more, InString));
    }
  }

  lemma StripStringEnd(end: string, tail: string)
    requires StringEnd(end) && (end != "\"" ==> tail == "")
    ensures Strip(end + tail, InString) == end + Strip(tail, Code)
  {
    if end == "\"" {
      assert (end + tail)[1..] == tail;
    } else if end == "\\" {
      assert (end + tail)[1..] == "" && Strip("", Code) == "";
    }
  }

  /** A string survives unchanged, comment markers and escaped quotes included. */
  lemma StripString(items: seq<Item>, end: string, tail: string)
    requires ItemsOk(items) && StringEnd(end) && (end != "\"" ==> tail == "")
    ensures Strip(RenderItems(items) + (end + tail), InString) == RenderItems(items) + (end + Strip(tail, Code))
  {
    StripItems(items, end + tail);
    StripStringEnd(end, tail);
  }

  /** Reads string items up to the end of the string. */
  function ReadString(t: string): (r: (seq<Item>, string, string))
    ensures |r.2| <= |t| && StringEnd(r.1) && (r.1 != "\"" ==> r.2 == "")
    decreases |t|
  {
    if t == "" then ([], "", "")
    else if t[0] == '"' then ([], "\"", t[1..])
    else if t[0] == '\\' then
      if |t| == 1 then ([], "\\", "")
      else
        var (items, end, rest) := ReadString(t[2..]);
        ([Escape(t[1])] + items, end, rest)
    else
      var (items, end, rest) := ReadString(t[1..]);
      ([Raw(t[0])] + items, end, rest)
  }

  lemma ItemFirst(first: Item, items: seq<Item>, end: string, rest: string)
    ensures var head := if first.Raw? then [first.c] else ['\\', first.c];
            RenderItems([first] + items) + end + rest == head + (RenderItems(items) + end + rest)
  {
    assert ([first] + items)[1..] == items;
  }

  lemma {:induction false} ReadStringSound(t: string)
    ensures var (items, end, rest) := ReadString(t); ItemsOk(items) && RenderItems(items) + end + rest == t
    decreases |t|
  {
    if t != "" && t[0] != '"' && !(t[0] == '\\' && |t| == 1) {
      var k := if t[0] == '\\' then 2 else 1;
      ReadStringSound(t[k..]);
      var (items, end, rest) := ReadString(t[k..]);
      var first := if t[0] == '\\' then Escape(t[1]) else Raw(t[0]);
      ItemFirst(first, items, end, rest);
      assert t == t[..k] + t[k..];
    }
  }

  lemma {:induction false} ReadStringComplete(items: seq<Item>, end: string, tail: string)
    requires ItemsOk(items) && StringEnd(end) && (end != "\"" ==> tail == "")
    ensures ReadString(RenderItems(items) + end + tail) == (items, end, tail)
  {
    var t := RenderItems(items) + end + tail;
    if items == [] {
      if end == "\"" {
        assert t[1..] == tail;
      }
    } else {
      var k := if items[0].Raw? then 1 else 2;
      ReadStringComplete(items[1..], end, tail);
      assert t[k..] == RenderItems(items[1..]) + end + tail;
      assert items == [items[0]] + items[1..];
    }
  }

  // ---- line comments ----

  predicate OneLine(s: string)
  {
    forall i | 0 <= i < |s| :: s[i] != '\n'
  }

  lemma {:induction false} StripLine(body: string, closed: bool, tail: string)
    requires OneLine(body) && (!closed ==> tail == "")
    ensures Strip(body + (if closed then "\n" else "") + tail, InLine)
         == (if closed then "\n" else "") + Strip(tail, Code)
  {
    var t := body + (if closed then "\n" else "") + tail;
    if body == "" {
      if closed {
        assert t[1..] == tail;
      }
    } else {
      StripLine(body[1..], closed, tail);
      assert t[1..] == body[1..] + (if closed then "\n" else "") + tail;
    }
  }

  function ReadLine(t: string): (r: (string, bool, string))
    ensures OneLine(r.0) && (!r.1 ==> r.2 == "") && r.0 + (if r.1 then "\n" else "") + r.2 == t
  {
    if t == "" then ("", false, "")
    else if t[0] == '\n' then ("", true, t[1..])
    else
      var (body, closed, rest) := ReadLine(t[1..]);
      assert t == [t[0]] + t[1..];
      ([t[0]] + body, closed, rest)
  }

  lemma {:induction false} ReadLineComplete(body: string, closed: bool, tail: string)
    requires OneLine(body) && (!closed ==> tail == "")
    ensures ReadLine(body + (if closed then "\n" else "") + tail) == (body, closed, tail)
  {
    var t := body + (if closed then "\n" else "") + tail;
    if body == "" {
      if closed {
        assert t[1..] == tail;
      }
    } else {
      ReadLineComplete(body[1..], closed, tail);
      assert t[1..] == body[1..] + (if closed then "\n" else "") + tail;
      assert body == [body[0]] + body[1..];
    }
  }

  // ---- whole texts ----

  datatype Segment =
    | Plain(c: char)
    | Quoted(items: seq<Item>, end: string)
    | Line(body: string, closed: bool)
    | Block(comment: Body)
    | OpenBlock(raw: string)
    | CharLiteral(literal: string)
    | Tick

  function RenderSegment(s: Segment): (t: string)
    ensures |t| > 0
  {
    match s
    case Plain(c) => [c]
    case Quoted(items, end) => "\"" + (RenderItems(items) + end)
    case Line(body, closed) => "//" + (body + if closed then "\n" else "")
    case Block(body) => "/*" + RenderBody(body)
    case OpenBlock(raw) => "/*" + raw
    case CharLiteral(literal) => "'" + literal
    case Tick => "'"
  }

  /** What a scan is meant to keep: code and literals whole, and the newline ending a line comment. */
  function Kept(s: Segment): string
  {
    match s
    case Plain(_) => RenderSegment(s)
    case Quoted(_, _) => RenderSegment(s)
    case Line(_, closed) => if closed then "\n" else ""
    case Block(_) => ""
    case OpenBlock(_) => ""
    case CharLiteral(_) => RenderSegment(s)
    case Tick => ""
  }

  /** A segment is what it claims to be in front of the text that follows it. */
  predicate SegmentOk(s: Segment, follow: string)
  {
    match s
    case Plain(c) => c != '"' && c != '\'' && !(c == '/' && follow != "" && (follow[0] == '/' || follow[0] == '*'))
    case Quoted(items, end) => ItemsOk(items) && StringEnd(end) && (end != "\"" ==> follow == "")
    case Line(body, closed) => OneLine(body) && (!closed ==> follow == "")
    case Block(body) => BodyOk(body)
    case OpenBlock(raw) => follow == "" && ReadBody(raw).None?
    case CharLiteral(literal) => |literal| > 0 && CharLiteralLength("'" + literal) == |literal| + 1
    case Tick => CharLiteralLength("'" + follow) == 0
  }

  function Render(segments: seq<Segment>): string
  {
    if segments == [] then "" else RenderSegment(segments[0]) + Render(segments[1..])
  }

  function KeptOf(segments: seq<Segment>): string
  {
    if segments == [] then "" else Kept(segments[0]) + KeptOf(segments[1..])
  }

  predicate WellSeparated(segments: seq<Segment>)
  {
    segments == [] || (SegmentOk(segments[0], Render(segments[1..])) && WellSeparated(segments[1..]))
  }

  lemma LiteralExtends(literal: string, follow: string)
    requires |literal| > 0 && CharLiteralLength("'" + literal) == |literal| + 1
    ensures CharLiteralLength("'" + literal + follow) == |literal| + 1
  {
  }

  lemma Entering(more: string)
    ensures Strip("\"" + more, Code) == "\"" + Strip(more, InString)
    ensures Strip("//" + more, Code) == Strip(more, InLine)
    ensures Strip("/*" + more, Code) == Strip(more, InBlock(1))
  {
    assert ("\"" + more)[1..] == more && ("//" + more)[2..] == more && ("/*" + more)[2..] == more;
  }

  lemma StripQuoted(items: seq<Item>, end: string, follow: string)
    requires SegmentOk(Quoted(items, end), follow)
    ensures Strip(RenderSegment(Quoted(items, end)) + follow, Code) == Kept(Quoted(items, end)) + Strip(follow, Code)
  {
    Entering(RenderItems(items) + (end + follow));
    StripString(items, end, follow);
    Regroup("\"", RenderItems(items), end, follow);
    Regroup("\"", RenderItems(items), end, Strip(follow, Code));
  }

  lemma Regroup(a: string, b: string, c: string, d: string)
    ensures a + (b + c) + d == a + (b + (c + d))
  {
  }

  lemma Associate(a: string, b: string, c: string)
    ensures a + b + c == a + (b + c)
  {
  }

  lemma StripLineSegment(body: string, closed: bool, follow: string)
    requires SegmentOk(Line(body, closed), follow)
    ensures Strip(RenderSegment(Line(body, closed)) + follow, Code) == Kept(Line(body, closed)) + Strip(follow, Code)
  {
    var end := if closed then "\n" else "";
    Entering(body + end + follow);
    StripLine(body, closed, follow);
    Associate("//", body + end, follow);
  }

  lemma BlockText(body: string, follow: string)
    ensures var t := "/*" + body + follow; StartsWith(t, '/', '*') && t[2..] == body + follow
  {
    assert ("/*" + body)[2..] == body;
  }

  lemma StripBlockOpens(t: string)
    requires StartsWith(t, '/', '*')
    ensures Strip(t, Code) == Strip(t[2..], InBlock(1))
  {
  }

  lemma StripBlock(body: Body, follow: string)
    requires BodyOk(body)
    ensures Strip(RenderSegment(Block(body)) + follow, Code) == Strip(follow, Code)
  {
    BlockText(RenderBody(body), follow);
    StripBlockOpens("/*" + RenderBody(body) + follow);
    StripBody(body, follow, 1);
  }

  lemma StripLiteral(literal: string, follow: string)
    requires SegmentOk(CharLiteral(literal), follow)
    ensures Strip("'" + literal + follow, Code) == "'" + literal + Strip(follow, Code)
  {
    var t := "'" + literal + follow;
    LiteralExtends(literal, follow);
    assert t[|literal| + 1..] == follow && t[..|literal| + 1] == "'" + literal;
  }

  lemma StripOne(c: char, follow: string)
    requires SegmentOk(Plain(c), follow)
    ensures Strip([c] + follow, Code) == [c] + Strip(follow, Code)
  {
    assert ([c] + follow)[1..] == follow;
  }

  lemma StripTick(follow: string)
    requires SegmentOk(Tick, follow)
    ensures Strip("'" + follow, Code) == Strip(follow, Code)
  {
    assert ("'" + follow)[1..] == follow;
  }

  lemma StripSegment(s: Segment, follow: string)
    requires SegmentOk(s, follow)
    ensures Strip(RenderSegment(s) + follow, Code) == Kept(s) + Strip(follow, Code)
  {
    match s
    case Plain(c) => StripOne(c, follow);
    case Quoted(items, end) => StripQuoted(items, end, follow);
    case Line(body, closed) => StripLineSegment(body, closed, follow);
    case Block(body) => StripBlock(body, follow);
    case OpenBlock(raw) =>
      Entering(raw);
      StripOpenBody(raw, 1);
      assert RenderSegment(s) + follow == "/*" + raw;
    case CharLiteral(literal) => StripLiteral(literal, follow);
    case Tick => StripTick(follow);
  }

  /** The scanner on every well-separated text: comments go, everything else stays as written. */
  lemma {:induction false} StripRendered(segments: seq<Segment>)
    requires WellSeparated(segments)
    ensures Strip(Render(segments), Code) == KeptOf(segments)
  {
    if segments != [] {
      StripSegment(segments[0], Render(segments[1..]));
      StripRendered(segments[1..]);
    }
  }

  /** The first segment of a text, and the text behind it. */
  function ReadSegment(t: string): (r: (Segment, string))
    requires t != ""
    ensures |r.1| < |t|
  {
    if t[0] == '"' then
      var (items, end, rest) := ReadString(t[1..]);
      (Quoted(items, end), rest)
    else if StartsWith(t, '/', '/') then
      var (body, closed, rest) := ReadLine(t[2..]);
      (Line(body, closed), rest)
    else if StartsWith(t, '/', '*') then
      match ReadBody(t[2..])
      case Some((body, rest)) => (Block(body), rest)
      case None => (OpenBlock(t[2..]), "")
    else if t[0] == '\'' then
      var k := CharLiteralLength(t);
      if k > 0 then (CharLiteral(t[1..k]), t[k..]) else (Tick, t[1..])
    else (Plain(t[0]), t[1..])
  }

  lemma ReadQuotedSound(t: string)
    requires t != "" && t[0] == '"'
    ensures var (s, rest) := ReadSegment(t); SegmentOk(s, rest) && RenderSegment(s) + rest == t
  {
    ReadStringSound(t[1..]);
    var (items, end, rest) := ReadString(t[1..]);
    assert t == "\"" + t[1..];
    assert "\"" + (RenderItems(items) + end) + rest == "\"" + (RenderItems(items) + end + rest);
  }

  lemma ReadCommentSound(t: string)
    requires StartsWith(t, '/', '/') || StartsWith(t, '/', '*')
    ensures var (s, rest) := ReadSegment(t); SegmentOk(s, rest) && RenderSegment(s) + rest == t
  {
    assert t == [t[0], t[1]] + t[2..];
    if t[1] == '/' {
      var (body, closed, rest) := ReadLine(t[2..]);
      assert "//" + (body + if closed then "\n" else "") + rest == "//" + (body + (if closed then "\n" else "") + rest);
    } else if ReadBody(t[2..]).Some? {
      ReadBodySound(t[2..]);
      var (body, rest) := ReadBody(t[2..]).value;
      assert "/*" + RenderBody(body) + rest == "/*" + (RenderBody(body) + rest);
    }
  }

  lemma ReadTickSound(t: string)
    requires t != "" && t[0] == '\''
    ensures var (s, rest) := ReadSegment(t); SegmentOk(s, rest) && RenderSegment(s) + rest == t
  {
    var k := CharLiteralLength(t);
    if k > 0 {
      assert t == "'" + t[1..k] + t[k..];
    } else {
      assert t == "'" + t[1..];
    }
  }

  lemma ReadSegmentSound(t: string)
    requires t != ""
    ensures var (s, rest) := ReadSegment(t); SegmentOk(s, rest) && RenderSegment(s) + rest == t
  {
    if t[0] == '"' {
      ReadQuotedSound(t);
    } else if StartsWith(t, '/', '/') || StartsWith(t, '/', '*') {
      ReadCommentSound(t);
    } else if t[0] == '\'' {
      ReadTickSound(t);
    } else {
      assert t == [t[0]] + t[1..];
    }
  }

  lemma ReadQuotedComplete(items: seq<Item>, end: string, follow: string)
    requires SegmentOk(Quoted(items, end), follow)
    ensures ReadSegment(RenderSegment(Quoted(items, end)) + follow) == (Quoted(items, end), follow)
  {
    ReadStringComplete(items, end, follow);
    assert (RenderSegment(Quoted(items, end)) + follow)[1..] == RenderItems(items) + end + follow;
  }

  lemma LineText(body: string, end: string, follow: string)
    ensures var t := "//" + (body + end) + follow; StartsWith(t, '/', '/') && t[2..] == body + end + follow
  {
    assert ("//" + (body + end))[2..] == body + end;
  }

  lemma ReadLineSegmentComplete(body: string, closed: bool, follow: string)
    requires SegmentOk(Line(body, closed), follow)
    ensures ReadSegment(RenderSegment(Line(body, closed)) + follow) == (Line(body, closed), follow)
  {
    ReadLineComplete(body, closed, follow);
    LineText(body, if closed then "\n" else "", follow);
  }

  lemma ReadBlockComplete(body: Body, follow: string)
    requires BodyOk(body)
    ensures ReadSegment(RenderSegment(Block(body)) + follow) == (Block(body), follow)
  {
    ReadBodyComplete(body, follow);
    BlockText(RenderBody(body), follow);
  }

  lemma ReadLiteralComplete(literal: string, follow: string)
    requires SegmentOk(CharLiteral(literal), follow)
    ensures ReadSegment("'" + literal + follow) == (CharLiteral(literal), follow)
  {
    var t := "'" + literal + follow;
    LiteralExtends(literal, follow);
    assert t[|literal| + 1..] == follow && t[1..|literal| + 1] == literal;
  }

  lemma ReadSegmentComplete(s: Segment, follow: string)
    requires SegmentOk(s, follow)
    ensures ReadSegment(RenderSegment(s) + follow) == (s, follow)
  {
    var t := RenderSegment(s) + follow;
    match s
    case Plain(c) => assert t[1..] == follow;
    case Quoted(items, end) => ReadQuotedComplete(items, end, follow);
    case Line(body, closed) => ReadLineSegmentComplete(body, closed, follow);
    case Block(body) => ReadBlockComplete(body, follow);
    case OpenBlock(raw) => assert t[2..] == raw;
    case CharLiteral(literal) => ReadLiteralComplete(literal, follow);
    case Tick => assert t[1..] == follow;
  }

  /** The segments of any text at all. */
  function Segments(t: string): seq<Segment>
    decreases |t|
  {
    if t == "" then [] else var (s, rest) := ReadSegment(t); [s] + Segments(rest)
  }

  /** Every text is the rendering of a well-separated segment list. */
  lemma {:induction false} SegmentsSound(t: string)
    ensures WellSeparated(Segments(t)) && Render(Segments(t)) == t
    decreases |t|
  {
    if t != "" {
      ReadSegmentSound(t);
      SegmentsSound(ReadSegment(t).1);
      assert Segments(t)[1..] == Segments(ReadSegment(t).1);
    }
  }

  /** And of only one. */
  lemma {:induction false} SegmentsUnique(segments: seq<Segment>)
    requires WellSeparated(segments)
    ensures Segments(Render(segments)) == segments
  {
    if segments != [] {
      SegmentsUnique(segments[1..]);
      SegmentsFirst(segments[0], Render(segments[1..]));
      assert segments == [segments[0]] + segments[1..];
    }
  }

  lemma SegmentsFirst(s: Segment, follow: string)
    requires SegmentOk(s, follow)
    ensures Segments(RenderSegment(s) + follow) == [s] + Segments(follow)
  {
    ReadSegmentComplete(s, follow);
  }

  /** The scanner's meaning on every text. */
  lemma StripKeeps(t: string)
    ensures Strip(t, Code) == KeptOf(Segments(t))
  {
    SegmentsSound(t);
    StripRendered(Segments(t));
  }
}
