/** The string rules of the corpus content scan, and that whatever the generator writes passes them. */
module ContentScan {
  import opened Text
  import opened Json
  import opened Timestamp
  import opened DrbgStream
  import opened Wording
  import opened Draws

  const FUNCTION_WORDS: set<string> :=
    {"the", "a", "and", "of", "past", "beside", "under", "near", "over", "toward", "with"}
  const TYPE_VALUES: set<string> :=
    {"session_start", "user", "assistant", "tool_use", "tool_result", "system", "compaction", "session_end"}
  const RECORD_KEYS: set<string> :=
    {"type", "id", "ts", "text", "account", "project", "model", "schema", "records", "reason", "tokens", "tool",
     "args_bytes", "ok", "tool_ref", "bytes", "prior_records", "future_field", "vendor_note"}

  /** One or more of the letters a to z. */
  predicate Lower(w: string)
  {
    w != "" && forall i | 0 <= i < |w| :: 'a' <= w[i] <= 'z'
  }

  /** The vocabulary consists of lower-case words. */
  ghost predicate Plain(voc: Vocabulary)
  {
    && Filled(voc)
    && forall w | InLexicon(w, voc) :: Lower(w)
  }

  predicate InLexicon(w: string, voc: Vocabulary)
  {
    w in voc.adjectives || w in voc.nouns || w in voc.verbBases || w in voc.verbThirds
  }

  // ---- is_synthetic_sentence ----

  predicate IsPunctuation(c: char)
  {
    c == '.' || c == ','
  }

  function StripLeft(w: string): string
  {
    if w != "" && IsPunctuation(w[0]) then StripLeft(w[1..]) else w
  }

  function StripRight(w: string): string
  {
    if w != "" && IsPunctuation(w[|w| - 1]) then StripRight(w[..|w| - 1]) else w
  }

  function LowerCase(w: string): (l: string)
    ensures |l| == |w|
    ensures forall i | 0 <= i < |w| :: l[i] == if 'A' <= w[i] <= 'Z' then (w[i] as int + 32) as char else w[i]
  {
    seq(|w|, i requires 0 <= i < |w| => if 'A' <= w[i] <= 'Z' then (w[i] as int + 32) as char else w[i])
  }

  predicate IsWord(token: string, voc: Vocabulary)
  {
    var w := StripRight(StripLeft(token));
    w != "" && (InLexicon(LowerCase(w), voc) || LowerCase(w) in FUNCTION_WORDS)
  }

  predicate IsSentence(value: string, voc: Vocabulary)
  {
    var core := if value != "" && value[|value| - 1] == '.' then value[..|value| - 1] else value;
    forall i | 0 <= i < |Split(core, ' ')| :: IsWord(Split(core, ' ')[i], voc)
  }

  // ---- string_is_synthetic ----

  predicate IsTimestamp(s: string)
  {
    && |s| == 20
    && forall i | 0 <= i < 20 ::
         if i == 4 || i == 7 then s[i] == '-'
         else if i == 10 then s[i] == 'T'
         else if i == 13 || i == 16 then s[i] == ':'
         else if i == 19 then s[i] == 'Z' else '0' <= s[i] <= '9'
  }

  predicate IsAccount(s: string)
  {
    |s| == 13 && s[..5] == "acct-" && forall i | 5 <= i < 13 :: IsHexChar(s[i])
  }

  predicate IsModel(s: string)
  {
    var parts := Split(s, '-');
    |parts| == 3 && parts[0] == "synthetic" && Lower(parts[1]) && |parts[2]| == 3 && AllDigits(parts[2])
  }

  predicate IsProject(s: string, voc: Vocabulary)
  {
    var parts := Split(s, '-');
    && 3 <= |parts| <= 4 && parts[0] == "proj"
    && forall i | 1 <= i < |parts| :: Lower(parts[i]) && InLexicon(parts[i], voc)
  }

  predicate IsTool(s: string, voc: Vocabulary)
  {
    var parts := Split(s, '_');
    |parts| == 2 && forall i | 0 <= i < 2 :: Lower(parts[i]) && InLexicon(parts[i], voc)
  }

  predicate Synthetic(s: string, voc: Vocabulary)
  {
    || s in TYPE_VALUES || s in voc.reasons || IsUuid4(s) || IsTimestamp(s) || IsAccount(s) || IsModel(s)
    || IsProject(s, voc) || IsTool(s, voc) || IsSentence(s, voc)
  }

  // ---- words ----

  lemma LowerStays(w: string)
    requires Lower(w)
    ensures StripLeft(w) == w && StripRight(w) == w && LowerCase(w) == w
  {
  }

  lemma PlainWord(w: string, voc: Vocabulary)
    requires Lower(w) && (InLexicon(w, voc) || w in FUNCTION_WORDS)
    ensures IsWord(w, voc)
  {
    LowerStays(w);
  }

  lemma CommaWord(w: string, voc: Vocabulary)
    requires Lower(w) && InLexicon(w, voc)
    ensures IsWord(w + ",", voc)
  {
    LowerStays(w);
    var t := w + ",";
    assert StripLeft(t) == t && t[..|t| - 1] == w;
  }

  lemma FixedWords(voc: Vocabulary)
    ensures IsWord("The", voc) && IsWord("the", voc) && IsWord("past", voc) && IsWord("beside", voc)
    ensures IsWord("and", voc)
    ensures IsWord("under", voc) && IsWord("a", voc) && IsWord("near", voc)
  {
    FirstWord(voc);
    assert Lower("the") && Lower("past") && Lower("beside") && Lower("and");
    PlainWord("the", voc);
    PlainWord("past", voc);
    PlainWord("beside", voc);
    PlainWord("and", voc);
    LaterWords(voc);
  }

  lemma FirstWord(voc: Vocabulary)
    ensures IsWord("The", voc)
  {
    assert StripRight(StripLeft("The")) == "The" && LowerCase("The") == "the";
  }

  lemma LaterWords(voc: Vocabulary)
    ensures IsWord("under", voc) && IsWord("a", voc) && IsWord("near", voc)
  {
    assert Lower("under") && Lower("a") && Lower("near");
    PlainWord("under", voc);
    PlainWord("a", voc);
    PlainWord("near", voc);
  }

  lemma NoBlank(w: string)
    requires Lower(w)
    ensures ' ' !in w && ' ' !in w + "," && '-' !in w && '_' !in w
  {
  }

  predicate Chosen(voc: Vocabulary, form: nat, w: seq<string>)
  {
    |w| == |Slots(voc, form)| && forall i | 0 <= i < |w| :: w[i] in Slots(voc, form)[i]
  }

  lemma ChosenWord(voc: Vocabulary, form: nat, w: seq<string>, i: nat)
    requires Plain(voc) && Chosen(voc, form, w) && i < |w|
    ensures Lower(w[i]) && InLexicon(w[i], voc)
  {
    assert w[i] in Slots(voc, form)[i];
  }

  const FIXED: seq<string> := ["The", "the", "past", "beside", "and", "under", "a", "near"]

  /** Each token is a fixed word, a chosen word, or a chosen word with a comma. */
  predicate TokenFrom(t: string, w: seq<string>)
  {
    t in FIXED || exists k :: 0 <= k < |w| && (t == w[k] || t == w[k] + ",")
  }

  lemma TokenIs(form: nat, w: seq<string>, i: nat)
    requires |w| == (if form <= 1 then 5 else 6) && i < |Tokens(form, w)|
    ensures TokenFrom(Tokens(form, w)[i], w)
  {
    assert FIXED[0] == "The" && FIXED[1] == "the" && FIXED[2] == "past" && FIXED[3] == "beside" && FIXED[4] == "and";
    assert FIXED[5] == "under" && FIXED[6] == "a" && FIXED[7] == "near";
  }

  lemma FixedToken(t: string, voc: Vocabulary)
    requires t in FIXED
    ensures IsWord(t, voc) && ' ' !in t
  {
    FixedWords(voc);
    FixedNoBlank(t);
    var k :| 0 <= k < 8 && FIXED[k] == t;
  }

  lemma FixedNoBlank(t: string)
    requires t in FIXED
    ensures ' ' !in t
  {
  }

  lemma TokenOk(voc: Vocabulary, form: nat, w: seq<string>, t: string)
    requires Plain(voc) && Chosen(voc, form, w) && TokenFrom(t, w)
    ensures IsWord(t, voc) && ' ' !in t
  {
    if t in FIXED {
      FixedToken(t, voc);
    } else {
      var k :| 0 <= k < |w| && (t == w[k] || t == w[k] + ",");
      ChosenWord(voc, form, w, k);
      PlainWord(w[k], voc);
      CommaWord(w[k], voc);
      NoBlank(w[k]);
    }
  }

  /** Every sentence the generator can say passes the sentence rule. */
  lemma SayIsSentence(voc: Vocabulary, form: nat, w: seq<string>)
    requires Plain(voc) && Chosen(voc, form, w)
    ensures IsSentence(Say(form, w), voc)
  {
    var tokens := Tokens(form, w);
    forall i | 0 <= i < |tokens| ensures IsWord(tokens[i], voc) && ' ' !in tokens[i] {
      TokenIs(form, w, i);
      TokenOk(voc, form, w, tokens[i]);
    }
    SplitJoin(tokens, ' ');
    assert Say(form, w)[..|Say(form, w)| - 1] == Join(tokens, ' ');
  }

  // ---- labels ----

  lemma ToolShape(a: string, b: string, voc: Vocabulary)
    requires Lower(a) && Lower(b) && InLexicon(a, voc) && InLexicon(b, voc)
    ensures IsTool(a + "_" + b, voc)
  {
    NoBlank(a);
    NoBlank(b);
    SplitFirst(a, b, '_');
    SplitFirst(b, "", '_');
    assert a + "_" + b == a + ['_'] + b;
  }

  lemma ProjectShape(a: string, b: string, voc: Vocabulary)
    requires Lower(a) && Lower(b) && InLexicon(a, voc) && InLexicon(b, voc)
    ensures IsProject("proj-" + a + "-" + b, voc)
  {
    NoBlank(a);
    NoBlank(b);
    ThreeParts("proj", a, b, '-');
    assert "proj-" == "proj" + ['-'];
  }

  /** The number of a model label has exactly three digits. */
  lemma ThreeDigits(k: nat)
    requires k < 900
    ensures |Padded(100 + k, 3)| == 3 && AllDigits(Padded(100 + k, 3))
  {
    assert Power10(1) == 10 && Power10(2) == 100 && Power10(3) == 1000;
    PaddedFixed(100 + k, 3);
    FixedDigits(100 + k, 3);
  }

  lemma ModelShape(noun: string, digits: string)
    requires Lower(noun) && |digits| == 3 && AllDigits(digits)
    ensures IsModel("synthetic-" + noun + "-" + digits)
  {
    NoBlank(noun);
    assert '-' !in digits && '-' !in "synthetic";
    ThreeParts("synthetic", noun, digits, '-');
    assert "synthetic-" == "synthetic" + ['-'];
  }

  lemma NumberedModel(noun: string, k: nat)
    requires Lower(noun) && k < 900
    ensures IsModel("synthetic-" + noun + "-" + Padded(100 + k, 3))
  {
    ThreeDigits(k);
    ModelShape(noun, Padded(100 + k, 3));
  }

  lemma ThreeParts(a: string, b: string, c: string, x: char)
    requires x !in a && x !in b && x !in c
    ensures Split(a + [x] + b + [x] + c, x) == [a, b, c]
  {
    SplitFirst(a, b + [x] + c, x);
    SplitFirst(b, c, x);
    SplitFirst(c, "", x);
    assert a + [x] + b + [x] + c == a + [x] + (b + [x] + c);
  }

  lemma AccountShape(raw: Bytes)
    requires |raw| == 4
    ensures IsAccount("acct-" + Hex(raw))
  {
    HexChars(raw);
    var s := "acct-" + Hex(raw);
    assert s[..5] == "acct-" && forall i | 5 <= i < 13 :: s[i] == Hex(raw)[i - 5];
  }

  /** In the window a rendered time has the timestamp shape. */
  lemma TimestampShape(ts: int)
    requires Renders(ts)
    ensures IsTimestamp(FormatTs(ts))
  {
    FormatIsFields(ts);
    var f := Fields(ts);
    RenderSix(f, WIDTHS, MARKS);
    FixedDigits(f[0], 4);
    FixedDigits(f[1], 2);
    FixedDigits(f[2], 2);
    FixedDigits(f[3], 2);
    FixedDigits(f[4], 2);
    FixedDigits(f[5], 2);
    SixParts(Fixed(f[0], 4), Fixed(f[1], 2), Fixed(f[2], 2), Fixed(f[3], 2), Fixed(f[4], 2), Fixed(f[5], 2));
  }

  lemma SixParts(a: string, b: string, c: string, d: string, e: string, f: string)
    requires |a| == 4 && |b| == |c| == |d| == |e| == |f| == 2
    requires AllDigits(a) && AllDigits(b) && AllDigits(c) && AllDigits(d) && AllDigits(e) && AllDigits(f)
    ensures IsTimestamp(a + ['-'] + (b + ['-'] + (c + ['T'] + (d + [':'] + (e + [':'] + (f + ['Z']))))))
  {
    var tail := d + [':'] + (e + [':'] + (f + ['Z']));
    assert |tail| == 9 && forall i | 0 <= i < 9 ::
      tail[i] == if i < 2 then d[i] else if i == 2 then ':' else if i < 5 then e[i - 3] else if i == 5 then ':'
                 else if i < 8 then f[i - 6] else 'Z';
    var s := a + ['-'] + (b + ['-'] + (c + ['T'] + tail));
    assert |s| == 20 && forall i | 0 <= i < 20 ::
      s[i] == if i < 4 then a[i] else if i == 4 then '-' else if i < 7 then b[i - 5] else if i == 7 then '-'
              else if i < 10 then c[i - 8] else if i == 10 then 'T' else tail[i - 11];
  }

  // ---- draws ----

  /** Every text the draws yield passes its rule. */
  ghost predicate Clean(g: Draws, voc: Vocabulary)
  {
    && (forall p {:trigger g.uuid(p)} :: g.uuid(p).Some? ==> IsUuid4(g.uuid(p).value.0))
    && (forall p {:trigger g.account(p)} :: g.account(p).Some? ==> IsAccount(g.account(p).value.0))
    && (forall p {:trigger g.sentence(p)} :: g.sentence(p).Some? ==> IsSentence(g.sentence(p).value.0, voc))
    && (forall p {:trigger g.tool(p)} :: g.tool(p).Some? ==> IsTool(g.tool(p).value.0, voc))
    && (forall p {:trigger g.project(p)} :: g.project(p).Some? ==> IsProject(g.project(p).value.0, voc))
    && (forall p {:trigger g.model(p)} :: g.model(p).Some? ==> IsModel(g.model(p).value.0))
    && (forall p {:trigger g.reason(p)} :: g.reason(p).Some? ==> g.reason(p).value.0 in voc.reasons)
  }

  lemma SentenceClean(block: nat -> Block, p: nat, voc: Vocabulary)
    requires Plain(voc)
    ensures SentenceFrom(block, p, voc).Some? ==> IsSentence(SentenceFrom(block, p, voc).value.0, voc)
  {
    var drawn := BelowFrom(block, p, 3);
    if drawn.Some? {
      var (form, p1) := drawn.value;
      var words := WordsFrom(block, p1, Slots(voc, form));
      if words.Some? {
        SayIsSentence(voc, form, words.value.0);
      }
    }
  }

  lemma ToolClean(block: nat -> Block, p: nat, voc: Vocabulary)
    requires Plain(voc)
    ensures ToolFrom(block, p, voc).Some? ==> IsTool(ToolFrom(block, p, voc).value.0, voc)
  {
    var words := WordsFrom(block, p, [voc.nouns, voc.verbBases]);
    if words.Some? {
      var w := words.value.0;
      assert w[0] in voc.nouns && w[1] in voc.verbBases;
      ToolShape(w[0], w[1], voc);
    }
  }

  lemma ProjectClean(block: nat -> Block, p: nat, voc: Vocabulary)
    requires Plain(voc)
    ensures ProjectFrom(block, p, voc).Some? ==> IsProject(ProjectFrom(block, p, voc).value.0, voc)
  {
    var words := WordsFrom(block, p, [voc.adjectives, voc.nouns]);
    if words.Some? {
      var w := words.value.0;
      assert w[0] in voc.adjectives && w[1] in voc.nouns;
      ProjectShape(w[0], w[1], voc);
    }
  }

  lemma ModelClean(block: nat -> Block, p: nat, voc: Vocabulary)
    requires Plain(voc)
    ensures ModelFrom(block, p, voc).Some? ==> IsModel(ModelFrom(block, p, voc).value.0)
  {
    var noun := PickFrom(block, p, voc.nouns);
    if noun.Some? {
      var number := BelowFrom(block, noun.value.1, 900);
      if number.Some? {
        assert InLexicon(noun.value.0, voc);
        NumberedModel(noun.value.0, number.value.0);
      }
    }
  }

  lemma IdentifiersClean(block: nat -> Block, p: nat, voc: Vocabulary)
    requires Filled(voc)
    ensures UuidFrom(block, p).Some? ==> IsUuid4(UuidFrom(block, p).value.0)
    ensures AccountFrom(block, p).Some? ==> IsAccount(AccountFrom(block, p).value.0)
    ensures PickFrom(block, p, voc.reasons).Some? ==> PickFrom(block, p, voc.reasons).value.0 in voc.reasons
  {
    UuidShape(Range(block, p, p + 16));
    AccountShape(Range(block, p, p + 4));
  }

  /** Whatever the stream, over a vocabulary of lower-case words. */
  lemma StreamClean(block: nat -> Block, voc: Vocabulary)
    requires Plain(voc)
    ensures Clean(DrawsOf(block, voc), voc)
  {
    var g := DrawsOf(block, voc);
    WordsClean(block, voc, g);
    forall p {:trigger g.uuid(p)} ensures g.uuid(p).Some? ==> IsUuid4(g.uuid(p).value.0) {
      IdentifiersClean(block, p, voc);
    }
    forall p {:trigger g.account(p)} ensures g.account(p).Some? ==> IsAccount(g.account(p).value.0) {
      IdentifiersClean(block, p, voc);
    }
    forall p {:trigger g.reason(p)} ensures g.reason(p).Some? ==> g.reason(p).value.0 in voc.reasons {
      IdentifiersClean(block, p, voc);
    }
  }

  lemma WordsClean(block: nat -> Block, voc: Vocabulary, g: Draws)
    requires Plain(voc) && g == DrawsOf(block, voc)
    ensures forall p {:trigger g.sentence(p)} :: g.sentence(p).Some? ==> IsSentence(g.sentence(p).value.0, voc)
    ensures forall p {:trigger g.tool(p)} :: g.tool(p).Some? ==> IsTool(g.tool(p).value.0, voc)
    ensures forall p {:trigger g.project(p)} :: g.project(p).Some? ==> IsProject(g.project(p).value.0, voc)
    ensures forall p {:trigger g.model(p)} :: g.model(p).Some? ==> IsModel(g.model(p).value.0)
  {
    forall p {:trigger g.sentence(p)} ensures g.sentence(p).Some? ==> IsSentence(g.sentence(p).value.0, voc) {
      SentenceClean(block, p, voc);
    }
    forall p {:trigger g.tool(p)} ensures g.tool(p).Some? ==> IsTool(g.tool(p).value.0, voc) {
      ToolClean(block, p, voc);
    }
    forall p {:trigger g.project(p)} ensures g.project(p).Some? ==> IsProject(g.project(p).value.0, voc) {
      ProjectClean(block, p, voc);
    }
    forall p {:trigger g.model(p)} ensures g.model(p).Some? ==> IsModel(g.model(p).value.0) {
      ModelClean(block, p, voc);
    }
  }
}
