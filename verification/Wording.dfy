/** The generator's labels and sentences: words chosen from fixed lists by consecutive draws. */
module Wording {
  import opened Text
  import opened Json
  import opened DrbgStream

  datatype Vocabulary = Vocabulary(
    adjectives: seq<string>, nouns: seq<string>, verbBases: seq<string>, verbThirds: seq<string>, reasons: seq<string>)

  predicate Filled(voc: Vocabulary)
  {
    voc.adjectives != [] && voc.nouns != [] && voc.verbBases != [] && voc.verbThirds != [] && voc.reasons != []
  }

  ghost function PickFrom(block: nat -> Block, p: nat, words: seq<string>): Option<(string, nat)>
    requires words != []
  {
    var (k, q) :- BelowFrom(block, p, |words|);
    Some((words[k], q))
  }

  /** `choice`. */
  method Pick(d: Drbg, words: seq<string>) returns (r: Option<string>)
    requires d.Valid() && words != []
    modifies d
    ensures d.Valid() && Yields(PickFrom(d.block, old(d.Position()), words), r, d.Position())
  {
    var k :- d.Below(|words|);
    return Some(words[k]);
  }

  ghost function WordsFrom(block: nat -> Block, p: nat, lists: seq<seq<string>>): (r: Option<(seq<string>, nat)>)
    requires [] !in lists
    ensures r.Some? ==> |r.value.0| == |lists| && forall i | 0 <= i < |lists| :: r.value.0[i] in lists[i]
    decreases lists
  {
    if lists == [] then Some(([], p))
    else
      var (word, p1) :- PickFrom(block, p, lists[0]);
      var (rest, q) :- WordsFrom(block, p1, lists[1..]);
      Some(([word] + rest, q))
  }

  /** One word of each list, in order. */
  method Words(d: Drbg, lists: seq<seq<string>>) returns (r: Option<seq<string>>)
    requires d.Valid() && [] !in lists
    modifies d
    ensures d.Valid() && Yields(WordsFrom(d.block, old(d.Position()), lists), r, d.Position())
    ensures r.Some? ==> |r.value| == |lists|
    decreases lists
  {
    if lists == [] {
      return Some([]);
    }
    var word :- Pick(d, lists[0]);
    var rest :- Words(d, lists[1..]);
    return Some([word] + rest);
  }

  /** The word lists of the three sentence forms. */
  function Slots(voc: Vocabulary, form: nat): (lists: seq<seq<string>>)
    ensures |lists| == if form <= 1 then 5 else 6
    ensures Filled(voc) ==> [] !in lists
  {
    if form == 0 then [voc.adjectives, voc.nouns, voc.verbThirds, voc.adjectives, voc.nouns]
    else if form == 1 then [voc.nouns, voc.verbThirds, voc.nouns, voc.nouns, voc.verbThirds]
    else [voc.adjectives, voc.nouns, voc.verbThirds, voc.adjectives, voc.nouns, voc.nouns]
  }

  /** The words of a sentence between its blanks. */
  function Tokens(form: nat, w: seq<string>): (tokens: seq<string>)
    requires |w| == if form <= 1 then 5 else 6
    ensures tokens != []
  {
    if form == 0 then ["The", w[0], w[1], w[2], "past", "the", w[3], w[4]]
    else if form == 1 then ["The", w[0], w[1], "beside", "the", w[2] + ",", "and", "the", w[3], w[4]]
    else ["The", w[0], w[1], w[2], "under", "a", w[3], w[4], "near", "the", w[5]]
  }

  function Say(form: nat, w: seq<string>): string
    requires |w| == if form <= 1 then 5 else 6
  {
    Join(Tokens(form, w), ' ') + "."
  }

  ghost function SentenceFrom(block: nat -> Block, p: nat, voc: Vocabulary): Option<(string, nat)>
    requires Filled(voc)
  {
    var (form, p1) :- BelowFrom(block, p, 3);
    var (w, q) :- WordsFrom(block, p1, Slots(voc, form));
    Some((Say(form, w), q))
  }

  /** `sentence`. */
  method Sentence(d: Drbg, voc: Vocabulary) returns (r: Option<string>)
    requires d.Valid() && Filled(voc)
    modifies d
    ensures d.Valid() && Yields(SentenceFrom(d.block, old(d.Position()), voc), r, d.Position())
  {
    var form :- d.Below(3);
    var w :- Words(d, Slots(voc, form));
    return Some(Say(form, w));
  }

  ghost function ToolFrom(block: nat -> Block, p: nat, voc: Vocabulary): Option<(string, nat)>
    requires Filled(voc)
  {
    var (w, q) :- WordsFrom(block, p, [voc.nouns, voc.verbBases]);
    Some((w[0] + "_" + w[1], q))
  }

  /** `synth_tool`. */
  method Tool(d: Drbg, voc: Vocabulary) returns (r: Option<string>)
    requires d.Valid() && Filled(voc)
    modifies d
    ensures d.Valid() && Yields(ToolFrom(d.block, old(d.Position()), voc), r, d.Position())
  {
    var w :- Words(d, [voc.nouns, voc.verbBases]);
    return Some(w[0] + "_" + w[1]);
  }

  ghost function ProjectFrom(block: nat -> Block, p: nat, voc: Vocabulary): Option<(string, nat)>
    requires Filled(voc)
  {
    var (w, q) :- WordsFrom(block, p, [voc.adjectives, voc.nouns]);
    Some(("proj-" + w[0] + "-" + w[1], q))
  }

  /** `synth_project`. */
  method Project(d: Drbg, voc: Vocabulary) returns (r: Option<string>)
    requires d.Valid() && Filled(voc)
    modifies d
    ensures d.Valid() && Yields(ProjectFrom(d.block, old(d.Position()), voc), r, d.Position())
  {
    var w :- Words(d, [voc.adjectives, voc.nouns]);
    return Some("proj-" + w[0] + "-" + w[1]);
  }

  ghost function ModelFrom(block: nat -> Block, p: nat, voc: Vocabulary): Option<(string, nat)>
    requires Filled(voc)
  {
    var (noun, p1) :- PickFrom(block, p, voc.nouns);
    var (k, q) :- BelowFrom(block, p1, 900);
    Some(("synthetic-" + noun + "-" + Padded(100 + k, 3), q))
  }

  /** `synth_model`. */
  method Model(d: Drbg, voc: Vocabulary) returns (r: Option<string>)
    requires d.Valid() && Filled(voc)
    modifies d
    ensures d.Valid() && Yields(ModelFrom(d.block, old(d.Position()), voc), r, d.Position())
  {
    var noun :- Pick(d, voc.nouns);
    var k :- d.Below(900);
    return Some("synthetic-" + noun + "-" + Padded(100 + k, 3));
  }

  // ---- identifiers ----

  function HexByte(b: Byte): (s: string)
    ensures |s| == 2
  {
    [HexDigit(b / 16) as char, HexDigit(b % 16) as char]
  }

  function Hex(bs: Bytes): (s: string)
    ensures |s| == 2 * |bs|
    ensures forall i | 0 <= i < |bs| ::
              s[2 * i] == HexDigit(bs[i] / 16) as char && s[2 * i + 1] == HexDigit(bs[i] % 16) as char
  {
    if bs == [] then "" else Hex(bs[..|bs| - 1]) + HexByte(bs[|bs| - 1])
  }

  /** `synth_uuid` on sixteen raw bytes: version and variant bits forced, then grouped hex. */
  function Uuid(raw: Bytes): (s: string)
    requires |raw| == 16
  {
    var marked: Bytes := raw[6 := raw[6] % 16 + 0x40][8 := raw[8] % 64 + 0x80];
    var h := Hex(marked);
    h[0..8] + "-" + h[8..12] + "-" + h[12..16] + "-" + h[16..20] + "-" + h[20..32]
  }

  predicate IsHexChar(c: char)
  {
    '0' <= c <= '9' || 'a' <= c <= 'f'
  }

  /** The version 4 shape of section 5.4 of RFC 9562. */
  predicate IsUuid4(s: string)
  {
    && |s| == 36
    && (forall i | 0 <= i < 36 :: if i == 8 || i == 13 || i == 18 || i == 23 then s[i] == '-' else IsHexChar(s[i]))
    && s[14] == '4'
    && s[19] in "89ab"
  }

  lemma UuidShape(raw: Bytes)
    requires |raw| == 16
    ensures IsUuid4(Uuid(raw))
  {
    var marked: Bytes := raw[6 := raw[6] % 16 + 0x40][8 := raw[8] % 64 + 0x80];
    var h := Hex(marked);
    HexChars(marked);
    assert h[2 * 6] == '4';
    assert h[2 * 8] == HexDigit(marked[8] / 16) as char;
    var s := Uuid(raw);
    assert s[14] == h[12] && s[19] == h[16];
  }

  lemma HexChars(bs: Bytes)
    ensures forall i | 0 <= i < 2 * |bs| :: IsHexChar(Hex(bs)[i])
  {
    forall i | 0 <= i < 2 * |bs| ensures IsHexChar(Hex(bs)[i]) {
      assert i == 2 * (i / 2) || i == 2 * (i / 2) + 1;
    }
  }

  ghost function UuidFrom(block: nat -> Block, p: nat): Option<(string, nat)>
  {
    if p + 16 <= STREAM_LENGTH then Some((Uuid(Range(block, p, p + 16)), p + 16)) else None
  }

  method TakeUuid(d: Drbg) returns (r: Option<string>)
    requires d.Valid()
    modifies d
    ensures d.Valid() && Yields(UuidFrom(d.block, old(d.Position())), r, d.Position())
    ensures r.Some? ==> IsUuid4(r.value)
  {
    var raw :- d.Take(16);
    UuidShape(raw);
    return Some(Uuid(raw));
  }

  ghost function AccountFrom(block: nat -> Block, p: nat): Option<(string, nat)>
  {
    if p + 4 <= STREAM_LENGTH then Some(("acct-" + Hex(Range(block, p, p + 4)), p + 4)) else None
  }

  method TakeAccount(d: Drbg) returns (r: Option<string>)
    requires d.Valid()
    modifies d
    ensures d.Valid() && Yields(AccountFrom(d.block, old(d.Position())), r, d.Position())
  {
    var raw :- d.Take(4);
    return Some("acct-" + Hex(raw));
  }
}
