/** The generator's draws as a value: what each kind of draw yields at each stream position. Sessions are
    specified over any such value; a generator serves one that its stream determines. */
module Draws {
  import opened Text
  import opened DrbgStream
  import opened Wording

  datatype Draws = Draws(
    below: (nat, nat) -> Option<(nat, nat)>,
    uuid: nat -> Option<(string, nat)>, account: nat -> Option<(string, nat)>, sentence: nat -> Option<(string, nat)>,
    tool: nat -> Option<(string, nat)>, project: nat -> Option<(string, nat)>, model: nat -> Option<(string, nat)>,
    reason: nat -> Option<(string, nat)>)

  /** A bounded draw is below its bound, and zero where the bound leaves nothing else. */
  ghost predicate Bounded(g: Draws)
  {
    forall p, n {:trigger g.below(p, n)} ::
      g.below(p, n).Some? ==> g.below(p, n).value.0 == 0 || g.below(p, n).value.0 < n
  }

  /** The draws of a block stream. */
  ghost function DrawsOf(block: nat -> Block, voc: Vocabulary): (g: Draws)
    requires Filled(voc)
    ensures Bounded(g)
  {
    Draws((p, n) => BelowFrom(block, p, n), p => UuidFrom(block, p), p => AccountFrom(block, p),
          p => SentenceFrom(block, p, voc), p => ToolFrom(block, p, voc), p => ProjectFrom(block, p, voc),
          p => ModelFrom(block, p, voc), p => PickFrom(block, p, voc.reasons))
  }

  /** A position the generator is asked at. */
  ghost predicate Asked(p: nat)
  {
    true
  }

  /** `g` is what the stream yields, looked up only at positions that are asked. */
  ghost predicate Serves(g: Draws, block: nat -> Block, voc: Vocabulary)
    requires Filled(voc)
  {
    && (forall p {:trigger Asked(p)} :: Asked(p) ==> forall n :: g.below(p, n) == BelowFrom(block, p, n))
    && (forall p {:trigger Asked(p)} :: Asked(p) ==> ServesWords(g, block, voc, p))
  }

  ghost predicate ServesWords(g: Draws, block: nat -> Block, voc: Vocabulary, p: nat)
    requires Filled(voc)
  {
    && g.uuid(p) == UuidFrom(block, p) && g.account(p) == AccountFrom(block, p)
    && g.sentence(p) == SentenceFrom(block, p, voc) && g.tool(p) == ToolFrom(block, p, voc)
    && g.project(p) == ProjectFrom(block, p, voc) && g.model(p) == ModelFrom(block, p, voc)
    && g.reason(p) == PickFrom(block, p, voc.reasons)
  }

  lemma DrawsServe(block: nat -> Block, voc: Vocabulary)
    requires Filled(voc)
    ensures Bounded(DrawsOf(block, voc)) && Serves(DrawsOf(block, voc), block, voc)
  {
  }

  ghost predicate Ready(d: Drbg, voc: Vocabulary, g: Draws)
    reads d
  {
    d.Valid() && Filled(voc) && Bounded(g) && Serves(g, d.block, voc)
  }

  method Below(d: Drbg, voc: Vocabulary, ghost g: Draws, bound: nat) returns (r: Option<nat>)
    requires Ready(d, voc, g)
    modifies d
    ensures Ready(d, voc, g) && Yields(g.below(old(d.Position()), bound), r, d.Position())
    ensures r.Some? ==> r.value == 0 || r.value < bound
  {
    assert Asked(d.Position());
    r := d.Below(bound);
  }

  /** `synth_uuid`. */
  method SynthUuid(d: Drbg, voc: Vocabulary, ghost g: Draws) returns (r: Option<string>)
    requires Ready(d, voc, g)
    modifies d
    ensures Ready(d, voc, g) && Yields(g.uuid(old(d.Position())), r, d.Position())
    ensures r.Some? ==> IsUuid4(r.value)
  {
    assert Asked(d.Position());
    r := TakeUuid(d);
  }

  method SynthAccount(d: Drbg, voc: Vocabulary, ghost g: Draws) returns (r: Option<string>)
    requires Ready(d, voc, g)
    modifies d
    ensures Ready(d, voc, g) && Yields(g.account(old(d.Position())), r, d.Position())
  {
    assert Asked(d.Position());
    r := TakeAccount(d);
  }

  method SynthSentence(d: Drbg, voc: Vocabulary, ghost g: Draws) returns (r: Option<string>)
    requires Ready(d, voc, g)
    modifies d
    ensures Ready(d, voc, g) && Yields(g.sentence(old(d.Position())), r, d.Position())
  {
    assert Asked(d.Position());
    r := Sentence(d, voc);
  }

  method SynthTool(d: Drbg, voc: Vocabulary, ghost g: Draws) returns (r: Option<string>)
    requires Ready(d, voc, g)
    modifies d
    ensures Ready(d, voc, g) && Yields(g.tool(old(d.Position())), r, d.Position())
  {
    assert Asked(d.Position());
    r := Tool(d, voc);
  }

  method SynthProject(d: Drbg, voc: Vocabulary, ghost g: Draws) returns (r: Option<string>)
    requires Ready(d, voc, g)
    modifies d
    ensures Ready(d, voc, g) && Yields(g.project(old(d.Position())), r, d.Position())
  {
    assert Asked(d.Position());
    r := Project(d, voc);
  }

  method SynthModel(d: Drbg, voc: Vocabulary, ghost g: Draws) returns (r: Option<string>)
    requires Ready(d, voc, g)
    modifies d
    ensures Ready(d, voc, g) && Yields(g.model(old(d.Position())), r, d.Position())
  {
    assert Asked(d.Position());
    r := Model(d, voc);
  }

  method SynthReason(d: Drbg, voc: Vocabulary, ghost g: Draws) returns (r: Option<string>)
    requires Ready(d, voc, g)
    modifies d
    ensures Ready(d, voc, g) && Yields(g.reason(old(d.Position())), r, d.Position())
  {
    assert Asked(d.Position());
    r := Pick(d, voc.reasons);
  }
}
