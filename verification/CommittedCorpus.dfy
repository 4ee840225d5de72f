/** The committed vocabulary: every file of rewritten sessions made of it passes the scan's string rules. */
module CommittedCorpus {
  import opened Text
  import opened DrbgStream
  import opened Wording
  import opened Draws
  import opened Sessions
  import opened Timestamp
  import opened ContentScan
  import RewriteOrder
  import CleanCorpus

  const FIRST_NOUNS: seq<string> := [
    "heron", "estuary", "beacon", "meadow", "canyon", "driftwood", "lichen", "tributary", "marsh", "falcon",
    "pebble", "glacier", "orchard", "thicket", "lantern", "harbor", "prairie", "cedar"
  ]

  const OTHER_NOUNS: seq<string> := [
    "rivulet", "boulder", "dune", "kite", "ember", "quarry", "willow", "cove", "wheat", "canal", "fjord",
    "atoll", "moraine", "savanna", "reed", "warbler", "clover", "summit"
  ]

  const NOUNS: seq<string> := FIRST_NOUNS + OTHER_NOUNS

  const FIRST_ADJECTIVES: seq<string> := [
    "amber", "quiet", "slender", "violet", "hazy", "nimble", "solemn", "gentle", "rapid", "hollow", "lucid",
    "fertile", "arid"
  ]

  const OTHER_ADJECTIVES: seq<string> := [
    "coastal", "northern", "southern", "twin", "pale", "vast", "crisp", "mellow", "rustic", "tranquil",
    "uneven", "sturdy", "soft"
  ]

  const ADJECTIVES: seq<string> := FIRST_ADJECTIVES + OTHER_ADJECTIVES

  const VERB_BASES: seq<string> := [
    "drift", "gather", "mirror", "settle", "follow", "wander", "listen", "return", "reach", "cross", "bend",
    "circle"
  ]

  const VERB_THIRDS: seq<string> := [
    "drifts", "gathers", "mirrors", "settles", "follows", "wanders", "listens", "returns", "reaches", "crosses",
    "bends", "circles"
  ]

  const REASONS: seq<string> := [
    "end", "limit", "interrupt"
  ]

  function Committed(): (voc: Vocabulary)
    ensures Filled(voc)
  {
    Vocabulary(ADJECTIVES, NOUNS, VERB_BASES, VERB_THIRDS, REASONS)
  }

  lemma FirstNounsLower(w: string)
    requires w in FIRST_NOUNS
    ensures Lower(w)
  {
  }

  lemma OtherNounsLower(w: string)
    requires w in OTHER_NOUNS
    ensures Lower(w)
  {
  }

  lemma FirstAdjectivesLower(w: string)
    requires w in FIRST_ADJECTIVES
    ensures Lower(w)
  {
  }

  lemma OtherAdjectivesLower(w: string)
    requires w in OTHER_ADJECTIVES
    ensures Lower(w)
  {
  }

  lemma VerbsLower(w: string)
    requires w in VERB_BASES || w in VERB_THIRDS
    ensures Lower(w)
  {
  }

  /** The committed vocabulary meets what the scan theorem asks. */
  lemma CommittedPlain()
    ensures Plain(Committed())
  {
    forall w | InLexicon(w, Committed()) ensures Lower(w) {
      if w in FIRST_NOUNS {
        FirstNounsLower(w);
      } else if w in OTHER_NOUNS {
        OtherNounsLower(w);
      } else if w in FIRST_ADJECTIVES {
        FirstAdjectivesLower(w);
      } else if w in OTHER_ADJECTIVES {
        OtherAdjectivesLower(w);
      } else {
        VerbsLower(w);
      }
    }
  }

  /** The times of a chain render in the window for far more generations than the corpus has. */
  lemma ChainRenders(gens: seq<Generation>, start: int, h: nat, i: nat)
    requires Chain(gens, start) && BASE_TS <= start < BASE_TS + WINDOW_SECONDS && |gens| <= 900000
    requires h < |gens| && i < |gens[h].lines|
    ensures Renders(gens[h].lines[i].ts)
  {
    RewriteOrder.OwnLine(gens, start, h, i);
    var o := RewriteOrder.Owner(gens, h, i);
    RewriteOrder.OwnTimes(gens, start, o, i);
    if o > 0 {
      RewriteOrder.Rewritten(gens, start, o);
    }
  }

  /** Whatever the seed, every key and every string of every rewritten session passes the scan. */
  lemma CorpusPasses(block: nat -> Block, p: nat, generations: nat, h: nat, i: nat)
    requires generations <= 900000 && ChainFrom(DrawsOf(block, Committed()), p, generations).Some?
    requires var gens := ChainFrom(DrawsOf(block, Committed()), p, generations).value; h < |gens| && i < |gens[h].lines|
    ensures var r := ChainFrom(DrawsOf(block, Committed()), p, generations).value[h].lines[i];
            CleanCorpus.PairsOk(Pairs(r), Committed())
  {
    var g := DrawsOf(block, Committed());
    CommittedPlain();
    ChainFromIsChain(g, p, generations);
    FirstIsChain(g, p);
    ChainRenders(ChainFrom(g, p, generations).value, FirstFrom(g, p).value.0.start, h, i);
    CleanCorpus.ChainPasses(block, p, generations, Committed(), h, i);
  }
}
