/** The workspace dependency gate: Kahn layering over the crate graph, proved against
    dependency chains and cycles. */
module CrateGraph {
  import opened Text

  type Graph = map<string, seq<string>>

  ghost predicate Closed(g: Graph)
  {
    forall n, d :: n in g && d in g[n] ==> d in g
  }

  // ---- chains and cycles ----

  ghost predicate IsPath(g: Graph, p: seq<string>)
  {
    && |p| > 0
    && (forall i | 0 <= i < |p| :: p[i] in g)
    && (forall i, j | 0 <= i < j < |p| && j == i + 1 :: p[j] in g[p[i]])
  }

  ghost predicate PathFrom(g: Graph, n: string, p: seq<string>)
  {
    IsPath(g, p) && p[0] == n
  }

  ghost predicate IsCycle(g: Graph, c: seq<string>)
  {
    IsPath(g, c) && |c| >= 2 && c[0] == c[|c| - 1]
  }

  ghost predicate Acyclic(g: Graph)
  {
    forall c :: !IsCycle(g, c)
  }

  /** `n` depends, directly or not, on a member of a cycle (or is one). */
  ghost predicate ReachesCycle(g: Graph, n: string)
  {
    exists p, c :: PathFrom(g, n, p) && IsCycle(g, c) && p[|p| - 1] == c[0]
  }

  /** The longest dependency chain starting at `n` has `k` edges. */
  ghost predicate LongestChain(g: Graph, n: string, k: nat)
  {
    && (exists p :: PathFrom(g, n, p) && |p| == k + 1)
    && (forall p :: PathFrom(g, n, p) ==> |p| <= k + 1)
  }

  // ---- ranks ----

  /** Every ranked node is one above its highest dependency. */
  ghost predicate Ranked(g: Graph, rank: map<string, nat>)
  {
    && rank.Keys <= g.Keys
    && (forall n, d :: n in rank && d in g[n] ==> d in rank && rank[d] < rank[n])
    && (forall n {:trigger Supported(g, rank, n)} | n in rank && rank[n] > 0 :: Supported(g, rank, n))
  }

  /** Some dependency of `n` sits exactly one rank below it. */
  ghost predicate Supported(g: Graph, rank: map<string, nat>, n: string)
    requires n in g && n in rank
  {
    exists d :: d in g[n] && d in rank && rank[d] + 1 == rank[n]
  }

  lemma {:induction false} RankBoundsPath(g: Graph, rank: map<string, nat>, p: seq<string>)
    requires Ranked(g, rank) && IsPath(g, p) && p[0] in rank
    ensures p[|p| - 1] in rank
    ensures rank[p[|p| - 1]] + |p| - 1 <= rank[p[0]]
  {
    if |p| > 1 {
      assert p[1] in g[p[0]];
      RankBoundsPath(g, rank, p[1..]);
    }
  }

  lemma {:induction false} RankChain(g: Graph, rank: map<string, nat>, n: string) returns (p: seq<string>)
    requires Ranked(g, rank) && n in rank
    ensures PathFrom(g, n, p) && |p| == rank[n] + 1
    decreases rank[n]
  {
    if rank[n] == 0 {
      p := [n];
    } else {
      assert Supported(g, rank, n);
      var d :| d in g[n] && d in rank && rank[d] + 1 == rank[n];
      var q := RankChain(g, rank, d);
      p := [n] + q;
      Prepend(g, n, q);
    }
  }

  lemma Prepend(g: Graph, n: string, q: seq<string>)
    requires IsPath(g, q) && n in g && q[0] in g[n]
    ensures PathFrom(g, n, [n] + q)
  {
    var p := [n] + q;
    forall i, j | 0 <= i < j < |p| && j == i + 1 ensures p[j] in g[p[i]] {
      assert p[j] == q[i];
    }
  }

  lemma SubPath(g: Graph, p: seq<string>, i: nat, j: nat)
    requires IsPath(g, p) && i < j <= |p|
    ensures IsPath(g, p[i..j])
  {
    var q := p[i..j];
    forall k, l | 0 <= k < l < |q| && l == k + 1 ensures q[l] in g[q[k]] {
      assert q[l] == p[i + l] && q[k] == p[i + k];
    }
  }

  lemma RankIsLongestChain(g: Graph, rank: map<string, nat>, n: string)
    requires Ranked(g, rank) && n in rank
    ensures LongestChain(g, n, rank[n])
  {
    var p := RankChain(g, rank, n);
    forall q | PathFrom(g, n, q) ensures |q| <= rank[n] + 1 {
      RankBoundsPath(g, rank, q);
    }
  }

  lemma RankedAvoidsCycles(g: Graph, rank: map<string, nat>, n: string)
    requires Ranked(g, rank) && n in rank
    ensures !ReachesCycle(g, n)
  {
    forall p, c | PathFrom(g, n, p) && IsCycle(g, c) && p[|p| - 1] == c[0] ensures false {
      RankBoundsPath(g, rank, p);
      RankBoundsPath(g, rank, c);
    }
  }

  // ---- what is left when no node is free ----

  /** Every member of `stuck` still has a dependency in `stuck`. */
  ghost predicate Stuck(g: Graph, stuck: set<string>)
  {
    stuck <= g.Keys && forall n {:trigger Blocked(g, stuck, n)} | n in stuck :: Blocked(g, stuck, n)
  }

  ghost predicate Blocked(g: Graph, stuck: set<string>, n: string)
    requires n in g
  {
    exists d :: d in g[n] && d in stuck
  }

  ghost predicate Within(p: seq<string>, s: set<string>)
  {
    forall i | 0 <= i < |p| :: p[i] in s
  }

  lemma {:induction false} StuckWalk(g: Graph, stuck: set<string>, n: string, k: nat) returns (p: seq<string>)
    requires Stuck(g, stuck) && n in stuck
    ensures PathFrom(g, n, p) && |p| == k + 1 && Within(p, stuck)
    decreases k
  {
    if k == 0 {
      p := [n];
    } else {
      assert Blocked(g, stuck, n);
      var d :| d in g[n] && d in stuck;
      var q := StuckWalk(g, stuck, d, k - 1);
      p := [n] + q;
      Prepend(g, n, q);
    }
  }

  /** A walk longer than the set it stays in visits a node twice. */
  lemma {:induction false} Pigeonhole(p: seq<string>, s: set<string>) returns (i: nat, j: nat)
    requires Within(p, s) && |p| > |s|
    ensures i < j < |p| && p[i] == p[j]
    decreases |s|
  {
    assert p[0] in s;
    if k :| 0 < k < |p| && p[k] == p[0] {
      i, j := 0, k;
    } else {
      forall k | 0 <= k < |p[1..]| ensures p[1..][k] in s - {p[0]} {
        assert p[1..][k] == p[k + 1];
      }
      assert |s - {p[0]}| == |s| - 1;
      i, j := Pigeonhole(p[1..], s - {p[0]});
      i, j := i + 1, j + 1;
    }
  }

  lemma StuckReachesCycle(g: Graph, stuck: set<string>, n: string)
    requires Stuck(g, stuck) && n in stuck
    ensures ReachesCycle(g, n)
  {
    var p := StuckWalk(g, stuck, n, |stuck|);
    var i, j := Pigeonhole(p, stuck);
    var lead, c := p[..i + 1], p[i..j + 1];
    SubPath(g, p, 0, i + 1);
    SubPath(g, p, i, j + 1);
    assert lead == p[0..i + 1];
    assert IsCycle(g, c);
    assert lead[|lead| - 1] == c[0];
  }

  // ---- the gate ----

  predicate StrictlySorted(l: seq<string>)
  {
    forall i, j | 0 <= i < j < |l| :: StrLess(l[i], l[j])
  }

  ghost predicate Lists(l: seq<string>, s: set<string>)
  {
    StrictlySorted(l) && forall x :: x in l <==> x in s
  }

  /** `sorted(...)` over a collection of distinct names. */
  method SortNames(s: set<string>) returns (l: seq<string>)
    ensures Lists(l, s)
  {
    l := [];
    var rest := s;
    while rest != {}
      invariant StrictlySorted(l)
      invariant rest <= s
      invariant forall x :: x in l <==> x in s - rest
      decreases rest
    {
      var x :| x in rest;
      var k := 0;
      while k < |l| && StrLess(l[k], x)
        invariant k <= |l|
        invariant forall i | 0 <= i < k :: StrLess(l[i], x)
      {
        k := k + 1;
      }
      InsertSorted(l, x, k);
      l := l[..k] + [x] + l[k..];
      rest := rest - {x};
    }
  }

  lemma InsertSorted(l: seq<string>, x: string, k: nat)
    requires StrictlySorted(l) && x !in l && k <= |l|
    requires forall i | 0 <= i < k :: StrLess(l[i], x)
    requires k < |l| ==> !StrLess(l[k], x)
    ensures StrictlySorted(l[..k] + [x] + l[k..])
    ensures forall y :: y in l[..k] + [x] + l[k..] <==> y in l || y == x
  {
    var m := l[..k] + [x] + l[k..];
    assert l == l[..k] + l[k..];
    forall j | k <= j < |l| ensures StrLess(x, l[j]) {
      LessTrichotomy(x, l[k]);
      if k < j {
        LessTransitive(x, l[k], l[j]);
      }
    }
    forall i, j | 0 <= i < j < |m| ensures StrLess(m[i], m[j]) {
    }
  }

  datatype Verdict =
    | Unknown(names: seq<string>)
    | CycleAmong(nodes: seq<string>)
    | Layers(ordered: seq<seq<string>>)

  /** The layers list every node once, in the layer numbered by its longest chain. */
  ghost predicate LayeredBy(g: Graph, ordered: seq<seq<string>>)
  {
    && (forall k | 0 <= k < |ordered| :: ordered[k] != [] && StrictlySorted(ordered[k]))
    && (forall k, n | 0 <= k < |ordered| :: n in ordered[k] <==> n in g && LongestChain(g, n, k))
    && (forall n | n in g :: exists k :: 0 <= k < |ordered| && n in ordered[k])
  }

  /** The report names exactly the nodes from which a cycle can be reached. */
  ghost predicate CycleReport(g: Graph, nodes: seq<string>)
  {
    StrictlySorted(nodes) && forall n :: n in nodes <==> n in g && ReachesCycle(g, n)
  }

  lemma ChainLengthUnique(g: Graph, n: string, k: nat, l: nat)
    requires LongestChain(g, n, k) && LongestChain(g, n, l)
    ensures k == l
  {
  }

  /** Nodes of a layering partition the graph: no node is in two layers. */
  lemma LayersDisjoint(g: Graph, ordered: seq<seq<string>>, i: nat, j: nat, n: string)
    requires LayeredBy(g, ordered) && i < |ordered| && j < |ordered| && n in ordered[i] && n in ordered[j]
    ensures i == j
  {
    ChainLengthUnique(g, n, i, j);
  }

  ghost predicate LayersHold(g: Graph, rank: map<string, nat>, ordered: seq<seq<string>>)
  {
    && (forall n | n in rank :: rank[n] < |ordered|)
    && (forall k | 0 <= k < |ordered| :: ordered[k] != [] && Lists(ordered[k], set n | n in rank && rank[n] == k))
  }

  /** Each unranked node was held back when the last layer was taken. */
  ghost predicate Lagging(g: Graph, rank: map<string, nat>, rest: set<string>, k: nat)
  {
    rest <= g.Keys && (k > 0 ==> forall n {:trigger HeldBack(g, rank, n, k)} | n in rest :: HeldBack(g, rank, n, k))
  }

  ghost predicate HeldBack(g: Graph, rank: map<string, nat>, n: string, k: nat)
    requires n in g
  {
    exists d :: d in g[n] && (d !in rank || rank[d] == k - 1)
  }

  /** What `remaining` holds: the unranked nodes with their unranked dependencies. */
  ghost predicate Residue(g: Graph, rank: map<string, nat>, remaining: map<string, set<string>>)
  {
    && remaining.Keys == g.Keys - rank.Keys
    && forall n, d :: n in remaining ==> (d in remaining[n] <==> d in g[n] && d !in rank)
  }

  ghost function Extended(rank: map<string, nat>, free: set<string>, k: nat): (r: map<string, nat>)
    ensures r.Keys == rank.Keys + free
    ensures forall n | n in r :: r[n] == if n in free then k else rank[n]
  {
    rank + map n | n in free :: k
  }

  /** Delete the layer's nodes and shrink every remaining dependency set by the layer. */
  function Without(remaining: map<string, set<string>>, layer: set<string>): (r: map<string, set<string>>)
    ensures r.Keys == remaining.Keys - layer
    ensures forall n | n in r :: r[n] == remaining[n] - layer
  {
    map n | n in remaining && n !in layer :: remaining[n] - layer
  }

  lemma ResidueStep(g: Graph, rank: map<string, nat>, remaining: map<string, set<string>>, free: set<string>, k: nat)
    requires Residue(g, rank, remaining) && free <= remaining.Keys
    ensures Residue(g, Extended(rank, free, k), Without(remaining, free))
  {
  }

  lemma LayersGrow(g: Graph, rank: map<string, nat>, ordered: seq<seq<string>>, free: set<string>, layer: seq<string>)
    requires LayersHold(g, rank, ordered) && Lists(layer, free) && layer != [] && free !! rank.Keys
    ensures LayersHold(g, Extended(rank, free, |ordered|), ordered + [layer])
  {
    var rank', ordered' := Extended(rank, free, |ordered|), ordered + [layer];
    forall k | 0 <= k < |ordered'| ensures Lists(ordered'[k], set n | n in rank' && rank'[n] == k) {
      assert (set n | n in rank' && rank'[n] == k) ==
             if k == |ordered| then free else set n | n in rank && rank[n] == k;
    }
  }

  /** The loop's invariant. */
  ghost predicate Progress(g: Graph, rank: map<string, nat>, remaining: map<string, set<string>>,
                           ordered: seq<seq<string>>)
  {
    && Ranked(g, rank)
    && Residue(g, rank, remaining)
    && Lagging(g, rank, remaining.Keys, |ordered|)
    && LayersHold(g, rank, ordered)
  }

  function Free(remaining: map<string, set<string>>): set<string>
  {
    set n | n in remaining && remaining[n] == {}
  }

  lemma Advance(g: Graph, rank: map<string, nat>, remaining: map<string, set<string>>, ordered: seq<seq<string>>,
                layer: seq<string>)
    requires Closed(g) && Progress(g, rank, remaining, ordered)
    requires Lists(layer, Free(remaining)) && layer != []
    ensures Progress(g, Extended(rank, Free(remaining), |ordered|), Without(remaining, Free(remaining)),
                     ordered + [layer])
  {
    LayerStep(g, rank, remaining, Free(remaining), |ordered|);
    ResidueStep(g, rank, remaining, Free(remaining), |ordered|);
    LayersGrow(g, rank, ordered, Free(remaining), layer);
  }

  lemma Blockage(g: Graph, rank: map<string, nat>, remaining: map<string, set<string>>, ordered: seq<seq<string>>)
    requires Closed(g) && Progress(g, rank, remaining, ordered) && remaining != map[] && Free(remaining) == {}
    ensures !Acyclic(g) && remaining.Keys != {}
    ensures forall n :: n in remaining.Keys <==> n in g && ReachesCycle(g, n)
  {
    forall n | n in remaining ensures remaining[n] != {} {
      assert n !in Free(remaining);
    }
    ResidueIsStuck(g, rank, remaining);
    StuckIsExact(g, rank, remaining.Keys);
  }

  /** `check_acyclic`. The graph's dependencies are all nodes: the caller refuses it otherwise. */
  method CheckAcyclic(g: Graph) returns (v: Verdict)
    requires Closed(g)
    ensures v.Layers? || v.CycleAmong?
    ensures v.Layers? <==> Acyclic(g)
    ensures v.Layers? ==> LayeredBy(g, v.ordered)
    ensures v.CycleAmong? ==> v.nodes != [] && CycleReport(g, v.nodes)
  {
    var remaining := map n | n in g :: set d | d in g[n];
    var ordered: seq<seq<string>> := [];
    ghost var rank: map<string, nat> := map[];
    while remaining != map[]
      invariant Progress(g, rank, remaining, ordered)
      decreases remaining.Keys
    {
      var layer := SortNames(Free(remaining));
      if layer == [] {
        assert Free(remaining) == {} by {
          assert forall x :: x in layer <==> x in Free(remaining);
        }
        Blockage(g, rank, remaining, ordered);
        var nodes := SortNames(remaining.Keys);
        return CycleAmong(nodes);
      }
      Advance(g, rank, remaining, ordered, layer);
      assert layer[0] in Free(remaining);
      rank := Extended(rank, Free(remaining), |ordered|);
      ordered := ordered + [layer];
      remaining := Without(remaining, Free(remaining));
    }
    AllRanked(g, rank, ordered);
    return Layers(ordered);
  }

  lemma ResidueIsStuck(g: Graph, rank: map<string, nat>, remaining: map<string, set<string>>)
    requires Closed(g) && Residue(g, rank, remaining)
    requires forall n | n in remaining :: remaining[n] != {}
    ensures Stuck(g, remaining.Keys)
  {
    forall n | n in remaining.Keys ensures Blocked(g, remaining.Keys, n) {
      var d :| d in remaining[n];
      assert d in g[n] && d in g && d !in rank;
    }
  }

  lemma StuckIsExact(g: Graph, rank: map<string, nat>, stuck: set<string>)
    requires Ranked(g, rank) && Stuck(g, stuck) && stuck == g.Keys - rank.Keys && stuck != {}
    ensures !Acyclic(g)
    ensures forall n | n in g :: n in stuck <==> ReachesCycle(g, n)
  {
    forall n | n in g ensures n in stuck <==> ReachesCycle(g, n) {
      if n in stuck {
        StuckReachesCycle(g, stuck, n);
      } else {
        RankedAvoidsCycles(g, rank, n);
      }
    }
    var n :| n in stuck;
    assert ReachesCycle(g, n);
    var p, c :| PathFrom(g, n, p) && IsCycle(g, c) && p[|p| - 1] == c[0];
  }

  lemma FreeSupported(g: Graph, rank: map<string, nat>, free: set<string>, n: string, k: nat)
    requires n in g && n in free && k > 0 && HeldBack(g, rank, n, k)
    requires rank.Keys !! free && forall d | d in g[n] :: d in rank
    ensures Supported(g, Extended(rank, free, k), n)
  {
    var d :| d in g[n] && (d !in rank || rank[d] == k - 1);
    assert d in Extended(rank, free, k);
  }

  lemma LayerStep(g: Graph, rank: map<string, nat>, remaining: map<string, set<string>>, free: set<string>, k: nat)
    requires Closed(g) && Ranked(g, rank)
    requires Residue(g, rank, remaining)
    requires Lagging(g, rank, remaining.Keys, k)
    requires free == set n | n in remaining && remaining[n] == {}
    requires forall n | n in rank :: rank[n] < k
    ensures Ranked(g, Extended(rank, free, k))
    ensures Lagging(g, Extended(rank, free, k), remaining.Keys - free, k + 1)
  {
    LayerRanked(g, rank, remaining, free, k);
    var rank' := Extended(rank, free, k);
    forall n | n in remaining.Keys - free ensures HeldBack(g, rank', n, k + 1) {
      var d :| d in remaining[n];
      assert d in g[n] && (d !in rank' || rank'[d] == k);
    }
  }

  lemma LayerRanked(g: Graph, rank: map<string, nat>, remaining: map<string, set<string>>, free: set<string>, k: nat)
    requires Closed(g) && Ranked(g, rank)
    requires Residue(g, rank, remaining)
    requires Lagging(g, rank, remaining.Keys, k)
    requires forall n | n in free :: n in remaining && remaining[n] == {}
    requires forall n | n in rank :: rank[n] < k
    ensures Ranked(g, Extended(rank, free, k))
  {
    forall n, d | n in free && d in g[n] ensures d in rank {
      assert d !in remaining[n];
    }
    RanksDescend(g, rank, free, k);
    var rank' := Extended(rank, free, k);
    forall n | n in rank' && rank'[n] > 0 ensures Supported(g, rank', n) {
      if n in free {
        assert HeldBack(g, rank, n, k);
        FreeSupported(g, rank, free, n, k);
      } else {
        assert Supported(g, rank, n);
        StillSupported(g, rank, free, n, k);
      }
    }
  }

  lemma RanksDescend(g: Graph, rank: map<string, nat>, free: set<string>, k: nat)
    requires Ranked(g, rank) && free <= g.Keys && rank.Keys !! free
    requires forall n, d | n in free && d in g[n] :: d in rank
    requires forall n | n in rank :: rank[n] < k
    ensures var rank' := Extended(rank, free, k);
            forall n, d :: n in rank' && d in g[n] ==> d in rank' && rank'[d] < rank'[n]
  {
  }

  lemma StillSupported(g: Graph, rank: map<string, nat>, free: set<string>, n: string, k: nat)
    requires n in g && n in rank && rank.Keys !! free && Supported(g, rank, n)
    ensures Supported(g, Extended(rank, free, k), n)
  {
    var d :| d in g[n] && d in rank && rank[d] + 1 == rank[n];
    assert d in Extended(rank, free, k);
  }

  lemma AllRanked(g: Graph, rank: map<string, nat>, ordered: seq<seq<string>>)
    requires Ranked(g, rank) && rank.Keys == g.Keys && LayersHold(g, rank, ordered)
    ensures Acyclic(g) && LayeredBy(g, ordered)
  {
    forall c | IsCycle(g, c) ensures false {
      RankBoundsPath(g, rank, c);
    }
    forall n | n in g ensures LongestChain(g, n, rank[n]) {
      RankIsLongestChain(g, rank, n);
    }
    forall k, n | 0 <= k < |ordered| ensures n in ordered[k] <==> n in g && LongestChain(g, n, k) {
      if n in g && LongestChain(g, n, k) {
        ChainLengthUnique(g, n, k, rank[n]);
      }
    }
    forall n | n in g ensures exists k :: 0 <= k < |ordered| && n in ordered[k] {
      assert n in ordered[rank[n]];
    }
  }

  // ---- the gate of the workspace ----

  function Missing(ds: seq<string>, known: set<string>): (m: seq<string>)
    ensures forall d :: d in m <==> d in ds && d !in known
  {
    if ds == [] then []
    else Missing(ds[..|ds| - 1], known) + if ds[|ds| - 1] in known then [] else [ds[|ds| - 1]]
  }

  /** The undeclared dependencies crate by crate, repeated as often as they are declared. */
  function Undeclared(g: Graph, order: seq<string>): seq<string>
    requires forall n | n in order :: n in g
  {
    if order == [] then []
    else Undeclared(g, order[..|order| - 1]) + Missing(g[order[|order| - 1]], g.Keys)
  }

  lemma {:induction false} UndeclaredHas(g: Graph, order: seq<string>, d: string)
    requires forall n | n in order :: n in g
    ensures d in Undeclared(g, order) <==> d !in g && exists n :: n in order && d in g[n]
  {
    if order != [] {
      var k := |order| - 1;
      UndeclaredHas(g, order[..k], d);
      assert order == order[..k] + [order[k]];
    }
  }

  predicate Ordered(l: seq<string>)
  {
    forall i, j | 0 <= i < j < |l| :: !StrLess(l[j], l[i])
  }

  /** `sorted(...)` with repetitions kept. */
  method SortAll(l: seq<string>) returns (s: seq<string>)
    ensures Ordered(s) && multiset(s) == multiset(l)
  {
    s := [];
    for i := 0 to |l|
      invariant Ordered(s) && multiset(s) == multiset(l[..i])
    {
      var k := 0;
      while k < |s| && !StrLess(l[i], s[k])
        invariant k <= |s|
        invariant forall j | 0 <= j < k :: !StrLess(l[i], s[j])
      {
        k := k + 1;
      }
      InsertOrdered(s, l[i], k);
      assert l[..i + 1] == l[..i] + [l[i]];
      s := s[..k] + [l[i]] + s[k..];
    }
    assert l[..|l|] == l;
  }

  lemma InsertOrdered(s: seq<string>, x: string, k: nat)
    requires Ordered(s) && k <= |s| && forall j | 0 <= j < k :: !StrLess(x, s[j])
    requires k < |s| ==> StrLess(x, s[k])
    ensures Ordered(s[..k] + [x] + s[k..]) && multiset(s[..k] + [x] + s[k..]) == multiset(s) + multiset{x}
  {
    assert s == s[..k] + s[k..];
    forall j | k <= j < |s| ensures !StrLess(s[j], x) {
      LessTrichotomy(x, s[k]);
      if StrLess(s[j], x) {
        LessTransitive(s[j], x, s[k]);
      }
    }
  }

  lemma ListsNothing(l: seq<string>, s: set<string>)
    requires Lists(l, s)
    ensures l == [] <==> s == {}
  {
    if l != [] {
      assert l[0] in l;
    }
  }

  /** There is one strictly sorted list of a set. */
  lemma {:induction false} ListsUnique(a: seq<string>, b: seq<string>, s: set<string>)
    requires Lists(a, s) && Lists(b, s)
    ensures a == b
    decreases |a|
  {
    ListsNothing(a, s);
    ListsNothing(b, s);
    if a != [] {
      assert a[0] in a && b[0] in b;
      FirstIsLeast(a, b[0]);
      FirstIsLeast(b, a[0]);
      LessTrichotomy(a[0], b[0]);
      TailLists(a, s);
      TailLists(b, s);
      ListsUnique(a[1..], b[1..], s - {a[0]});
      assert a == [a[0]] + a[1..] && b == [b[0]] + b[1..];
    }
  }

  lemma FirstIsLeast(l: seq<string>, x: string)
    requires StrictlySorted(l) && x in l
    ensures x == l[0] || StrLess(l[0], x)
  {
  }

  lemma TailLists(l: seq<string>, s: set<string>)
    requires Lists(l, s) && l != []
    ensures Lists(l[1..], s - {l[0]})
  {
    assert l == [l[0]] + l[1..];
    forall i | 1 <= i < |l| ensures l[i] != l[0] {
      LessTrichotomy(l[0], l[i]);
    }
  }

  /** The gate of `main`: undeclared dependencies are refused before any layering, and listed in order,
      each as often as it is declared. */
  method CheckWorkspace(g: Graph) returns (v: Verdict)
    ensures v.Unknown? <==> !Closed(g)
    ensures v.Unknown? ==> Ordered(v.names)
    ensures v.Unknown? ==>
              forall order | Lists(order, g.Keys) :: multiset(v.names) == multiset(Undeclared(g, order))
    ensures v.Layers? <==> Closed(g) && Acyclic(g)
    ensures v.Layers? ==> LayeredBy(g, v.ordered)
    ensures v.CycleAmong? ==> v.nodes != [] && CycleReport(g, v.nodes)
  {
    var order := SortNames(g.Keys);
    var unknown := FindUndeclared(g, order);
    UndeclaredExact(g, order);
    if unknown != [] {
      var names := SortAll(unknown);
      forall other | Lists(other, g.Keys) ensures other == order {
        ListsUnique(other, order, g.Keys);
      }
      return Unknown(names);
    }
    v := CheckAcyclic(g);
  }

  method FindUndeclared(g: Graph, order: seq<string>) returns (unknown: seq<string>)
    requires forall n | n in order :: n in g
    ensures unknown == Undeclared(g, order)
  {
    unknown := [];
    for i := 0 to |order|
      invariant unknown == Undeclared(g, order[..i])
    {
      assert order[..i + 1][..i] == order[..i];
      unknown := unknown + Missing(g[order[i]], g.Keys);
    }
    assert order[..|order|] == order;
  }

  /** Nothing is undeclared exactly when every dependency is a crate of the workspace. */
  lemma UndeclaredExact(g: Graph, order: seq<string>)
    requires Lists(order, g.Keys)
    ensures Undeclared(g, order) == [] <==> Closed(g)
  {
    if Undeclared(g, order) != [] {
      var d := Undeclared(g, order)[0];
      UndeclaredHas(g, order, d);
      var n :| n in order && d in g[n];
      assert d in g[n] && d !in g;
    } else {
      forall n, d | n in g && d in g[n] ensures d in g {
        UndeclaredHas(g, order, d);
      }
    }
  }
}
