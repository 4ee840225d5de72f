/** When a file of a rewrite chain is in time order: exactly when the generations whose lines it still
    holds start in order. */
module RewriteOrder {
  import opened Timestamp
  import opened Sessions

  /** The generation that wrote line `i` of generation `g`. */
  ghost function Owner(gens: seq<Generation>, g: nat, i: nat): (o: nat)
    requires g < |gens|
    ensures o <= g
  {
    if g == 0 || i >= gens[g].keep then g else Owner(gens, g - 1, i)
  }

  /** When a generation's own part starts. */
  ghost function StartOf(gens: seq<Generation>, start: int, o: nat): int
    requires o < |gens|
  {
    if o == 0 then start else gens[o].start
  }

  lemma Rewritten(gens: seq<Generation>, start: int, g: nat)
    requires Chain(gens, start) && 0 < g < |gens|
    ensures RewriteOf(gens[g - 1].lines, gens[g]) && Restart(gens[g], start, g)
  {
  }

  /** A line is still the one its generation wrote. */
  lemma {:induction false} OwnLine(gens: seq<Generation>, start: int, g: nat, i: nat)
    requires Chain(gens, start) && g < |gens| && i < |gens[g].lines|
    ensures var o := Owner(gens, g, i);
            && i < |gens[o].lines| && gens[o].lines[i] == gens[g].lines[i]
            && (o > 0 ==> gens[o].keep <= i)
  {
    if g > 0 && i < gens[g].keep {
      Rewritten(gens, start, g);
      assert gens[g].lines[i] == gens[g].lines[..gens[g].keep][i] == gens[g - 1].lines[i];
      OwnLine(gens, start, g - 1, i);
    }
  }

  /** What lies between the first own line of a generation and one of its lines is its own. */
  lemma {:induction false} OwnSpan(gens: seq<Generation>, g: nat, i: nat, j: nat)
    requires g < |gens| && i <= j
    requires var o := Owner(gens, g, j); o == 0 || gens[o].keep <= i
    ensures Owner(gens, g, i) == Owner(gens, g, j)
  {
    if g > 0 && j < gens[g].keep {
      OwnSpan(gens, g - 1, i, j);
    }
  }

  lemma {:induction false} OwnersAscend(gens: seq<Generation>, g: nat, i: nat, j: nat)
    requires g < |gens| && i <= j
    ensures Owner(gens, g, i) <= Owner(gens, g, j)
  {
    if g > 0 && j < gens[g].keep {
      OwnersAscend(gens, g - 1, i, j);
    }
  }

  /** A generation's own part starts with its start and ends within the day. */
  lemma OwnTimes(gens: seq<Generation>, start: int, o: nat, i: nat)
    requires Chain(gens, start) && o < |gens| && i < |gens[o].lines| && (o > 0 ==> gens[o].keep <= i)
    ensures var s := StartOf(gens, start, o); s <= gens[o].lines[i].ts < s + DAY
  {
    if o == 0 {
      FirstTimes(gens[0].lines, start, i);
    } else {
      Rewritten(gens, start, o);
      FreshTimes(gens[o - 1].lines, gens[o], i);
    }
  }

  lemma FirstTimes(lines: seq<Record>, start: int, i: nat)
    requires Session(lines, start, GAP) && |lines| <= 25 && i < |lines|
    ensures start <= lines[i].ts < start + DAY
  {
    if i < |lines| - 1 {
      SessionEndsLast(lines, start, GAP, i);
    }
  }

  lemma FreshTimes(prev: seq<Record>, next: Generation, i: nat)
    requires RewriteOf(prev, next) && next.keep <= i < |next.lines|
    ensures next.start <= next.lines[i].ts < next.start + DAY
  {
    FreshIncreasing(prev, next);
    var added := next.lines[next.keep..];
    var k, last := i - next.keep, |added| - 1;
    assert added[k] == next.lines[i] && added[0].ts == next.start && added[last].ts == next.start + END_AFTER;
    assert k > 0 ==> added[0].ts < added[k].ts;
    assert k < last ==> added[k].ts < added[last].ts;
  }

  /** Within one generation's own part time increases. */
  lemma OwnOrder(gens: seq<Generation>, start: int, o: nat, i: nat, j: nat)
    requires Chain(gens, start) && o < |gens| && i < j < |gens[o].lines| && (o > 0 ==> gens[o].keep <= i)
    ensures gens[o].lines[i].ts < gens[o].lines[j].ts
  {
    if o == 0 {
      SessionIncreasing(gens[0].lines, start, GAP);
    } else {
      Rewritten(gens, start, o);
      FreshIncreasing(gens[o - 1].lines, gens[o]);
      var added := gens[o].lines[gens[o].keep..];
      assert added[i - gens[o].keep].ts < added[j - gens[o].keep].ts;
    }
  }

  /** Starts lie whole days apart. */
  lemma WholeDays(gens: seq<Generation>, start: int, o: nat) returns (days: int)
    requires Chain(gens, start) && o < |gens|
    ensures StartOf(gens, start, o) == start + days * DAY
  {
    days := 0;
    if o > 0 {
      Rewritten(gens, start, o);
      var ts := gens[o].start;
      var unit := (o + 1) * DAY;
      days := if ts == start + unit then o + 1 else if ts == start + 2 * unit then 2 * (o + 1) else 3 * (o + 1);
      assert 2 * unit == 2 * (o + 1) * DAY && 3 * unit == 3 * (o + 1) * DAY;
    }
  }

  lemma DaysApart(gens: seq<Generation>, start: int, o: nat, q: nat)
    requires Chain(gens, start) && o < |gens| && q < |gens|
    ensures StartOf(gens, start, o) < StartOf(gens, start, q) ==>
            StartOf(gens, start, o) + DAY <= StartOf(gens, start, q)
  {
    var a := WholeDays(gens, start, o);
    var b := WholeDays(gens, start, q);
  }

  /** Any two lines of different generations come from starts in order. */
  ghost predicate StartsAscend(gens: seq<Generation>, start: int, g: nat)
    requires g < |gens|
  {
    forall i, j | 0 <= i < j < |gens[g].lines| && Owner(gens, g, i) != Owner(gens, g, j) ::
      StartOf(gens, start, Owner(gens, g, i)) < StartOf(gens, start, Owner(gens, g, j))
  }

  lemma LaterLine(gens: seq<Generation>, start: int, g: nat, i: nat, j: nat)
    requires Chain(gens, start) && g < |gens| && i < j < |gens[g].lines| && StartsAscend(gens, start, g)
    ensures gens[g].lines[i].ts < gens[g].lines[j].ts
  {
    var o, q := Owner(gens, g, i), Owner(gens, g, j);
    OwnLine(gens, start, g, i);
    OwnLine(gens, start, g, j);
    if o == q {
      OwnOrder(gens, start, o, i, j);
    } else {
      OwnTimes(gens, start, o, i);
      OwnTimes(gens, start, q, j);
      DaysApart(gens, start, o, q);
    }
  }

  lemma EarlierStart(gens: seq<Generation>, start: int, g: nat, i: nat, j: nat)
    requires Chain(gens, start) && g < |gens| && i < j < |gens[g].lines| && Increasing(gens[g].lines)
    requires Owner(gens, g, i) != Owner(gens, g, j)
    ensures StartOf(gens, start, Owner(gens, g, i)) < StartOf(gens, start, Owner(gens, g, j))
  {
    var o, q := Owner(gens, g, i), Owner(gens, g, j);
    OwnersAscend(gens, g, i, j);
    OwnLine(gens, start, g, i);
    OwnLine(gens, start, g, j);
    var first := gens[q].keep;
    if i >= first {
      OwnSpan(gens, g, i, j);
    }
    OwnSpan(gens, g, first, j);
    OwnLine(gens, start, g, first);
    Rewritten(gens, start, q);
    assert gens[g].lines[first].ts == gens[q].start;
    OwnTimes(gens, start, o, i);
    assert gens[g].lines[i].ts < gens[g].lines[first].ts;
  }

  /** A file of any generation is in time order if and only if the generations whose lines it holds start
      in the order of their lines. */
  lemma OrderedExactly(gens: seq<Generation>, start: int, g: nat)
    requires Chain(gens, start) && g < |gens|
    ensures Increasing(gens[g].lines) <==> StartsAscend(gens, start, g)
  {
    if StartsAscend(gens, start, g) {
      forall i, j | 0 <= i < j < |gens[g].lines| ensures gens[g].lines[i].ts < gens[g].lines[j].ts {
        LaterLine(gens, start, g, i, j);
      }
    }
    if Increasing(gens[g].lines) {
      forall i, j | 0 <= i < j < |gens[g].lines| && Owner(gens, g, i) != Owner(gens, g, j)
        ensures StartOf(gens, start, Owner(gens, g, i)) < StartOf(gens, start, Owner(gens, g, j))
      {
        EarlierStart(gens, start, g, i, j);
      }
    }
  }
}
