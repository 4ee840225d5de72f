/** A byte stream on which the generator makes a third generation that is out of time order. */
module RewriteSample {
  import opened Text
  import opened Json
  import opened Timestamp
  import opened DrbgStream
  import opened Wording
  import opened Draws
  import opened Sessions
  import opened RewriteOrder
  import opened CommittedCorpus

  // ---- the stream ----

  /** Zero everywhere but twice: the second generation restarts as late as it can, and the third keeps a
      line more. */
  function Mark(i: nat): Byte
  {
    if i == 347 then 2 else if i == 482 then 1 else 0
  }

  function Stream(k: nat): Block
  {
    var bytes := seq<Byte>(32, i requires 0 <= i < 32 => Mark(32 * k + i));
    assert |bytes| == 32;
    bytes
  }

  lemma StreamIs(i: nat)
    ensures StreamByte(Stream, i) == Mark(i)
  {
    assert i == 32 * (i / 32) + i % 32;
  }

  /** Nothing but zeros from `p` to `q`, and the stream reaches so far. */
  predicate Quiet(p: nat, q: nat)
  {
    (q <= 347 || p > 347) && (q <= 482 || p > 482) && q <= 1000
  }

  lemma {:induction false} ZerosMakeZero(bs: Bytes)
    requires forall i | 0 <= i < |bs| :: bs[i] == 0
    ensures FromBytes(bs) == 0
  {
    if bs != [] {
      ZerosMakeZero(bs[..|bs| - 1]);
    }
  }

  lemma {:induction false} BitLengthAtMost(n: nat, k: nat)
    requires n < Pow2(k)
    ensures BitLength(n) <= k
  {
    if n > 0 {
      BitLengthAtMost(n / 2, k - 1);
    }
  }

  lemma {:induction false} BitLengthIs(n: nat, k: nat)
    requires k >= 1 && Pow2(k - 1) <= n < Pow2(k)
    ensures BitLength(n) == k
  {
    if n > 1 {
      BitLengthIs(n / 2, k - 1);
    }
  }

  lemma OneByte(n: nat)
    requires 2 <= n <= 256
    ensures DrawBytes(n) == 1
  {
    Pow2Eight();
    BitLengthAtMost(n - 1, 8);
  }

  lemma Widths()
    ensures DrawBytes(GAP) == 2 && DrawBytes(900) == 2 && DrawBytes(WINDOW_SECONDS) == 3
  {
    Pow2Eight();
    Pow2Add(8, 2);
    Pow2Add(8, 1);
    Pow2Add(8, 8);
    Pow2Add(16, 7);
    BitLengthIs(GAP - 1, 10);
    BitLengthIs(899, 10);
    BitLengthIs(WINDOW_SECONDS - 1, 24);
  }

  lemma Fits(v: nat, n: nat)
    requires v < n && n >= 2
    ensures v % Pow2(DrbgStream.Bits(n)) == v
  {
    BitLengthBounds(n - 1);
    RemainderUnique(v, Pow2(DrbgStream.Bits(n)), 0, v);
  }

  /** A raw value below the bound is drawn at once. */
  lemma DrawnAtOnce(p: nat, n: nat, width: nat, value: nat)
    requires n >= 2 && DrawBytes(n) == width && p + width <= 1000
    requires FromBytes(Range(Stream, p, p + width)) == value < n
    ensures BelowFrom(Stream, p, n) == Some((value, p + width))
  {
    Fits(value, n);
    assert DrawFrom(Stream, p, n) == Some((value, p + width));
  }

  /** A draw out of zeros is zero. */
  lemma QuietDraw(p: nat, n: nat, width: nat)
    requires n >= 2 && DrawBytes(n) == width && Quiet(p, p + width)
    ensures BelowFrom(Stream, p, n) == Some((0, p + width))
  {
    QuietRead(p, width);
    DrawnAtOnce(p, n, width, 0);
  }

  lemma QuietRead(p: nat, width: nat)
    requires Quiet(p, p + width)
    ensures FromBytes(Range(Stream, p, p + width)) == 0
  {
    var raw := Range(Stream, p, p + width);
    forall i | 0 <= i < |raw| ensures raw[i] == 0 {
      StreamIs(p + i);
    }
    ZerosMakeZero(raw);
  }

  lemma QuietByte(p: nat, n: nat)
    requires 2 <= n <= 256 && Quiet(p, p + 1)
    ensures BelowFrom(Stream, p, n) == Some((0, p + 1))
  {
    OneByte(n);
    QuietDraw(p, n, 1);
  }

  lemma OneByteRead(p: nat)
    ensures FromBytes(Range(Stream, p, p + 1)) == Mark(p)
  {
    StreamIs(p);
    var raw := Range(Stream, p, p + 1);
    assert raw == [Mark(p)] && raw[..0] == [];
    assert FromBytes(raw[..0]) == 0;
  }

  /** A draw of a marked byte. */
  lemma MarkedByte(p: nat, n: nat)
    requires (p == 347 || p == 482) && Mark(p) < n <= 256
    ensures BelowFrom(Stream, p, n) == Some((Mark(p), p + 1))
  {
    OneByte(n);
    OneByteRead(p);
    DrawnAtOnce(p, n, 1, Mark(p));
  }

  lemma QuietPick(p: nat, words: seq<string>)
    requires 2 <= |words| <= 256 && Quiet(p, p + 1)
    ensures PickFrom(Stream, p, words).Some? && PickFrom(Stream, p, words).value.1 == p + 1
  {
    QuietByte(p, |words|);
  }

  lemma {:induction false} QuietWords(p: nat, lists: seq<seq<string>>)
    requires (forall words | words in lists :: 2 <= |words| <= 256) && Quiet(p, p + |lists|)
    ensures [] !in lists
    ensures WordsFrom(Stream, p, lists).Some? && WordsFrom(Stream, p, lists).value.1 == p + |lists|
    decreases lists
  {
    if lists != [] {
      assert lists[0] in lists;
      QuietPick(p, lists[0]);
      QuietWords(p + 1, lists[1..]);
    }
  }

  // ---- the draws ----

  predicate At(r: Option<(string, nat)>, q: nat)
  {
    r.Some? && r.value.1 == q
  }

  /** Where the stream is quiet every draw takes its least number of bytes and chooses the first. */
  ghost predicate QuietAt(g: Draws, p: nat)
  {
    && (Quiet(p, p + 16) ==> At(g.uuid(p), p + 16) && g.uuid(p).value.0 != "")
    && (Quiet(p, p + 4) ==> At(g.account(p), p + 4))
    && (Quiet(p, p + 6) ==> At(g.sentence(p), p + 6))
    && (Quiet(p, p + 2) ==> At(g.project(p), p + 2))
    && (Quiet(p, p + 3) ==> At(g.model(p), p + 3))
    && (Quiet(p, p + 1) ==> At(g.reason(p), p + 1))
    && (Quiet(p, p + 2) ==> g.below(p, GAP) == Some((0, p + 2)))
    && forall n: nat | 2 <= n <= 256 && Quiet(p, p + 1) :: g.below(p, n) == Some((0, p + 1))
  }

  /** Draws that are quiet but for the two marks. */
  ghost predicate Sample(g: Draws)
  {
    && (forall p: nat {:trigger Asked(p)} :: Asked(p) ==> QuietAt(g, p))
    && g.below(20, WINDOW_SECONDS) == Some((0, 23))
    && g.below(347, 3) == Some((2, 348))
    && g.below(482, 5) == Some((1, 483))
  }

  lemma Sizes()
    ensures var voc := Committed();
            && |voc.adjectives| == 26 && |voc.nouns| == 36 && |voc.verbThirds| == 12 && |voc.reasons| == 3
  {
  }

  lemma QuietUuid(p: nat)
    requires Quiet(p, p + 16)
    ensures At(UuidFrom(Stream, p), p + 16) && UuidFrom(Stream, p).value.0 != ""
  {
    UuidShape(Range(Stream, p, p + 16));
  }

  lemma QuietSentence(p: nat)
    requires Quiet(p, p + 6)
    ensures At(SentenceFrom(Stream, p, Committed()), p + 6)
  {
    Sizes();
    QuietByte(p, 3);
    QuietWords(p + 1, Slots(Committed(), 0));
  }

  lemma QuietProject(p: nat)
    requires Quiet(p, p + 2)
    ensures At(ProjectFrom(Stream, p, Committed()), p + 2)
  {
    Sizes();
    QuietWords(p, [Committed().adjectives, Committed().nouns]);
  }

  lemma QuietModel(p: nat)
    requires Quiet(p, p + 3)
    ensures At(ModelFrom(Stream, p, Committed()), p + 3)
  {
    Sizes();
    Widths();
    QuietByte(p, 36);
    QuietDraw(p + 1, 900, 2);
  }

  lemma QuietReason(p: nat)
    requires Quiet(p, p + 1)
    ensures At(PickFrom(Stream, p, Committed().reasons), p + 1)
  {
    Sizes();
    QuietByte(p, 3);
  }

  lemma QuietWordsAt(g: Draws, p: nat)
    requires ServesWords(g, Stream, Committed(), p)
    ensures Quiet(p, p + 16) ==> At(g.uuid(p), p + 16) && g.uuid(p).value.0 != ""
    ensures Quiet(p, p + 4) ==> At(g.account(p), p + 4)
    ensures Quiet(p, p + 6) ==> At(g.sentence(p), p + 6)
    ensures Quiet(p, p + 2) ==> At(g.project(p), p + 2)
    ensures Quiet(p, p + 3) ==> At(g.model(p), p + 3)
    ensures Quiet(p, p + 1) ==> At(g.reason(p), p + 1)
  {
    if Quiet(p, p + 16) {
      QuietUuid(p);
    }
    if Quiet(p, p + 6) {
      QuietSentence(p);
    }
    if Quiet(p, p + 3) {
      QuietModel(p);
    }
    if Quiet(p, p + 2) {
      QuietProject(p);
    }
    if Quiet(p, p + 1) {
      QuietReason(p);
    }
  }

  lemma QuietNumbersAt(g: Draws, p: nat)
    requires forall n :: g.below(p, n) == BelowFrom(Stream, p, n)
    ensures Quiet(p, p + 2) ==> g.below(p, GAP) == Some((0, p + 2))
    ensures forall n: nat | 2 <= n <= 256 && Quiet(p, p + 1) :: g.below(p, n) == Some((0, p + 1))
  {
    if Quiet(p, p + 2) {
      Widths();
      QuietDraw(p, GAP, 2);
    }
    forall n: nat | 2 <= n <= 256 && Quiet(p, p + 1) ensures g.below(p, n) == Some((0, p + 1)) {
      QuietByte(p, n);
    }
  }

  lemma StreamIsSample(g: Draws)
    requires Serves(g, Stream, Committed())
    ensures Sample(g)
  {
    forall p: nat {:trigger Asked(p)} | Asked(p) ensures QuietAt(g, p) {
      QuietWordsAt(g, p);
      QuietNumbersAt(g, p);
    }
    MarksSeen(g);
  }

  lemma MarksSeen(g: Draws)
    requires Serves(g, Stream, Committed())
    ensures g.below(20, WINDOW_SECONDS) == Some((0, 23))
    ensures g.below(347, 3) == Some((2, 348)) && g.below(482, 5) == Some((1, 483))
  {
    assert Asked(20) && Asked(347) && Asked(482);
    Widths();
    QuietDraw(20, WINDOW_SECONDS, 3);
    MarkedByte(347, 3);
    MarkedByte(482, 5);
  }

  // ---- the chain ----

  lemma NextUser(g: Draws, p: nat, ts: int)
    requires Sample(g) && Quiet(p, p + 25)
    ensures var r := NextFrom(g, p, ts, GAP, false, None); r.Some? && r.value.0.User? && r.value.1 == p + 25
  {
    assert Asked(p) && Asked(p + 2) && Asked(p + 3) && Asked(p + 19);
    assert g.below(p, GAP) == Some((0, p + 2)) && g.below(p + 2, 10) == Some((0, p + 3));
    assert At(g.uuid(p + 3), p + 19) && At(g.sentence(p + 19), p + 25);
  }

  /** Every record of a quiet stretch takes twenty-five bytes and leaves no tool use pending. */
  ghost predicate Feeds(next: Next)
  {
    forall p: nat, ts {:trigger Wanted(p, ts, None)} ::
      Wanted(p, ts, None) && Quiet(p, p + 25) ==>
        next(p, ts, None).Some? && next(p, ts, None).value.0.User? && next(p, ts, None).value.1 == p + 25
  }

  lemma {:induction false} BodyRuns(next: Next, p: nat, count: nat, ts: int)
    requires Feeds(next) && Quiet(p, p + 25 * count)
    ensures BodyOf(next, p, count, ts, None).Some? && BodyOf(next, p, count, ts, None).value.1 == p + 25 * count
    decreases count
  {
    if count > 0 {
      assert Wanted(p, ts, None);
      BodyRuns(next, p + 25, count - 1, next(p, ts, None).value.0.ts);
    }
  }

  lemma BodyEnds(g: Draws, p: nat, count: nat, start: int)
    requires Sample(g) && Quiet(p, p + 25 * count)
    ensures BodyFrom(g, p, count, start, GAP, false).Some?
    ensures BodyFrom(g, p, count, start, GAP, false).value.1 == p + 25 * count
  {
    var next := NextOf(g, GAP, false);
    forall p: nat, ts {:trigger Wanted(p, ts, None)} | Quiet(p, p + 25)
      ensures next(p, ts, None).Some? && next(p, ts, None).value.0.User? && next(p, ts, None).value.1 == p + 25
    {
      NextUser(g, p, ts);
    }
    BodyRuns(next, p, count, start);
  }

  lemma EndsAt(g: Draws, p: nat, ts: int, records: nat)
    requires Sample(g) && Quiet(p, p + 17)
    ensures EndFrom(g, p, ts, records).Some? && EndFrom(g, p, ts, records).value.1 == p + 17
  {
    assert Asked(p) && Asked(p + 16);
    assert At(g.uuid(p), p + 16) && At(g.reason(p + 16), p + 17);
  }

  lemma HeadEnds(g: Draws)
    requires Sample(g)
    ensures var r := HeadFrom(g, 0);
            r.Some? && r.value.1 == 24 && r.value.0.0 != "" && r.value.0.2 == BASE_TS && r.value.0.3 == 12
  {
    assert Asked(0) && Asked(16) && Asked(23);
    assert At(g.uuid(0), 16) && At(g.account(16), 20) && g.below(23, 12) == Some((0, 24));
  }

  lemma SessionEnds(g: Draws, sid: string, account: string)
    requires Sample(g) && sid != ""
    ensures SessionFrom(g, 24, sid, account, BASE_TS, 12, GAP, false).Some?
    ensures SessionFrom(g, 24, sid, account, BASE_TS, 12, GAP, false).value.1 == 346
  {
    SessionAt(g, 24, sid, account, BASE_TS, 12);
  }

  lemma SessionAt(g: Draws, p: nat, sid: string, account: string, start: int, count: nat)
    requires Sample(g) && sid != "" && Quiet(p, p + 22 + 25 * count)
    ensures SessionFrom(g, p, sid, account, start, count, GAP, false).Some?
    ensures SessionFrom(g, p, sid, account, start, count, GAP, false).value.1 == p + 22 + 25 * count
  {
    StartsAt(g, p, sid, account, start);
    BodyEnds(g, p + 5, count, start);
    EndsAt(g, p + 5 + 25 * count, start + (count + 2) * (1 + GAP), count + 2);
    SessionParts(g, p, sid, account, start, count, p + 5, p + 5 + 25 * count);
  }

  lemma StartsAt(g: Draws, p: nat, sid: string, account: string, start: int)
    requires Sample(g) && sid != "" && Quiet(p, p + 5)
    ensures StartFrom(g, p, sid, account, start).Some? && StartFrom(g, p, sid, account, start).value.1 == p + 5
  {
    assert Asked(p) && Asked(p + 2);
    assert At(g.project(p), p + 2) && At(g.model(p + 2), p + 5);
  }

  lemma SessionParts(g: Draws, p: nat, sid: string, account: string, start: int, count: nat, p1: nat, p2: nat)
    requires StartFrom(g, p, sid, account, start).Some? && StartFrom(g, p, sid, account, start).value.1 == p1
    requires BodyFrom(g, p1, count, start, GAP, false).Some?
    requires BodyFrom(g, p1, count, start, GAP, false).value.1 == p2
    requires EndFrom(g, p2, start + (count + 2) * (1 + GAP), count + 2).Some?
    ensures SessionFrom(g, p, sid, account, start, count, GAP, false).Some?
    ensures SessionFrom(g, p, sid, account, start, count, GAP, false).value.1 ==
            EndFrom(g, p2, start + (count + 2) * (1 + GAP), count + 2).value.1
  {
  }

  lemma FirstEnds(g: Draws)
    requires Sample(g)
    ensures FirstFrom(g, 0).Some?
    ensures var (first, q) := FirstFrom(g, 0).value; q == 346 && |first.lines| == 14 && first.start == BASE_TS
  {
    HeadEnds(g);
    var head := HeadFrom(g, 0).value.0;
    SessionEnds(g, head.0, head.1);
  }

  lemma FreshEnds(g: Draws, p: nat, keep: nat, start: int)
    requires Sample(g) && Quiet(p, p + 134)
    ensures FreshFrom(g, p, keep, start).Some?
    ensures FreshFrom(g, p, keep, start).value.1 == p + 134 && |FreshFrom(g, p, keep, start).value.0| == 6
  {
    assert Asked(p) && Asked(p + 16);
    assert At(g.uuid(p), p + 16) && g.below(p + 16, 8) == Some((0, p + 17));
    FreshAt(g, p, keep, start, 0);
  }

  lemma FreshAt(g: Draws, p: nat, keep: nat, start: int, more: nat)
    requires Sample(g) && At(g.uuid(p), p + 16) && g.below(p + 16, 8) == Some((more, p + 17))
    requires Quiet(p + 17, p + 134 + 25 * more)
    ensures FreshFrom(g, p, keep, start).Some?
    ensures FreshFrom(g, p, keep, start).value.1 == p + 134 + 25 * more
    ensures |FreshFrom(g, p, keep, start).value.0| == 6 + more
  {
    FreshTail(g, p + 17, keep, start, 4 + more);
    FreshOf(g, p, keep, start, more, p + 17);
  }

  /** A body of `count` records and its end follow each other from `p` on. */
  ghost predicate Tail(g: Draws, p: nat, keep: nat, start: int, count: nat, q: nat)
  {
    && BodyFrom(g, p, count, start, GAP, false).Some?
    && var end := EndFrom(g, BodyFrom(g, p, count, start, GAP, false).value.1, start + END_AFTER, keep + 1 + count);
       end.Some? && end.value.1 == q
  }

  lemma FreshTail(g: Draws, p: nat, keep: nat, start: int, count: nat)
    requires Sample(g) && Quiet(p, p + 17 + 25 * count)
    ensures Tail(g, p, keep, start, count, p + 17 + 25 * count)
  {
    BodyEnds(g, p, count, start);
    EndsAt(g, p + 25 * count, start + END_AFTER, keep + 1 + count);
  }

  lemma FreshOf(g: Draws, p: nat, keep: nat, start: int, more: nat, p2: nat)
    requires g.uuid(p).Some? && g.below(g.uuid(p).value.1, 8) == Some((more, p2))
    requires Tail(g, p2, keep, start, 4 + more, p2 + 117 + 25 * more)
    ensures FreshFrom(g, p, keep, start).Some? && |FreshFrom(g, p, keep, start).value.0| == 6 + more
    ensures FreshFrom(g, p, keep, start).value.1 == p2 + 117 + 25 * more
  {
  }

  lemma SecondEnds(g: Draws, start: int, prev: seq<Record>)
    requires Bounded(g) && Sample(g) && |prev| == 14
    ensures RewriteFrom(g, 346, start, prev, 2).Some?
    ensures var (next, q) := RewriteFrom(g, 346, start, prev, 2).value;
            q == 482 && next.keep == 2 && next.start == start + 6 * DAY && |next.lines| == 8
  {
    assert Asked(346);
    assert g.below(346, 11) == Some((0, 347)) && g.below(347, 3) == Some((2, 348));
    assert RestartFrom(g, 346, start, 14, 2) == Some(((2, start + 6 * DAY), 348));
    FreshEnds(g, 348, 2, start + 6 * DAY);
  }

  lemma ThirdEnds(g: Draws, start: int, prev: seq<Record>)
    requires Bounded(g) && Sample(g) && |prev| == 8
    ensures RewriteFrom(g, 482, start, prev, 3).Some?
    ensures var next := RewriteFrom(g, 482, start, prev, 3).value.0; next.keep == 3 && next.start == start + 3 * DAY
  {
    assert Asked(483);
    assert g.below(482, 5) == Some((1, 483)) && g.below(483, 3) == Some((0, 484));
    assert RestartFrom(g, 482, start, 8, 3) == Some(((3, start + 3 * DAY), 484));
    FreshEnds(g, 484, 3, start + 3 * DAY);
  }

  lemma SampleRegresses(g: Draws)
    requires Bounded(g) && Sample(g)
    ensures ChainFrom(g, 0, 3).Some?
    ensures var gens := ChainFrom(g, 0, 3).value; |gens| == 3 && !Increasing(gens[2].lines)
  {
    FirstEnds(g);
    var first := FirstFrom(g, 0).value.0;
    SecondEnds(g, first.start, first.lines);
    var second := RewriteFrom(g, 346, first.start, first.lines, 2).value.0;
    ThirdEnds(g, first.start, second.lines);
    var third := RewriteFrom(g, 482, first.start, second.lines, 3).value.0;
    ChainIs(g, first, second, third);
    ChainFromIsChain(g, 0, 3);
    OutOfOrder([first] + [second] + [third], first.start);
  }

  lemma OutOfOrder(gens: seq<Generation>, start: int)
    requires Chain(gens, start) && |gens| == 3 && |gens[2].lines| >= 4
    requires gens[1].keep == 2 && gens[2].keep == 3 && gens[2].start < gens[1].start
    ensures !Increasing(gens[2].lines)
  {
    assert Owner(gens, 1, 2) == 1;
    assert Owner(gens, 2, 2) == Owner(gens, 1, 2);
    assert Owner(gens, 2, 3) == 2;
    OrderedExactly(gens, start, 2);
  }

  /** The generator does make such a file: on this stream its third generation keeps the compaction of
      the second, from day six, and goes on at day three. */
  lemma ThirdGenerationRegresses()
    ensures ChainFrom(DrawsOf(Stream, Committed()), 0, 3).Some?
    ensures var gens := ChainFrom(DrawsOf(Stream, Committed()), 0, 3).value; |gens| == 3 && !Increasing(gens[2].lines)
  {
    var g := DrawsOf(Stream, Committed());
    DrawsServe(Stream, Committed());
    StreamIsSample(g);
    SampleRegresses(g);
  }

  lemma ChainIs(g: Draws, first: Generation, second: Generation, third: Generation)
    requires Bounded(g) && FirstFrom(g, 0) == Some((first, 346)) && |first.lines| >= 4
    requires RewriteFrom(g, 346, first.start, first.lines, 2) == Some((second, 482)) && |second.lines| >= 4
    requires RewriteFrom(g, 482, first.start, second.lines, 3).Some?
    requires RewriteFrom(g, 482, first.start, second.lines, 3).value.0 == third && |third.lines| >= 4
    ensures ChainFrom(g, 0, 3) == Some([first] + [second] + [third])
  {
    var q := RewriteFrom(g, 482, first.start, second.lines, 3).value.1;
    var two := [first] + [second];
    assert RestFrom(g, q, first.start, two + [third], 4, 3) == Some(two + [third]);
    assert RestFrom(g, 482, first.start, two, 3, 3) == RestFrom(g, q, first.start, two + [third], 4, 3);
    assert RestFrom(g, 346, first.start, [first], 2, 3) == RestFrom(g, 482, first.start, two, 3, 3);
  }
}
