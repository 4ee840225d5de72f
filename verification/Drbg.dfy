/** The counter-mode bit generator: a buffered reader of one fixed byte stream, and
    uniform integers by rejection sampling. The block hash is a parameter. */
module DrbgStream {
  import opened Text
  import opened Json

  type Block = b: Bytes | |b| == 32 witness seq(32, _ => 0)

  /** Blocks exist for counters that fit eight bytes; the stream ends there. */
  const MAX_COUNTER: nat := 0x1_0000_0000_0000_0000
  const STREAM_LENGTH: nat := 32 * MAX_COUNTER

  /** The stream itself: byte `i` is byte `i % 32` of block `i / 32`. */
  function StreamByte(block: nat -> Block, i: nat): Byte
  {
    block(i / 32)[i % 32]
  }

  function Range(block: nat -> Block, a: nat, b: nat): (r: Bytes)
    requires a <= b
    ensures |r| == b - a
    ensures forall i | 0 <= i < b - a :: r[i] == StreamByte(block, a + i)
  {
    seq<Byte>(b - a, i requires 0 <= i < b - a => StreamByte(block, a + i))
  }

  lemma RangeSplit(block: nat -> Block, a: nat, b: nat, c: nat)
    requires a <= b <= c
    ensures Range(block, a, b) + Range(block, b, c) == Range(block, a, c)
  {
  }

  lemma RangeParts(block: nat -> Block, a: nat, b: nat, c: nat)
    requires a <= b <= c
    ensures Range(block, a, c)[..b - a] == Range(block, a, b)
    ensures Range(block, a, c)[b - a..] == Range(block, b, c)
  {
  }

  lemma RangeBlock(block: nat -> Block, k: nat)
    ensures Range(block, 32 * k, 32 * (k + 1)) == block(k)
  {
    forall i | 0 <= i < 32 ensures StreamByte(block, 32 * k + i) == block(k)[i] {
      assert (32 * k + i) / 32 == k && (32 * k + i) % 32 == i;
    }
  }

  lemma RangeNext(block: nat -> Block, p: nat, k: nat)
    requires p <= 32 * k
    ensures Range(block, p, 32 * k) + block(k) == Range(block, p, 32 * (k + 1))
  {
    RangeBlock(block, k);
    RangeSplit(block, p, 32 * k, 32 * (k + 1));
  }

  // ---- chunking ----

  function Sum(ns: seq<nat>): nat
  {
    if ns == [] then 0 else ns[0] + Sum(ns[1..])
  }

  /** The outputs of consecutive requests starting at stream position `p`. */
  function Chunks(block: nat -> Block, p: nat, ns: seq<nat>): seq<Bytes>
    decreases ns
  {
    if ns == [] then [] else [Range(block, p, p + ns[0])] + Chunks(block, p + ns[0], ns[1..])
  }

  /** However requests are cut, their outputs join to one stretch of the stream. */
  lemma {:induction false} ChunksJoin(block: nat -> Block, p: nat, ns: seq<nat>)
    ensures Concat(Chunks(block, p, ns)) == Range(block, p, p + Sum(ns))
    decreases ns
  {
    if ns != [] {
      ChunksJoin(block, p + ns[0], ns[1..]);
      RangeSplit(block, p, p + ns[0], p + Sum(ns));
      assert Chunks(block, p, ns)[1..] == Chunks(block, p + ns[0], ns[1..]);
    }
  }

  // ---- numbers from bytes ----

  function Pow2(k: nat): (p: nat)
    ensures p >= 1
  {
    if k == 0 then 1 else 2 * Pow2(k - 1)
  }

  function BitLength(n: nat): nat
  {
    if n == 0 then 0 else 1 + BitLength(n / 2)
  }

  lemma {:induction false} BitLengthBounds(n: nat)
    ensures n < Pow2(BitLength(n))
    ensures n > 0 ==> Pow2(BitLength(n)) <= 2 * n
  {
    if n > 0 {
      BitLengthBounds(n / 2);
    }
  }

  /** Big-endian reading. */
  function FromBytes(bs: Bytes): nat
  {
    if bs == [] then 0 else 256 * FromBytes(bs[..|bs| - 1]) + bs[|bs| - 1]
  }

  function Bits(bound: nat): nat
    requires bound >= 2
  {
    BitLength(bound - 1)
  }

  function DrawBytes(bound: nat): (n: nat)
    requires bound >= 2
    ensures n >= 1 && Bits(bound) <= 8 * n
  {
    (Bits(bound) + 7) / 8
  }

  /** One draw: the low bits of the raw bytes; masking with 2^bits - 1 is the remainder. */
  function Draw(raw: Bytes, bound: nat): (v: nat)
    requires bound >= 2
  {
    FromBytes(raw) % Pow2(Bits(bound))
  }

  function DrawAt(block: nat -> Block, p: nat, bound: nat, k: nat): nat
    requires bound >= 2
  {
    var n := DrawBytes(bound);
    Draw(Range(block, p + k * n, p + (k + 1) * n), bound)
  }

  /** One draw from position `p`, if the stream still holds its bytes. */
  ghost function DrawFrom(block: nat -> Block, p: nat, bound: nat): (r: Option<(nat, nat)>)
    requires bound >= 2
    ensures r.Some? ==> p < r.value.1 <= STREAM_LENGTH
  {
    var q := p + DrawBytes(bound);
    if q <= STREAM_LENGTH then Some((Draw(Range(block, p, q), bound), q)) else None
  }

  /** The first draw below the bound from position `p` on, and the position after it; none if the
      stream ends first. */
  ghost function BelowFrom(block: nat -> Block, p: nat, bound: nat): (r: Option<(nat, nat)>)
    ensures r.Some? ==> (r.value.0 == 0 || r.value.0 < bound) && p <= r.value.1
    decreases STREAM_LENGTH - p
  {
    if bound <= 1 then Some((0, p))
    else
      var (value, q) :- DrawFrom(block, p, bound);
      if value < bound then Some((value, q)) else BelowFrom(block, q, bound)
  }

  /** What a generator call returns and where it leaves the stream, against what it should. */
  ghost predicate Yields<T>(spec: Option<(T, nat)>, r: Option<T>, position: nat)
  {
    if spec.Some? then r == Some(spec.value.0) && position == spec.value.1 else r.None?
  }

  /** The first `k` draws from position `p` are all rejected. */
  ghost predicate Rejected(block: nat -> Block, p: nat, bound: nat, k: nat)
    requires bound >= 2
  {
    forall j: nat | j < k :: DrawAt(block, p, bound, j) >= bound
  }

  /** The draw is the first one below the bound, and exactly the draws up to it are consumed. */
  lemma {:induction false} BelowIsFirst(block: nat -> Block, p: nat, bound: nat) returns (k: nat)
    requires bound >= 2
    ensures Rejected(block, p, bound, k)
    ensures match BelowFrom(block, p, bound)
            case Some((value, q)) =>
              value == DrawAt(block, p, bound, k) < bound && q == p + (k + 1) * DrawBytes(bound) <= STREAM_LENGTH
            case None => p + (k + 1) * DrawBytes(bound) > STREAM_LENGTH
    decreases STREAM_LENGTH - p
  {
    FirstDraw(block, p, bound);
    var d := DrawFrom(block, p, bound);
    k := 0;
    if d.Some? && d.value.0 >= bound {
      var j := BelowIsFirst(block, d.value.1, bound);
      k := j + 1;
      LaterDraws(block, p, bound, j);
    }
  }

  lemma FirstDraw(block: nat -> Block, p: nat, bound: nat)
    requires bound >= 2
    ensures match DrawFrom(block, p, bound)
            case Some((value, q)) => value == DrawAt(block, p, bound, 0) && q == p + DrawBytes(bound) <= STREAM_LENGTH
            case None => p + DrawBytes(bound) > STREAM_LENGTH
  {
    var n := DrawBytes(bound);
    assert p + 0 * n == p && p + (0 + 1) * n == p + n;
  }

  lemma LaterDraws(block: nat -> Block, p: nat, bound: nat, k: nat)
    requires bound >= 2 && Rejected(block, p + DrawBytes(bound), bound, k) && DrawAt(block, p, bound, 0) >= bound
    ensures Rejected(block, p, bound, k + 1)
    ensures DrawAt(block, p, bound, k + 1) == DrawAt(block, p + DrawBytes(bound), bound, k)
    ensures p + (k + 2) * DrawBytes(bound) == p + DrawBytes(bound) + (k + 1) * DrawBytes(bound)
  {
    var n := DrawBytes(bound);
    forall j: nat | j < k + 1 ensures DrawAt(block, p, bound, j) >= bound {
      if j > 0 {
        NextDraw(block, p, bound, j - 1);
      }
    }
    NextDraw(block, p, bound, k);
  }

  lemma NextDraw(block: nat -> Block, p: nat, bound: nat, j: nat)
    requires bound >= 2
    ensures DrawAt(block, p, bound, j + 1) == DrawAt(block, p + DrawBytes(bound), bound, j)
    ensures p + (j + 2) * DrawBytes(bound) == p + DrawBytes(bound) + (j + 1) * DrawBytes(bound)
  {
    var n := DrawBytes(bound);
    assert p + (j + 1) * n == p + n + j * n && p + (j + 2) * n == p + n + (j + 1) * n;
  }

  // ---- uniformity ----

  function ToBytes(x: nat, n: nat): (bs: Bytes)
    ensures |bs| == n
  {
    if n == 0 then [] else ToBytes(x / 256, n - 1) + [x % 256]
  }

  lemma {:induction false} Pow2Add(a: nat, b: nat)
    ensures Pow2(a + b) == Pow2(a) * Pow2(b)
  {
    if a > 0 {
      Pow2Add(a - 1, b);
    }
  }

  lemma Pow2Eight()
    ensures Pow2(8) == 256
  {
    assert Pow2(4) == 16;
  }

  lemma {:induction false} FromToBytes(x: nat, n: nat)
    requires x < Pow2(8 * n)
    ensures FromBytes(ToBytes(x, n)) == x
  {
    if n > 0 {
      Pow2Add(8, 8 * (n - 1));
      Pow2Eight();
      FromToBytes(x / 256, n - 1);
      assert ToBytes(x, n)[..n - 1] == ToBytes(x / 256, n - 1);
    }
  }

  lemma {:induction false} ToFromBytes(bs: Bytes)
    ensures FromBytes(bs) < Pow2(8 * |bs|)
    ensures ToBytes(FromBytes(bs), |bs|) == bs
  {
    if bs != [] {
      var k := |bs| - 1;
      Pow2Add(8, 8 * k);
      Pow2Eight();
      ToFromBytes(bs[..k]);
      assert FromBytes(bs) / 256 == FromBytes(bs[..k]);
      assert bs == bs[..k] + [bs[k]];
    }
  }

  /** The numbers under `limit` whose remainder by `m` is below `bound`. */
  ghost function Residues(m: nat, bound: nat, limit: nat): set<nat>
    requires m > 0
  {
    set x: nat | x < limit && x % m < bound
  }

  lemma {:induction false} CountResidues(m: nat, bound: nat, k: nat)
    requires m > 0 && bound <= m
    ensures |Residues(m, bound, k * m)| == k * bound
  {
    if k == 0 {
      assert Residues(m, bound, 0 * m) == {};
    } else {
      CountResidues(m, bound, k - 1);
      ResiduesGrow(m, bound, k);
      OneMore(k, bound);
    }
  }

  lemma OneMore(k: nat, m: nat)
    requires k > 0
    ensures (k - 1) * m + m == k * m
  {
  }

  lemma ResiduesGrow(m: nat, bound: nat, k: nat)
    requires m > 0 && bound <= m && k > 0
    ensures |Residues(m, bound, k * m)| == |Residues(m, bound, (k - 1) * m)| + bound
  {
    ResiduesBetween(m, bound, k, (k - 1) * m, k * m);
  }

  lemma ResiduesBetween(m: nat, bound: nat, k: nat, lo: nat, hi: nat)
    requires m > 0 && bound <= m && k > 0 && lo == (k - 1) * m && hi == k * m
    ensures |Residues(m, bound, hi)| == |Residues(m, bound, lo)| + bound
  {
    ResiduesStep(m, bound, k);
    DisjointCount(Residues(m, bound, lo), Run(lo, bound), Residues(m, bound, hi), bound);
  }

  lemma DisjointCount(a: set<nat>, b: set<nat>, c: set<nat>, n: nat)
    requires a !! b && c == a + b && |b| == n
    ensures |c| == |a| + n
  {
  }

  ghost function Run(from: nat, n: nat): (r: set<nat>)
    ensures |r| == n && forall x :: x in r <==> from <= x < from + n
  {
    if n == 0 then {} else Run(from, n - 1) + {from + n - 1}
  }

  lemma ResiduesStep(m: nat, bound: nat, k: nat)
    requires m > 0 && bound <= m && k > 0
    ensures Residues(m, bound, k * m) == Residues(m, bound, (k - 1) * m) + Run((k - 1) * m, bound)
    ensures Residues(m, bound, (k - 1) * m) !! Run((k - 1) * m, bound)
  {
    forall x: nat | (k - 1) * m <= x < k * m ensures x % m == x - (k - 1) * m {
      LastBlock(x, m, k);
    }
    assert (k - 1) * m + m == k * m;
  }

  lemma LastBlock(x: nat, m: nat, k: nat)
    requires m > 0 && k > 0 && (k - 1) * m <= x < k * m
    ensures x % m == x - (k - 1) * m
  {
    var r := x - (k - 1) * m;
    assert (k - 1) * m + m == k * m;
    RemainderUnique(x, m, k - 1, r);
  }

  lemma RemainderUnique(x: nat, m: nat, q: nat, r: nat)
    requires m > 0 && x == q * m + r && r < m
    ensures x % m == r
  {
    var q', r' := x / m, x % m;
    Quotient(x, m);
    if q' < q {
      MulGap(q', q, m);
    } else if q < q' {
      MulGap(q, q', m);
    }
  }

  lemma Quotient(x: nat, m: nat)
    requires m > 0
    ensures x == x / m * m + x % m
  {
  }

  lemma MulGap(a: nat, b: nat, m: nat)
    requires a < b
    ensures a * m + m <= b * m
  {
    var k := b - a - 1;
    assert b * m == (a + 1 + k) * m == a * m + m + k * m;
  }

  /** The byte strings of length `n` read as the numbers in `xs`. */
  ghost function Raws(xs: set<nat>, n: nat): set<Bytes>
  {
    set x | x in xs :: ToBytes(x, n)
  }

  lemma {:induction false} CountRaws(xs: set<nat>, n: nat)
    requires forall x | x in xs :: x < Pow2(8 * n)
    ensures |Raws(xs, n)| == |xs|
  {
    if xs == {} {
      assert Raws(xs, n) == {};
    } else {
      var x :| x in xs;
      CountRaws(xs - {x}, n);
      FromToBytes(x, n);
      forall y | y in xs - {x} ensures ToBytes(y, n) != ToBytes(x, n) {
        FromToBytes(y, n);
      }
      assert Raws(xs, n) == Raws(xs - {x}, n) + {ToBytes(x, n)};
    }
  }

  lemma RawsExact(xs: set<nat>, n: nat, raw: Bytes)
    requires forall x | x in xs :: x < Pow2(8 * n)
    ensures raw in Raws(xs, n) <==> |raw| == n && FromBytes(raw) in xs
  {
    ToFromBytes(raw);
    forall x | x in xs && ToBytes(x, n) == raw ensures FromBytes(raw) == x {
      FromToBytes(x, n);
    }
  }

  /** All raw strings of a draw, those accepted, and those giving one value. */
  ghost function AllRaws(bound: nat): set<Bytes>
    requires bound >= 2
  {
    Raws(Run(0, Pow2(8 * DrawBytes(bound))), DrawBytes(bound))
  }

  ghost function AcceptedRaws(bound: nat): set<Bytes>
    requires bound >= 2
  {
    Raws(Residues(Pow2(Bits(bound)), bound, Pow2(8 * DrawBytes(bound))), DrawBytes(bound))
  }

  ghost function RawsOf(bound: nat, v: nat): set<Bytes>
    requires bound >= 2
  {
    var m, limit := Pow2(Bits(bound)), Pow2(8 * DrawBytes(bound));
    Raws(Residues(m, v + 1, limit) - Residues(m, v, limit), DrawBytes(bound))
  }

  lemma Share(bound: nat) returns (k: nat)
    requires bound >= 2
    ensures k == Pow2(8 * DrawBytes(bound) - Bits(bound))
    ensures Pow2(8 * DrawBytes(bound)) == k * Pow2(Bits(bound))
    ensures bound <= Pow2(Bits(bound)) < 2 * bound
  {
    k := Pow2(8 * DrawBytes(bound) - Bits(bound));
    Pow2Add(8 * DrawBytes(bound) - Bits(bound), Bits(bound));
    BitLengthBounds(bound - 1);
  }

  lemma ResiduesBelow(m: nat, v: nat, limit: nat)
    requires m > 0
    ensures Residues(m, v, limit) <= Residues(m, v + 1, limit)
    ensures forall x: nat :: x in Residues(m, v + 1, limit) - Residues(m, v, limit) <==> x < limit && x % m == v
  {
  }

  /** Rejection keeps the draw unbiased: every value has the same number of raw strings, and
      they are exactly the strings that draw it. */
  lemma Unbiased(bound: nat, v: nat, raw: Bytes)
    requires bound >= 2 && v < bound
    ensures |RawsOf(bound, v)| == Pow2(8 * DrawBytes(bound) - Bits(bound))
    ensures raw in RawsOf(bound, v) <==> |raw| == DrawBytes(bound) && Draw(raw, bound) == v
  {
    var m, n := Pow2(Bits(bound)), DrawBytes(bound);
    var k := Share(bound);
    CountResidues(m, v, k);
    CountResidues(m, v + 1, k);
    ResiduesBelow(m, v, k * m);
    var xs := Residues(m, v + 1, k * m) - Residues(m, v, k * m);
    assert |xs| == k * (v + 1) - k * v;
    assert k * (v + 1) == k * v + k;
    CountRaws(xs, n);
    RawsExact(xs, n, raw);
    ToFromBytes(raw);
  }

  lemma Doubled(k: nat, m: nat, bound: nat)
    requires k >= 1 && m < 2 * bound
    ensures k * m < 2 * (k * bound)
  {
    MulGap(m, 2 * bound, k);
    assert m * k == k * m && 2 * bound * k == 2 * (k * bound);
  }

  /** A draw is accepted more often than not. */
  lemma MostlyAccepted(bound: nat, raw: Bytes)
    requires bound >= 2
    ensures 2 * |AcceptedRaws(bound)| > |AllRaws(bound)|
    ensures raw in AcceptedRaws(bound) <==> |raw| == DrawBytes(bound) && Draw(raw, bound) < bound
    ensures raw in AllRaws(bound) <==> |raw| == DrawBytes(bound)
  {
    var m, n := Pow2(Bits(bound)), DrawBytes(bound);
    var k := Share(bound);
    CountResidues(m, bound, k);
    var xs := Residues(m, bound, k * m);
    CountRaws(xs, n);
    RawsExact(xs, n, raw);
    var all := Run(0, Pow2(8 * n));
    CountRaws(all, n);
    RawsExact(all, n, raw);
    ToFromBytes(raw);
    Doubled(k, m, bound);
  }

  class Drbg {
    const block: nat -> Block
    var counter: nat
    var buf: Bytes

    ghost predicate Valid()
      reads this
    {
      && counter <= MAX_COUNTER
      && |buf| <= 32 * counter
      && buf == Range(block, 32 * counter - |buf|, 32 * counter)
    }

    /** Bytes of the stream already handed out. */
    ghost function Position(): nat
      requires Valid()
      reads this
    {
      32 * counter - |buf|
    }

    constructor (block: nat -> Block)
      ensures Valid() && Position() == 0 && this.block == block
    {
      this.block := block;
      counter := 0;
      buf := [];
    }

    /** `take`. Fails exactly when the counter no longer fits eight bytes. */
    method Take(n: nat) returns (r: Option<Bytes>)
      requires Valid()
      modifies this
      ensures Valid()
      ensures r.Some? <==> old(Position()) + n <= STREAM_LENGTH
      ensures r.Some? ==> r.value == Range(block, old(Position()), old(Position()) + n)
      ensures Position() == if r.Some? then old(Position()) + n else old(Position())
    {
      var filled := Fill(n);
      if !filled {
        return None;
      }
      RangeParts(block, Position(), Position() + n, 32 * counter);
      r := Some(buf[..n]);
      buf := buf[n..];
    }

    /** The loop of `take`: blocks are appended until the buffer holds `n` bytes or the counter overflows. */
    method Fill(n: nat) returns (filled: bool)
      requires Valid()
      modifies this`buf, this`counter
      ensures Valid() && Position() == old(Position())
      ensures if filled then |buf| >= n else old(Position()) + n > STREAM_LENGTH
      ensures filled ==> old(Position()) + n <= STREAM_LENGTH
    {
      ghost var p := Position();
      while |buf| < n
        invariant Valid() && Position() == p
        decreases MAX_COUNTER - counter
      {
        if counter == MAX_COUNTER {
          return false;
        }
        RangeNext(block, p, counter);
        buf := buf + block(counter);
        counter := counter + 1;
      }
      return true;
    }

    /** `below`. */
    method Below(bound: nat) returns (r: Option<nat>)
      requires Valid()
      modifies this
      ensures Valid() && Yields(BelowFrom(block, old(Position()), bound), r, Position())
      ensures r.Some? ==> r.value == 0 || r.value < bound
    {
      if bound <= 1 {
        return Some(0);
      }
      ghost var p := Position();
      ghost var whole := BelowFrom(block, p, bound);
      var nbytes := DrawBytes(bound);
      while true
        invariant Valid() && p == Position() && BelowFrom(block, p, bound) == whole
        decreases STREAM_LENGTH - p
      {
        var value :- DrawOnce(bound, nbytes);
        p := Position();
        if value < bound {
          return Some(value);
        }
      }
    }

    /** One turn of the loop: the next raw bytes, masked. */
    method DrawOnce(bound: nat, nbytes: nat) returns (r: Option<nat>)
      requires Valid() && bound >= 2 && nbytes == DrawBytes(bound)
      modifies this
      ensures Valid() && Yields(DrawFrom(block, old(Position()), bound), r, Position())
    {
      var raw :- Take(nbytes);
      return Some(Draw(raw, bound));
    }
  }
}
