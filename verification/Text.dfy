/** Text the tools share: code-point order on strings, decimal rendering and
    reading, and splitting at a separator. */
module Text {

  datatype Option<+T> = None | Some(value: T) {
    predicate IsFailure() { None? }

    function PropagateFailure<U>(): Option<U>
      requires None?
    {
      None
    }

    function Extract(): T
      requires Some?
    {
      value
    }
  }

  // ---- order ----

  /** The source language's string comparison: lexicographic by code point. */
  predicate StrLess(a: string, b: string)
  {
    if b == [] then false
    else if a == [] then true
    else a[0] < b[0] || (a[0] == b[0] && StrLess(a[1..], b[1..]))
  }

  lemma {:induction false} LessTrichotomy(a: string, b: string)
    ensures a == b || StrLess(a, b) || StrLess(b, a)
    ensures StrLess(a, b) ==> a != b && !StrLess(b, a)
  {
    if a != [] && b != [] && a[0] == b[0] {
      LessTrichotomy(a[1..], b[1..]);
      assert a == [a[0]] + a[1..] && b == [b[0]] + b[1..];
    }
  }

  lemma {:induction false} LessTransitive(a: string, b: string, c: string)
    requires StrLess(a, b) && StrLess(b, c)
    ensures StrLess(a, c)
  {
    if a != [] && a[0] == b[0] && b[0] == c[0] {
      LessTransitive(a[1..], b[1..], c[1..]);
    }
  }

  lemma {:induction false} LessAfterPrefix(p: string, a: string, b: string)
    requires StrLess(a, b)
    ensures StrLess(p + a, p + b)
  {
    if p == [] {
      assert p + a == a && p + b == b;
    } else {
      LessAfterPrefix(p[1..], a, b);
      assert (p + a)[1..] == p[1..] + a && (p + b)[1..] == p[1..] + b;
    }
  }

  lemma {:induction false} LessBeforeSuffix(a: string, b: string, x: string, y: string)
    requires |a| == |b| && StrLess(a, b)
    ensures StrLess(a + x, b + y)
  {
    assert (a + x)[1..] == a[1..] + x && (b + y)[1..] == b[1..] + y;
    if a[0] == b[0] {
      LessBeforeSuffix(a[1..], b[1..], x, y);
    }
  }

  // ---- decimals ----

  function DigitChar(d: nat): (c: char)
    requires d < 10
    ensures '0' <= c <= '9'
  {
    '0' + d as char
  }

  function DigitValue(c: char): (d: nat)
    requires '0' <= c <= '9'
    ensures d < 10 && DigitChar(d) == c
  {
    (c - '0') as int
  }

  /** Decimal without leading zeros. */
  function Decimal(n: nat): (s: string)
    ensures |s| >= 1
  {
    if n < 10 then [DigitChar(n)] else Decimal(n / 10) + [DigitChar(n % 10)]
  }

  predicate AllDigits(s: string)
  {
    forall i | 0 <= i < |s| :: '0' <= s[i] <= '9'
  }

  function ReadDecimal(s: string): nat
    requires AllDigits(s)
  {
    if s == [] then 0 else 10 * ReadDecimal(s[..|s| - 1]) + DigitValue(s[|s| - 1])
  }

  lemma {:induction false} DecimalRoundTrip(n: nat)
    ensures AllDigits(Decimal(n))
    ensures ReadDecimal(Decimal(n)) == n
    ensures n > 0 ==> Decimal(n)[0] != '0'
  {
    if n < 10 {
      assert Decimal(n) == [DigitChar(n)];
      assert Decimal(n)[..0] == [];
    } else {
      DecimalRoundTrip(n / 10);
      var s := Decimal(n);
      assert s[..|s| - 1] == Decimal(n / 10);
      assert s[0] == Decimal(n / 10)[0];
    }
  }

  /** The other way: a digit string without a leading zero is the decimal of what it reads as. */
  lemma {:induction false} DecimalCanonical(s: string)
    requires AllDigits(s) && s != [] && (|s| > 1 ==> s[0] != '0')
    ensures Decimal(ReadDecimal(s)) == s
    ensures s[0] != '0' ==> ReadDecimal(s) > 0
  {
    var k := |s| - 1;
    assert s == s[..k] + [s[k]];
    if k > 0 {
      DecimalCanonical(s[..k]);
      assert ReadDecimal(s) >= 10;
      assert ReadDecimal(s) / 10 == ReadDecimal(s[..k]);
    } else {
      assert s[..k] == [];
    }
  }

  // ---- zero padding ----

  function Power10(w: nat): (p: nat)
    ensures p >= 1
  {
    if w == 0 then 1 else 10 * Power10(w - 1)
  }

  function Zeros(k: nat): (z: string)
    ensures |z| == k && AllDigits(z)
  {
    seq(k, _ => '0')
  }

  /** The format `{n:0Wd}`: at least `w` characters, the sign counted among them. */
  function Padded(n: int, w: nat): string
  {
    var digits := Decimal(if n < 0 then -n else n);
    var room := if n < 0 then w - 1 else w;
    (if n < 0 then "-" else "") + Zeros(if |digits| < room then room - |digits| else 0) + digits
  }

  /** Exactly `w` digits. */
  function Fixed(n: nat, w: nat): (s: string)
    ensures |s| == w
  {
    if w == 0 then "" else Fixed(n / 10, w - 1) + [DigitChar(n % 10)]
  }

  lemma {:induction false} PaddedFixed(n: nat, w: nat)
    requires n < Power10(w) && w > 0
    ensures Padded(n, w) == Fixed(n, w)
  {
    if n < 10 {
      FixedSmall(n, w);
    } else {
      assert Power10(1) == 10;
      PaddedFixed(n / 10, w - 1);
      assert Padded(n, w) == Padded(n / 10, w - 1) + [DigitChar(n % 10)];
    }
  }

  lemma {:induction false} FixedSmall(n: nat, w: nat)
    requires n < 10 && w > 0
    ensures Fixed(n, w) == Zeros(w - 1) + [DigitChar(n)]
  {
    if w > 1 {
      FixedSmall(0, w - 1);
      assert Zeros(w - 1) == Zeros(w - 2) + [DigitChar(0)];
    }
  }

  /** Numbers of equal width compare as their digits do. */
  lemma {:induction false} FixedOrder(a: nat, b: nat, w: nat)
    requires a < b < Power10(w)
    ensures StrLess(Fixed(a, w), Fixed(b, w))
  {
    if a / 10 < b / 10 {
      FixedOrder(a / 10, b / 10, w - 1);
      LessBeforeSuffix(Fixed(a / 10, w - 1), Fixed(b / 10, w - 1), [DigitChar(a % 10)], [DigitChar(b % 10)]);
    } else {
      LessAfterPrefix(Fixed(a / 10, w - 1), [DigitChar(a % 10)], [DigitChar(b % 10)]);
    }
  }

  lemma {:induction false} FixedDigits(n: nat, w: nat)
    ensures AllDigits(Fixed(n, w))
  {
    if w > 0 {
      FixedDigits(n / 10, w - 1);
    }
  }

  // ---- splitting ----

  /** `s.split(c)`: never empty. */
  function Split(s: string, c: char): (parts: seq<string>)
    ensures parts != []
  {
    if s == "" then [""]
    else
      var rest := Split(s[1..], c);
      if s[0] == c then [""] + rest else [[s[0]] + rest[0]] + rest[1..]
  }

  function Join(parts: seq<string>, c: char): string
    requires parts != []
  {
    if |parts| == 1 then parts[0] else parts[0] + [c] + Join(parts[1..], c)
  }

  /** Splitting off the first part. */
  lemma {:induction false} SplitFirst(a: string, b: string, c: char)
    requires c !in a
    ensures Split(a, c) == [a]
    ensures Split(a + [c] + b, c) == [a] + Split(b, c)
  {
    var s := a + [c] + b;
    if a == "" {
      assert s[1..] == b;
    } else {
      SplitFirst(a[1..], b, c);
      assert s[1..] == a[1..] + [c] + b;
      assert a == [a[0]] + a[1..];
    }
  }

  /** Parts without the separator are recovered from their join. */
  lemma {:induction false} SplitJoin(parts: seq<string>, c: char)
    requires parts != [] && forall i | 0 <= i < |parts| :: c !in parts[i]
    ensures Split(Join(parts, c), c) == parts
  {
    if |parts| == 1 {
      SplitFirst(parts[0], "", c);
    } else {
      SplitJoin(parts[1..], c);
      SplitFirst(parts[0], Join(parts[1..], c), c);
    }
  }

  lemma {:induction false} JoinSplit(s: string, c: char)
    ensures Join(Split(s, c), c) == s
  {
    if s != "" {
      var parts, rest := Split(s, c), Split(s[1..], c);
      JoinSplit(s[1..], c);
      assert s == [s[0]] + s[1..];
      if s[0] == c {
        assert parts[1..] == rest;
      } else {
        assert parts[1..] == rest[1..];
        if |rest| > 1 {
          var more := Join(rest[1..], c);
          assert [s[0]] + rest[0] + [c] + more == [s[0]] + (rest[0] + [c] + more);
        }
      }
    }
  }
}
