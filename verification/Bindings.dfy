/** The bindings printer's text helpers: Rust string literals, the common URN prefix, and the
    first difference between a regenerated and a committed file. */
module Bindings {
  import opened Text

  // ---- string literals ----

  /** `str.replace` of one character by a string. */
  function Replace(s: string, c: char, with: string): string
  {
    if s == "" then "" else (if s[0] == c then with else [s[0]]) + Replace(s[1..], c, with)
  }

  /** `rust_string`: backslashes first, then quotes. */
  function RustString(value: string): string
  {
    "\"" + Replace(Replace(value, '\\', "\\\\"), '"', "\\\"") + "\""
  }

  /** The escaping a literal calls for, in one pass. */
  function Escaped(s: string): string
  {
    if s == "" then ""
    else (if s[0] == '\\' || s[0] == '"' then ['\\', s[0]] else [s[0]]) + Escaped(s[1..])
  }

  lemma {:induction false} ReplaceAppend(a: string, b: string, c: char, with: string)
    ensures Replace(a + b, c, with) == Replace(a, c, with) + Replace(b, c, with)
  {
    if a == "" {
      assert a + b == b;
    } else {
      ReplaceAppend(a[1..], b, c, with);
      assert (a + b)[1..] == a[1..] + b;
      var head := if a[0] == c then with else [a[0]];
      assert head + (Replace(a[1..], c, with) + Replace(b, c, with)) ==
             head + Replace(a[1..], c, with) + Replace(b, c, with);
    }
  }

  lemma ReplaceHead(c: char)
    ensures Replace(if c == '\\' then "\\\\" else [c], '"', "\\\"")
         == if c == '\\' || c == '"' then ['\\', c] else [c]
  {
    if c == '\\' {
      assert "\\\\"[1..] == "\\" && "\\"[1..] == "";
      assert Replace("\\", '"', "\\\"") == "\\";
    } else {
      assert [c][1..] == "";
    }
  }

  lemma {:induction false} TwoPasses(s: string)
    ensures Replace(Replace(s, '\\', "\\\\"), '"', "\\\"") == Escaped(s)
  {
    if s != "" {
      var head, rest := if s[0] == '\\' then "\\\\" else [s[0]], Replace(s[1..], '\\', "\\\\");
      ReplaceAppend(head, rest, '"', "\\\"");
      ReplaceHead(s[0]);
      TwoPasses(s[1..]);
    }
  }

  /** A reader of the literals: from behind the opening quote to the closing one. */
  function ReadEscaped(t: string): (r: Option<(string, string)>)
    decreases |t|
  {
    if t == "" then None
    else if t[0] == '"' then Some(("", t[1..]))
    else if t[0] != '\\' then
      var (s, rest) :- ReadEscaped(t[1..]);
      Some(([t[0]] + s, rest))
    else if |t| == 1 then None
    else
      var (s, rest) :- ReadEscaped(t[2..]);
      Some(([t[1]] + s, rest))
  }

  function ReadLiteral(t: string): Option<(string, string)>
  {
    if t == "" || t[0] != '"' then None else ReadEscaped(t[1..])
  }

  lemma {:induction false} ReadEscapes(s: string, tail: string)
    ensures ReadEscaped(Escaped(s) + "\"" + tail) == Some((s, tail))
  {
    var t := Escaped(s) + "\"" + tail;
    if s == "" {
      assert t[1..] == tail;
    } else {
      var k := if s[0] == '\\' || s[0] == '"' then 2 else 1;
      assert t[k..] == Escaped(s[1..]) + "\"" + tail;
      ReadEscapes(s[1..], tail);
      assert s == [s[0]] + s[1..];
    }
  }

  /** The two passes are one, and reading the literal gives the value back. */
  lemma RustStringRoundTrip(value: string, tail: string)
    ensures RustString(value) == "\"" + Escaped(value) + "\""
    ensures ReadLiteral(RustString(value) + tail) == Some((value, tail))
  {
    TwoPasses(value);
    ReadEscapes(value, tail);
    assert (RustString(value) + tail)[1..] == Escaped(value) + "\"" + tail;
  }

  // ---- lines ----

  datatype Difference = AtLine(index: nat, expected: string, found: string) | LineCount(generated: nat, committed: nat)

  /** What the reported difference says of the two texts. */
  ghost predicate Explains(d: Difference, a: seq<string>, b: seq<string>)
  {
    match d
    case AtLine(index, expected, found) =>
      && 1 <= index <= |a| && index <= |b| && a[..index - 1] == b[..index - 1]
      && expected == a[index - 1] && found == b[index - 1] && expected != found
    case LineCount(m, n) => m == |a| && n == |b| && m != n && (a <= b || b <= a)
  }

  /** `first_difference`: silent exactly on identical texts, and otherwise the first difference. */
  method FirstDifference(generated: string, committed: string) returns (r: Option<Difference>)
    ensures r.None? <==> generated == committed
    ensures r.Some? ==> Explains(r.value, Split(generated, '\n'), Split(committed, '\n'))
  {
    JoinSplit(generated, '\n');
    JoinSplit(committed, '\n');
    r := FirstLine(Split(generated, '\n'), Split(committed, '\n'));
  }

  method FirstLine(a: seq<string>, b: seq<string>) returns (r: Option<Difference>)
    ensures r.None? <==> a == b
    ensures r.Some? ==> Explains(r.value, a, b)
  {
    var i := 0;
    while i < |a| && i < |b|
      invariant i <= |a| && i <= |b| && a[..i] == b[..i]
    {
      if a[i] != b[i] {
        return Some(AtLine(i + 1, a[i], b[i]));
      }
      i := i + 1;
    }
    assert a[..i] == b[..i];
    if |a| != |b| {
      assert a[..|a|] == a && b[..|b|] == b;
      return Some(LineCount(|a|, |b|));
    }
    assert a == a[..i] && b == b[..i];
    return None;
  }

  // ---- the URN prefix ----

  ghost predicate CommonPrefix(ids: seq<string>, p: string)
  {
    forall k | 0 <= k < |ids| :: p <= ids[k]
  }

  /** A prefix the caller can use: shared by every id, ending in a colon, more than the colon. */
  ghost predicate UrnPrefixOf(ids: seq<string>, p: string)
  {
    CommonPrefix(ids, p) && |p| >= 2 && p[|p| - 1] == ':'
  }

  /** Whether all ids have character `i` and agree on it: one tuple of the zipped ids. */
  predicate Agree(ids: seq<string>, i: nat)
  {
    ids != [] && (forall k | 0 <= k < |ids| :: i < |ids[k]|) && forall k | 0 <= k < |ids| :: ids[k][i] == ids[0][i]
  }

  lemma CommonStops(ids: seq<string>, i: nat, p: string)
    requires ids != [] && !Agree(ids, i) && CommonPrefix(ids, p)
    ensures |p| <= i
  {
    if |p| > i {
      forall k | 0 <= k < |ids| ensures i < |ids[k]| && ids[k][i] == p[i] {
        assert p <= ids[k];
      }
      assert Agree(ids, i);
    }
  }

  /** `urn_prefix`: the longest usable prefix, or an error when there is none. */
  method UrnPrefix(ids: seq<string>) returns (r: Option<string>)
    ensures r.Some? ==> UrnPrefixOf(ids, r.value)
    ensures r.Some? ==> forall p | UrnPrefixOf(ids, p) :: p <= r.value
    ensures r.None? <==> ids == [] || forall p :: !UrnPrefixOf(ids, p)
  {
    var common := "";
    while Agree(ids, |common|)
      invariant CommonPrefix(ids, common)
      invariant ids != [] ==> |common| <= |ids[0]|
      decreases if ids == [] then 0 else |ids[0]| - |common|
    {
      var c := ids[0][|common|];
      forall k | 0 <= k < |ids| ensures common + [c] <= ids[k] {
        assert common <= ids[k];
        assert ids[k][|common|] == c;
      }
      common := common + [c];
    }
    if ids == [] {
      return None;
    }
    forall p | CommonPrefix(ids, p) ensures p <= common {
      CommonStops(ids, |common|, p);
      assert p <= ids[0] && common <= ids[0];
    }
    var cut := |common|;
    while cut > 0 && common[cut - 1] != ':'
      invariant 0 <= cut <= |common|
      invariant forall p | UrnPrefixOf(ids, p) :: |p| <= cut
    {
      cut := cut - 1;
    }
    if cut <= 1 {
      return None;
    }
    forall k | 0 <= k < |ids| ensures common[..cut] <= ids[k] {
      assert common <= ids[k];
    }
    assert UrnPrefixOf(ids, common[..cut]);
    return Some(common[..cut]);
  }
}
