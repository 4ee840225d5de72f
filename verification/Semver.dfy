/** Strict stable SemVer: the text form release tooling accepts, and numeric precedence
    (clause 11 of Semantic Versioning 2.0.0). */
module Semver {
  import opened Text

  datatype Version = Version(major: nat, minor: nat, patch: nat)

  // ---- precedence ----

  predicate Less(a: Version, b: Version)
  {
    || a.major < b.major
    || (a.major == b.major && a.minor < b.minor)
    || (a.major == b.major && a.minor == b.minor && a.patch < b.patch)
  }

  function Bump(v: Version): Version
  {
    Version(v.major, v.minor, v.patch + 1)
  }

  /** The patch bump is the very next version: nothing lies between. */
  lemma BumpIsNext(v: Version, w: Version)
    ensures Less(v, Bump(v))
    ensures Less(v, w) <==> w == Bump(v) || Less(Bump(v), w)
  {
  }

  // ---- text ----

  function Render(v: Version): string
  {
    Decimal(v.major) + "." + Decimal(v.minor) + "." + Decimal(v.patch)
  }

  predicate IsNumber(s: string)
  {
    s != "" && AllDigits(s) && (|s| > 1 ==> s[0] != '0')
  }

  /** The strict pattern: three numbers without leading zeros, joined by dots. */
  function Parse(s: string): Option<Version>
  {
    var parts := Split(s, '.');
    if |parts| == 3 && IsNumber(parts[0]) && IsNumber(parts[1]) && IsNumber(parts[2])
    then Some(Version(ReadDecimal(parts[0]), ReadDecimal(parts[1]), ReadDecimal(parts[2])))
    else None
  }

  lemma {:induction false} SplitAtDot(a: string, b: string)
    requires AllDigits(a)
    ensures Split(a, '.') == [a]
    ensures Split(a + "." + b, '.') == [a] + Split(b, '.')
  {
    var s := a + "." + b;
    if a == "" {
      assert s[1..] == b;
    } else {
      SplitAtDot(a[1..], b);
      assert s[1..] == a[1..] + "." + b;
      assert a == [a[0]] + a[1..];
    }
  }

  lemma RenderSplits(v: Version)
    ensures Split(Render(v), '.') == [Decimal(v.major), Decimal(v.minor), Decimal(v.patch)]
  {
    DecimalRoundTrip(v.major);
    DecimalRoundTrip(v.minor);
    DecimalRoundTrip(v.patch);
    var rest := Decimal(v.minor) + "." + Decimal(v.patch);
    assert Render(v) == Decimal(v.major) + "." + rest;
    SplitAtDot(Decimal(v.major), rest);
    SplitAtDot(Decimal(v.minor), Decimal(v.patch));
    SplitAtDot(Decimal(v.patch), "");
  }

  lemma {:induction false} DecimalIsNumber(n: nat)
    ensures IsNumber(Decimal(n)) && ReadDecimal(Decimal(n)) == n
  {
    DecimalRoundTrip(n);
    if n == 0 {
      assert Decimal(0) == "0";
    }
  }

  /** Text and triple determine each other: a tag name and a version are the same information. */
  lemma ParseRender(v: Version)
    ensures Parse(Render(v)) == Some(v)
  {
    RenderSplits(v);
    DecimalIsNumber(v.major);
    DecimalIsNumber(v.minor);
    DecimalIsNumber(v.patch);
  }

  lemma RenderParse(s: string)
    requires Parse(s).Some?
    ensures Render(Parse(s).value) == s
  {
    var parts := Split(s, '.');
    DecimalCanonical(parts[0]);
    DecimalCanonical(parts[1]);
    DecimalCanonical(parts[2]);
    JoinSplit(s, '.');
    assert Join(parts[2..], '.') == parts[2];
    assert parts[1..][1..] == parts[2..];
    assert Join(parts[1..], '.') == parts[1] + "." + parts[2];
    assert parts[0] + "." + (parts[1] + "." + parts[2]) == parts[0] + "." + parts[1] + "." + parts[2];
  }

  // ---- the wider release pattern of the storage gate ----

  predicate IsTailChar(c: char)
  {
    '0' <= c <= '9' || 'A' <= c <= 'Z' || 'a' <= c <= 'z' || c == '.' || c == '-'
  }

  /** Optional `-pre` and `+build` tails; the closing anchor also admits one trailing newline. */
  predicate IsTail(t: string)
  {
    var core := if t != "" && t[|t| - 1] == '\n' then t[..|t| - 1] else t;
    core == "" || exists k :: 0 <= k <= |core| && IsPre(core[..k]) && IsBuild(core[k..])
  }

  predicate IsPre(t: string)
  {
    t == "" || (|t| > 1 && t[0] == '-' && forall i | 1 <= i < |t| :: IsTailChar(t[i]))
  }

  predicate IsBuild(t: string)
  {
    t == "" || (|t| > 1 && t[0] == '+' && forall i | 1 <= i < |t| :: IsTailChar(t[i]))
  }

  predicate IsCore(s: string)
  {
    var parts := Split(s, '.');
    |parts| == 3 && forall i | 0 <= i < 3 :: parts[i] != "" && AllDigits(parts[i])
  }

  /** Three runs of digits, then the tails. */
  predicate IsRelease(s: string)
  {
    exists k :: 0 <= k <= |s| && IsCore(s[..k]) && IsTail(s[k..])
  }

  lemma VersionIsRelease(v: Version)
    ensures IsRelease(Render(v))
  {
    var s := Render(v);
    RenderSplits(v);
    DecimalIsNumber(v.major);
    DecimalIsNumber(v.minor);
    DecimalIsNumber(v.patch);
    assert s[..|s|] == s && s[|s|..] == "";
    assert IsCore(s[..|s|]);
  }
}
