/** The fixture generator's JSON line printer, with a reader of the subset it emits
    (section 7 of RFC 8259) that recovers every record from the bytes. */
module Json {
  import opened Text

  type Byte = b: int | 0 <= b < 256

  type Bytes = seq<Byte>

  const QUOTE: Byte := 0x22
  const SLASH: Byte := 0x5C
  const NEWLINE: Byte := 0x0A

  // ---- UTF-8 ----

  function EncodeChar(c: char): (bs: Bytes)
    ensures |bs| > 0
  {
    var n := c as int;
    if n < 0x80 then [n]
    else if n < 0x800 then [0xC0 + n / 64, 0x80 + n % 64]
    else if n < 0x10000 then [0xE0 + n / 4096, 0x80 + n / 64 % 64, 0x80 + n % 64]
    else [0xF0 + n / 262144, 0x80 + n / 4096 % 64, 0x80 + n / 64 % 64, 0x80 + n % 64]
  }

  predicate IsScalar(n: int)
  {
    0 <= n < 0xD800 || 0xE000 <= n < 0x110000
  }

  /** Byte `i` less the marker bits it carries. */
  function Bits(bs: Bytes, i: nat, marker: int): int
    requires i < |bs|
  {
    var b: int := bs[i];
    b - marker
  }

  function ScalarFront(bs: Bytes): (r: (int, nat))
    requires bs != []
    ensures 0 < r.1
  {
    if bs[0] < 0x80 then (bs[0], 1)
    else if bs[0] < 0xE0 then (if |bs| < 2 then -1 else Bits(bs, 0, 0xC0) * 64 + Bits(bs, 1, 0x80), 2)
    else if bs[0] < 0xF0 then
      (if |bs| < 3 then -1 else Bits(bs, 0, 0xE0) * 4096 + Bits(bs, 1, 0x80) * 64 + Bits(bs, 2, 0x80), 3)
    else
      (if |bs| < 4 then -1
       else Bits(bs, 0, 0xF0) * 262144 + Bits(bs, 1, 0x80) * 4096 + Bits(bs, 2, 0x80) * 64 + Bits(bs, 3, 0x80), 4)
  }

  function DecodeFront(bs: Bytes): (r: Option<(char, Bytes)>)
    ensures r.Some? ==> |r.value.1| < |bs|
  {
    if bs == [] then None
    else
      var (n, k) := ScalarFront(bs);
      if IsScalar(n) && k <= |bs| then Some((n as char, bs[k..])) else None
  }

  lemma EncodeScalar(c: char, tail: Bytes)
    ensures ScalarFront(EncodeChar(c) + tail) == (c as int, |EncodeChar(c)|)
  {
    var n := c as int;
    assert n / 64 == 64 * (n / 4096) + n / 64 % 64;
    assert n / 4096 == 64 * (n / 262144) + n / 4096 % 64;
  }

  lemma DecodeEncode(c: char, tail: Bytes)
    ensures DecodeFront(EncodeChar(c) + tail) == Some((c, tail))
  {
    EncodeScalar(c, tail);
    assert (EncodeChar(c) + tail)[|EncodeChar(c)|..] == tail;
  }

  // ---- strings ----

  function HexDigit(n: nat): (b: Byte)
    requires n < 16
  {
    if n < 10 then 0x30 + n else 0x61 + n - 10
  }

  function HexValue(b: Byte): (n: int)
    ensures -1 <= n < 16
  {
    if 0x30 <= b < 0x3A then b - 0x30 else if 0x61 <= b < 0x67 then b - 0x61 + 10 else -1
  }

  /** One character of a literal: only quote, backslash and control characters are escaped. */
  function EscapeChar(c: char): (bs: Bytes)
    ensures |bs| > 0
  {
    if c == '"' then [SLASH, QUOTE]
    else if c == '\\' then [SLASH, SLASH]
    else if c < ' ' then [SLASH, 0x75, 0x30, 0x30, HexDigit(c as int / 16), HexDigit(c as int % 16)]
    else EncodeChar(c)
  }

  function Escape(s: string): Bytes
  {
    if s == "" then [] else EscapeChar(s[0]) + Escape(s[1..])
  }

  function StrLiteral(s: string): Bytes
  {
    [QUOTE] + Escape(s) + [QUOTE]
  }

  /** `jstr`. */
  method Jstr(value: string) returns (out: Bytes)
    ensures out == StrLiteral(value)
  {
    out := [QUOTE];
    var i := 0;
    assert value[0..] == value;
    while i < |value|
      invariant 0 <= i <= |value|
      invariant out + Escape(value[i..]) == [QUOTE] + Escape(value)
    {
      EscapeStep(out, value, i);
      out := out + EscapeChar(value[i]);
      i := i + 1;
    }
    assert value[i..] == "";
    out := out + [QUOTE];
  }

  lemma EscapeStep(out: Bytes, s: string, i: nat)
    requires i < |s|
    ensures out + Escape(s[i..]) == out + EscapeChar(s[i]) + Escape(s[i + 1..])
  {
    assert s[i..][1..] == s[i + 1..];
  }

  /** One character of a literal, read back. */
  function ReadChar(bs: Bytes): (r: Option<(char, Bytes)>)
    ensures r.Some? ==> |r.value.1| < |bs|
  {
    if bs == [] || bs[0] == QUOTE || bs[0] < 0x20 then None
    else if bs[0] != SLASH then DecodeFront(bs)
    else if |bs| >= 2 && bs[1] == QUOTE then Some(('"', bs[2..]))
    else if |bs| >= 2 && bs[1] == SLASH then Some(('\\', bs[2..]))
    else if |bs| >= 6 && bs[1..4] == [0x75, 0x30, 0x30] && HexValue(bs[4]) >= 0 && HexValue(bs[5]) >= 0 then
      Some(((16 * HexValue(bs[4]) + HexValue(bs[5])) as char, bs[6..]))
    else None
  }

  lemma ReadEscapedChar(c: char, tail: Bytes)
    ensures ReadChar(EscapeChar(c) + tail) == Some((c, tail))
  {
    var bs := EscapeChar(c) + tail;
    if c == '"' || c == '\\' {
      assert bs[2..] == tail;
    } else if c < ' ' {
      assert bs[6..] == tail;
      assert bs[1..4] == [0x75, 0x30, 0x30];
    } else {
      DecodeEncode(c, tail);
    }
  }

  /** The characters up to the closing quote. */
  function ReadChars(bs: Bytes): (r: Option<(string, Bytes)>)
    ensures r.Some? ==> |r.value.1| < |bs|
    decreases |bs|
  {
    if bs == [] then None
    else if bs[0] == QUOTE then Some(("", bs[1..]))
    else
      var (c, more) :- ReadChar(bs);
      var (s, rest) :- ReadChars(more);
      Some(([c] + s, rest))
  }

  lemma EscapeStartsClean(c: char)
    ensures EscapeChar(c)[0] != QUOTE
  {
  }

  lemma {:induction false} ReadEscaped(s: string, tail: Bytes)
    ensures ReadChars(Escape(s) + [QUOTE] + tail) == Some((s, tail))
  {
    var bs := Escape(s) + [QUOTE] + tail;
    if s == "" {
      assert bs[1..] == tail;
    } else {
      EscapeStartsClean(s[0]);
      assert bs == EscapeChar(s[0]) + (Escape(s[1..]) + [QUOTE] + tail);
      ReadEscapedChar(s[0], Escape(s[1..]) + [QUOTE] + tail);
      ReadEscaped(s[1..], tail);
      assert s == [s[0]] + s[1..];
    }
  }

  function ReadString(bs: Bytes): (r: Option<(string, Bytes)>)
    ensures r.Some? ==> |r.value.1| < |bs|
  {
    if bs == [] || bs[0] != QUOTE then None else ReadChars(bs[1..])
  }

  lemma ReadLiteral(s: string, tail: Bytes)
    ensures ReadString(StrLiteral(s) + tail) == Some((s, tail))
  {
    ReadEscaped(s, tail);
    assert (StrLiteral(s) + tail)[1..] == Escape(s) + [QUOTE] + tail;
  }

  // ---- values ----

  datatype Value = Str(s: string) | Int(n: int) | Bool(b: bool)

  function Ascii(s: string): (bs: Bytes)
    requires forall i | 0 <= i < |s| :: s[i] as int < 0x80
    ensures |bs| == |s| && forall i | 0 <= i < |s| :: bs[i] == s[i] as int
  {
    seq(|s|, i requires 0 <= i < |s| => s[i] as int)
  }

  function IntText(n: int): (s: string)
    ensures forall i | 0 <= i < |s| :: s[i] as int < 0x80
    ensures s != "" && (s[0] == '-' || '0' <= s[0] <= '9')
  {
    DecimalRoundTrip(if n < 0 then -n else n);
    if n < 0 then "-" + Decimal(-n) else Decimal(n)
  }

  function Encode(v: Value): Bytes
  {
    match v
    case Str(s) => StrLiteral(s)
    case Int(n) => Ascii(IntText(n))
    case Bool(b) => if b then Ascii("true") else Ascii("false")
  }

  predicate IsDigit(b: Byte)
  {
    0x30 <= b < 0x3A
  }

  function DigitRun(bs: Bytes): (k: nat)
    ensures k <= |bs|
    ensures forall i | 0 <= i < k :: IsDigit(bs[i])
    ensures k < |bs| ==> !IsDigit(bs[k])
  {
    if bs == [] || !IsDigit(bs[0]) then 0 else 1 + DigitRun(bs[1..])
  }

  function FromAscii(bs: Bytes): (s: string)
    requires forall i | 0 <= i < |bs| :: bs[i] < 0x80
    ensures |s| == |bs| && forall i | 0 <= i < |bs| :: s[i] == bs[i] as char
  {
    seq(|bs|, i requires 0 <= i < |bs| => bs[i] as char)
  }

  function ReadInt(bs: Bytes): (r: Option<(int, Bytes)>)
    ensures r.Some? ==> |r.value.1| < |bs|
  {
    var sign := if bs != [] && bs[0] == 0x2D then 1 else 0;
    var k := DigitRun(bs[sign..]);
    if k == 0 then None
    else
      var n: int := ReadDecimal(FromAscii(bs[sign..][..k]));
      Some((if sign == 1 then -n else n, bs[sign + k..]))
  }

  /** Text that follows a value never starts with a digit. */
  predicate EndsValue(tail: Bytes)
  {
    tail == [] || !IsDigit(tail[0])
  }

  lemma {:induction false} RunIsWhole(digits: Bytes, tail: Bytes)
    requires (forall i | 0 <= i < |digits| :: IsDigit(digits[i])) && EndsValue(tail)
    ensures DigitRun(digits + tail) == |digits|
  {
    if digits == [] {
      assert digits + tail == tail;
    } else {
      RunIsWhole(digits[1..], tail);
      assert (digits + tail)[1..] == digits[1..] + tail;
    }
  }

  lemma ReadDecimalBytes(n: nat, tail: Bytes)
    requires EndsValue(tail)
    ensures forall i | 0 <= i < |Decimal(n)| :: '0' <= Decimal(n)[i] <= '9'
    ensures var bs := Ascii(Decimal(n)) + tail; var k := DigitRun(bs);
            k == |Decimal(n)| && FromAscii(bs[..k]) == Decimal(n) && ReadDecimal(Decimal(n)) == n && bs[k..] == tail
  {
    DecimalRoundTrip(n);
    var bs := Ascii(Decimal(n)) + tail;
    RunIsWhole(Ascii(Decimal(n)), tail);
    assert bs[..|Decimal(n)|] == Ascii(Decimal(n));
  }

  lemma ReadNatural(n: nat, tail: Bytes)
    requires EndsValue(tail)
    ensures ReadInt(Ascii(IntText(n)) + tail) == Some((n, tail))
  {
    ReadDecimalBytes(n, tail);
    var bs := Ascii(IntText(n)) + tail;
    assert bs[0..] == bs == Ascii(Decimal(n)) + tail;
    assert IsDigit(bs[0]);
  }

  lemma ReadSigned(rest: Bytes)
    requires DigitRun(rest) > 0
    ensures var k := DigitRun(rest); var n: int := ReadDecimal(FromAscii(rest[..k]));
            ReadInt([0x2D] + rest) == Some((-n, rest[k..]))
  {
    var bs := [0x2D] + rest;
    assert bs[1..] == rest;
    assert bs[1 + DigitRun(rest)..] == rest[DigitRun(rest)..];
  }

  lemma ReadNegative(m: int, tail: Bytes)
    requires EndsValue(tail) && m > 0
    ensures ReadInt(Ascii(IntText(-m)) + tail) == Some((-m, tail))
  {
    MinusFirst(m, tail);
    ReadMinus(m, tail);
  }

  lemma ReadMinus(m: nat, tail: Bytes)
    requires EndsValue(tail) && forall i | 0 <= i < |Decimal(m)| :: Decimal(m)[i] as int < 0x80
    ensures ReadInt([0x2D] + (Ascii(Decimal(m)) + tail)) == Some((0 - m, tail))
  {
    ReadDecimalBytes(m, tail);
    ReadSigned(Ascii(Decimal(m)) + tail);
  }

  lemma MinusFirst(m: int, tail: Bytes)
    requires m > 0
    ensures forall i | 0 <= i < |Decimal(m)| :: Decimal(m)[i] as int < 0x80
    ensures Ascii(IntText(-m)) + tail == [0x2D] + (Ascii(Decimal(m)) + tail)
  {
    DecimalRoundTrip(m);
    assert IntText(-m) == "-" + Decimal(m);
  }

  lemma IntFirstByte(n: int, tail: Bytes)
    ensures var bs := Ascii(IntText(n)) + tail; bs != [] && (bs[0] == 0x2D || IsDigit(bs[0]))
  {
    assert (Ascii(IntText(n)) + tail)[0] == IntText(n)[0] as int;
  }

  function StartsAs(bs: Bytes, word: Bytes): bool
  {
    |bs| >= |word| && bs[..|word|] == word
  }

  const TRUE: Bytes := [0x74, 0x72, 0x75, 0x65]
  const FALSE: Bytes := [0x66, 0x61, 0x6C, 0x73, 0x65]

  function ReadValue(bs: Bytes): (r: Option<(Value, Bytes)>)
    ensures r.Some? ==> |r.value.1| < |bs|
  {
    if StartsAs(bs, TRUE) then Some((Bool(true), bs[4..]))
    else if StartsAs(bs, FALSE) then Some((Bool(false), bs[5..]))
    else if bs != [] && bs[0] == QUOTE then
      var (s, rest) :- ReadString(bs);
      Some((Str(s), rest))
    else
      var (n, rest) :- ReadInt(bs);
      Some((Int(n), rest))
  }

  lemma StartsWhole(word: Bytes, tail: Bytes)
    ensures StartsAs(word + tail, word) && (word + tail)[|word|..] == tail
  {
    assert (word + tail)[..|word|] == word;
  }

  lemma StartsFirst(bs: Bytes, word: Bytes)
    requires word != [] && StartsAs(bs, word)
    ensures bs[0] == word[0]
  {
    assert bs[..|word|][0] == bs[0];
  }

  lemma ReadEncoded(v: Value, tail: Bytes)
    requires EndsValue(tail)
    ensures ReadValue(Encode(v) + tail) == Some((v, tail))
  {
    var bs := Encode(v) + tail;
    if StartsAs(bs, TRUE) {
      StartsFirst(bs, TRUE);
    }
    if StartsAs(bs, FALSE) {
      StartsFirst(bs, FALSE);
    }
    match v
    case Bool(b) =>
      assert Encode(v) == if b then TRUE else FALSE;
      StartsWhole(Encode(v), tail);
    case Str(s) =>
      assert bs[0] == QUOTE;
      ReadLiteral(s, tail);
    case Int(n) =>
      IntFirstByte(n, tail);
      if n < 0 {
        ReadNegative(-n, tail);
      } else {
        ReadNatural(n, tail);
      }
  }

  // ---- records ----

  type Pair = (string, Value)

  const COLON: Bytes := [0x3A, 0x20]
  const COMMA: Bytes := [0x2C, 0x20]
  const OPEN: Bytes := [0x7B]
  const CLOSE: Bytes := [0x7D, NEWLINE]

  function Part(p: Pair): Bytes
  {
    StrLiteral(p.0) + COLON + Encode(p.1)
  }

  function Joined(parts: seq<Bytes>): Bytes
  {
    if parts == [] then [] else if |parts| == 1 then parts[0] else parts[0] + COMMA + Joined(parts[1..])
  }

  function Parts(pairs: seq<Pair>): (ps: seq<Bytes>)
    ensures |ps| == |pairs| && forall i | 0 <= i < |pairs| :: ps[i] == Part(pairs[i])
  {
    seq(|pairs|, i requires 0 <= i < |pairs| => Part(pairs[i]))
  }

  function Line(pairs: seq<Pair>): Bytes
  {
    OPEN + Joined(Parts(pairs)) + CLOSE
  }

  method EncodeValue(value: Value) returns (encoded: Bytes)
    ensures encoded == Encode(value)
  {
    match value {
      case Bool(b) =>
        encoded := if b then TRUE else FALSE;
        assert Ascii("true") == TRUE && Ascii("false") == FALSE;
      case Int(n) => encoded := Ascii(IntText(n));
      case Str(s) => encoded := Jstr(s);
    }
  }

  /** `jline`: the pairs in call order, one line. */
  method EncodePair(p: Pair) returns (part: Bytes)
    ensures part == Part(p)
  {
    var name := Jstr(p.0);
    var encoded := EncodeValue(p.1);
    return name + COLON + encoded;
  }

  method Jline(pairs: seq<Pair>) returns (line: Bytes)
    ensures line == Line(pairs)
  {
    var parts: seq<Bytes> := [];
    for i := 0 to |pairs|
      invariant |parts| == i && forall k | 0 <= k < i :: parts[k] == Part(pairs[k])
    {
      var part := EncodePair(pairs[i]);
      parts := parts + [part];
    }
    assert parts == Parts(pairs);
    return OPEN + Joined(parts) + CLOSE;
  }

  function ReadPair(bs: Bytes): (r: Option<(Pair, Bytes)>)
    ensures r.Some? ==> |r.value.1| < |bs|
  {
    var (key, more) :- ReadString(bs);
    if !StartsAs(more, COLON) then None
    else
      var (value, rest) :- ReadValue(more[2..]);
      Some(((key, value), rest))
  }

  lemma Regroup(a: Bytes, b: Bytes, c: Bytes, d: Bytes)
    ensures a + b + c + d == a + (b + (c + d))
  {
  }

  lemma ReadPart(p: Pair, tail: Bytes)
    requires EndsValue(tail)
    ensures ReadPair(Part(p) + tail) == Some((p, tail))
  {
    Regroup(StrLiteral(p.0), COLON, Encode(p.1), tail);
    ReadLiteral(p.0, COLON + (Encode(p.1) + tail));
    StartsWhole(COLON, Encode(p.1) + tail);
    ReadEncoded(p.1, tail);
  }

  /** Pairs up to the closing brace; the line ends there. */
  function ReadPairs(bs: Bytes): Option<seq<Pair>>
    decreases |bs|
  {
    var (p, rest) :- ReadPair(bs);
    if rest == CLOSE then Some([p])
    else if !StartsAs(rest, COMMA) then None
    else
      var more :- ReadPairs(rest[2..]);
      Some([p] + more)
  }

  lemma JoinedStep(pairs: seq<Pair>)
    requires |pairs| > 1
    ensures Joined(Parts(pairs)) + CLOSE == Part(pairs[0]) + (COMMA + (Joined(Parts(pairs[1..])) + CLOSE))
  {
    assert Parts(pairs)[1..] == Parts(pairs[1..]);
    Regroup(Part(pairs[0]), COMMA, Joined(Parts(pairs[1..])), CLOSE);
  }

  lemma ReadNextPair(p: Pair, more: Bytes)
    requires ReadPairs(more).Some?
    ensures ReadPairs(Part(p) + (COMMA + more)) == Some([p] + ReadPairs(more).value)
  {
    ReadPart(p, COMMA + more);
    StartsWhole(COMMA, more);
    assert (COMMA + more)[0] != CLOSE[0];
  }

  lemma {:induction false} ReadJoined(pairs: seq<Pair>)
    requires pairs != []
    ensures ReadPairs(Joined(Parts(pairs)) + CLOSE) == Some(pairs)
  {
    if |pairs| == 1 {
      ReadPart(pairs[0], CLOSE);
      assert Joined(Parts(pairs)) == Part(pairs[0]) && pairs == [pairs[0]];
    } else {
      var more := Joined(Parts(pairs[1..])) + CLOSE;
      JoinedStep(pairs);
      ReadJoined(pairs[1..]);
      ReadNextPair(pairs[0], more);
      assert pairs == [pairs[0]] + pairs[1..];
    }
  }

  function ReadLine(bs: Bytes): Option<seq<Pair>>
  {
    if !StartsAs(bs, OPEN) then None
    else if bs[1..] == CLOSE then Some([])
    else ReadPairs(bs[1..])
  }

  lemma JoinedFirst(pairs: seq<Pair>)
    requires pairs != []
    ensures Joined(Parts(pairs)) != [] && Joined(Parts(pairs))[0] == QUOTE
  {
    assert Part(pairs[0])[0] == QUOTE;
    assert Parts(pairs)[0] == Part(pairs[0]);
  }

  /** Reading a printed line gives back its pairs, in order, for every key and value. */
  lemma ReadPrinted(pairs: seq<Pair>)
    ensures ReadLine(Line(pairs)) == Some(pairs)
  {
    var more := Joined(Parts(pairs)) + CLOSE;
    assert Line(pairs) == OPEN + more;
    StartsWhole(OPEN, more);
    if pairs != [] {
      ReadJoined(pairs);
      JoinedFirst(pairs);
      assert more[0] == QUOTE;
    } else {
      assert more == CLOSE;
    }
  }

  // ---- files ----

  /** No newline but the last byte. */
  predicate OneLine(bs: Bytes)
  {
    bs != [] && bs[|bs| - 1] == NEWLINE && forall i | 0 <= i < |bs| - 1 :: bs[i] != NEWLINE
  }

  predicate NoNewline(bs: Bytes)
  {
    forall i | 0 <= i < |bs| :: bs[i] != NEWLINE
  }

  lemma EscapeCharNoNewline(c: char)
    ensures NoNewline(EscapeChar(c))
  {
  }

  lemma {:induction false} EscapeNoNewline(s: string)
    ensures NoNewline(Escape(s))
  {
    if s != "" {
      EscapeCharNoNewline(s[0]);
      EscapeNoNewline(s[1..]);
    }
  }

  lemma EncodeNoNewline(v: Value)
    ensures NoNewline(Encode(v))
  {
    match v
    case Str(s) => EscapeNoNewline(s);
    case Int(n) =>
      DecimalRoundTrip(if n < 0 then -n else n);
    case Bool(_) =>
  }

  lemma PartNoNewline(p: Pair)
    ensures NoNewline(Part(p))
  {
    EscapeNoNewline(p.0);
    EncodeNoNewline(p.1);
  }

  lemma ConcatNoNewline(a: Bytes, b: Bytes)
    requires NoNewline(a) && NoNewline(b)
    ensures NoNewline(a + COMMA + b)
  {
  }

  lemma {:induction false} JoinedNoNewline(pairs: seq<Pair>)
    ensures NoNewline(Joined(Parts(pairs)))
  {
    if pairs != [] {
      PartNoNewline(pairs[0]);
      JoinedNoNewline(pairs[1..]);
      assert Parts(pairs)[1..] == Parts(pairs[1..]);
      ConcatNoNewline(Part(pairs[0]), Joined(Parts(pairs[1..])));
    }
  }

  /** A printed record is one line: its only newline is its last byte. */
  lemma LineIsOneLine(pairs: seq<Pair>)
    ensures OneLine(Line(pairs))
  {
    JoinedNoNewline(pairs);
  }

  function Concat(lines: seq<Bytes>): Bytes
  {
    if lines == [] then [] else lines[0] + Concat(lines[1..])
  }

  /** Where the first line of a non-empty text ends. */
  function LineEnd(bs: Bytes): (k: nat)
    requires bs != []
    ensures 0 < k <= |bs|
  {
    if bs[0] == NEWLINE || |bs| == 1 then 1 else 1 + LineEnd(bs[1..])
  }

  function SplitLines(bs: Bytes): seq<Bytes>
    decreases |bs|
  {
    if bs == [] then [] else var k := LineEnd(bs); [bs[..k]] + SplitLines(bs[k..])
  }

  lemma {:induction false} LineEndOf(line: Bytes, tail: Bytes)
    requires OneLine(line)
    ensures LineEnd(line + tail) == |line|
  {
    if |line| > 1 {
      assert (line + tail)[1..] == line[1..] + tail;
      LineEndOf(line[1..], tail);
    }
  }

  /** Splitting a file at its newlines recovers the lines it was joined from. */
  lemma {:induction false} SplitConcat(lines: seq<Bytes>)
    requires forall i | 0 <= i < |lines| :: OneLine(lines[i])
    ensures SplitLines(Concat(lines)) == lines
  {
    if lines != [] {
      var file := Concat(lines);
      LineEndOf(lines[0], Concat(lines[1..]));
      assert file[..|lines[0]|] == lines[0] && file[|lines[0]|..] == Concat(lines[1..]);
      SplitConcat(lines[1..]);
      assert lines == [lines[0]] + lines[1..];
    }
  }

  function Lines(records: seq<seq<Pair>>): (ls: seq<Bytes>)
    ensures |ls| == |records| && forall i | 0 <= i < |records| :: ls[i] == Line(records[i])
  {
    seq(|records|, i requires 0 <= i < |records| => Line(records[i]))
  }

  /** A file determines its records: equal bytes, equal records in equal order. */
  lemma FileDeterminesRecords(a: seq<seq<Pair>>, b: seq<seq<Pair>>)
    requires Concat(Lines(a)) == Concat(Lines(b))
    ensures a == b
  {
    forall i | 0 <= i < |a| ensures OneLine(Lines(a)[i]) { LineIsOneLine(a[i]); }
    forall i | 0 <= i < |b| ensures OneLine(Lines(b)[i]) { LineIsOneLine(b[i]); }
    SplitConcat(Lines(a));
    SplitConcat(Lines(b));
    assert Lines(a) == Lines(b);
    forall i | 0 <= i < |a| ensures a[i] == b[i] {
      ReadPrinted(a[i]);
      ReadPrinted(b[i]);
      assert Lines(a)[i] == Lines(b)[i];
    }
  }
}
