/** `format_ts`: whole seconds rendered as an RFC 3339 timestamp, and the order of the
    rendered strings (section 5.1 of RFC 3339). */
module Timestamp {
  import opened Text
  import Calendar

  const DAY := 86400

  /** First and last second of the window: 0000-02-29T00:00:00Z and 9999-12-31T23:59:59Z. */
  const FIRST_TS := -719469 * DAY
  const LAST_TS := 2932896 * DAY + 86399

  predicate Renders(ts: int)
  {
    FIRST_TS <= ts <= LAST_TS
  }

  function FormatTs(ts: int): string
  {
    var days, rem := ts / DAY, ts % DAY;
    var hour, minute, second := rem / 3600, rem % 3600 / 60, rem % 3600 % 60;
    var d := Calendar.CivilFromDays(days);
    Padded(d.year, 4) + "-" + (Padded(d.month, 2) + "-" + (Padded(d.day, 2) + "T"
    + (Padded(hour, 2) + ":" + (Padded(minute, 2) + ":" + (Padded(second, 2) + "Z")))))
  }

  // ---- the rendering as a list of fixed-width fields ----

  ghost const WIDTHS: seq<nat> := [4, 2, 2, 2, 2, 2]
  ghost const MARKS: string := "--T::Z"

  /** Year, month, day, hour, minute, second. */
  ghost function Fields(ts: int): seq<int>
  {
    FieldsOf(Calendar.CivilFromDays(ts / DAY), ts % DAY)
  }

  ghost function FieldsOf(d: Calendar.Date, rem: int): seq<int>
  {
    [d.year, d.month, d.day, rem / 3600, rem % 3600 / 60, rem % 3600 % 60]
  }

  ghost predicate Fit(fields: seq<int>, widths: seq<nat>)
  {
    |fields| == |widths| && forall i | 0 <= i < |fields| :: 0 <= fields[i] < Power10(widths[i])
  }

  ghost function RenderFields(fields: seq<int>, widths: seq<nat>, marks: string): string
    requires Fit(fields, widths) && |marks| == |fields|
  {
    if fields == [] then ""
    else Fixed(fields[0], widths[0]) + [marks[0]] + RenderFields(fields[1..], widths[1..], marks[1..])
  }

  ghost predicate FieldsLess(a: seq<int>, b: seq<int>)
    requires |a| == |b|
  {
    a != [] && (a[0] < b[0] || (a[0] == b[0] && FieldsLess(a[1..], b[1..])))
  }

  /** Fixed-width fields: the strings are ordered as the field lists are. */
  lemma {:induction false} RenderOrder(a: seq<int>, b: seq<int>, widths: seq<nat>, marks: string)
    requires Fit(a, widths) && Fit(b, widths) && |marks| == |widths| && FieldsLess(a, b)
    ensures StrLess(RenderFields(a, widths, marks), RenderFields(b, widths, marks))
  {
    var x, y := RenderFields(a[1..], widths[1..], marks[1..]), RenderFields(b[1..], widths[1..], marks[1..]);
    var p, q := Fixed(a[0], widths[0]) + [marks[0]], Fixed(b[0], widths[0]) + [marks[0]];
    if a[0] < b[0] {
      FixedOrder(a[0], b[0], widths[0]);
      LessBeforeSuffix(Fixed(a[0], widths[0]), Fixed(b[0], widths[0]), [marks[0]], [marks[0]]);
      LessBeforeSuffix(p, q, x, y);
    } else {
      RenderOrder(a[1..], b[1..], widths[1..], marks[1..]);
      LessAfterPrefix(p, x, y);
    }
  }

  lemma Powers()
    ensures Power10(2) == 100 && Power10(4) == 10000
  {
    assert Power10(1) == 10 && Power10(3) == 1000;
  }

  lemma FieldsFit(ts: int)
    requires Renders(ts)
    ensures Fit(Fields(ts), WIDTHS)
  {
    Powers();
    Calendar.CivilInEra(ts / DAY);
    YearRange(ts / DAY);
    DateFits(Calendar.CivilFromDays(ts / DAY), ts % DAY);
  }

  lemma DateFits(d: Calendar.Date, rem: int)
    requires Calendar.ValidDate(d) && 0 <= d.year <= 9999 && 0 <= rem < DAY
    ensures Fit(FieldsOf(d, rem), WIDTHS)
  {
    Powers();
  }

  /** Day 2932896 is 9999-12-31. */
  lemma YearRange(days: int)
    requires -719469 <= days <= 2932896
    ensures 0 <= Calendar.CivilFromDays(days).year <= 9999
  {
    FirstAndLast();
    Calendar.CivilYearOrder(-719469, days);
    Calendar.CivilYearOrder(days, 2932896);
  }

  lemma FirstAndLast()
    ensures Calendar.CivilFromDays(-719469).year == 0
    ensures Calendar.CivilFromDays(2932896).year == 9999
  {
    Calendar.CivilAnchors();
    Calendar.Anchor(Calendar.Date(9999, 12, 31), 2932896);
  }

  lemma FormatIsFields(ts: int)
    requires Renders(ts)
    ensures Fit(Fields(ts), WIDTHS)
    ensures FormatTs(ts) == RenderFields(Fields(ts), WIDTHS, MARKS)
  {
    FieldsFit(ts);
    var f := Fields(ts);
    forall i | 0 <= i < 6 ensures Padded(f[i], WIDTHS[i]) == Fixed(f[i], WIDTHS[i]) {
      PaddedFixed(f[i], WIDTHS[i]);
    }
    RenderSix(f, WIDTHS, MARKS);
  }

  lemma RenderSix(f: seq<int>, w: seq<nat>, m: string)
    requires Fit(f, w) && |m| == |f| == 6
    ensures RenderFields(f, w, m)
         == Fixed(f[0], w[0]) + [m[0]] + (Fixed(f[1], w[1]) + [m[1]] + (Fixed(f[2], w[2]) + [m[2]]
          + (Fixed(f[3], w[3]) + [m[3]] + (Fixed(f[4], w[4]) + [m[4]] + (Fixed(f[5], w[5]) + [m[5]])))))
  {
    assert f[0..] == f && w[0..] == w && m[0..] == m;
    RenderStep(f, w, m, 0);
    RenderStep(f, w, m, 1);
    RenderStep(f, w, m, 2);
    RenderStep(f, w, m, 3);
    RenderStep(f, w, m, 4);
    RenderLast(f[5..], w[5..], m[5..]);
  }

  lemma RenderLast(f: seq<int>, w: seq<nat>, m: string)
    requires Fit(f, w) && |m| == |f| == 1
    ensures RenderFields(f, w, m) == Fixed(f[0], w[0]) + [m[0]]
  {
  }

  lemma RenderStep(f: seq<int>, w: seq<nat>, m: string, k: nat)
    requires Fit(f, w) && |m| == |f| && k < |f|
    ensures Fit(f[k..], w[k..]) && Fit(f[k + 1..], w[k + 1..])
    ensures RenderFields(f[k..], w[k..], m[k..])
         == Fixed(f[k], w[k]) + [m[k]] + RenderFields(f[k + 1..], w[k + 1..], m[k + 1..])
  {
    assert f[k..][1..] == f[k + 1..] && w[k..][1..] == w[k + 1..] && m[k..][1..] == m[k + 1..];
  }

  lemma FieldsOrder(a: int, b: int)
    requires Renders(a) && Renders(b) && a < b
    ensures FieldsLess(Fields(a), Fields(b))
  {
    if a / DAY < b / DAY {
      Calendar.CivilOrder(a / DAY, b / DAY);
      LaterDate(Calendar.CivilFromDays(a / DAY), Calendar.CivilFromDays(b / DAY), a % DAY, b % DAY);
    } else {
      assert a / DAY == b / DAY;
      LaterTime(Calendar.CivilFromDays(a / DAY), a % DAY, b % DAY);
    }
  }

  lemma LaterDate(d: Calendar.Date, e: Calendar.Date, r: int, s: int)
    requires Calendar.DateLess(d, e)
    ensures FieldsLess(FieldsOf(d, r), FieldsOf(e, s))
  {
    LessAt(FieldsOf(d, r), FieldsOf(e, s),
           if d.year < e.year then 0 else if d.month < e.month then 1 else 2);
  }

  lemma LaterTime(d: Calendar.Date, r: int, s: int)
    requires 0 <= r < s < DAY
    ensures FieldsLess(FieldsOf(d, r), FieldsOf(d, s))
  {
    TimeOrder(r, s);
    LessAt(FieldsOf(d, r), FieldsOf(d, s),
           if r / 3600 < s / 3600 then 3 else if r % 3600 / 60 < s % 3600 / 60 then 4 else 5);
  }

  lemma TimeOrder(r: int, s: int)
    requires 0 <= r < s < DAY
    ensures r / 3600 < s / 3600 || (r / 3600 == s / 3600
            && (r % 3600 / 60 < s % 3600 / 60 || (r % 3600 / 60 == s % 3600 / 60 && r % 3600 % 60 < s % 3600 % 60)))
  {
  }

  lemma {:induction false} LessAt(a: seq<int>, b: seq<int>, k: nat)
    requires |a| == |b| && k < |a| && a[..k] == b[..k] && a[k] < b[k]
    ensures FieldsLess(a, b)
  {
    if k > 0 {
      assert a[0] == a[..k][0] == b[..k][0] == b[0];
      assert a[1..][..k - 1] == a[..k][1..] && b[1..][..k - 1] == b[..k][1..];
      LessAt(a[1..], b[1..], k - 1);
    }
  }

  /** Later seconds render as strictly greater strings, over the whole four-digit-year window. */
  lemma FormatOrder(a: int, b: int)
    requires Renders(a) && Renders(b) && a < b
    ensures StrLess(FormatTs(a), FormatTs(b))
  {
    FormatIsFields(a);
    FormatIsFields(b);
    FieldsOrder(a, b);
    RenderOrder(Fields(a), Fields(b), WIDTHS, MARKS);
  }

  /** Rendering keeps the order of all seconds of an interval. */
  ghost predicate Ordered(lo: int, hi: int)
  {
    forall a, b | lo <= a < b <= hi :: StrLess(FormatTs(a), FormatTs(b))
  }

  /** The exact window: an interval that reaches into it keeps its order if and only if it lies within. */
  lemma OrderExact(lo: int, hi: int)
    requires lo <= LAST_TS && FIRST_TS <= hi
    ensures Ordered(lo, hi) <==> FIRST_TS <= lo && hi <= LAST_TS
  {
    if FIRST_TS <= lo && hi <= LAST_TS {
      forall a, b | lo <= a < b <= hi ensures StrLess(FormatTs(a), FormatTs(b)) {
        FormatOrder(a, b);
      }
    } else {
      OrderFailsOutside();
      var a := if lo < FIRST_TS then FIRST_TS - 1 else LAST_TS;
      var b := if lo < FIRST_TS then FIRST_TS else LAST_TS + 1;
      LessTrichotomy(FormatTs(a), FormatTs(b));
      assert !StrLess(FormatTs(a), FormatTs(b));
    }
  }

  /** At its edges the promise fails: the last seconds of the day before the window and of its first day
      share one rendering, so the window's first second sorts before the second that precedes it, and the
      year 10000 sorts before the year 9999. */
  lemma OrderFailsOutside()
    ensures FormatTs(FIRST_TS - 1) == FormatTs(FIRST_TS + DAY - 1)
    ensures StrLess(FormatTs(FIRST_TS), FormatTs(FIRST_TS - 1))
    ensures StrLess(FormatTs(LAST_TS + 1), FormatTs(LAST_TS))
  {
    SharedRendering();
    FormatOrder(FIRST_TS, FIRST_TS + DAY - 1);
    YearOverflow();
  }

  lemma SharedRendering()
    ensures FormatTs(FIRST_TS - 1) == FormatTs(FIRST_TS + DAY - 1)
  {
    Calendar.CivilBeforeMarchZero();
    SameDate(-719470, -719469, DAY - 1);
  }

  lemma YearOverflow()
    ensures StrLess(FormatTs(LAST_TS + 1), FormatTs(LAST_TS))
  {
    LeadingDigits();
    YearTenThousand();
    LeadsWith(LAST_TS + 1, 2932897, 10000);
    FirstAndLast();
    LeadsWith(LAST_TS, 2932896, 9999);
    FirstDecides(FormatTs(LAST_TS + 1), FormatTs(LAST_TS));
  }

  lemma FirstDecides(a: string, b: string)
    requires |a| > 0 && |b| > 0 && a[0] < b[0]
    ensures StrLess(a, b)
  {
  }

  lemma LeadsWith(ts: int, days: int, year: int)
    requires ts / DAY == days && Calendar.CivilFromDays(days).year == year
    ensures |FormatTs(ts)| > 0 && FormatTs(ts)[0] == Padded(year, 4)[0]
  {
    FormatFirst(ts);
  }

  lemma FormatFirst(ts: int)
    ensures |FormatTs(ts)| > 0 && FormatTs(ts)[0] == Padded(Calendar.CivilFromDays(ts / DAY).year, 4)[0]
  {
  }

  lemma LeadingDigits()
    ensures Padded(10000, 4)[0] == '1' && Padded(9999, 4)[0] == '9'
  {
    assert Decimal(10) == "10" && Decimal(100) == "100" && Decimal(1000) == "1000" && Decimal(10000) == "10000";
    assert Decimal(99) == "99" && Decimal(999) == "999" && Decimal(9999) == "9999";
  }

  lemma SameDate(a: int, b: int, r: int)
    requires Calendar.CivilFromDays(a) == Calendar.CivilFromDays(b) && 0 <= r < DAY
    ensures FormatTs(a * DAY + r) == FormatTs(b * DAY + r)
  {
    SplitDay(a, r);
    SplitDay(b, r);
  }

  lemma SplitDay(a: int, r: int)
    requires 0 <= r < DAY
    ensures (a * DAY + r) / DAY == a && (a * DAY + r) % DAY == r
  {
  }

  lemma YearTenThousand()
    ensures Calendar.CivilFromDays(2932897).year == 10000
  {
    Calendar.Anchor(Calendar.Date(10000, 1, 1), 2932897);
  }
}
