/** The observing night: a date in a header, shifted to local noon-to-noon, labelled by a civil date. */
module Night {
  import opened Options
  import opened Chars
  import opened Decimal
  import opened Calendar

  // ---- Reading the date ----

  datatype Scanned<+T> = Scanned(value: T, rest: string)

  function SkipSpaces(s: string): string {
    if s != "" && IsSpace(s[0]) then SkipSpaces(s[1..]) else s
  }

  /** %d: blanks, a sign, digits. */
  function ScanInt(s: string): Option<Scanned<int>> {
    var t := SkipSpaces(s);
    var signed := t != "" && (t[0] == '-' || t[0] == '+');
    var u := if signed then t[1..] else t;
    var n := DigitRun(u, 0);
    if n == 0 then None
    else
      var v: int := FromDec(u[..n]);
      Some(Scanned(if signed && t[0] == '-' then -v else v, u[n..]))
  }

  function ScanChar(c: char, s: string): Option<string> {
    if s != "" && s[0] == c then Some(s[1..]) else None
  }

  datatype Fields = Fields(year: int, month: int, day: int, hour: int, minute: int, second: int)

  /** :%lf, cut to whole seconds; 0 where it is missing. */
  function Seconds(s: string): int {
    match ScanChar(':', s)
    case None => 0
    case Some(r) =>
      match ScanInt(r)
      case None => 0
      case Some(v) => v.value
  }

  /** The date with a T before the time, or with any blanks there, or none. */
  function ScanStamp(s: string, withT: bool): Option<Fields> {
    var y :- ScanInt(s);
    var r1 :- ScanChar('-', y.rest);
    var mo :- ScanInt(r1);
    var r2 :- ScanChar('-', mo.rest);
    var d :- ScanInt(r2);
    var r3 :- if withT then ScanChar('T', d.rest) else Some(SkipSpaces(d.rest));
    var h :- ScanInt(r3);
    var r4 :- ScanChar(':', h.rest);
    var mi :- ScanInt(r4);
    Some(Fields(y.value, mo.value, d.value, h.value, mi.value, Seconds(mi.rest)))
  }

  function ReadStamp(s: string): Option<Fields> {
    var t := ScanStamp(s, true);
    if t.Some? then t else ScanStamp(s, false)
  }

  // ---- Instants ----

  const DAY := 86400

  /** timegm: months, days and times out of range run over. */
  function Instant(f: Fields): int {
    var y, m := f.year + (f.month - 1) / 12, (f.month - 1) % 12 + 1;
    (DayNumber(Date(y, m, 1)) + f.day - 1) * DAY + f.hour * 3600 + f.minute * 60 + f.second
  }

  /** The local noon-to-noon window of an instant, counted in days. */
  function Window(instant: int, offset: int): int {
    (instant + offset - DAY / 2) / DAY
  }

  // ---- Labels ----

  function PadLeft(s: string, width: nat): string
    decreases width - |s|
  {
    if |s| >= width then s else PadLeft("0" + s, width)
  }

  /** printf's %0*d */
  function Padded(n: int, width: nat): string
    requires width > 0
  {
    if n >= 0 then PadLeft(ToDec(n), width) else "-" + PadLeft(ToDec(-n), width - 1)
  }

  function Label(d: Date): string {
    Padded(d.year, 4) + "-" + Padded(d.month, 2) + "-" + Padded(d.day, 2)
  }

  function NightOf(date: string, offset: int): Option<string> {
    var f :- ReadStamp(date);
    var utc := Instant(f);
    if utc == -1 then None else Some(Label(CivilDate(Window(utc, offset))))
  }

  // ---- Padding ----

  lemma {:induction false} FromDecConcat(a: string, b: string)
    ensures FromDec(a + b) == FromDec(a) * Pow10(|b|) + FromDec(b)
  {
    if b == "" {
      assert a + b == a;
    } else {
      var front := b[..|b| - 1];
      FromDecConcat(a, front);
      assert (a + b)[..|a + b| - 1] == a + front;
      ShiftTen(FromDec(a), Pow10(|front|), FromDec(front), DigitValue(b[|b| - 1]));
    }
  }

  lemma ShiftTen(a: nat, p: nat, f: nat, d: nat)
    ensures (a * p + f) * 10 + d == a * (10 * p) + (f * 10 + d)
  {
  }

  lemma {:induction false} PadLeftIs(s: string, width: nat)
    requires AllDigits(s) && s != ""
    ensures AllDigits(PadLeft(s, width)) && FromDec(PadLeft(s, width)) == FromDec(s)
    ensures |PadLeft(s, width)| == if |s| >= width then |s| else width
    decreases width - |s|
  {
    if |s| < width {
      PadLeftIs("0" + s, width);
      FromDecConcat("0", s);
      assert FromDec("0") == 0 by { assert "0"[..0] == ""; assert FromDec("") == 0; }
    }
  }

  lemma PaddedDigits(n: nat, width: nat)
    requires width > 0
    ensures AllDigits(Padded(n, width)) && FromDec(Padded(n, width)) == n && Padded(n, width) != ""
        && |Padded(n, width)| >= width
  {
    PadLeftIs(ToDec(n), width);
    DecRoundTrip(n);
  }

  /** A padded number is digits, or a minus sign and digits, and they give its value. */
  lemma PaddedParts(a: int, width: nat)
    requires width > 0
    ensures var p := Padded(a, width);
            if a >= 0 then p != "" && AllDigits(p) && FromDec(p) == a
            else p != "" && p[0] == '-' && FromDec(p[1..]) == -a
  {
    if a >= 0 {
      PaddedDigits(a, width);
    } else {
      PadLeftIs(ToDec(-a), width - 1);
      DecRoundTrip(-a);
      assert Padded(a, width)[1..] == PadLeft(ToDec(-a), width - 1);
    }
  }

  lemma PaddedInjective(a: int, b: int, width: nat)
    requires width > 0 && Padded(a, width) == Padded(b, width)
    ensures a == b
  {
    PaddedParts(a, width);
    PaddedParts(b, width);
    hide FromDec, Padded;
    assert !IsDigit('-');
  }

  lemma {:induction false} ShortDec(n: nat, k: nat)
    requires n < Pow10(k) && k > 0
    ensures |ToDec(n)| <= k
    decreases k
  {
    if n >= 10 && k > 1 {
      assert Pow10(k) == 10 * Pow10(k - 1);
      ShortDec(n / 10, k - 1);
    }
    assert Pow10(1) == 10;
  }

  /** Numbers that fit are padded to exactly the width. */
  lemma PaddedWidth(n: nat, width: nat)
    requires width > 0 && n < Pow10(width)
    ensures |Padded(n, width)| == width
  {
    ShortDec(n, width);
    PadLeftIs(ToDec(n), width);
  }

  lemma MonthAndDayWidth(d: Date)
    requires Valid(d)
    ensures |Padded(d.month, 2)| == 2 && |Padded(d.day, 2)| == 2
  {
    assert Pow10(2) == 100;
    PaddedWidth(d.month, 2);
    PaddedWidth(d.day, 2);
  }

  /** Different dates have different labels, before the year 0 and after 9999 too. */
  lemma LabelInjective(a: Date, b: Date)
    requires Valid(a) && Valid(b) && Label(a) == Label(b)
    ensures a == b
  {
    hide Padded, Valid, MonthStart;
    MonthAndDayWidth(a);
    MonthAndDayWidth(b);
    var ya, yb := Padded(a.year, 4), Padded(b.year, 4);
    var n := |Label(a)|;
    assert |ya| == n - 6 && |yb| == n - 6;
    assert Label(a)[..n - 6] == ya && Label(b)[..n - 6] == yb;
    assert Label(a)[n - 5..n - 3] == Padded(a.month, 2) && Label(b)[n - 5..n - 3] == Padded(b.month, 2);
    assert Label(a)[n - 2..] == Padded(a.day, 2) && Label(b)[n - 2..] == Padded(b.day, 2);
    PaddedInjective(a.year, b.year, 4);
    PaddedInjective(a.month, b.month, 2);
    PaddedInjective(a.day, b.day, 2);
  }

  // ---- Order of labels ----

  predicate LexLess(a: string, b: string) {
    if b == "" then false else if a == "" then true else a[0] < b[0] || (a[0] == b[0] && LexLess(a[1..], b[1..]))
  }

  lemma {:induction false} LexFront(p: string, q: string, x: string, y: string)
    requires |p| == |q| && LexLess(p, q)
    ensures LexLess(p + x, q + y)
  {
    assert (p + x)[0] == p[0] && (q + y)[0] == q[0];
    assert (p + x)[1..] == p[1..] + x && (q + y)[1..] == q[1..] + y;
    if !(p[0] < q[0]) {
      LexFront(p[1..], q[1..], x, y);
    }
  }

  lemma {:induction false} LexBack(p: string, x: string, y: string)
    requires LexLess(x, y)
    ensures LexLess(p + x, p + y)
  {
    if p == "" {
      assert p + x == x && p + y == y;
    } else {
      LexBack(p[1..], x, y);
      assert (p + x)[1..] == p[1..] + x && (p + y)[1..] == p[1..] + y;
    }
  }

  lemma {:induction false} DigitsOrdered(a: string, b: string)
    requires |a| == |b| && AllDigits(a) && AllDigits(b) && FromDec(a) < FromDec(b)
    ensures LexLess(a, b)
    decreases |a|
  {
    if a != "" {
      var p, q := a[..|a| - 1], b[..|b| - 1];
      var x, y := [a[|a| - 1]], [b[|b| - 1]];
      assert a == p + x && b == q + y;
      if FromDec(p) < FromDec(q) {
        DigitsOrdered(p, q);
        LexFront(p, q, x, y);
      } else {
        assert FromDec(p) == FromDec(q);
        SameValue(p, q);
        assert x[1..] == [] && y[1..] == [];
        LexBack(p, x, y);
      }
    }
  }

  lemma {:induction false} SameValue(a: string, b: string)
    requires |a| == |b| && AllDigits(a) && AllDigits(b) && FromDec(a) == FromDec(b)
    ensures a == b
  {
    if a != "" {
      var x, y, c, d := a[..|a| - 1], b[..|b| - 1], a[|a| - 1], b[|b| - 1];
      assert a == x + [c] && b == y + [d] && IsDigit(c) && IsDigit(d);
      assert FromDec(a) == FromDec(x) * 10 + DigitValue(c) && FromDec(b) == FromDec(y) * 10 + DigitValue(d);
      hide FromDec;
      SameDigits(FromDec(x), c, FromDec(y), d);
      SameValue(x, y);
    }
  }

  lemma SameDigits(x: nat, c: char, y: nat, d: char)
    requires IsDigit(c) && IsDigit(d) && x * 10 + DigitValue(c) == y * 10 + DigitValue(d)
    ensures x == y && c == d
  {
  }

  lemma PaddedOrdered(a: nat, b: nat, width: nat)
    requires width > 0 && a < b < Pow10(width)
    ensures LexLess(Padded(a, width), Padded(b, width)) && |Padded(a, width)| == |Padded(b, width)| == width
  {
    PaddedDigits(a, width);
    PaddedDigits(b, width);
    PaddedWidth(a, width);
    PaddedWidth(b, width);
    hide Padded;
    DigitsOrdered(Padded(a, width), Padded(b, width));
  }

  function MonthDay(d: Date): string {
    "-" + (Padded(d.month, 2) + ("-" + Padded(d.day, 2)))
  }

  lemma MonthDayOrdered(a: Date, b: Date)
    requires 0 <= a.month < 100 && 0 <= b.month < 100 && 0 <= a.day < 100 && 0 <= b.day < 100
    requires a.month < b.month || (a.month == b.month && a.day < b.day)
    ensures LexLess(MonthDay(a), MonthDay(b))
  {
    assert Pow10(2) == 100;
    hide Padded, LexLess, Pow10;
    var ma, da, mb, db := Padded(a.month, 2), Padded(a.day, 2), Padded(b.month, 2), Padded(b.day, 2);
    if a.month < b.month {
      PaddedOrdered(a.month, b.month, 2);
      LexFront(ma, mb, "-" + da, "-" + db);
    } else {
      PaddedOrdered(a.day, b.day, 2);
      LexBack("-", da, db);
      LexBack(ma, "-" + da, "-" + db);
    }
    LexBack("-", ma + ("-" + da), mb + ("-" + db));
  }

  /** Labels of the years 0 to 9999 are ordered as text like the dates they name. */
  lemma LabelsOrdered(a: Date, b: Date)
    requires Valid(a) && Valid(b) && Before(a, b) && 0 <= a.year <= 9999 && 0 <= b.year <= 9999
    ensures LexLess(Label(a), Label(b))
  {
    assert Pow10(4) == 10000 by {
      assert Pow10(3) == 1000;
    }
    assert a.month < 100 && a.day < 100 && b.month < 100 && b.day < 100;
    hide Padded, LexLess, Valid, MonthStart, Pow10;
    LabelParts(a);
    LabelParts(b);
    hide Label, MonthDay;
    if a.year < b.year {
      PaddedOrdered(a.year, b.year, 4);
      LexFront(Padded(a.year, 4), Padded(b.year, 4), MonthDay(a), MonthDay(b));
    } else {
      MonthDayOrdered(a, b);
      LexBack(Padded(a.year, 4), MonthDay(a), MonthDay(b));
    }
  }

  lemma LabelParts(d: Date)
    ensures Label(d) == Padded(d.year, 4) + MonthDay(d)
  {
    hide Padded;
  }

  // ---- The main results ----

  /** Two exposures have the same night exactly when they fall in the same noon-to-noon window. */
  lemma SameNight(a: string, b: string, offset: int)
    requires NightOf(a, offset).Some? && NightOf(b, offset).Some?
    ensures NightOf(a, offset) == NightOf(b, offset)
       <==> Window(Instant(ReadStamp(a).value), offset) == Window(Instant(ReadStamp(b).value), offset)
  {
    hide ReadStamp, Instant, Label, Window, CivilDate;
    var m, n := Window(Instant(ReadStamp(a).value), offset), Window(Instant(ReadStamp(b).value), offset);
    if Label(CivilDate(m)) == Label(CivilDate(n)) {
      LabelInjective(CivilDate(m), CivilDate(n));
    }
  }

  /** A later window has a later label, for nights of the years 0 to 9999. */
  lemma LaterNight(a: string, b: string, offset: int)
    requires NightOf(a, offset).Some? && NightOf(b, offset).Some?
    requires var m, n := Window(Instant(ReadStamp(a).value), offset), Window(Instant(ReadStamp(b).value), offset);
             m < n && 0 <= CivilDate(m).year && CivilDate(n).year <= 9999
    ensures LexLess(NightOf(a, offset).value, NightOf(b, offset).value)
  {
    hide ReadStamp, Instant, Label, Window, CivilDate;
    var m, n := Window(Instant(ReadStamp(a).value), offset), Window(Instant(ReadStamp(b).value), offset);
    OrderKept(CivilDate(m), CivilDate(n));
    assert CivilDate(m).year <= CivilDate(n).year;
    LabelsOrdered(CivilDate(m), CivilDate(n));
  }

  // ---- Every instant has a stamp that is read back ----

  /** The header form of an instant. */
  function Stamp(t: int): string {
    var s := t % DAY;
    Label(CivilDate(t / DAY)) + "T" + Padded(s / 3600, 2) + ":" + Padded(s / 60 % 60, 2) + ":" + Padded(s % 60, 2)
  }

  lemma {:induction false} RunOfDigits(s: string, rest: string, d: nat)
    requires AllDigits(s) && (rest == "" || !IsDigit(rest[0])) && d <= |s|
    ensures DigitRun(s + rest, d) == |s|
    decreases |s| - d
  {
    if d < |s| {
      RunOfDigits(s, rest, d + 1);
      assert (s + rest)[d] == s[d];
    } else {
      assert d < |s + rest| ==> (s + rest)[d] == rest[0];
    }
  }

  lemma ScanDigits(s: string, rest: string)
    requires AllDigits(s) && s != "" && (rest == "" || !IsDigit(rest[0]))
    ensures ScanInt(s + rest) == Some(Scanned(FromDec(s), rest))
  {
    RunOfDigits(s, rest, 0);
    var t := s + rest;
    assert t[0] == s[0] && t[..|s|] == s && t[|s|..] == rest;
    assert SkipSpaces(t) == t;
    hide FromDec, DigitRun;
  }

  lemma ScanPadded(n: nat, width: nat, rest: string)
    requires width > 0 && (rest == "" || !IsDigit(rest[0]))
    ensures ScanInt(Padded(n, width) + rest) == Some(Scanned(n, rest))
  {
    PaddedDigits(n, width);
    ScanDigits(Padded(n, width), rest);
    hide ScanInt, Padded;
  }

  lemma ScanMark(c: char, rest: string)
    ensures ScanChar(c, [c] + rest) == Some(rest)
  {
    assert ([c] + rest)[1..] == rest;
  }

  lemma ScanFields(y: nat, mo: nat, d: nat, h: nat, mi: nat, se: nat)
    ensures var text := Padded(y, 4)
        + ("-" + (Padded(mo, 2) + ("-" + (Padded(d, 2)
        + ("T" + (Padded(h, 2) + (":" + (Padded(mi, 2) + (":" + Padded(se, 2))))))))));
            ScanStamp(text, true) == Some(Fields(y, mo, d, h, mi, se))
  {
    hide Padded, ScanInt, ScanChar;
    var t6 := Padded(se, 2);
    assert t6 + "" == t6;
    ScanPadded(se, 2, "");
    ScanMark(':', t6);
    var t5 := ":" + t6;
    ScanPadded(mi, 2, t5);
    ScanMark(':', Padded(mi, 2) + t5);
    var t4 := ":" + (Padded(mi, 2) + t5);
    ScanPadded(h, 2, t4);
    ScanMark('T', Padded(h, 2) + t4);
    var t3 := "T" + (Padded(h, 2) + t4);
    ScanPadded(d, 2, t3);
    ScanMark('-', Padded(d, 2) + t3);
    var t2 := "-" + (Padded(d, 2) + t3);
    ScanPadded(mo, 2, t2);
    ScanMark('-', Padded(mo, 2) + t2);
    ScanPadded(y, 4, "-" + (Padded(mo, 2) + t2));
  }

  lemma StampFields(t: int)
    requires 0 <= CivilDate(t / DAY).year
    ensures var d, s := CivilDate(t / DAY), t % DAY;
            ReadStamp(Stamp(t)) == Some(Fields(d.year, d.month, d.day, s / 3600, s / 60 % 60, s % 60))
  {
    hide Padded, ScanStamp, CivilDate;
    var d, s := CivilDate(t / DAY), t % DAY;
    ScanFields(d.year, d.month, d.day, s / 3600, s / 60 % 60, s % 60);
    assert Stamp(t) == Padded(d.year, 4)
        + ("-" + (Padded(d.month, 2) + ("-" + (Padded(d.day, 2) + ("T" + (Padded(s / 3600, 2)
        + (":" + (Padded(s / 60 % 60, 2) + (":" + Padded(s % 60, 2))))))))));
  }

  /** What may follow the minutes: nothing, or the seconds with whatever fraction. */
  predicate SecondsPart(tail: string, se: nat) {
    if tail == "" then se == 0
    else |tail| >= 3 && tail[..3] == ":" + Padded(se, 2) && (|tail| == 3 || tail[3] == '.')
  }

  lemma SecondsRead(tail: string, se: nat)
    requires se < 60 && SecondsPart(tail, se)
    ensures Seconds(tail) == se && (tail == "" || !IsDigit(tail[0]))
  {
    if tail != "" {
      var rest := tail[3..];
      assert tail == ":" + Padded(se, 2) + rest;
      assert tail[1..] == Padded(se, 2) + rest;
      ScanPadded(se, 2, rest);
      hide Padded, ScanInt;
    }
  }

  /** A date is read the same with a T or with blanks before the time, and its seconds may be missing, or have a
      fraction, which is dropped. */
  lemma StampForms(t: int, sep: string, tail: string)
    requires 0 <= CivilDate(t / DAY).year && sep in ["T", " ", "  "] && SecondsPart(tail, t % DAY % 60)
    ensures var d, s := CivilDate(t / DAY), t % DAY;
            ReadStamp(Label(d) + sep + Padded(s / 3600, 2) + ":" + Padded(s / 60 % 60, 2) + tail)
              == Some(Fields(d.year, d.month, d.day, s / 3600, s / 60 % 60, s % 60))
  {
    var d, s := CivilDate(t / DAY), t % DAY;
    SecondsRead(tail, s % 60);
    hide SecondsPart, Seconds, Padded, CivilDate, ReadStamp;
    ScanForms(d.year, d.month, d.day, s / 3600, s / 60 % 60, sep, tail);
    Grouped(Padded(d.year, 4), Padded(d.month, 2), Padded(d.day, 2), sep, Padded(s / 3600, 2), Padded(s / 60 % 60, 2),
      tail);
  }

  lemma Grouped(y: string, mo: string, d: string, sep: string, h: string, mi: string, tail: string)
    ensures y + "-" + mo + "-" + d + sep + h + ":" + mi + tail
         == y + ("-" + (mo + ("-" + (d + (sep + (h + (":" + (mi + tail))))))))
  {
  }

  lemma ScanForms(y: nat, mo: nat, d: nat, h: nat, mi: nat, sep: string, tail: string)
    requires sep in ["T", " ", "  "] && (tail == "" || !IsDigit(tail[0]))
    ensures ReadStamp(Padded(y, 4) + ("-" + (Padded(mo, 2) + ("-" + (Padded(d, 2) + (sep + (Padded(h, 2)
              + (":" + (Padded(mi, 2) + tail)))))))))
         == Some(Fields(y, mo, d, h, mi, Seconds(tail)))
  {
    hide Padded, ScanInt, Seconds;
    ScanPadded(mi, 2, tail);
    var t5 := Padded(mi, 2) + tail;
    ScanMark(':', t5);
    ScanPadded(h, 2, ":" + t5);
    var t4 := Padded(h, 2) + (":" + t5);
    SepRead(sep, h, ":" + t5);
    ScanPadded(d, 2, sep + t4);
    var t2 := Padded(d, 2) + (sep + t4);
    ScanMark('-', t2);
    ScanPadded(mo, 2, "-" + t2);
    var t1 := Padded(mo, 2) + ("-" + t2);
    ScanMark('-', t1);
    ScanPadded(y, 4, "-" + t1);
    hide ScanChar, SkipSpaces;
  }

  lemma SepRead(sep: string, h: nat, rest: string)
    requires sep in ["T", " ", "  "]
    ensures var t := Padded(h, 2) + rest;
            && !IsDigit((sep + t)[0])
            && (sep == "T" ==> ScanChar('T', sep + t) == Some(t))
            && (sep != "T" ==> ScanChar('T', sep + t) == None && SkipSpaces(sep + t) == t)
  {
    PaddedDigits(h, 2);
    var t := Padded(h, 2) + rest;
    assert t[0] == Padded(h, 2)[0];
    hide Padded;
    assert SkipSpaces(t) == t;
    if sep == " " {
      assert (sep + t)[1..] == t;
    } else if sep == "  " {
      assert (sep + t)[1..] == " " + t && (" " + t)[1..] == t;
    } else {
      assert (sep + t)[1..] == t;
    }
  }

  lemma TimeOfDay(s: nat)
    ensures s == s / 3600 * 3600 + s / 60 % 60 * 60 + s % 60
  {
  }

  lemma WholeDays(t: int)
    ensures t == t / DAY * DAY + t % DAY
  {
  }

  /** timegm of the fields gmtime gives is the instant. */
  lemma InstantBack(t: int)
    ensures var d, s := CivilDate(t / DAY), t % DAY;
            Instant(Fields(d.year, d.month, d.day, s / 3600, s / 60 % 60, s % 60)) == t
  {
    WholeDays(t);
    TimeOfDay(t % DAY);
    InstantOf(CivilDate(t / DAY), t % DAY / 3600, t % DAY / 60 % 60, t % DAY % 60);
    hide CivilDate, DayNumber, Valid, Instant, DAY;
  }

  lemma InstantOf(d: Date, h: int, mi: int, se: int)
    requires Valid(d)
    ensures Instant(Fields(d.year, d.month, d.day, h, mi, se)) == DayNumber(d) * DAY + h * 3600 + mi * 60 + se
  {
    assert (d.month - 1) / 12 == 0 && (d.month - 1) % 12 == d.month - 1;
    assert DayNumber(Date(d.year, d.month, 1)) + d.day - 1 == DayNumber(d);
    hide DayNumber, Valid;
  }

  /** Fields in their ranges, as every stamp of a real date has them. */
  predicate InRange(f: Fields) {
    && Valid(Date(f.year, f.month, f.day))
    && 0 <= f.hour < 24 && 0 <= f.minute < 60 && 0 <= f.second < 60
  }

  /** Two stamps in range that denote one instant have the same fields. */
  lemma OneStampEach(f: Fields, g: Fields)
    requires InRange(f) && InRange(g) && Instant(f) == Instant(g)
    ensures f == g
  {
    var a, b := Date(f.year, f.month, f.day), Date(g.year, g.month, g.day);
    InstantOf(a, f.hour, f.minute, f.second);
    InstantOf(b, g.hour, g.minute, g.second);
    assert DayNumber(a) == DayNumber(b);
    CivilOfDayNumber(a);
    CivilOfDayNumber(b);
    hide DayNumber, CivilDate, Instant;
  }

  lemma LastSecond()
    ensures var f := Fields(1969, 12, 31, 23, 59, 59); InRange(f) && Instant(f) == -1
  {
    var d := Date(1969, 12, 31);
    assert YearStart(1969) == -365 && !IsLeap(1969);
    assert Valid(d) && DayNumber(d) == -1;
    InstantOf(d, 23, 59, 59);
  }

  /** A date that does not parse has no night; one that does, with its fields in range, has none exactly
      when it is the last second of 1969, which timegm reports like an error. */
  lemma NoNight(date: string, offset: int)
    ensures ReadStamp(date).None? ==> NightOf(date, offset).None?
    ensures ReadStamp(date).Some? && InRange(ReadStamp(date).value) ==>
              (NightOf(date, offset).None? <==> ReadStamp(date).value == Fields(1969, 12, 31, 23, 59, 59))
    ensures NightOf(date, offset).None? <==> ReadStamp(date).None? || Instant(ReadStamp(date).value) == -1
  {
    var f := ReadStamp(date);
    LastSecond();
    hide ReadStamp, InRange, Instant, CivilDate, Label;
    if f.Some? && InRange(f.value) && Instant(f.value) == -1 {
      OneStampEach(f.value, Fields(1969, 12, 31, 23, 59, 59));
    }
  }

  /** For every instant and every whole-second offset: the night of its stamp is the civil date on which
      its local noon-to-noon window begins. */
  lemma NightOfInstant(t: int, offset: int)
    requires 0 <= CivilDate(t / DAY).year
    ensures NightOf(Stamp(t), offset) == if t == -1 then None else Some(Label(CivilDate((t + offset - DAY / 2) / DAY)))
  {
    StampFields(t);
    InstantBack(t);
    hide ReadStamp, Instant, Label, CivilDate, Stamp;
  }
}
