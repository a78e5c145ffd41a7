/** Which files a scan reads again, said of what their paths show. */
module Rereading {
  import opened Options
  import opened Tables
  import opened FrameStore
  import opened Database
  import opened Sweep
  import opened Racing
  import opened Runs
  import Calendar
  import Decimal
  import Night

  /** The path shows a clean file of this size, last modified within this second. */
  ghost predicate ShowsClean(v: Option<FileView>, size: int, mtime: Time) {
    && v.Some? && v.value.status == Ok && v.value.size == Some(size)
    && v.value.mtime.Some? && v.value.mtime.value / 1000000 == mtime / 1000000
  }

  /** The path shows what was found on disk: place, size, times, and every image's header. */
  ghost predicate ShowsFile(v: Option<FileView>, item: Item, hdus: seq<Hdu>) {
    && v.Some? && v.value.place == item.place && v.value.size == Some(item.size) && v.value.mtime == Some(item.mtime)
    && v.value.inode == Some(item.inode) && v.value.status == Ok && v.value.error == None
    && (Numbered(hdus) ==> forall h :: h in hdus && h.isImage && h.naxis > 0 ==> ShowsImage(v.value, h))
  }

  ghost predicate ShowsImage(v: FileView, h: Hdu) {
    && h.index in v.frames && v.frames[h.index].fingerprint == h.fingerprint && v.frames[h.index].columns == h.columns
    && |v.frames[h.index].cards| == |h.cards|
    && forall k :: 0 <= k < |h.cards| ==> CardHolds(v.frames[h.index].cards[k], h.cards[k])
  }

  /** The path shows an error, over whatever frames and columns it showed, or else over what was found. */
  ghost predicate ShowsError(v: Option<FileView>, before: Option<FileView>, item: Item, what: string) {
    && v.Some? && v.value.status == Error
    && v.value.error == Some(if |what| <= 500 then what else what[..500])
    && match before
       case Some(b) =>
         v.value.frames == b.frames && v.value.place == b.place && v.value.size == b.size && v.value.mtime == b.mtime
         && v.value.inode == b.inode
       case None =>
         v.value.frames == map[] && v.value.place == item.place && v.value.size == Some(item.size)
         && v.value.mtime == Some(item.mtime) && v.value.inode == None
  }

  /** A clean file with the same size and second is left as it was; any other is read again, and its path then
      shows what was read or, if that failed, the error. */
  lemma ReadAgain(t: Tables, s: Scan, zone: int, i: nat)
    requires Valid(t) && WellTimed(s) && i < |s.items| && Finishes(s.items, s.turns, i)
    ensures var item := s.items[i];
            var before := ViewAt(t, item.root, item.place.hash);
            var after := ViewAt(Raced(t, s, zone), item.root, item.place.hash);
            match item.found
            case Readable(hdus, faults, what) =>
              if ShowsClean(before, item.size, item.mtime) then after == before
              else if Succeeds(faults, hdus, 0) then ShowsFile(after, item, hdus)
              else ShowsError(after, before, item, what)
            case Unreadable(what) =>
              if ShowsClean(before, item.size, item.mtime) then after == before
                  else ShowsError(after, before, item, what)
            case _ => after == before
  {
    RacedEffect(t, s, zone);
    ItemShows(ViewAt(t, s.items[i].root, s.items[i].place.hash), s.items[i]);
    hide Raced, Shown, ShowsFile, ShowsError, ShowsClean, Succeeds, ViewAt, Valid, WellTimed;
  }

  lemma ItemShows(before: Option<FileView>, item: Item)
    ensures match item.found
            case Readable(hdus, faults, what) =>
              if ShowsClean(before, item.size, item.mtime) then Shown(before, item) == before
              else if Succeeds(faults, hdus, 0) then ShowsFile(Shown(before, item), item, hdus)
              else ShowsError(Shown(before, item), before, item, what)
            case Unreadable(what) =>
              if ShowsClean(before, item.size, item.mtime) then Shown(before, item) == before
              else ShowsError(Shown(before, item), before, item, what)
            case _ => Shown(before, item) == before
  {
    if item.found.Readable? {
      var hdus := item.found.hdus;
      forall h | Numbered(hdus) && h in hdus && h.isImage && h.naxis > 0
        ensures ShowsImage(FileShown(before, Info(item), hdus), h)
      {
        ImageShown(before, Info(item), hdus, h);
      }
    }
    hide FramesShown, ImageHdus, Succeeds, ShowsImage;
  }

  lemma ImageShown(before: Option<FileView>, info: FileInfo, hdus: seq<Hdu>, h: Hdu)
    requires Numbered(hdus) && h in hdus && h.isImage && h.naxis > 0
    ensures ShowsImage(FileShown(before, info, hdus), h)
  {
    ImageHdusNumbered(hdus);
    FramesShownAt(if before.Some? then before.value.frames else map[], ImageHdus(hdus), h);
    CardsHold(h.cards);
    hide FramesShown, ImageHdus, CardHolds, StoredCards;
  }

  /** Either way a file that could be read and stored ends clean, with its size and second. */
  lemma EndsClean(t: Tables, s: Scan, zone: int, i: nat)
    requires Valid(t) && WellTimed(s) && i < |s.items| && Finishes(s.items, s.turns, i)
    requires s.items[i].found.Readable? && Succeeds(s.items[i].found.faults, s.items[i].found.hdus, 0)
    ensures var item := s.items[i];
            ShowsClean(ViewAt(Raced(t, s, zone), item.root, item.place.hash), item.size, item.mtime)
  {
    ReadAgain(t, s, zone, i);
    hide Raced, ViewAt, Succeeds, WellTimed, Valid, ShowsImage, Finishes;
  }

  // ---- The second is what the code compares ----

  /** The text of an instant, in seconds. */
  function SecondText(t: int): string {
    var s := t % 86400;
    Night.Label(Calendar.CivilDate(t / 86400)) + " " + Night.Padded(s / 3600, 2) + ":" + Night.Padded(s / 60 % 60, 2)
    + ":" + Night.Padded(s % 60, 2)
  }

  /** The text of a DATETIME(6), and of the time stat gave. */
  function TimeText(time: Time): string {
    SecondText(time / 1000000) + "." + Night.Padded(time % 1000000, 6)
  }

  predicate FourDigitYear(t: int) {
    0 <= Calendar.CivilDate(t / 86400).year <= 9999
  }

  lemma TwoDigits(n: nat)
    requires n < 100
    ensures |Night.Padded(n, 2)| == 2
  {
    assert Decimal.Pow10(2) == 100;
    Night.PaddedWidth(n, 2);
  }

  lemma LabelWidth(d: Calendar.Date)
    requires Calendar.Valid(d) && 0 <= d.year <= 9999
    ensures |Night.Label(d)| == 10
  {
    assert Decimal.Pow10(4) == 10000;
    Night.PaddedWidth(d.year, 4);
    Night.MonthAndDayWidth(d);
    hide Night.Padded;
  }

  lemma SecondTextParts(t: int)
    requires FourDigitYear(t)
    ensures var s, x := t % 86400, SecondText(t);
            && |x| == 19 && x[..10] == Night.Label(Calendar.CivilDate(t / 86400))
            && x[11..13] == Night.Padded(s / 3600, 2) && x[14..16] == Night.Padded(s / 60 % 60, 2)
            && x[17..] == Night.Padded(s % 60, 2)
  {
    var s := t % 86400;
    LabelWidth(Calendar.CivilDate(t / 86400));
    TwoDigits(s / 3600);
    TwoDigits(s / 60 % 60);
    TwoDigits(s % 60);
    hide Night.Padded, Night.Label, Calendar.CivilDate;
    Pieces(Night.Label(Calendar.CivilDate(t / 86400)), Night.Padded(s / 3600, 2), Night.Padded(s / 60 % 60, 2),
      Night.Padded(s % 60, 2), SecondText(t));
    hide SecondText, FourDigitYear;
  }

  lemma Pieces(day: string, h: string, m: string, s: string, x: string)
    requires |day| == 10 && |h| == |m| == |s| == 2 && x == day + " " + h + ":" + m + ":" + s
    ensures |x| == 19 && x[..10] == day && x[11..13] == h && x[14..16] == m && x[17..] == s
  {
  }

  lemma SecondTextInjective(t: int, u: int)
    requires FourDigitYear(t) && FourDigitYear(u) && SecondText(t) == SecondText(u)
    ensures t == u
  {
    SecondTextParts(t);
    SecondTextParts(u);
    var a, b := t % 86400, u % 86400;
    var d, e := Calendar.CivilDate(t / 86400), Calendar.CivilDate(u / 86400);
    hide SecondText, FourDigitYear, Night.Padded, Night.Label, Calendar.CivilDate;
    Night.LabelInjective(d, e);
    Night.PaddedInjective(a / 3600, b / 3600, 2);
    Night.PaddedInjective(a / 60 % 60, b / 60 % 60, 2);
    Night.PaddedInjective(a % 60, b % 60, 2);
    Night.TimeOfDay(a);
    Night.TimeOfDay(b);
    hide Calendar.DayNumber;
    assert t / 86400 == Calendar.DayNumber(d) == u / 86400;
  }

  /** The first 19 characters of two times are the same exactly when the times lie in one second. */
  lemma SameNineteen(a: Time, b: Time)
    requires FourDigitYear(a / 1000000) && FourDigitYear(b / 1000000)
    ensures |TimeText(a)| >= 19 && |TimeText(b)| >= 19
    ensures TimeText(a)[..19] == TimeText(b)[..19] <==> a / 1000000 == b / 1000000
  {
    SecondTextParts(a / 1000000);
    SecondTextParts(b / 1000000);
    hide SecondText, Night.Padded, FourDigitYear;
    assert TimeText(a)[..19] == SecondText(a / 1000000) && TimeText(b)[..19] == SecondText(b / 1000000);
    if SecondText(a / 1000000) == SecondText(b / 1000000) {
      SecondTextInjective(a / 1000000, b / 1000000);
    }
  }
}
