/** Storing one file: the row upsert, one frame upsert per image HDU, the replaced header cards, the
    transaction around them and the retry loop around that. */
module FrameStore {
  import opened Options
  import opened Tables

  datatype RawCard = RawCard(keyword: string, value: string, comment: string)

  /** fingerprint and columns are what fingerprint() and resolve() compute from the cards. */
  datatype Hdu = Hdu(index: int, isImage: bool, naxis: int, cards: seq<RawCard>, fingerprint: int, columns: seq<string>)

  datatype FileInfo = FileInfo(root: int, place: Place, size: Option<int>, mtime: Option<Time>, inode: Option<int>)

  function ImageHdus(hdus: seq<Hdu>): seq<Hdu> {
    if hdus == [] then [] else
    var last := hdus[|hdus| - 1];
    ImageHdus(hdus[..|hdus| - 1]) + if last.isImage && last.naxis > 0 then [last] else []
  }

  /** read_header numbers the HDUs, so no index repeats. */
  ghost predicate Numbered(hdus: seq<Hdu>) {
    forall i, j :: 0 <= i < j < |hdus| ==> hdus[i].index != hdus[j].index
  }

  lemma {:induction false} ImageHdusNumbered(hdus: seq<Hdu>)
    requires Numbered(hdus)
    ensures Numbered(ImageHdus(hdus))
    ensures forall h :: h in ImageHdus(hdus) <==> h in hdus && h.isImage && h.naxis > 0
  {
    if hdus != [] {
      var front := hdus[..|hdus| - 1];
      ImageHdusNumbered(front);
      assert hdus == front + [hdus[|hdus| - 1]];
      forall h | h in ImageHdus(front)
        ensures h.index != hdus[|hdus| - 1].index
      {
        assert h in front;
      }
    }
  }

  function Prefix(s: string, n: nat): string {
    if |s| <= n then s else s[..n]
  }

  function StoredCard(c: RawCard): Card {
    Card(Prefix(c.keyword, 72),
         if c.value == "" then None else Some(Prefix(c.value, 256)),
         if c.comment == "" then None else Some(Prefix(c.comment, 256)))
  }

  function StoredCards(cards: seq<RawCard>): seq<Card> {
    seq(|cards|, i requires 0 <= i < |cards| => StoredCard(cards[i]))
  }

  // ---- The effect of a store, as a function of the tables ----

  /** INSERT ... ON DUPLICATE KEY UPDATE on files; first_seen_utc is set only by the insert. */
  ghost function FileUpserted(t: Tables, info: FileInfo, now: Time): Tables {
    var hash := info.place.hash;
    var row := FileRow(info.root, info.place, info.size, info.mtime, info.inode, Ok, None, now, Some(now), Some(now));
    if Known(t, info.root, hash) then
      var id := IdAt(t, info.root, hash);
      t.(files := t.files[id := row.(firstSeen := t.files[id].firstSeen)])
    else
      t.(files := t.files[t.nextFile := row], nextFile := t.nextFile + 1)
  }

  /** The frame upsert and the replacement of its header cards. */
  ghost function FrameStored(t: Tables, file: int, h: Hdu): Tables {
    if h.index in HdusOf(t, file) then
      var f := FrameAt(t, file, h.index);
      t.(frames := t.frames[f := t.frames[f].(fingerprint := h.fingerprint, columns := h.columns)],
         cards := t.cards[f := StoredCards(h.cards)])
    else
      t.(frames := t.frames[t.nextFrame := FrameRow(file, h.index, h.fingerprint, h.columns, None)],
         cards := t.cards[t.nextFrame := StoredCards(h.cards)],
         nextFrame := t.nextFrame + 1)
  }

  ghost function FramesStored(t: Tables, file: int, hdus: seq<Hdu>): Tables {
    if hdus == [] then t
    else FrameStored(FramesStored(t, file, hdus[..|hdus| - 1]), file, hdus[|hdus| - 1])
  }

  ghost function Stored(t: Tables, info: FileInfo, hdus: seq<Hdu>, now: Time): Tables {
    var u := FileUpserted(t, info, now);
    if Known(u, info.root, info.place.hash) then
      FramesStored(u, IdAt(u, info.root, info.place.hash), ImageHdus(hdus))
    else u
  }

  // ---- What a store does, said of what the path shows ----

  function FrameShown(h: Hdu): FrameView {
    FrameView(h.fingerprint, h.columns, StoredCards(h.cards))
  }

  ghost function FramesShown(frames: map<int, FrameView>, hdus: seq<Hdu>): map<int, FrameView> {
    if hdus == [] then frames
    else FramesShown(frames, hdus[..|hdus| - 1])[hdus[|hdus| - 1].index := FrameShown(hdus[|hdus| - 1])]
  }

  ghost function FileShown(before: Option<FileView>, info: FileInfo, hdus: seq<Hdu>): FileView {
    FileView(info.place, info.size, info.mtime, info.inode, Ok, None,
             FramesShown(if before.Some? then before.value.frames else map[], ImageHdus(hdus)))
  }

  /** Nothing that was there is lost: rows keep their ids, first-seen stamp and key, frames keep
      their ids, slot and flat set, and every tag stays. */
  ghost predicate Kept(t: Tables, u: Tables) {
    && (forall i :: i in t.files ==> i in u.files && u.files[i].firstSeen == t.files[i].firstSeen
                                     && At(u.files[i], t.files[i].root, t.files[i].place.hash))
    && FramesKept(t, u)
  }

  ghost predicate FramesKept(t: Tables, u: Tables) {
    && (forall f :: f in t.frames ==> f in u.frames && SameSlot(u.frames[f], t.frames[f])
                                      && u.frames[f].flatSet == t.frames[f].flatSet)
    && (forall p :: p in t.tags ==> p in u.tags)
  }

  /** Only the frames of one file, and cards of those, may differ. */
  ghost predicate OnlyFile(t: Tables, u: Tables, file: int) {
    && (forall f :: f in t.frames && t.frames[f].file != file ==> f in u.frames && u.frames[f] == t.frames[f]
                                                                  && CardsOf(u, f) == CardsOf(t, f))
    && (forall f :: f in u.frames && u.frames[f].file != file ==> f in t.frames && t.frames[f].file != file)
    && t.tags == u.tags
  }

  lemma FileUpsertedEffect(t: Tables, info: FileInfo, now: Time)
    requires Valid(t)
    ensures var u := FileUpserted(t, info, now);
            && Valid(u)
            && Kept(t, u)
            && Known(u, info.root, info.place.hash)
            && var id := IdAt(u, info.root, info.place.hash);
               && (Known(t, info.root, info.place.hash) ==> id == IdAt(t, info.root, info.place.hash))
               && (!Known(t, info.root, info.place.hash)
                   ==> id !in t.files && FramesOf(u, id) == map[] && u.files[id].firstSeen == now)
               && u.files[id] == FileRow(info.root, info.place, info.size, info.mtime, info.inode, Ok, None,
                   u.files[id].firstSeen, Some(now), Some(now))
               && (forall i :: i in u.files && i != id ==> i in t.files && u.files[i] == t.files[i])
               && u.frames == t.frames && u.cards == t.cards && u.tags == t.tags
  {
    var u := FileUpserted(t, info, now);
    if Known(t, info.root, info.place.hash) {
      var id := IdAt(t, info.root, info.place.hash);
      RowReplacedTables(t, u, id, u.files[id]);
      hide Valid, Kept;
      ViewOfRow(u, id);
    } else {
      RowAddedTables(t, u, u.files[t.nextFile]);
      NoFramesYet(u, t.nextFile, t);
      hide Valid, Kept, FramesOf;
      ViewOfRow(u, t.nextFile);
    }
  }

  /** A row rewritten at its own path, with its first-seen stamp kept, breaks no key. */
  lemma RowReplacedTables(t: Tables, u: Tables, id: int, row: FileRow)
    requires Valid(t) && id in t.files
    requires u == t.(files := t.files[id := row])
    requires At(row, t.files[id].root, t.files[id].place.hash) && row.firstSeen == t.files[id].firstSeen
    ensures Valid(u) && Kept(t, u)
  {
    assert u.files.Keys == t.files.Keys;
    assert forall i :: i in t.files ==>
        u.files[i].root == t.files[i].root && u.files[i].place.hash == t.files[i].place.hash;
    assert forall i :: i in t.files ==> At(u.files[i], t.files[i].root, t.files[i].place.hash);
  }

  lemma RowAddedTables(t: Tables, u: Tables, row: FileRow)
    requires Valid(t) && !Known(t, row.root, row.place.hash)
    requires u == t.(files := t.files[t.nextFile := row], nextFile := t.nextFile + 1)
    ensures Valid(u) && Kept(t, u)
  {
    assert forall i :: i in t.files ==> !At(t.files[i], row.root, row.place.hash);
  }

  lemma NoFramesYet(u: Tables, id: int, t: Tables)
    requires Valid(t) && id !in t.files && u.frames == t.frames
    ensures FramesOf(u, id) == map[]
  {
    assert HdusOf(u, id) == {};
  }

  lemma FrameStoredEffect(t: Tables, file: int, h: Hdu)
    requires Valid(t) && file in t.files
    ensures var u := FrameStored(t, file, h);
            && Valid(u)
            && u.files == t.files
            && FramesKept(t, u)
            && OnlyFile(t, u, file)
            && FramesOf(u, file) == FramesOf(t, file)[h.index := FrameShown(h)]
  {
    FrameStoredTables(t, file, h);
    FrameStoredView(t, file, h);
  }

  /** The row the frame upsert hits: the one holding the slot, or a new one. */
  ghost function Target(t: Tables, file: int, h: Hdu): int {
    if h.index in HdusOf(t, file) then FrameAt(t, file, h.index) else t.nextFrame
  }

  lemma FrameStoredTables(t: Tables, file: int, h: Hdu)
    requires Valid(t) && file in t.files
    ensures var u, f := FrameStored(t, file, h), Target(t, file, h);
            && Valid(u)
            && u.files == t.files
            && FramesKept(t, u)
            && OnlyFile(t, u, file)
            && IsFrame(u, f, file, h.index)
            && ViewOfFrame(u, f) == FrameShown(h)
            && (forall g :: g in u.frames && g != f ==>
                g in t.frames && u.frames[g] == t.frames[g] && CardsOf(u, g) == CardsOf(t, g))
  {
    if h.index in HdusOf(t, file) {
      FrameUpdated(t, file, h);
    } else {
      SlotFree(t, file, h);
    }
  }

  lemma FrameUpdated(t: Tables, file: int, h: Hdu)
    requires Valid(t) && h.index in HdusOf(t, file)
    ensures var u, f := FrameStored(t, file, h), FrameAt(t, file, h.index);
            && Valid(u)
            && u.files == t.files
            && FramesKept(t, u)
            && OnlyFile(t, u, file)
            && IsFrame(u, f, file, h.index)
            && ViewOfFrame(u, f) == FrameShown(h)
            && (forall g :: g in u.frames && g != f ==>
                g in t.frames && u.frames[g] == t.frames[g] && CardsOf(u, g) == CardsOf(t, g))
  {
    hide StoredCards;
    var u := FrameStored(t, file, h);
    assert u.frames.Keys == t.frames.Keys;
    assert forall g :: g in t.frames ==> SameSlot(u.frames[g], t.frames[g]);
  }

  lemma SlotFree(t: Tables, file: int, h: Hdu)
    requires Valid(t) && h.index !in HdusOf(t, file)
    ensures forall g :: g in t.frames ==> !(t.frames[g].file == file && t.frames[g].hdu == h.index)
  {
    forall g | g in t.frames
      ensures !(t.frames[g].file == file && t.frames[g].hdu == h.index)
    {
      if t.frames[g].file == file {
        assert t.frames[g].hdu in HdusOf(t, file);
      }
    }
  }

  lemma FrameStoredView(t: Tables, file: int, h: Hdu)
    requires Valid(t) && file in t.files
    ensures FramesOf(FrameStored(t, file, h), file) == FramesOf(t, file)[h.index := FrameShown(h)]
  {
    FrameStoredTables(t, file, h);
    var u, f := FrameStored(t, file, h), Target(t, file, h);
    FrameView1(u, f);
    forall k | k != h.index
      ensures k in HdusOf(u, file) <==> k in HdusOf(t, file)
      ensures k in HdusOf(t, file) ==> FramesOf(u, file)[k] == FramesOf(t, file)[k]
    {
      if k in HdusOf(t, file) {
        FrameView1(u, FrameAt(t, file, k));
      }
      if k in HdusOf(u, file) {
        FrameView1(t, FrameAt(u, file, k));
      }
    }
  }

  lemma {:induction false} FramesStoredEffect(t: Tables, file: int, hdus: seq<Hdu>)
    requires Valid(t) && file in t.files
    ensures var u := FramesStored(t, file, hdus);
            && Valid(u)
            && u.files == t.files
            && FramesKept(t, u)
            && OnlyFile(t, u, file)
            && FramesOf(u, file) == FramesShown(FramesOf(t, file), hdus)
  {
    if hdus != [] {
      FramesStoredEffect(t, file, hdus[..|hdus| - 1]);
      FrameStoredEffect(FramesStored(t, file, hdus[..|hdus| - 1]), file, hdus[|hdus| - 1]);
    }
  }

  /** The file of a path shows the new columns, Ok, and its old frames overlaid by one frame per
      image HDU; every other path shows what it showed; nothing is lost. */
  lemma StoredEffect(t: Tables, info: FileInfo, hdus: seq<Hdu>, now: Time)
    requires Valid(t)
    ensures var u := Stored(t, info, hdus, now);
            && Valid(u)
            && Kept(t, u)
            && ViewAt(u, info.root, info.place.hash)
                == Some(FileShown(ViewAt(t, info.root, info.place.hash), info, hdus))
            && (Known(t, info.root, info.place.hash) ==>
                  IdAt(u, info.root, info.place.hash) == IdAt(t, info.root, info.place.hash))
            && forall root, hash :: (root, hash) != (info.root, info.place.hash) ==>
                 ViewAt(u, root, hash) == ViewAt(t, root, hash)
  {
    FileUpsertedEffect(t, info, now);
    var v := FileUpserted(t, info, now);
    var id := IdAt(v, info.root, info.place.hash);
    FramesStoredEffect(v, id, ImageHdus(hdus));
    var u := Stored(t, info, hdus, now);
    ViewOfRow(u, id);
    if Known(t, info.root, info.place.hash) {
      SameFrames(t, v, id);
    }
    forall root, hash | (root, hash) != (info.root, info.place.hash)
      ensures ViewAt(u, root, hash) == ViewAt(t, root, hash)
    {
      StoredElsewhere(t, u, id, root, hash);
    }
  }

  lemma StoredElsewhere(t: Tables, u: Tables, id: int, root: int, hash: int)
    requires Valid(t) && Valid(u)
    requires id in u.files && !At(u.files[id], root, hash)
    requires id in t.files ==> !At(t.files[id], root, hash)
    requires forall i :: i in u.files && i != id ==> i in t.files && u.files[i] == t.files[i]
    requires forall i :: i in t.files ==> i in u.files
    requires OnlyFile(t, u, id)
    ensures ViewAt(u, root, hash) == ViewAt(t, root, hash)
  {
    assert Known(u, root, hash) ==> Known(t, root, hash) by {
      if Known(u, root, hash) {
        assert At(t.files[IdAt(u, root, hash)], root, hash);
      }
    }
    if Known(t, root, hash) {
      var i := IdAt(t, root, hash);
      assert At(u.files[i], root, hash);
      ViewOfRow(u, i);
      SameFrames(t, u, i);
    }
  }

  /** Each image HDU's cards are stored in header order, truncated to the columns. */
  lemma {:induction false} FramesShownAt(frames: map<int, FrameView>, hdus: seq<Hdu>, h: Hdu)
    requires Numbered(hdus) && h in hdus
    ensures h.index in FramesShown(frames, hdus) && FramesShown(frames, hdus)[h.index] == FrameShown(h)
  {
    var front, last := hdus[..|hdus| - 1], hdus[|hdus| - 1];
    if h != last {
      var i :| 0 <= i < |hdus| && hdus[i] == h;
      assert front[i] == h;
      FramesShownAt(frames, front, h);
    }
  }

  lemma CardsStored(t: Tables, info: FileInfo, hdus: seq<Hdu>, now: Time, h: Hdu)
    requires Valid(t) && Numbered(hdus) && h in hdus && h.isImage && h.naxis > 0
    ensures var view := ViewAt(Stored(t, info, hdus, now), info.root, info.place.hash);
            && view.Some? && h.index in view.value.frames
            && view.value.frames[h.index].cards == StoredCards(h.cards)
  {
    StoredEffect(t, info, hdus, now);
    ImageHdusNumbered(hdus);
    FramesShownAt(if ViewAt(t, info.root, info.place.hash).Some? then ViewAt(t, info.root, info.place.hash).value.frames
        else map[],
                  ImageHdus(hdus), h);
  }

  // ---- What a stored header holds ----

  /** The columns of a card: a keyword of at most 72 characters, a value and a comment of at most 256, NULL
      where the card has none. */
  ghost predicate CardHolds(c: Card, raw: RawCard) {
    && c.keyword == (if |raw.keyword| <= 72 then raw.keyword else raw.keyword[..72])
    && (raw.value == "" ==> c.value == None)
    && (0 < |raw.value| <= 256 ==> c.value == Some(raw.value))
    && (|raw.value| > 256 ==> c.value == Some(raw.value[..256]))
    && (raw.comment == "" ==> c.comment == None)
    && (0 < |raw.comment| <= 256 ==> c.comment == Some(raw.comment))
    && (|raw.comment| > 256 ==> c.comment == Some(raw.comment[..256]))
  }

  /** The frame of an image HDU holds its fingerprint, its columns and its cards, one for one. */
  ghost predicate HeaderHeld(u: Tables, info: FileInfo, h: Hdu) {
    && Known(u, info.root, info.place.hash)
    && var id := IdAt(u, info.root, info.place.hash);
       && h.index in HdusOf(u, id)
       && var f := FrameAt(u, id, h.index);
          && u.frames[f].fingerprint == h.fingerprint && u.frames[f].columns == h.columns
          && |CardsOf(u, f)| == |h.cards|
          && forall k :: 0 <= k < |h.cards| ==> CardHolds(CardsOf(u, f)[k], h.cards[k])
  }

  /** The row of the file holds what was found on disk. */
  ghost predicate RowHeld(u: Tables, info: FileInfo, now: Time) {
    && Known(u, info.root, info.place.hash)
    && var row := u.files[IdAt(u, info.root, info.place.hash)];
       && row.root == info.root && row.place == info.place && row.size == info.size && row.mtime == info.mtime
       && row.inode == info.inode && row.status == Ok && row.error == None
       && row.lastSeen == Some(now) && row.lastIndexed == Some(now)
  }

  ghost predicate HeadersHeld(u: Tables, info: FileInfo, hdus: seq<Hdu>, now: Time) {
    RowHeld(u, info, now) &&
    (Numbered(hdus) ==> forall h :: h in hdus && h.isImage && h.naxis > 0 ==> HeaderHeld(u, info, h))
  }

  /** A committed store holds the file's row and every image's header. */
  lemma HeadersStored(t: Tables, info: FileInfo, hdus: seq<Hdu>, now: Time)
    requires Valid(t)
    ensures HeadersHeld(Stored(t, info, hdus, now), info, hdus, now)
  {
    FileUpsertedEffect(t, info, now);
    var v := FileUpserted(t, info, now);
    FramesStoredEffect(v, IdAt(v, info.root, info.place.hash), ImageHdus(hdus));
    StoredEffect(t, info, hdus, now);
    hide FramesStored, ImageHdus;
    var u := Stored(t, info, hdus, now);
    ViewOfRow(u, IdAt(v, info.root, info.place.hash));
    forall h | Numbered(hdus) && h in hdus && h.isImage && h.naxis > 0
      ensures HeaderHeld(u, info, h)
    {
      HeaderStored(t, info, hdus, now, h);
    }
  }

  lemma HeaderStored(t: Tables, info: FileInfo, hdus: seq<Hdu>, now: Time, h: Hdu)
    requires Valid(t) && Numbered(hdus) && h in hdus && h.isImage && h.naxis > 0
    ensures HeaderHeld(Stored(t, info, hdus, now), info, h)
  {
    StoredEffect(t, info, hdus, now);
    ImageHdusNumbered(hdus);
    var before := ViewAt(t, info.root, info.place.hash);
    FramesShownAt(if before.Some? then before.value.frames else map[], ImageHdus(hdus), h);
    hide Stored, FramesShown, ImageHdus, Valid, Kept, ViewAt, FrameShown, HeaderHeld;
    HeldByView(Stored(t, info, hdus, now), info, h, FileShown(before, info, hdus));
  }

  lemma HeldByView(u: Tables, info: FileInfo, h: Hdu, v: FileView)
    requires ViewAt(u, info.root, info.place.hash) == Some(v) && h.index in v.frames
    requires v.frames[h.index] == FrameShown(h)
    ensures HeaderHeld(u, info, h)
  {
    CardsHold(h.cards);
    hide CardHolds, StoredCards;
    var id := IdAt(u, info.root, info.place.hash);
    assert FramesOf(u, id) == v.frames;
    assert FramesOf(u, id)[h.index] == ViewOfFrame(u, FrameAt(u, id, h.index));
  }

  lemma CardsHold(raw: seq<RawCard>)
    ensures |StoredCards(raw)| == |raw| && forall k :: 0 <= k < |raw| ==> CardHolds(StoredCards(raw)[k], raw[k])
  {
  }

  // ---- Storing twice ----

  /** A frame the tables already hold exactly as a store would leave it. */
  ghost predicate Holds(t: Tables, file: int, h: Hdu) {
    && h.index in HdusOf(t, file)
    && var f := FrameAt(t, file, h.index);
       && t.frames[f].fingerprint == h.fingerprint && t.frames[f].columns == h.columns
       && f in t.cards && t.cards[f] == StoredCards(h.cards)
  }

  lemma {:induction false} HoldsAfter(t: Tables, file: int, hdus: seq<Hdu>, h: Hdu)
    requires Valid(t) && file in t.files && Numbered(hdus) && h in hdus
    ensures Holds(FramesStored(t, file, hdus), file, h)
  {
    var front, last := hdus[..|hdus| - 1], hdus[|hdus| - 1];
    var u := FramesStored(t, file, front);
    FramesStoredEffect(t, file, front);
    FrameStoredTables(u, file, last);
    var v := FrameStored(u, file, last);
    if h == last {
      FrameView1(v, Target(u, file, last));
    } else {
      var i :| 0 <= i < |hdus| && hdus[i] == h;
      assert front[i] == h;
      HoldsAfter(t, file, front, h);
      FrameView1(v, FrameAt(u, file, h.index));
    }
  }

  lemma {:induction false} StoringHeldFrames(t: Tables, file: int, hdus: seq<Hdu>)
    requires Valid(t) && forall h :: h in hdus ==> Holds(t, file, h)
    ensures FramesStored(t, file, hdus) == t
  {
    if hdus != [] {
      var last := hdus[|hdus| - 1];
      StoringHeldFrames(t, file, hdus[..|hdus| - 1]);
      assert Holds(t, file, last);
      var f := FrameAt(t, file, last.index);
      assert t.frames[f := t.frames[f].(fingerprint := last.fingerprint, columns := last.columns)] == t.frames;
      assert t.cards[f := StoredCards(last.cards)] == t.cards;
    }
  }

  /** Storing the same file again changes nothing but the two stamps of its row. */
  lemma StoredTwice(t: Tables, info: FileInfo, hdus: seq<Hdu>, now: Time, later: Time)
    requires Valid(t) && Numbered(hdus)
    ensures var u := Stored(t, info, hdus, now);
            && Known(u, info.root, info.place.hash)
            && var id := IdAt(u, info.root, info.place.hash);
               Stored(u, info, hdus, later) ==
               u.(files := u.files[id := u.files[id].(lastSeen := Some(later), lastIndexed := Some(later))])
  {
    StoredEffect(t, info, hdus, now);
    FileUpsertedEffect(t, info, now);
    ImageHdusNumbered(hdus);
    var v := FileUpserted(t, info, now);
    var id := IdAt(v, info.root, info.place.hash);
    var u := Stored(t, info, hdus, now);
    FramesStoredEffect(v, id, ImageHdus(hdus));
    ViewOfRow(u, id);
    FileUpsertedEffect(u, info, later);
    var w := FileUpserted(u, info, later);
    forall h | h in ImageHdus(hdus)
      ensures Holds(w, id, h)
    {
      HoldsAfter(v, id, ImageHdus(hdus), h);
      FrameView1(w, FrameAt(u, id, h.index));
    }
    StoringHeldFrames(w, id, ImageHdus(hdus));
  }
}
