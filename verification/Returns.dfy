/** A missing file that turns up at a new path: it is indexed again, and its old row stays behind. */
module Returns {
  import opened Options
  import opened Tables
  import opened FrameStore
  import opened Database
  import opened Sweep
  import opened Racing
  import opened Reconcile
  import opened Runs
  import opened SessionZone

  /** The tables hold one missing row, with one frame, tagged; the item holds the same content, at
      another path of the root. */
  ghost predicate Left(t: Tables, item: Item, h: Hdu, v: int, f: int) {
    && Valid(t) && t.files.Keys == {v} && t.files[v].status == Missing && t.files[v].root == item.root
    && t.files[v].firstSeen < 1 && (t.files[v].lastSeen.Some? ==> t.files[v].lastSeen.value < 1)
    && t.frames.Keys == {f} && t.frames[f].file == v && t.frames[f].hdu == h.index && ViewOfFrame(t, f) == FrameShown(h)
    && (exists tag: int :: (f, tag) in t.tags)
    && h.isImage && h.naxis > 0 && item.found == Readable([h], [], "") && item.place.hash != t.files[v].place.hash
  }

  lemma OneFrame(t: Tables, item: Item, h: Hdu, v: int, f: int)
    requires Left(t, item, h, v, f)
    ensures Stores(item) && ContentOf(item) != [] && KeyOf(t, v) == ContentOf(item)
  {
    OneImageKey(h);
    OneImageShown(h);
    OneFramesOf(t, v, f, h.index);
    assert Succeeds([], [h], 0);
    hide FramesShown, ImageHdus, FrameShown, ContentKey, FramesOf, ViewOfFrame, Valid, Succeeds;
  }

  lemma OneFramesOf(t: Tables, v: int, f: int, hdu: int)
    requires Valid(t) && t.frames.Keys == {f} && t.frames[f].file == v && t.frames[f].hdu == hdu
    ensures FramesOf(t, v) == map[hdu := ViewOfFrame(t, f)]
  {
    FrameView1(t, f);
    assert HdusOf(t, v) == {hdu};
    hide ViewOfFrame;
  }

  /** A scan that finds the file at its new path gives it a new row, with the same content, and leaves
      the old one missing, with its frame and its tags. */
  lemma LeftBehind(t: Tables, item: Item, h: Hdu, v: int, f: int, zone: int)
    requires Left(t, item, h, v, f)
    ensures WellTimed(OneItem(item, 1)) && SeenBefore(t, 1)
    ensures KeyOf(t, v) == ContentOf(item) != []
    ensures var w := Scanned(t, OneItem(item, 1), zone);
            && v in w.files && w.files[v].status == Missing && f in w.frames && w.frames[f].file == v
            && (forall tag: int :: (f, tag) in t.tags ==> (f, tag) in w.tags)
            && Known(w, item.root, item.place.hash)
            && var a := IdAt(w, item.root, item.place.hash); a != v && a !in t.files && w.files[a].status == Ok
  {
    var s := OneItem(item, 1);
    OneFrame(t, item, h, v, f);
    OneItemTimed(item, 1);
    assert !ActedOn(s, s.root, t.files[v].place.hash);
    assert NewAt(t, s, 0);
    hide KeyOf, ContentOf, Scanned, Valid, ViewOfFrame, FrameShown;
    MissingNotFollowed(t, s, zone, v, 0);
    ElderStays(t, s, zone, v);
  }

  /** There are such tables and such an item. */
  lemma SomethingLeft() returns (t: Tables, item: Item, h: Hdu, v: int, f: int)
    ensures Left(t, item, h, v, f)
  {
    v, f := 1, 1;
    h := Hdu(0, true, 2, [], 5, []);
    var row := FileRow(1, Place("a.fits", 1, "a.fits", None, "fits", "other"), Some(10), Some(0), Some(1), Missing,
        None, 0, Some(0), Some(0));
    t := Tables(map[v := row], map[f := FrameRow(v, 0, 5, [], None)], map[], {(f, 7)}, 2, 2);
    item := Item(1, Place("b.fits", 2, "b.fits", None, "fits", "other"), 10, 0, 1, Readable([h], [], ""));
    assert StoredCards(h.cards) == [] && CardsOf(t, f) == [];
    assert (f, 7) in t.tags;
  }
}
