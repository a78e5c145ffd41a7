/** A directory is renamed: a frame file and its sidecar turn up together at a new path. */
module SidecarMove {
  import opened Options
  import opened Tables
  import opened FrameStore
  import D = Database
  import opened Sidecars
  import opened Sweep
  import opened Racing
  import opened Reconcile
  import opened Runs
  import opened Artifacts
  import SessionZone
  import Returns

  const IMAGE := Hdu(0, true, 2, [], 5, [])
  const OLD := Place("a/x.fits", 1, "x.fits", None, "fits", "other")
  const NEW := Place("b/x.fits", 2, "x.fits", None, "fits", "other")

  /** One clean file with one frame, and no artifact. */
  const BEFORE := Tables(map[1 := FileRow(1, OLD, Some(10), Some(0), Some(1), Ok, None, 0, Some(0), Some(0))],
      map[1 := FrameRow(1, 0, 5, [], None)], map[], {}, 2, 2)
  const NONE := Artifacts(map[], 1)

  const FRAME := Item(1, NEW, 10, 0, 1, Readable([IMAGE], [], ""))
  const BESIDE := Item(1, Place("b/x.txt", 3, "x.txt", None, "txt", "other"), 3, 0, 2, Sidecar(true))
  const LISTED := Artifact(1, 3, "b/x.txt", "x.txt", 3, 0, None)

  const AGAIN := Scan(1, 1, [FRAME, BESIDE], [Turn(0, 1), Turn(0, 1), Turn(1, 1)], 1, Whole)

  function Same(c: char): char {
    c
  }

  lemma Timed()
    ensures WellTimed(AGAIN) && Finishes(AGAIN.items, AGAIN.turns, 0) && Steps(AGAIN.turns, 0) == 2
  {
    var turns := AGAIN.turns;
    assert turns[..2] == [Turn(0, 1), Turn(0, 1)] && turns[..2][..1] == [Turn(0, 1)] && turns[..1][..0] == [];
    assert Steps(turns[..2][..1], 0) == 1 && Steps(turns[..2][..1], 1) == 0;
    assert Steps(turns[..2], 0) == 2 && Steps(turns[..2], 1) == 0;
    assert Steps(turns, 0) == 2 && Steps(turns, 1) == 1;
  }

  lemma ListedOnly()
    ensures InRange(AGAIN.items, AGAIN.turns) && Gathered(NONE, AGAIN) == Artifacts(map[1 := LISTED], 2)
  {
    var items, turns := AGAIN.items, AGAIN.turns;
    assert turns[..2] == [Turn(0, 1), Turn(0, 1)] && turns[..2][..1] == [Turn(0, 1)] && turns[..2][..1][..0] == [];
    assert Steps(turns[..2][..1], 1) == 0 && Steps(turns[..2], 1) == 0;
    assert RecordedAll(NONE, items, turns[..2][..1]) == NONE;
    assert RecordedAll(NONE, items, turns[..2]) == NONE;
    assert IdsAt(NONE, 1, 3) == {};
  }

  lemma Stem()
    ensures DirOf(LISTED.path) + StemOf(LISTED.filename) + "." == "b/x."
  {
    SharedStemFound(Same, "b/", "x", "txt", "fits");
    assert "b/" + "x" + "." + "txt" == "b/x.txt" && "x" + "." + "txt" == "x.txt";
    hide DirOf, StemOf, Likes, LikeLiteral;
  }

  lemma StemsShared()
    ensures Shares(Same, LISTED, NEW) && !Shares(Same, LISTED, OLD)
  {
    Stem();
    hide DirOf, StemOf;
    var front := "b/x.";
    assert NEW.relPath[0] == 'b' && OLD.relPath[0] == 'a' && front[0] == 'b';
  }

  lemma BeforeIsSound()
    ensures Sound(NONE, BEFORE) && SeenBefore(BEFORE, AGAIN.start)
  {
  }

  lemma SameContent()
    ensures Stores(FRAME) && KeyOf(BEFORE, 1) == ContentOf(FRAME) != []
  {
    BeforeIsSound();
    SessionZone.OneImageKey(IMAGE);
    SessionZone.OneImageShown(IMAGE);
    Returns.OneFramesOf(BEFORE, 1, 1, 0);
    assert StoredCards(IMAGE.cards) == [] && CardsOf(BEFORE, 1) == [];
    assert ViewOfFrame(BEFORE, 1) == FrameShown(IMAGE);
    assert D.Succeeds([], [IMAGE], 0);
    hide FramesShown, ImageHdus, FrameShown, ContentKey, FramesOf, ViewOfFrame, Valid, D.Succeeds;
  }

  lemma OnlyNewActedOn(root: int, hash: int)
    ensures ActedOn(AGAIN, root, hash) <==> root == 1 && hash == 2
  {
    Timed();
    assert AGAIN.items[0] == FRAME && AGAIN.items[1] == BESIDE;
    assert Acts(AGAIN, 0) && KeyedBy(AGAIN.items[0], 1, 2);
    hide Finishes;
  }

  /** The workers leave the old row as it was, and a row at the new path. */
  lemma TwoRows(zone: int, id: int)
    requires InRange(AGAIN.items, AGAIN.turns) && id in Raced(BEFORE, AGAIN, zone).files
    ensures var row := Raced(BEFORE, AGAIN, zone).files[id];
            At(row, 1, 2) || (row.place == OLD && row.lastSeen == Some(0))
  {
    Timed();
    BeforeIsSound();
    var row := Raced(BEFORE, AGAIN, zone).files[id];
    OnlyNewActedOn(row.root, row.place.hash);
    RacedRow(BEFORE, AGAIN, zone, id);
  }

  lemma NewRowTouched(zone: int)
    ensures WellTimed(AGAIN) && Passes(BEFORE, AGAIN, zone)
  {
    Timed();
    BeforeIsSound();
    OnlyNewActedOn(1, 2);
    TouchedIsActed(BEFORE, AGAIN, zone);
    var u := Raced(BEFORE, AGAIN, zone);
    assert Acts(AGAIN, 0) && AGAIN.items[0].place.hash == 2;
    assert 2 in ActedPaths(AGAIN);
    var id :| id in u.files && TouchedRow(u.files[id], 1, 1) && u.files[id].place.hash == 2;
    assert id in TouchedIds(u, 1, 1);
    assert OkIds(BEFORE, 1) == {1};
    hide Raced, Finishes;
  }

  lemma MovesSo(zone: int)
    ensures MovesCleanly(BEFORE, AGAIN, zone, 1, 0)
  {
    SameContent();
    NewRowTouched(zone);
    OnlyNewActedOn(1, 1);
    assert AGAIN.items[0] == FRAME && AGAIN.items[1] == BESIDE;
    assert !Stores(BESIDE) && ContentOf(BESIDE) == [];
    hide KeyOf, ContentOf, Raced, Passes, Stores, ActedOn, WellTimed;
  }

  /** The scan that finds both links the sidecar and unlinks it again: after it the frame stands beside the
      sidecar, which has no link. */
  lemma SidecarLeft(zone: int)
    ensures WellTimed(AGAIN) && Sound(NONE, BEFORE)
    ensures var after := ShelfAfter(NONE, BEFORE, AGAIN, zone, Same, Unlinked(Gathered(NONE, AGAIN), 1));
            && 1 in after.rows && after.rows[1] == LISTED && LISTED.frame == None
            && exists f :: f in BEFORE.frames && Beside(Scanned(BEFORE, AGAIN, zone), Same, LISTED, f)
  {
    Timed();
    BeforeIsSound();
    ListedOnly();
    StemsShared();
    MovesSo(zone);
    var u := Raced(BEFORE, AGAIN, zone);
    var done := Unlinked(Gathered(NONE, AGAIN), 1);
    assert 1 in done;
    forall f | Beside(u, Same, LISTED, f)
      ensures At(u.files[u.frames[f].file], 1, 2)
    {
      TwoRows(zone, u.frames[f].file);
    }
    hide Raced, Scanned, MovesCleanly, Valid, Shares, Gathered, ShelfAfter, SeenBefore;
    LinkAfter(NONE, BEFORE, AGAIN, zone, Same, done, 1);
    MovedUnlinked(NONE, BEFORE, AGAIN, zone, Same, done, 1, 1, 0);
  }
}
