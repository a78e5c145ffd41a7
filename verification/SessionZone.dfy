/** What the time zone of the database session does to a run of scans: first_seen_utc of an error row is
    local time, and with a session east of UTC a frame can be lost. */
module SessionZone {
  import opened Options
  import opened Tables
  import opened FrameStore
  import opened Database
  import opened Sweep
  import opened Racing
  import opened Reconcile
  import opened Runs

  /** A run of scans whose server clock only moves forward, from tables it has not overtaken. */
  ghost predicate RunFrom(t: Tables, scans: seq<Scan>, from: Time) {
    Valid(t) && Before(t, from + 1) && Clocked(scans, from)
  }

  /** From scan k on the run loses no frame that was there. */
  ghost predicate KeptFrom(t: Tables, scans: seq<Scan>, k: nat, zone: int) {
    && k <= |scans|
    && (forall n :: 0 <= n < |scans| ==> InRange(scans[n].items, scans[n].turns))
    && FramesKept(After(t, scans[..k], zone), After(t, scans, zone))
  }

  /** No run ever loses a frame. */
  ghost predicate Lossless(zone: int) {
    forall t, scans, from, k: nat :: RunFrom(t, scans, from) && k <= |scans| ==> KeptFrom(t, scans, k, zone)
  }

  lemma {:induction false} WestKeeps(t: Tables, scans: seq<Scan>, from: Time, k: nat, n: nat, zone: int)
    requires RunFrom(t, scans, from) && k <= n <= |scans| && zone <= 0
    ensures FramesKept(After(t, scans[..k], zone), After(t, scans[..n], zone))
    decreases n
  {
    hide Scanned, After, Valid, Before, FramesKept, DistinctPaths, Stamped;
    if k < n {
      WestKeeps(t, scans, from, k, n - 1, zone);
      AfterNext(t, scans, n - 1, zone);
      ReadyFor(t, scans, from, n - 1, zone);
      StillKept(After(t, scans[..k], zone), After(t, scans[..n - 1], zone), scans[n - 1], zone);
    } else {
      KeptByNothing(After(t, scans[..k], zone));
    }
  }

  lemma KeptByNothing(t: Tables)
    ensures FramesKept(t, t)
  {
  }

  lemma ReadyFor(t: Tables, scans: seq<Scan>, from: Time, n: nat, zone: int)
    requires RunFrom(t, scans, from) && n < |scans| && zone <= 0
    ensures WellTimed(scans[n]) && Valid(After(t, scans[..n], zone))
        && Before(After(t, scans[..n], zone), scans[n].start)
  {
    hide Scanned, After, Valid, SeenBefore;
    LaterStarts(scans, from, n);
    AfterStamps(t, scans[..n], zone, from);
    StillBefore(After(t, scans[..n], zone), Until(scans[..n], from) + 1, scans[n].start);
  }

  lemma AfterNext(t: Tables, scans: seq<Scan>, n: nat, zone: int)
    requires n < |scans| && forall i :: 0 <= i < |scans| ==> InRange(scans[i].items, scans[i].turns)
    ensures After(t, scans[..n + 1], zone) == Scanned(After(t, scans[..n], zone), scans[n], zone)
  {
    assert scans[..n + 1][..n] == scans[..n];
  }

  lemma StillBefore(t: Tables, a: Time, b: Time)
    requires Before(t, a) && a <= b
    ensures Before(t, b)
  {
  }

  lemma StillKept(t: Tables, u: Tables, s: Scan, zone: int)
    requires Valid(u) && Before(u, s.start) && WellTimed(s) && FramesKept(t, u)
    ensures FramesKept(t, Scanned(u, s, zone))
  {
    hide Scanned, Valid, Before, WellTimed;
    ScanKeepsFrames(u, s, zone);
  }

  lemma NothingVanished(u: Tables, root: int, start: Time, prior: int, now: Time)
    requires Valid(u) && Vanished(u, root, start) == {}
    ensures Guarded(u, root, start, prior, now) == u
  {
    ReconcilingNothing(u, PlanOf(u, root, start), now);
  }

  /** The two rows such a scan leaves before the pass. */
  lemma LoneRowMoves(u: Tables, root: int, start: Time, v: int, o: int)
    requires u.files.Keys == {v, o} && v != o
    requires VanishedRow(u.files[v], root, start) && AppearedRow(u.files[v], root, start)
        && !VanishedRow(u.files[o], root, start)
    requires KeyOf(u, v) != [] && KeyOf(u, o) == []
    ensures Moves(PlanOf(u, root, start), v, v)
  {
    PlannedKey(u, root, start, v);
    PlannedKey(u, root, start, o);
    hide KeyOf;
  }

  lemma OneTouchIsEnough(t: Tables, u: Tables, root: int, start: Time, v: int, o: int)
    requires t.files.Keys == {v} && o in u.files && TouchedRow(u.files[o], root, start)
    ensures !GuardTrips(|TouchedIds(u, root, start)|, |OkIds(t, root)|)
  {
    SubsetCount(OkIds(t, root), {v});
    SubsetCount({o}, TouchedIds(u, root, start));
  }

  /** A row that is alone in the tables, gone from its path, and first seen at or after the start of
      the scan matches itself, and is deleted with its frames. */
  lemma LoneRowLost(t: Tables, s: Scan, zone: int, v: int, f: int)
    requires Valid(t) && WellTimed(s) && s.ending.Whole? && t.files.Keys == {v} && t.files[v].root == s.root
        && t.files[v].status != Missing
    requires t.files[v].lastSeen.Some? && t.files[v].lastSeen.value < s.start <= t.files[v].firstSeen
    requires KeyOf(t, v) != [] && f in t.frames && t.frames[f].file == v
    requires |s.items| == 1 && s.items[0].found.Unreadable? && KeyedBy(s.items[0], s.root, s.items[0].place.hash)
    requires s.items[0].place.hash != t.files[v].place.hash
    ensures f !in Scanned(t, s, zone).frames
  {
    var u, hash := Raced(t, s, zone), s.items[0].place.hash;
    var o := StrayRow(t, s, zone, v);
    VanishedWasHere(t, s, zone, v);
    LoneRowMoves(u, s.root, s.start, v, o);
    OneTouchIsEnough(t, u, s.root, s.start, v, o);
    hide Raced, KeyOf, Moves, Valid;
    FrameLost(t, s, zone, f);
  }

  /** A scan that ends with the pass has finished its one item. */
  lemma OnlyItem(s: Scan)
    requires WellTimed(s) && s.ending.Whole? && |s.items| == 1
    ensures Finishes(s.items, s.turns, 0)
  {
    hide Finishes;
  }

  /** The row of the unreadable file such a scan meets. */
  lemma StrayRow(t: Tables, s: Scan, zone: int, v: int) returns (o: int)
    requires Valid(t) && WellTimed(s) && s.ending.Whole? && t.files.Keys == {v}
    requires |s.items| == 1 && s.items[0].found.Unreadable? && KeyedBy(s.items[0], s.root, s.items[0].place.hash)
    requires !At(t.files[v], s.root, s.items[0].place.hash)
    ensures var u := Raced(t, s, zone);
            u.files.Keys == {v, o} && o != v && TouchedRow(u.files[o], s.root, s.start) && KeyOf(u, o) == []
  {
    var u, hash := Raced(t, s, zone), s.items[0].place.hash;
    RacedEffect(t, s, zone);
    assert Acts(s, 0) by { OnlyItem(s); }
    assert ActedOn(s, s.root, hash);
    RacedPath(t, s, zone, s.root, hash);
    o := IdAt(u, s.root, hash);
    NewlyShown(t, s, zone, 0);
    ViewOfRow(u, o);
    ShownContent(s.items[0]);
    forall id | id in u.files
      ensures id == v || id == o
    {
      RacedRow(t, s, zone, id);
    }
    assert v in u.files;
  }

  lemma VanishedWasHere(t: Tables, s: Scan, zone: int, v: int)
    requires Valid(t) && WellTimed(s) && v in t.files
    requires |s.items| == 1 && s.items[0].root == s.root && !At(t.files[v], s.root, s.items[0].place.hash)
    ensures var u := Raced(t, s, zone);
            v in u.files && u.files[v] == t.files[v] && KeyOf(u, v) == KeyOf(t, v)
  {
    var u := Raced(t, s, zone);
    RacedEffect(t, s, zone);
    assert v in u.files;
    RacedRow(t, s, zone, v);
    AbsentKey(t, s, zone, v);
  }

  // ---- A run that loses a frame ----

  /** Empty tables, a file that cannot be read, the same file repaired, and another one that cannot be
      read. */
  datatype Story = Story(empty: Tables, broken: Item, repaired: Item, stray: Item)

  ghost predicate Told(y: Story) {
    && Valid(y.empty) && y.empty.files == map[]
    && y.broken.found.Unreadable? && Stores(y.repaired) && ContentOf(y.repaired) != [] && y.stray.found.Unreadable?
    && KeyedBy(y.repaired, y.broken.root, y.broken.place.hash)
    && y.stray.root == y.broken.root && y.stray.place.hash != y.broken.place.hash
  }

  /** A scan of one item, at one instant. */
  function OneItem(item: Item, at: Time): Scan {
    Scan(item.root, at, [item], [Turn(0, at), Turn(0, at)], at, Whole)
  }

  lemma OneItemTimed(item: Item, at: Time)
    ensures WellTimed(OneItem(item, at)) && Finishes([item], OneItem(item, at).turns, 0)
  {
    var turns := OneItem(item, at).turns;
    assert turns[..1] == [Turn(0, at)] && turns[..1][..0] == [];
    assert Steps(turns[..1], 0) == 1;
  }

  /** One error row, first seen in the session's local time. */
  ghost predicate Recorded(u: Tables, y: Story, v: int, zone: int) {
    && Valid(u) && SeenBefore(u, 2) && u.files.Keys == {v} && At(u.files[v], y.broken.root, y.broken.place.hash)
    && u.files[v].firstSeen == LocalTime(1, zone) && u.files[v].status == Error && FramesOf(u, v) == map[]
  }

  /** The row an unreadable file gets. */
  lemma BrokenScanned(y: Story, zone: int) returns (v: int)
    requires Told(y)
    ensures Recorded(Scanned(y.empty, OneItem(y.broken, 1), zone), y, v, zone)
  {
    var t, s := y.empty, OneItem(y.broken, 1);
    OneItemTimed(y.broken, 1);
    var u, root, hash := Raced(t, s, zone), y.broken.root, y.broken.place.hash;
    assert KeyedBy(s.items[0], root, hash);
    assert Acts(s, 0) by { OnlyItem(s); }
    assert ActedOn(s, root, hash) && !StoredAt(s, root, hash);
    RacedReady(t, s, zone);
    RacedPath(t, s, zone, root, hash);
    v := IdAt(u, root, hash);
    NewlyShown(t, s, zone, 0);
    ViewOfRow(u, v);
    OneActedRow(t, s, zone, v);
    NothingVanished(u, root, 1, |OkIds(t, root)|, 1);
  }

  /** Every row of such a scan is the one it acted on. */
  lemma OneActedRow(t: Tables, s: Scan, zone: int, v: int)
    requires Valid(t) && WellTimed(s) && s.ending.Whole? && |s.items| == 1 && s.items[0].root == s.root
        && t.files.Keys <= {v}
    requires v in t.files ==> At(t.files[v], s.root, s.items[0].place.hash)
    requires var u := Raced(t, s, zone); v in u.files && At(u.files[v], s.root, s.items[0].place.hash)
    requires IsFrameFile(s.items[0])
    ensures var u := Raced(t, s, zone); u.files.Keys == {v} && Vanished(u, s.root, s.start) == {}
  {
    var u := Raced(t, s, zone);
    RacedEffect(t, s, zone);
    assert KeyedBy(s.items[0], s.root, s.items[0].place.hash);
    assert Acts(s, 0) by { OnlyItem(s); }
    assert ActedOn(s, s.root, s.items[0].place.hash);
    forall id | id in u.files
      ensures id == v && !VanishedRow(u.files[id], s.root, s.start)
    {
      RacedRow(t, s, zone, id);
    }
  }

  /** One row, indexed, first seen in the future, with a frame. */
  ghost predicate Poised(u: Tables, y: Story, v: int, f: int) {
    && Valid(u) && SeenBefore(u, 3) && u.files.Keys == {v} && At(u.files[v], y.broken.root, y.broken.place.hash)
    && u.files[v].firstSeen >= 3 && u.files[v].status == Ok && u.files[v].lastSeen.Some?
    && KeyOf(u, v) != [] && f in u.frames && u.frames[f].file == v
  }

  /** The row of the file once it is repaired. */
  lemma RepairedScanned(y: Story, t: Tables, zone: int, v: int) returns (f: int)
    requires Told(y) && Recorded(t, y, v, zone) && zone > 0
    ensures Poised(Scanned(t, OneItem(y.repaired, 2), zone), y, v, f)
  {
    var s := OneItem(y.repaired, 2);
    OneItemTimed(y.repaired, 2);
    var u, root, hash := Raced(t, s, zone), y.broken.root, y.broken.place.hash;
    RacedReady(t, s, zone);
    assert v in u.files;
    assert KeyedBy(s.items[0], root, hash);
    assert Acts(s, 0) by { OnlyItem(s); }
    assert ActedOn(s, root, hash);
    RacedRow(t, s, zone, v);
    OneActedRow(t, s, zone, v);
    NothingVanished(u, root, 2, |OkIds(t, root)|, 2);
    ScannedStamps(t, s, zone, 3);
    RepairedShown(y, t, zone, v);
    f := SomeFrame(u, v);
    hide Raced, Handled, Valid, SeenBefore, KeyOf;
  }

  lemma RepairedShown(y: Story, t: Tables, zone: int, v: int)
    requires Told(y) && Recorded(t, y, v, zone)
    ensures var u := Raced(t, OneItem(y.repaired, 2), zone);
            v in u.files && u.files[v].status == Ok && KeyOf(u, v) == ContentOf(y.repaired)
  {
    var s := OneItem(y.repaired, 2);
    OneItemTimed(y.repaired, 2);
    var u := Raced(t, s, zone);
    RacedEffect(t, s, zone);
    ViewOfRow(t, v);
    assert v in u.files;
    ViewOfRow(u, v);
  }

  /** A scan that takes the tables t with the frame f, and these tags, and loses it. */
  ghost predicate Loses(t: Tables, s: Scan, zone: int, f: int, tags: set<(int, int)>) {
    var u := t.(tags := tags);
    && InRange(s.items, s.turns) && Valid(u) && f in u.frames
    && f !in Scanned(u, s, zone).frames && forall q :: q in Scanned(u, s, zone).tags ==> q.0 != f
  }

  /** Whatever tags are given before it, the scan loses the frame. */
  ghost predicate AlwaysLoses(t: Tables, s: Scan, zone: int, f: int) {
    f in t.frames && forall tags: set<(int, int)> :: (forall q :: q in tags ==> q.0 in t.frames) ==>
        Loses(t, s, zone, f, tags)
  }

  lemma StrayLoses(y: Story, u: Tables, zone: int, v: int, f: int)
    requires Told(y) && Poised(u, y, v, f)
    ensures AlwaysLoses(u, OneItem(y.stray, 3), zone, f)
  {
    forall tags: set<(int, int)> | forall q :: q in tags ==> q.0 in u.frames
      ensures Loses(u, OneItem(y.stray, 3), zone, f, tags)
    {
      TaggedLost(y, u, zone, v, f, tags);
    }
  }

  lemma TaggedLost(y: Story, u: Tables, zone: int, v: int, f: int, tags: set<(int, int)>)
    requires Told(y) && Poised(u, y, v, f)
    requires forall q :: q in tags ==> q.0 in u.frames
    ensures Loses(u, OneItem(y.stray, 3), zone, f, tags)
  {
    var t, s := u.(tags := tags), OneItem(y.stray, 3);
    OneItemTimed(y.stray, 3);
    assert Valid(t);
    SameFrames(u, t, v);
    assert KeyOf(t, v) == KeyOf(u, v);
    assert KeyedBy(s.items[0], s.root, s.items[0].place.hash);
    hide KeyOf, FramesOf, WellTimed, Scanned;
    LoneRowLost(t, s, zone, v, f);
    ScannedValid(t, s, zone);
  }

  function FirstTwo(y: Story): seq<Scan> {
    [OneItem(y.broken, 1), OneItem(y.repaired, 2)]
  }

  function AllThree(y: Story): seq<Scan> {
    FirstTwo(y) + [OneItem(y.stray, 3)]
  }

  lemma StoryRuns(y: Story)
    requires Told(y)
    ensures RunFrom(y.empty, FirstTwo(y), 0) && RunFrom(y.empty, AllThree(y), 0)
  {
    OneItemTimed(y.broken, 1);
    OneItemTimed(y.repaired, 2);
    OneItemTimed(y.stray, 3);
  }

  lemma TwoScans(t: Tables, a: Scan, b: Scan, zone: int)
    requires InRange(a.items, a.turns) && InRange(b.items, b.turns)
    ensures After(t, [a, b], zone) == Scanned(Scanned(t, a, zone), b, zone)
  {
    hide Scanned;
    assert [a, b][..1] == [a] && [a][..0] == [];
    assert After(t, [], zone) == t;
    assert After(t, [a], zone) == Scanned(t, a, zone);
  }

  lemma FirstTwoPoise(y: Story, zone: int) returns (v: int, f: int)
    requires Told(y) && zone > 0 && RunFrom(y.empty, FirstTwo(y), 0)
    ensures Poised(After(y.empty, FirstTwo(y), zone), y, v, f)
  {
    TwoScans(y.empty, OneItem(y.broken, 1), OneItem(y.repaired, 2), zone);
    assert FirstTwo(y) == [OneItem(y.broken, 1), OneItem(y.repaired, 2)];
    OneItemTimed(y.broken, 1);
    OneItemTimed(y.repaired, 2);
    hide Scanned, After, Told, Poised, Recorded, RunFrom;
    v := BrokenScanned(y, zone);
    f := RepairedScanned(y, Scanned(y.empty, OneItem(y.broken, 1), zone), zone, v);
  }

  /** With a session east of UTC, by however little, scans can lose a frame, and whatever tags it was
      given before the last one: a file that cannot be read, is repaired, and is gone again while the
      stamp of its first row still lies in the future. */
  lemma EastOfUtcLosesRow(y: Story, zone: int) returns (f: int)
    requires Told(y) && zone > 0
    ensures RunFrom(y.empty, FirstTwo(y), 0) && RunFrom(y.empty, AllThree(y), 0)
    ensures AlwaysLoses(After(y.empty, FirstTwo(y), zone), OneItem(y.stray, 3), zone, f)
  {
    StoryRuns(y);
    hide *;
    var v;
    v, f := FirstTwoPoise(y, zone);
    StrayLoses(y, After(y.empty, FirstTwo(y), zone), zone, v, f);
  }

  /** There is such a story. */
  lemma SomeStory() returns (y: Story)
    ensures Told(y)
  {
    var h := Hdu(0, true, 2, [], 5, []);
    var broken := Item(1, Place("a.fits", 1, "a.fits", None, "fits", "other"), 10, 0, 1, Unreadable("truncated"));
    var stray := Item(1, Place("b.fits", 2, "b.fits", None, "fits", "other"), 10, 0, 2, Unreadable("truncated"));
    var repaired := broken.(found := Readable([h], [], ""));
    y := Story(Tables(map[], map[], map[], {}, 1, 1), broken, repaired, stray);
    OneImageKey(h);
    EmptyValid(y.empty);
    assert Succeeds(repaired.found.faults, repaired.found.hdus, 0);
    hide ContentKey, FramesShown, ImageHdus, Valid;
  }

  lemma EmptyValid(t: Tables)
    requires t.files == map[] && t.frames == map[] && t.cards == map[] && t.tags == {}
    ensures Valid(t)
  {
  }

  lemma OneImageShown(h: Hdu)
    requires h.isImage && h.naxis > 0
    ensures FramesShown(map[], ImageHdus([h])) == map[h.index := FrameShown(h)]
  {
    assert [h][..0] == [] && ImageHdus([]) == [] && ImageHdus([h]) == [h];
    assert FramesShown(map[], []) == map[];
  }

  lemma OneImageKey(h: Hdu)
    requires h.isImage && h.naxis > 0
    ensures ContentKey(FramesShown(map[], ImageHdus([h]))) != []
  {
    OneImageShown(h);
    hide FramesShown, ImageHdus, FrameShown;
    var frames := FramesShown(map[], ImageHdus([h]));
    SortedElements(frames.Keys);
    assert h.index in frames.Keys;
    assert h.index in Sorted(frames.Keys);
    assert |ContentKey(frames)| == |Sorted(frames.Keys)|;
  }

  /** Scans lose nothing, whatever they meet, exactly when the session is not east of UTC. */
  lemma LosslessWestOfUtc(zone: int)
    ensures Lossless(zone) <==> zone <= 0
  {
    if zone <= 0 {
      forall t, scans, from, k: nat | RunFrom(t, scans, from) && k <= |scans|
        ensures KeptFrom(t, scans, k, zone)
      {
        WestKeeps(t, scans, from, k, |scans|, zone);
        assert scans[..|scans|] == scans;
      }
    } else {
      var y := SomeStory();
      var f := EastOfUtcLosesRow(y, zone);
      StoryLoses(y, zone, f);
    }
  }

  lemma StoryLoses(y: Story, zone: int, f: int)
    requires RunFrom(y.empty, FirstTwo(y), 0) && RunFrom(y.empty, AllThree(y), 0)
    requires AlwaysLoses(After(y.empty, FirstTwo(y), zone), OneItem(y.stray, 3), zone, f)
    ensures !Lossless(zone)
  {
    var all, u := AllThree(y), After(y.empty, FirstTwo(y), zone);
    AfterValid(y.empty, FirstTwo(y), zone, 0);
    assert Loses(u, OneItem(y.stray, 3), zone, f, u.tags) && u.(tags := u.tags) == u;
    assert all[..2] == FirstTwo(y) && all[..|all| - 1] == FirstTwo(y) && all[|all| - 1] == OneItem(y.stray, 3);
    hide Scanned, Valid, RunFrom, Loses, AlwaysLoses;
    assert !KeptFrom(y.empty, all, 2, zone);
  }
}
