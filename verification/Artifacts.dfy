/** The artifacts table: the workers record sidecars, and after the sweep each is linked to the frame
    beside it. Reconciliation deletes frames, and with a frame the links to it go. */
module Artifacts {
  import opened Options
  import opened Tables
  import Q = SqlText
  import opened Sidecars
  import D = Database
  import opened Sweep
  import opened Racing
  import opened Reconcile
  import opened Runs

  /** The columns of artifacts; hash is rel_path_hash. */
  datatype Artifact = Artifact(root: int, hash: int, path: string, filename: string, size: int, mtime: Time,
      frame: Option<int>)

  datatype Artifacts = Artifacts(rows: map<int, Artifact>, next: int)

  predicate Lies(a: Artifact, root: int, hash: int) {
    a.root == root && a.hash == hash
  }

  /** uk_artifacts_path and the auto-increment counter. */
  ghost predicate Shelved(a: Artifacts) {
    && (forall i, j :: i in a.rows && j in a.rows && Lies(a.rows[i], a.rows[j].root, a.rows[j].hash) ==> i == j)
    && forall i :: i in a.rows ==> i < a.next
  }

  /** fk_artifacts_frame. */
  ghost predicate LinksLead(a: Artifacts, frames: set<int>) {
    forall i :: i in a.rows && a.rows[i].frame.Some? ==> a.rows[i].frame.value in frames
  }

  // ---- Recording ----

  function IdsAt(a: Artifacts, root: int, hash: int): set<int> {
    set i | i in a.rows && Lies(a.rows[i], root, hash)
  }

  /** INSERT ... ON DUPLICATE KEY UPDATE on artifacts, which leaves a link alone. */
  function Recorded(a: Artifacts, item: Item): Artifacts {
    var ids := IdsAt(a, item.root, item.place.hash);
    if ids == {} then
      Artifacts(a.rows[a.next := Artifact(item.root, item.place.hash, item.place.relPath, item.place.filename,
          item.size, item.mtime, None)], a.next + 1)
    else
      var i := Least(ids);
      a.(rows := a.rows[i := a.rows[i].(size := item.size, mtime := item.mtime)])
  }

  predicate Records(items: seq<Item>, turns: seq<Turn>, i: nat)
    requires i < |items|
  {
    items[i].found == Sidecar(true) && Steps(turns, i) == 0
  }

  /** What the workers leave: a sidecar is recorded in its first turn. */
  function RecordedAll(a: Artifacts, items: seq<Item>, turns: seq<Turn>): Artifacts
    requires InRange(items, turns)
  {
    if turns == [] then a
    else
      var front, i := turns[..|turns| - 1], turns[|turns| - 1].i;
      var b := RecordedAll(a, items, front);
      if Records(items, front, i) then Recorded(b, items[i]) else b
  }

  /** No row goes, and no row changes its path or its link; new rows have no link. */
  ghost predicate Grows(a: Artifacts, b: Artifacts) {
    && a.next <= b.next
    && (forall i :: i in a.rows ==>
          i in b.rows && b.rows[i] == a.rows[i].(size := b.rows[i].size, mtime := b.rows[i].mtime))
    && forall i :: i in b.rows && i !in a.rows ==> b.rows[i].frame.None?
  }

  /** The path has a row with this size and mtime. */
  ghost predicate Holds(a: Artifacts, item: Item) {
    exists i :: i in a.rows && Lies(a.rows[i], item.root, item.place.hash) && a.rows[i].size == item.size
                && a.rows[i].mtime == item.mtime
  }

  lemma RecordedGrows(a: Artifacts, item: Item)
    requires Shelved(a)
    ensures Shelved(Recorded(a, item)) && Grows(a, Recorded(a, item)) && Holds(Recorded(a, item), item)
    ensures forall i :: i in Recorded(a, item).rows && !Lies(Recorded(a, item).rows[i], item.root, item.place.hash) ==>
              i in a.rows && Recorded(a, item).rows[i] == a.rows[i]
    ensures forall i :: i in a.rows && !Lies(a.rows[i], item.root, item.place.hash) ==>
              Recorded(a, item).rows[i] == a.rows[i]
  {
    var b, ids := Recorded(a, item), IdsAt(a, item.root, item.place.hash);
    if ids == {} {
      assert forall i :: i in a.rows ==> i !in ids;
      assert Lies(b.rows[a.next], item.root, item.place.hash);
    } else {
      var i := Least(ids);
      assert Lies(b.rows[i], item.root, item.place.hash);
    }
  }

  /** Whatever the order, the workers leave a row for every sidecar they recorded, with what they saw of
      it, and every row that was there, with its link. */
  lemma {:induction false} RecordedAllGrows(a: Artifacts, items: seq<Item>, turns: seq<Turn>)
    requires Shelved(a) && InRange(items, turns) && DistinctPaths(items)
    ensures var b := RecordedAll(a, items, turns);
            && Shelved(b) && Grows(a, b)
            && (forall i :: 0 <= i < |items| && items[i].found == Sidecar(true) && Steps(turns, i) > 0 ==>
                  Holds(b, items[i]))
  {
    if turns != [] {
      var n := |turns| - 1;
      var front, last := turns[..n], turns[n].i;
      assert turns == front + [turns[n]];
      RecordedAllGrows(a, items, front);
      var c := RecordedAll(a, items, front);
      RecordedGrows(c, items[last]);
      var b := RecordedAll(a, items, turns);
      forall i | 0 <= i < |items| && items[i].found == Sidecar(true) && Steps(turns, i) > 0
        ensures Holds(b, items[i])
      {
        StepsMore(front, turns[n], i);
        if i != last {
          StaysHeld(c, items[last], items[i], items, i, last);
        }
      }
    }
  }

  ghost predicate RecordedAt(items: seq<Item>, turns: seq<Turn>, root: int, hash: int) {
    exists i :: 0 <= i < |items| && items[i].found == Sidecar(true) && Steps(turns, i) > 0
        && KeyedBy(items[i], root, hash)
  }

  /** And nothing else: any other row is one that was there, unchanged. */
  lemma {:induction false} RecordedOnly(a: Artifacts, items: seq<Item>, turns: seq<Turn>, k: int)
    requires Shelved(a) && InRange(items, turns) && DistinctPaths(items) && k in RecordedAll(a, items, turns).rows
    requires var row := RecordedAll(a, items, turns).rows[k]; !RecordedAt(items, turns, row.root, row.hash)
    ensures k in a.rows && RecordedAll(a, items, turns).rows[k] == a.rows[k]
  {
    if turns != [] {
      var n := |turns| - 1;
      var front, last := turns[..n], turns[n].i;
      assert turns == front + [turns[n]];
      var b, c := RecordedAll(a, items, turns), RecordedAll(a, items, front);
      var row := b.rows[k];
      StepsMore(front, turns[n], last);
      if items[last].found == Sidecar(true) {
        assert !KeyedBy(items[last], row.root, row.hash);
      }
      RecordedAllGrows(a, items, front);
      RecordedGrows(c, items[last]);
      assert k in c.rows && c.rows[k] == row;
      if i :| 0 <= i < |items| && items[i].found == Sidecar(true) && Steps(front, i) > 0
              && KeyedBy(items[i], row.root, row.hash) {
        StepsMore(front, turns[n], i);
        assert false;
      }
      RecordedOnly(a, items, front, k);
    }
  }

  lemma StaysHeld(a: Artifacts, item: Item, other: Item, items: seq<Item>, i: nat, j: nat)
    requires Shelved(a) && Holds(a, other) && DistinctPaths(items) && i < |items| && j < |items| && i != j
    requires other == items[i] && item == items[j]
    ensures Holds(Recorded(a, item), other)
  {
    RecordedGrows(a, item);
    var k :| k in a.rows && Lies(a.rows[k], other.root, other.place.hash) && a.rows[k].size == other.size
        && a.rows[k].mtime == other.mtime;
    assert !KeyedBy(item, other.root, other.place.hash);
    assert Recorded(a, item).rows[k] == a.rows[k];
  }

  // ---- Linking ----

  /** A FITS or XISF file of the sidecar's directory whose name is its stem, a point and more. */
  predicate Shares(fold: char -> char, art: Artifact, place: Place) {
    && (place.format == "fits" || place.format == "xisf")
    && StartsWith(fold, place.relPath, DirOf(art.path) + StemOf(art.filename) + ".")
  }

  /** f is a frame of such a file, whatever the status of its row. */
  predicate Beside(t: Tables, fold: char -> char, art: Artifact, f: int) {
    && f in t.frames && t.frames[f].file in t.files
    && t.files[t.frames[f].file].root == art.root && Shares(fold, art, t.files[t.frames[f].file].place)
  }

  function Neighbours(t: Tables, fold: char -> char, art: Artifact): set<int> {
    set f | f in t.frames && Beside(t, fold, art, f)
  }

  /** The frame with the least id. */
  function Best(t: Tables, fold: char -> char, art: Artifact): Option<int> {
    if Neighbours(t, fold, art) == {} then None else Some(Least(Neighbours(t, fold, art)))
  }

  function Unlinked(a: Artifacts, root: int): set<int> {
    set i | i in a.rows && a.rows[i].root == root && a.rows[i].frame.None?
  }

  /** The pass that links, as far as it got. */
  function LinkedTo(a: Artifacts, t: Tables, fold: char -> char, done: set<int>): Artifacts {
    a.(rows := map i | i in a.rows ::
         if i in done then a.rows[i].(frame := Best(t, fold, a.rows[i])) else a.rows[i])
  }

  /** ON DELETE SET NULL. */
  function Released(a: Artifacts, frames: set<int>): Artifacts {
    a.(rows := map i | i in a.rows ::
         if a.rows[i].frame.Some? && a.rows[i].frame.value !in frames then a.rows[i].(frame := None) else a.rows[i])
  }

  // ---- The table itself ----

  /** The LIKE clause of the query, as the server reads it. */
  predicate LikeHolds(fold: char -> char, art: Artifact, path: string) {
    var r := Q.ScanString(LikeLiteral(art.path, art.filename) + "'" + " ORDER BY fr.id LIMIT 1");
    r.Closed? && Likes(fold, r.body, path)
  }

  class Shelf {
    var rows: map<int, Artifact>
    var next: int

    function Snap(): Artifacts
      reads this
    {
      Artifacts(rows, next)
    }

    constructor (a: Artifacts)
      ensures Snap() == a
    {
      rows, next := a.rows, a.next;
    }

    /** The upsert a worker makes for a sidecar. */
    method Record(item: Item)
      modifies this
      ensures Snap() == Recorded(old(Snap()), item)
    {
      var hash := item.place.hash;
      var ids := set i | i in rows && Lies(rows[i], item.root, hash);
      assert ids == IdsAt(Snap(), item.root, hash);
      if ids == {} {
        rows := rows[next := Artifact(item.root, hash, item.place.relPath, item.place.filename, item.size, item.mtime,
            None)];
        next := next + 1;
      } else {
        var i := Least(ids);
        rows := rows[i := rows[i].(size := item.size, mtime := item.mtime)];
      }
    }

    /** SELECT fr.id FROM files fl JOIN frames fr .. LIKE .. ORDER BY fr.id LIMIT 1 */
    method SelectNeighbour(db: D.Database, art: Artifact, fold: char -> char) returns (frame: Option<int>)
      ensures frame == Best(db.Snap(), fold, art)
    {
      var found := set f | f in db.frames && db.frames[f].file in db.files
          && db.files[db.frames[f].file].root == art.root
        && db.files[db.frames[f].file].place.format in ["fits", "xisf"]
        && LikeHolds(fold, art, db.files[db.frames[f].file].place.relPath) :: f;
      forall path: string
        ensures LikeHolds(fold, art, path) <==> StartsWith(fold, path, DirOf(art.path) + StemOf(art.filename) + ".")
      {
        SidecarPattern(fold, art.path, art.filename, path);
      }
      hide LikeHolds, StartsWith, DirOf, StemOf;
      assert found == Neighbours(db.Snap(), fold, art);
      frame := if found == {} then None else Some(Least(found));
    }

    /** What the foreign key does when frames are deleted. */
    method Release(db: D.Database)
      modifies this
      ensures Snap() == Released(old(Snap()), db.Snap().frames.Keys)
    {
      rows := map i | i in rows :: if rows[i].frame.Some? && rows[i].frame.value !in db.frames
                                   then rows[i].(frame := None) else rows[i];
    }

    /** The linking pass, if the scan recorded a sidecar at all; whatever is thrown ends it. */
    method LinkSidecars(db: D.Database, root: int, arts: nat, fold: char -> char, fault: Option<nat>)
      returns (ghost done: set<int>)
      modifies this
      ensures Snap() == LinkedTo(old(Snap()), db.Snap(), fold, done) && done <= Unlinked(old(Snap()), root)
      ensures arts == 0 ==> done == {}
      ensures arts > 0 && fault.None? ==> done == Unlinked(old(Snap()), root)
    {
      done := {};
      if arts == 0 {
        return;
      }
      ghost var a := Snap();
      var ids := Select(set i | i in rows && rows[i].root == root && rows[i].frame.None?);
      var n := 0;
      while n < |ids|
        invariant 0 <= n <= |ids| && done == (set k | 0 <= k < n :: ids[k])
        invariant Snap() == LinkedTo(a, db.Snap(), fold, done)
      {
        if fault == Some(n) {
          return;
        }
        assert ids[n] !in done && ids[n] in a.rows;
        var frame := SelectNeighbour(db, rows[ids[n]], fold);
        if frame.Some? {
          rows := rows[ids[n] := rows[ids[n]].(frame := frame)];
        }
        done := done + {ids[n]};
        n := n + 1;
      }
      forall i | i in Unlinked(a, root)
        ensures i in done
      {
        assert i in ids;
      }
    }
  }

  // ---- A scan ----

  /** The table when the workers are done. */
  function Gathered(a: Artifacts, s: Scan): Artifacts
    requires InRange(s.items, s.turns)
  {
    RecordedAll(a, s.items, s.turns)
  }

  /** And after the scan: `done` are the rows the linking pass got to. */
  ghost function ShelfAfter(a: Artifacts, t: Tables, s: Scan, zone: int, fold: char -> char, done: set<int>): Artifacts
    requires InRange(s.items, s.turns)
  {
    Released(LinkedTo(Gathered(a, s), Raced(t, s, zone), fold, done), Scanned(t, s, zone).frames.Keys)
  }

  /** The tables and the artifacts before a scan. */
  ghost predicate Sound(a: Artifacts, t: Tables) {
    Valid(t) && Shelved(a) && LinksLead(a, t.frames.Keys)
  }

  /** A frame the sweep left goes with the scan. */
  ghost predicate Lost(t: Tables, s: Scan, zone: int, f: int)
    requires InRange(s.items, s.turns) && Valid(Raced(t, s, zone)) && f in Raced(t, s, zone).frames
  {
    && Passes(t, s, zone)
    && exists v :: ReachedBy(s.ending, v)
                   && Moves(PlanOf(Raced(t, s, zone), s.root, s.start), v, Raced(t, s, zone).frames[f].file)
  }

  lemma LostGoes(t: Tables, s: Scan, zone: int, f: int)
    requires Valid(t) && WellTimed(s) && f in Raced(t, s, zone).frames
    ensures Valid(Raced(t, s, zone))
    ensures f !in Scanned(t, s, zone).frames <==> Lost(t, s, zone, f)
  {
    RacedEffect(t, s, zone);
    hide Raced, Moves;
    EndedFrame(Raced(t, s, zone), s.root, s.start, |OkIds(t, s.root)|, s.end, s.ending, f);
  }

  /** The links after a scan. A link that was there stays if and only if its frame does. A sidecar that had
      none, if the linking pass got to it, is linked to the frame with the least id that shares its
      directory and stem, unless that frame goes with this very scan. */
  lemma LinkAfter(a: Artifacts, t: Tables, s: Scan, zone: int, fold: char -> char, done: set<int>, i: int)
    requires Sound(a, t) && WellTimed(s) && i in Gathered(a, s).rows
    requires done <= Unlinked(Gathered(a, s), s.root)
    ensures var art, u := Gathered(a, s).rows[i], Raced(t, s, zone);
            var link := if i in done then Best(u, fold, art) else art.frame;
            && Valid(u) && (link.Some? ==> link.value in u.frames)
            && i in ShelfAfter(a, t, s, zone, fold, done).rows
            && ShelfAfter(a, t, s, zone, fold, done).rows[i].(frame := None) == art.(frame := None)
            && ShelfAfter(a, t, s, zone, fold, done).rows[i].frame
               == if link.Some? && Lost(t, s, zone, link.value) then None else link
  {
    var art, u := Gathered(a, s).rows[i], Raced(t, s, zone);
    RecordedAllGrows(a, s.items, s.turns);
    RacedEffect(t, s, zone);
    hide Raced, Lost, Scanned, Valid;
    var link := if i in done then Best(u, fold, art) else art.frame;
    if link.Some? {
      LostGoes(t, s, zone, link.value);
    }
  }

  lemma ReleasedSound(a: Artifacts, t: Tables, fold: char -> char, done: set<int>, frames: set<int>)
    requires Shelved(a)
    ensures var b := Released(LinkedTo(a, t, fold, done), frames);
            Shelved(b) && LinksLead(b, frames) && b.rows.Keys == a.rows.Keys
  {
    var b := Released(LinkedTo(a, t, fold, done), frames);
    forall i | i in a.rows
      ensures i in b.rows && Lies(b.rows[i], a.rows[i].root, a.rows[i].hash)
      ensures b.rows[i].frame.Some? ==> b.rows[i].frame.value in frames
    {
    }
    hide Best;
  }

  lemma GatheredKeeps(a: Artifacts, s: Scan)
    requires Shelved(a) && WellTimed(s)
    ensures Shelved(Gathered(a, s)) && a.rows.Keys <= Gathered(a, s).rows.Keys
  {
    RecordedAllGrows(a, s.items, s.turns);
    var b := Gathered(a, s);
    hide RecordedAll;
    forall i | i in a.rows
      ensures i in b.rows
    {
    }
  }

  lemma SoundIs(a: Artifacts, t: Tables)
    ensures Sound(a, t) <==> Valid(t) && Shelved(a) && LinksLead(a, t.frames.Keys)
  {
    hide Valid, Shelved, LinksLead;
  }

  /** Rows and path keys stay, and every link leads to a frame. */
  lemma ShelfSound(a: Artifacts, t: Tables, s: Scan, zone: int, fold: char -> char, done: set<int>)
    requires Sound(a, t) && WellTimed(s)
    ensures Sound(ShelfAfter(a, t, s, zone, fold, done), Scanned(t, s, zone))
    ensures a.rows.Keys <= ShelfAfter(a, t, s, zone, fold, done).rows.Keys
  {
    GatheredKeeps(a, s);
    ScannedValid(t, s, zone);
    var b, w := Gathered(a, s), Scanned(t, s, zone);
    assert ShelfAfter(a, t, s, zone, fold, done) == Released(LinkedTo(b, Raced(t, s, zone), fold, done), w.frames.Keys);
    hide *;
    ReleasedSound(b, Raced(t, s, zone), fold, done, w.frames.Keys);
    SoundIs(ShelfAfter(a, t, s, zone, fold, done), w);
  }

  /** A link made to a frame whose file was first seen before the scan outlives it. */
  lemma ElderLinkHolds(a: Artifacts, t: Tables, s: Scan, zone: int, fold: char -> char, done: set<int>, i: int, f: int)
    requires Sound(a, t) && WellTimed(s) && i in Gathered(a, s).rows && done <= Unlinked(Gathered(a, s), s.root)
    requires f in Raced(t, s, zone).frames && Raced(t, s, zone).frames[f].file in t.files
        && t.files[Raced(t, s, zone).frames[f].file].firstSeen < s.start
    requires var art := Gathered(a, s).rows[i];
             art.frame == Some(f) || (i in done && Best(Raced(t, s, zone), fold, art) == Some(f))
    ensures var after := ShelfAfter(a, t, s, zone, fold, done); i in after.rows && after.rows[i].frame == Some(f)
  {
    var u := Raced(t, s, zone);
    RacedEffect(t, s, zone);
    ElderNoTarget(u, s.root, s.start, u.frames[f].file);
    hide Raced, ShelfAfter, Moves, PlanOf, Best, Valid, Scanned;
    LinkAfter(a, t, s, zone, fold, done, i);
  }

  // ---- Any number of scans ----

  /** dones are how far the linking passes of the scans got. */
  ghost function Shelves(a: Artifacts, t: Tables, scans: seq<Scan>, zone: int, fold: char -> char, dones: seq<set<int>>)
    : Artifacts
    requires |dones| == |scans| && forall n :: 0 <= n < |scans| ==> InRange(scans[n].items, scans[n].turns)
  {
    if scans == [] then a
    else
      var n := |scans| - 1;
      ShelfAfter(Shelves(a, t, scans[..n], zone, fold, dones[..n]), After(t, scans[..n], zone), scans[n], zone, fold,
          dones[n])
  }

  /** Each linking pass is over rows of its root that have no link. */
  ghost predicate Linking(a: Artifacts, t: Tables, scans: seq<Scan>, zone: int, fold: char -> char,
      dones: seq<set<int>>)
  {
    && |dones| == |scans| && (forall n :: 0 <= n < |scans| ==> InRange(scans[n].items, scans[n].turns))
    && (scans != [] ==>
          var n := |scans| - 1;
          && Linking(a, t, scans[..n], zone, fold, dones[..n])
          && dones[n] <= Unlinked(Gathered(Shelves(a, t, scans[..n], zone, fold, dones[..n]), scans[n]), scans[n].root))
  }

  /** A sidecar linked to a frame whose file was first seen before them stays linked to it over any number
      of scans, whatever is recorded, moved, deleted or linked meanwhile. */
  lemma {:induction false} LinkNeverLost(a: Artifacts, t: Tables, scans: seq<Scan>, zone: int, fold: char -> char,
      dones: seq<set<int>>, from: Time, i: int, f: int)
    requires Sound(a, t) && Clocked(scans, from) && Linking(a, t, scans, zone, fold, dones)
    requires i in a.rows && a.rows[i].frame == Some(f) && t.files[t.frames[f].file].firstSeen <= from
    ensures var b := Shelves(a, t, scans, zone, fold, dones);
            && Sound(b, After(t, scans, zone)) && i in b.rows && b.rows[i].frame == Some(f)
  {
    if scans != [] {
      var n := |scans| - 1;
      LaterStarts(scans, from, n);
      LinkNeverLost(a, t, scans[..n], zone, fold, dones[..n], from, i, f);
      ElderStaysThrough(t, scans[..n], zone, from, t.frames[f].file);
      LinkOnce(Shelves(a, t, scans[..n], zone, fold, dones[..n]), After(t, scans[..n], zone), scans[n], zone, fold,
          dones[n], i, f);
    }
  }

  lemma LinkOnce(a: Artifacts, t: Tables, s: Scan, zone: int, fold: char -> char, done: set<int>, i: int, f: int)
    requires Sound(a, t) && WellTimed(s) && done <= Unlinked(Gathered(a, s), s.root)
    requires i in a.rows && a.rows[i].frame == Some(f) && t.files[t.frames[f].file].firstSeen < s.start
    ensures var after := ShelfAfter(a, t, s, zone, fold, done);
            Sound(after, Scanned(t, s, zone)) && i in after.rows && after.rows[i].frame == Some(f)
  {
    RecordedAllGrows(a, s.items, s.turns);
    RacedEffect(t, s, zone);
    hide Raced, ShelfAfter, Valid, Scanned, RecordedAll;
    ShelfSound(a, t, s, zone, fold, done);
    ElderLinkHolds(a, t, s, zone, fold, done, i, f);
  }

  // ---- A frame that moves with its sidecar ----

  /** After a clean move a frame of the moved row stands where the item stands. */
  lemma FrameFollows(t: Tables, s: Scan, zone: int, fold: char -> char, art: Artifact, v: int, m: nat)
    requires Valid(t) && SeenBefore(t, s.start) && WellTimed(s) && MovesCleanly(t, s, zone, v, m)
    requires art.root == s.root && Shares(fold, art, s.items[m].place)
    ensures exists f :: f in t.frames && t.frames[f].file == v && Beside(Scanned(t, s, zone), fold, art, f)
  {
    var f := SomeFrame(t, v);
    assert m < |s.items|;
    hide Scanned, Shares, Valid, MovesCleanly, SeenBefore, KeyOf, Absent;
    CleanMove(t, s, zone, v, m);
    assert Beside(Scanned(t, s, zone), fold, art, f);
  }

  /** And every frame the sweep has given the new path goes. */
  lemma TargetLost(t: Tables, s: Scan, zone: int, v: int, m: nat, f: int)
    requires Valid(t) && SeenBefore(t, s.start) && WellTimed(s) && MovesCleanly(t, s, zone, v, m)
    requires var u := Raced(t, s, zone);
             f in u.frames && u.frames[f].file in u.files
                 && At(u.files[u.frames[f].file], s.root, s.items[m].place.hash)
    ensures Valid(Raced(t, s, zone)) && Lost(t, s, zone, f)
  {
    var u := Raced(t, s, zone);
    RacedEffect(t, s, zone);
    CleanMoveMatches(t, s, zone, v, m);
    ViewOfRow(u, u.frames[f].file);
    assert ReachedBy(s.ending, v) && Passes(t, s, zone);
    hide Raced, Moves, PlanOf, MovesCleanly, Valid, Passes;
  }

  /** The failure: a file moves cleanly, and in the same scan a sidecar without a link is recorded beside its
      new path, where nothing else shares its stem. The sidecar is linked to a frame of the duplicate row,
      and the link goes with it: after the scan the frame stands beside the sidecar, not linked. */
  lemma MovedUnlinked(a: Artifacts, t: Tables, s: Scan, zone: int, fold: char -> char, done: set<int>, i: int, v: int,
      m: nat)
    requires Sound(a, t) && SeenBefore(t, s.start) && WellTimed(s) && MovesCleanly(t, s, zone, v, m)
    requires done <= Unlinked(Gathered(a, s), s.root) && i in done
    requires Shares(fold, Gathered(a, s).rows[i], s.items[m].place)
    requires forall f :: Beside(Raced(t, s, zone), fold, Gathered(a, s).rows[i], f) ==>
               At(Raced(t, s, zone).files[Raced(t, s, zone).frames[f].file], s.root, s.items[m].place.hash)
    ensures var after := ShelfAfter(a, t, s, zone, fold, done);
            && i in after.rows && after.rows[i].frame == None
            && exists f :: f in t.frames && t.frames[f].file == v && Beside(Scanned(t, s, zone), fold, after.rows[i], f)
  {
    var u, art := Raced(t, s, zone), Gathered(a, s).rows[i];
    FrameFollows(t, s, zone, fold, art, v, m);
    var link := Best(u, fold, art);
    if link.Some? {
      assert Beside(u, fold, art, link.value);
      TargetLost(t, s, zone, v, m, link.value);
    }
    hide Raced, ShelfAfter, Scanned, Best, Beside, Lost, Gathered, MovesCleanly, SeenBefore, Valid, Shares, WellTimed;
    LinkAfter(a, t, s, zone, fold, done, i);
  }
}
