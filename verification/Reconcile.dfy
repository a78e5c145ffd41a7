/** The pass after a sweep that tells moved files from missing ones. A file row the sweep did not
    touch takes over the row of a file that appeared with the same content, when the match is
    unambiguous on both sides; otherwise it is marked missing. */
module Reconcile {
  import opened Options
  import opened Tables
  import opened FrameStore
  import opened Database

  predicate TouchedRow(r: FileRow, root: int, start: Time) {
    r.root == root && r.lastSeen.Some? && r.lastSeen.value >= start
  }

  predicate VanishedRow(r: FileRow, root: int, start: Time) {
    r.root == root && r.status != Missing && (r.lastSeen.None? || r.lastSeen.value < start)
  }

  predicate AppearedRow(r: FileRow, root: int, start: Time) {
    r.root == root && r.firstSeen >= start
  }

  function TouchedIds(t: Tables, root: int, start: Time): set<int> {
    set id | id in t.files && TouchedRow(t.files[id], root, start)
  }

  function Vanished(t: Tables, root: int, start: Time): set<int> {
    set id | id in t.files && VanishedRow(t.files[id], root, start)
  }

  function Appeared(t: Tables, root: int, start: Time): set<int> {
    set id | id in t.files && AppearedRow(t.files[id], root, start)
  }

  /** The mount-failure guard: the sweep saw nothing, or less than half of what was indexed. */
  predicate GuardTrips(seenNow: nat, prior: int) {
    prior > 0 && (seenNow == 0 || seenNow < prior / 2)
  }

  ghost function KeyOf(t: Tables, id: int): seq<int> {
    ContentKey(FramesOf(t, id))
  }

  /** What the pass reads before it changes anything: the two row sets and everybody's content key. */
  datatype Plan = Plan(vanished: set<int>, appeared: set<int>, key: map<int, seq<int>>)

  ghost function PlanOf(t: Tables, root: int, start: Time): (p: Plan)
    ensures Covers(t, p)
  {
    Plan(Vanished(t, root, start), Appeared(t, root, start), map id | id in t.files :: KeyOf(t, id))
  }

  ghost predicate Covers(t: Tables, p: Plan) {
    && p.vanished <= t.files.Keys && p.appeared <= t.files.Keys && p.key.Keys == t.files.Keys
    && forall v, a :: v in p.vanished && a in p.appeared ==> t.files[v].root == t.files[a].root
  }

  ghost predicate Sole(p: Plan, ids: set<int>, id: int) {
    forall j :: j in ids && j in p.key && id in p.key && p.key[j] == p.key[id] ==> j == id
  }

  /** File row v has moved to where row a was created. */
  ghost predicate Moves(p: Plan, v: int, a: int) {
    && v in p.vanished
    && a in p.appeared
    && v in p.key && a in p.key
    && p.key[v] != []
    && p.key[a] == p.key[v]
    && Sole(p, p.vanished, v)
    && Sole(p, p.appeared, a)
  }

  ghost predicate Moved(p: Plan, v: int) {
    exists a :: Moves(p, v, a)
  }

  ghost function TargetOf(p: Plan, v: int): (a: int)
    requires Moved(p, v)
    ensures Moves(p, v, a)
  {
    var a :| Moves(p, v, a);
    a
  }

  /** The moves are an injective matching on equal, non-empty fingerprint lists. */
  lemma MovesMatch(p: Plan, v: int, a: int, w: int, b: int)
    requires Moves(p, v, a) && Moves(p, w, b)
    ensures v == w <==> a == b
    ensures v == w <==> p.key[v] == p.key[w]
  {
  }

  /** The re-anchored row: everything that says where the file is and what it looks like there;
      first_seen_utc and error are not in the SET list. */
  function Anchored(r: FileRow, a: FileRow, now: Time): FileRow {
    r.(place := a.place, size := a.size, mtime := a.mtime, inode := a.inode, status := a.status,
       lastSeen := Some(now), lastIndexed := Some(now))
  }

  /** The rows dropped once the vanished rows in `done` have been dealt with. */
  ghost function Dropped(p: Plan, done: set<int>): set<int> {
    set v | v in done && Moved(p, v) :: TargetOf(p, v)
  }

  ghost function RowAfter(t: Tables, p: Plan, done: set<int>, now: Time, id: int): FileRow
    requires Covers(t, p) && id in t.files
  {
    if id !in done then t.files[id]
    else if Moved(p, id) then Anchored(t.files[id], t.files[TargetOf(p, id)], now)
    else t.files[id].(status := Missing)
  }

  /** DELETE FROM files with the cascades to frames, frame_keywords and frame_tags. */
  function Without(t: Tables, ids: set<int>): Tables {
    var frames := map f | f in t.frames && t.frames[f].file !in ids :: t.frames[f];
    t.(files := map i | i in t.files && i !in ids :: t.files[i],
       frames := frames,
       cards := map f | f in t.cards && f in frames :: t.cards[f],
       tags := set p | p in t.tags && p.0 in frames)
  }

  ghost function Reconciling(t: Tables, p: Plan, done: set<int>, now: Time): Tables
    requires Covers(t, p)
  {
    var gone := Dropped(p, done);
    Without(t, gone).(files := map i | i in t.files && i !in gone :: RowAfter(t, p, done, now, i))
  }

  /** The tables after the pass. */
  ghost function Reconciled(t: Tables, root: int, start: Time, now: Time): Tables {
    var p := PlanOf(t, root, start);
    Reconciling(t, p, p.vanished, now)
  }

  // ---- Path keys stay unique ----

  /** At no point of the loop do two rows have the same path key. */
  lemma ReconcilingValid(t: Tables, p: Plan, done: set<int>, now: Time)
    requires Valid(t) && Covers(t, p) && done <= p.vanished
    ensures Valid(Reconciling(t, p, done, now))
  {
    var u := Reconciling(t, p, done, now);
    forall i, j | i in u.files && j in u.files && At(u.files[i], u.files[j].root, u.files[j].place.hash)
      ensures i == j
    {
      var x := Holder(p, done, i);
      var y := Holder(p, done, j);
      assert At(t.files[x], t.files[y].root, t.files[y].place.hash);
      assert x == y;
      if i in done && Moved(p, i) {
        assert Moves(p, i, x) && x in Dropped(p, done);
      }
      if j in done && Moved(p, j) {
        assert Moves(p, j, y) && y in Dropped(p, done);
      }
    }
  }

  /** The row whose original path row id has while `done` is dealt with. */
  ghost function Holder(p: Plan, done: set<int>, id: int): int {
    if id in done && Moved(p, id) then TargetOf(p, id) else id
  }

  /** After the DELETE of the duplicate, and only then, its path key is free for the survivor. */
  lemma TargetPathFree(t: Tables, p: Plan, done: set<int>, now: Time, v: int)
    requires Valid(t) && Covers(t, p) && done <= p.vanished
    requires v in p.vanished && v !in done && Moved(p, v)
    ensures var a := TargetOf(p, v);
            var u := Reconciling(t, p, done, now);
            && a in u.files && u.files[a] == t.files[a]
            && forall i :: i in u.files && i != a ==> !At(u.files[i], t.files[a].root, t.files[a].place.hash)
  {
    var a := TargetOf(p, v);
    var u := Reconciling(t, p, done, now);
    forall i | i in u.files && i != a
      ensures !At(u.files[i], t.files[a].root, t.files[a].place.hash)
    {
      if i in done && Moved(p, i) {
        MovesMatch(p, i, TargetOf(p, i), v, a);
      }
    }
  }

  // ---- One turn of the loop ----

  /** DELETE the duplicate, then re-anchor the survivor (an UPDATE that finds no row does nothing). */
  ghost function MoveApplied(u: Tables, v: int, a: int, row: FileRow, now: Time): Tables {
    var w := Without(u, {a});
    if v in w.files then w.(files := w.files[v := Anchored(w.files[v], row, now)]) else w
  }

  ghost function MissingApplied(u: Tables, v: int): Tables {
    if v in u.files then u.(files := u.files[v := u.files[v].(status := Missing)]) else u
  }

  lemma DroppedGrows(p: Plan, done: set<int>, v: int)
    requires v in p.vanished && v !in done
    ensures Dropped(p, done + {v}) ==
            Dropped(p, done) + (if Moved(p, v) then {TargetOf(p, v)} else {})
    ensures Moved(p, v) ==> TargetOf(p, v) !in Dropped(p, done)
  {
    if Moved(p, v) {
      forall w | w in done && Moved(p, w)
        ensures TargetOf(p, w) != TargetOf(p, v)
      {
        MovesMatch(p, w, TargetOf(p, w), v, TargetOf(p, v));
      }
    }
  }

  lemma WithoutTwice(t: Tables, ids: set<int>, id: int, files: map<int, FileRow>)
    ensures Without(Without(t, ids).(files := files), {id}) ==
            Without(t, ids + {id}).(files := map i | i in files && i != id :: files[i])
  {
    var got := Without(Without(t, ids).(files := files), {id});
    var want := Without(t, ids + {id});
    assert got.frames == want.frames;
    assert got.cards == want.cards;
    assert got.tags == want.tags;
    assert got.files == map i | i in files && i != id :: files[i];
  }

  lemma MoveStep(t: Tables, p: Plan, done: set<int>, now: Time, v: int)
    requires Valid(t) && Covers(t, p) && done <= p.vanished
    requires v in p.vanished && v !in done && Moved(p, v)
    ensures var a := TargetOf(p, v);
            MoveApplied(Reconciling(t, p, done, now), v, a, t.files[a], now)
            == Reconciling(t, p, done + {v}, now)
  {
    DroppedGrows(p, done, v);
    var a := TargetOf(p, v);
    var u := Reconciling(t, p, done, now);
    WithoutTwice(t, Dropped(p, done), a, u.files);
    MoveStepFiles(t, p, done, now, v);
  }

  lemma MoveStepFiles(t: Tables, p: Plan, done: set<int>, now: Time, v: int)
    requires Valid(t) && Covers(t, p) && done <= p.vanished
    requires v in p.vanished && v !in done && Moved(p, v)
    ensures var a := TargetOf(p, v);
            MoveApplied(Reconciling(t, p, done, now), v, a, t.files[a], now).files
            == Reconciling(t, p, done + {v}, now).files
  {
    DroppedGrows(p, done, v);
    var a, u := TargetOf(p, v), Reconciling(t, p, done, now);
    var got := MoveApplied(u, v, a, t.files[a], now).files;
    var want := Reconciling(t, p, done + {v}, now).files;
    forall i
      ensures i in got <==> i in want
      ensures i in got ==> got[i] == want[i]
    {
      if i in u.files && i != v {
        assert RowAfter(t, p, done + {v}, now, i) == RowAfter(t, p, done, now, i);
      }
    }
  }

  lemma MissingStep(t: Tables, p: Plan, done: set<int>, now: Time, v: int)
    requires Covers(t, p) && done <= p.vanished
    requires v in p.vanished && v !in done && !Moved(p, v)
    ensures MissingApplied(Reconciling(t, p, done, now), v) == Reconciling(t, p, done + {v}, now)
  {
    DroppedGrows(p, done, v);
    var got := MissingApplied(Reconciling(t, p, done, now), v);
    var want := Reconciling(t, p, done + {v}, now);
    assert got.files == want.files;
  }

  // ---- The pass itself ----

  /** The rows of a result set, in the order the server happens to return them. */
  method Select(ids: set<int>) returns (rows: seq<int>)
    ensures forall id :: id in ids ==> id in rows
    ensures forall i :: 0 <= i < |rows| ==> rows[i] in ids
    ensures forall i, j :: 0 <= i < j < |rows| ==> rows[i] != rows[j]
  {
    rows := [];
    var left := ids;
    while left != {}
      invariant left <= ids
      invariant forall id :: id in ids ==> id in left || id in rows
      invariant forall i :: 0 <= i < |rows| ==> rows[i] in ids && rows[i] !in left
      invariant forall i, j :: 0 <= i < j < |rows| ==> rows[i] != rows[j]
      decreases |left|
    {
      assert exists id :: id in left by {
        if forall id: int :: id !in left {
          assert false;
        }
      }
      var id: int :| id in left;
      rows := rows + [id];
      left := left - {id};
    }
  }

  /** content_key: SELECT fingerprint FROM frames WHERE file_id = .. ORDER BY hdu, joined. */
  method SelectKey(db: Database, id: int) returns (key: seq<int>)
    requires Valid(db.Snap())
    ensures key == KeyOf(db.Snap(), id)
  {
    ghost var frames := FramesOf(db.Snap(), id);
    assert frames.Keys == HdusOf(db.Snap(), id);
    var hdus := Sorted(HdusOf(db.Snap(), id));
    SortedElements(HdusOf(db.Snap(), id));
    key := [];
    while |key| < |hdus|
      invariant |key| <= |hdus|
      invariant forall j :: 0 <= j < |key| ==> key[j] == Fingerprint(frames, hdus[j])
    {
      var fingerprint := SelectFingerprint(db, id, hdus[|key|]);
      key := key + [fingerprint];
    }
    assert key == ContentKey(frames);
  }

  method SelectFingerprint(db: Database, id: int, hdu: int) returns (fingerprint: int)
    requires Valid(db.Snap()) && hdu in HdusOf(db.Snap(), id)
    ensures fingerprint == Fingerprint(FramesOf(db.Snap(), id), hdu)
  {
    var f := db.SelectFrame(id, hdu);
    fingerprint := db.frames[f.value].fingerprint;
  }

  /** rows lists the ids once each, and keys their content keys. */
  ghost predicate Lists(p: Plan, ids: set<int>, rows: seq<int>, keys: seq<seq<int>>) {
    && |rows| == |keys|
    && (forall id :: id in ids ==> id in rows)
    && (forall i :: 0 <= i < |rows| ==> rows[i] in ids)
    && (forall i, j :: 0 <= i < j < |rows| ==> rows[i] != rows[j])
    && (forall i :: 0 <= i < |rows| ==> rows[i] in p.key && keys[i] == p.key[rows[i]])
  }

  lemma PlannedKey(t: Tables, root: int, start: Time, id: int)
    requires id in t.files
    ensures PlanOf(t, root, start).key[id] == KeyOf(t, id)
  {
  }

  method SelectPlannedKey(db: Database, root: int, start: Time, id: int, ghost p: Plan) returns (key: seq<int>)
    requires Valid(db.Snap()) && id in db.files
    requires p == PlanOf(db.Snap(), root, start)
    ensures key == p.key[id]
  {
    key := SelectKey(db, id);
    PlannedKey(db.Snap(), root, start, id);
  }

  method SelectKeys(db: Database, root: int, start: Time, rows: seq<int>, ghost ids: set<int>, ghost p: Plan)
    returns (keys: seq<seq<int>>)
    requires Valid(db.Snap())
    requires p == PlanOf(db.Snap(), root, start) && ids <= db.files.Keys
    requires forall id :: id in ids ==> id in rows
    requires forall i :: 0 <= i < |rows| ==> rows[i] in ids
    requires forall i, j :: 0 <= i < j < |rows| ==> rows[i] != rows[j]
    ensures Lists(p, ids, rows, keys)
  {
    keys := [];
    while |keys| < |rows|
      invariant |keys| <= |rows|
      invariant forall i :: 0 <= i < |keys| ==> rows[i] in p.key && keys[i] == p.key[rows[i]]
    {
      var key := SelectPlannedKey(db, root, start, rows[|keys|], p);
      keys := keys + [key];
    }
  }

  /** byKey holds the first row of every non-empty key, ambiguous the keys met again. */
  ghost predicate Indexes(keys: seq<seq<int>>, byKey: map<seq<int>, nat>, ambiguous: set<seq<int>>) {
    && (forall k :: k in byKey ==> byKey[k] < |keys| && keys[byKey[k]] == k && k != [])
    && (forall i :: 0 <= i < |keys| && keys[i] != [] ==>
        keys[i] in byKey && (keys[i] in ambiguous || byKey[keys[i]] == i))
    && (forall k :: k in ambiguous ==> Repeats(keys, k))
  }

  ghost predicate Repeats(keys: seq<seq<int>>, k: seq<int>) {
    exists i, j :: 0 <= i < j < |keys| && keys[i] == k && keys[j] == k
  }

  /** count says of every non-empty key whether it was met once or more often. */
  ghost predicate Counts(keys: seq<seq<int>>, count: map<seq<int>, nat>) {
    && (forall i :: 0 <= i < |keys| && keys[i] != [] ==> keys[i] in count)
    && (forall k :: k in count ==> k != [] && count[k] >= 1 && k in keys && (count[k] > 1 <==> Repeats(keys, k)))
  }

  lemma RepeatsMore(keys: seq<seq<int>>, k: seq<int>, key: seq<int>)
    ensures Repeats(keys + [key], k) <==> Repeats(keys, k) || (k == key && key in keys)
  {
    var more := keys + [key];
    if Repeats(keys, k) {
      var i, j :| 0 <= i < j < |keys| && keys[i] == k && keys[j] == k;
      assert more[i] == k && more[j] == k;
    }
    if k == key && key in keys {
      var i :| 0 <= i < |keys| && keys[i] == key;
      assert more[i] == k && more[|keys|] == k;
    }
  }

  method IndexByKey(keys: seq<seq<int>>) returns (byKey: map<seq<int>, nat>, ambiguous: set<seq<int>>)
    ensures Indexes(keys, byKey, ambiguous)
  {
    byKey, ambiguous := map[], {};
    var i := 0;
    while i < |keys|
      invariant 0 <= i <= |keys|
      invariant Indexes(keys[..i], byKey, ambiguous)
    {
      var k := keys[i];
      assert keys[..i + 1] == keys[..i] + [k];
      forall other {
        RepeatsMore(keys[..i], other, k);
      }
      if k != [] {
        if k in byKey {
          assert keys[..i][byKey[k]] == k;
          ambiguous := ambiguous + {k};
        } else {
          byKey := byKey[k := i];
        }
      }
      i := i + 1;
    }
    assert keys[..i] == keys;
  }

  method CountKeys(keys: seq<seq<int>>) returns (count: map<seq<int>, nat>)
    ensures Counts(keys, count)
  {
    count := map[];
    var i := 0;
    while i < |keys|
      invariant 0 <= i <= |keys|
      invariant Counts(keys[..i], count)
    {
      var k := keys[i];
      assert keys[..i + 1] == keys[..i] + [k];
      forall other {
        RepeatsMore(keys[..i], other, k);
      }
      assert forall other :: other in keys[..i + 1] <==> other in keys[..i] || other == k;
      assert forall other :: Repeats(keys[..i], other) ==> other in keys[..i];
      RepeatsMore(keys[..i], k, k);
      if k != [] {
        count := count[k := (if k in count then count[k] else 0) + 1];
      }
      i := i + 1;
    }
    assert keys[..i] == keys;
  }

  method DeleteFile(db: Database, id: int)
    modifies db
    ensures db.Snap() == Without(old(db.Snap()), {id})
  {
    db.files := map i | i in db.files && i !in {id} :: db.files[i];
    db.frames := map f | f in db.frames && db.frames[f].file !in {id} :: db.frames[f];
    db.cards := map f | f in db.cards && f in db.frames :: db.cards[f];
    db.tags := set p | p in db.tags && p.0 in db.frames;
  }

  /** UPDATE files SET rel_path = .., status = .. WHERE id = ..; uk_files_path must admit the new path. */
  method UpdateAnchor(db: Database, id: int, row: FileRow, now: Time)
    requires forall i :: i in db.files && i != id ==> !At(db.files[i], row.root, row.place.hash)
    modifies db`files
    ensures db.files == if id in old(db.files) then old(db.files)[id := Anchored(old(db.files)[id], row, now)]
        else old(db.files)
  {
    if id in db.files {
      db.files := db.files[id := Anchored(db.files[id], row, now)];
    }
  }

  method UpdateMissing(db: Database, id: int)
    modifies db`files
    ensures db.files == if id in old(db.files) then old(db.files)[id := old(db.files)[id].(status := Missing)]
        else old(db.files)
  {
    if id in db.files {
      db.files := db.files[id := db.files[id].(status := Missing)];
    }
  }

  lemma SoleListed(p: Plan, ids: set<int>, rows: seq<int>, keys: seq<seq<int>>, i: nat)
    requires Lists(p, ids, rows, keys) && i < |rows|
    ensures Sole(p, ids, rows[i]) <==> !Repeats(keys, keys[i])
  {
    if !Repeats(keys, keys[i]) {
      forall j | j in ids && j in p.key && p.key[j] == p.key[rows[i]]
        ensures j == rows[i]
      {
        var m :| 0 <= m < |rows| && rows[m] == j;
        assert keys[m] == keys[i];
      }
    } else {
      var m, n :| 0 <= m < n < |keys| && keys[m] == keys[i] && keys[n] == keys[i];
      assert rows[m] in ids && rows[n] in ids;
    }
  }

  lemma NotAmbiguous(keys: seq<seq<int>>, byKey: map<seq<int>, nat>, ambiguous: set<seq<int>>, k: seq<int>)
    requires Indexes(keys, byKey, ambiguous) && k in byKey && k !in ambiguous
    ensures !Repeats(keys, k)
  {
  }

  /** The lookup the loop makes for the i-th vanished row finds its move target, if it has one. */
  lemma LookupFindsTarget(p: Plan, vanished: seq<int>, vkeys: seq<seq<int>>,
                          appeared: seq<int>, akeys: seq<seq<int>>,
                          byKey: map<seq<int>, nat>, ambiguous: set<seq<int>>, count: map<seq<int>, nat>, i: nat)
    requires Lists(p, p.vanished, vanished, vkeys) && Counts(vkeys, count) && i < |vanished|
    requires Lists(p, p.appeared, appeared, akeys) && Indexes(akeys, byKey, ambiguous)
    ensures var k := vkeys[i];
            var found := k != [] && k !in ambiguous && count[k] == 1 && k in byKey;
            && (found <==> Moved(p, vanished[i]))
            && (found ==> appeared[byKey[k]] == TargetOf(p, vanished[i]))
  {
    var k, v := vkeys[i], vanished[i];
    SoleListed(p, p.vanished, vanished, vkeys, i);
    assert v in p.vanished;
    if k != [] && k !in ambiguous && count[k] == 1 && k in byKey {
      var a := appeared[byKey[k]];
      NotAmbiguous(akeys, byKey, ambiguous, k);
      SoleListed(p, p.appeared, appeared, akeys, byKey[k]);
      assert a in p.appeared;
      assert Moves(p, v, a);
      MovesMatch(p, v, a, v, TargetOf(p, v));
    }
    if Moved(p, v) {
      var a := TargetOf(p, v);
      assert a in appeared;
      var j :| 0 <= j < |appeared| && appeared[j] == a;
      assert akeys[j] == k;
      SoleListed(p, p.appeared, appeared, akeys, j);
    }
  }

  datatype Result = Result(moved: nat, missing: nat)

  ghost function MovedIn(p: Plan, done: set<int>): set<int> {
    set v | v in done && Moved(p, v)
  }

  lemma ReconcilingNothing(t: Tables, p: Plan, now: Time)
    requires Valid(t) && Covers(t, p)
    ensures Reconciling(t, p, {}, now) == t
  {
    assert Dropped(p, {}) == {};
    var u := Reconciling(t, p, {}, now);
    assert u.files == t.files;
    assert u.frames == t.frames;
    assert forall f :: f in t.cards ==> f in u.frames;
    assert u.cards == t.cards;
    assert u.tags == t.tags;
  }

  /** Where the sweep touched what it should, the live paths are the touched ones. */
  ghost predicate Settled(t: Tables, u: Tables, root: int, start: Time) {
    SweptFrom(t, root, start) ==> LivePaths(u, root) == TouchedPaths(t, root, start)
  }

  lemma PassSettles(t: Tables, root: int, start: Time, now: Time)
    requires Valid(t)
    ensures Settled(t, Reconciled(t, root, start, now), root, start)
  {
    if SweptFrom(t, root, start) {
      LiveIsTouched(t, root, start, now);
    }
  }

  /** The guard lets a pass run where no clean row was counted before, or the sweep touched a row, and at least
      half as many as were counted, rounded down. */
  lemma GuardInNumbers(touched: nat, prior: int)
    ensures !GuardTrips(touched, prior) <==> prior <= 0 || (touched >= 1 && 2 * touched + 1 >= prior)
  {
  }

  /** reconcile_root. The statement that fault numbers throws; r is then nothing, and done and half say how
      far the pass got. */
  method ReconcileRoot(db: Database, root: int, start: Time, prior: int, now: Time, fault: Option<nat>)
    returns (r: Option<Result>, ghost done: set<int>, ghost half: Option<int>)
    requires Valid(db.Snap())
    modifies db
    ensures Valid(db.Snap())
    ensures fault.None? ==> r.Some?
    ensures var touched, p := |TouchedIds(old(db.Snap()), root, start)|, PlanOf(old(db.Snap()), root, start);
            if prior <= 0 || (touched >= 1 && 2 * touched + 1 >= prior) then
              && db.Snap() == PassTo(old(db.Snap()), p, done, half, now)
              && (r.Some? ==>
                    && db.Snap() == Reconciled(old(db.Snap()), root, start, now)
                    && r.value.moved == |MovedIn(p, p.vanished)|
                    && r.value.moved + r.value.missing == |Vanished(old(db.Snap()), root, start)|
                    && Settled(old(db.Snap()), db.Snap(), root, start))
            else
              db.Snap() == old(db.Snap()) && r == Some(Result(0, 0))
  {
    done, half := {}, None;
    ghost var t := db.Snap();
    ghost var p := PlanOf(t, root, start);
    var seenNow := |TouchedIds(db.Snap(), root, start)|;
    if prior > 0 && (seenNow == 0 || seenNow < prior / 2) {
      return Some(Result(0, 0)), {}, None;
    }
    var vanished := Select(Vanished(db.Snap(), root, start));
    var appeared := Select(Appeared(db.Snap(), root, start));
    var rows := db.files; // the columns the second SELECT fetched
    var akeys := SelectKeys(db, root, start, appeared, p.appeared, p);
    var byKey, ambiguous := IndexByKey(akeys);
    var vkeys := SelectKeys(db, root, start, vanished, p.vanished, p);
    var count := CountKeys(vkeys);
    r, done, half := Settle(db, p, vanished, vkeys, appeared, akeys, rows, byKey, ambiguous, count, now, fault);
    CutValid(t, p, done, half, now);
    if r.Some? {
      BetweenRows(t, p, p.vanished, now);
      PassSettles(t, root, start, now);
    }
    hide PassTo, Reconciling, Valid, MovedIn, Settled;
  }

  lemma MovedGrows(p: Plan, done: set<int>, v: int)
    requires v !in done
    ensures |MovedIn(p, done + {v})| == |MovedIn(p, done)| + if Moved(p, v) then 1 else 0
  {
    assert MovedIn(p, done + {v}) == MovedIn(p, done) + if Moved(p, v) then {v} else {};
  }

  /** Statement `ran` deletes the duplicate, the next one re-anchors the survivor. */
  method ReanchorTurn(db: Database, ghost t: Tables, ghost p: Plan, ghost done: set<int>, v: int, a: int, row: FileRow,
      now: Time, fault: Option<nat>, ran: nat)
    returns (thrown: bool, ghost half: Option<int>)
    requires Valid(t) && Covers(t, p) && done <= p.vanished && v in p.vanished && v !in done
    requires db.Snap() == Reconciling(t, p, done, now)
    requires Moved(p, v) && a == TargetOf(p, v) && row == t.files[a]
    modifies db
    ensures thrown <==> fault == Some(ran) || fault == Some(ran + 1)
    ensures !thrown ==> db.Snap() == Reconciling(t, p, done + {v}, now)
    ensures thrown ==> db.Snap() == PassTo(t, p, done, half, now)
  {
    TargetPathFree(t, p, done, now, v);
    MoveStep(t, p, done, now, v);
    BetweenRows(t, p, done, now);
    BetweenStatements(t, p, done, v, now);
    hide PassTo;
    if fault == Some(ran) {
      return true, None;
    }
    DeleteFile(db, a);
    if fault == Some(ran + 1) {
      return true, Some(v);
    }
    UpdateAnchor(db, v, row, now);
    thrown, half := false, None;
  }

  method MissingTurn(db: Database, ghost t: Tables, ghost p: Plan, ghost done: set<int>, v: int, now: Time,
      fault: Option<nat>, ran: nat)
    returns (thrown: bool)
    requires Covers(t, p) && done <= p.vanished && v in p.vanished && v !in done
    requires db.Snap() == Reconciling(t, p, done, now)
    requires !Moved(p, v)
    modifies db
    ensures thrown <==> fault == Some(ran)
    ensures !thrown ==> db.Snap() == Reconciling(t, p, done + {v}, now)
    ensures thrown ==> db.Snap() == PassTo(t, p, done, None, now)
  {
    MissingStep(t, p, done, now, v);
    BetweenRows(t, p, done, now);
    hide PassTo;
    if fault == Some(ran) {
      return true;
    }
    UpdateMissing(db, v);
    thrown := false;
  }

  function Firsts(rows: seq<int>, n: nat): set<int>
    requires n <= |rows|
  {
    set i | 0 <= i < n :: rows[i]
  }

  lemma FirstsGrow(p: Plan, rows: seq<int>, keys: seq<seq<int>>, i: nat)
    requires Lists(p, p.vanished, rows, keys) && i < |rows|
    ensures rows[i] in p.vanished && rows[i] !in Firsts(rows, i)
    ensures Firsts(rows, i + 1) == Firsts(rows, i) + {rows[i]}
  {
  }

  lemma FirstsAll(p: Plan, rows: seq<int>, keys: seq<seq<int>>)
    requires Lists(p, p.vanished, rows, keys)
    ensures Firsts(rows, |rows|) == p.vanished
  {
    forall id | id in p.vanished
      ensures id in Firsts(rows, |rows|)
    {
      assert id in rows;
      var i :| 0 <= i < |rows| && rows[i] == id;
    }
  }

  /** One turn: look the i-th vanished row up, then move it or mark it. */
  method LoopTurn(db: Database, ghost t: Tables, ghost p: Plan, vanished: seq<int>, vkeys: seq<seq<int>>,
                  appeared: seq<int>, ghost akeys: seq<seq<int>>, rows: map<int, FileRow>,
                  byKey: map<seq<int>, nat>, ambiguous: set<seq<int>>, count: map<seq<int>, nat>, i: nat, now: Time,
                  fault: Option<nat>, ran: nat)
    returns (moved: bool, thrown: bool, ghost half: Option<int>)
    requires Valid(t) && Covers(t, p) && rows == t.files
    requires Lists(p, p.vanished, vanished, vkeys) && Counts(vkeys, count) && i < |vanished|
    requires Lists(p, p.appeared, appeared, akeys) && Indexes(akeys, byKey, ambiguous)
    requires Firsts(vanished, i) <= p.vanished && db.Snap() == Reconciling(t, p, Firsts(vanished, i), now)
    modifies db
    ensures moved <==> Moved(p, vanished[i])
    ensures thrown ==> fault.Some?
    ensures !thrown ==> db.Snap() == Reconciling(t, p, Firsts(vanished, i + 1), now)
    ensures thrown ==> db.Snap() == PassTo(t, p, Firsts(vanished, i), half, now)
  {
    var vid, k := vanished[i], vkeys[i];
    FirstsGrow(p, vanished, vkeys, i);
    LookupFindsTarget(p, vanished, vkeys, appeared, akeys, byKey, ambiguous, count, i);
    moved := k != [] && k !in ambiguous && count[k] == 1 && k in byKey;
    half := None;
    if moved {
      thrown, half := ReanchorTurn(db, t, p, Firsts(vanished, i), vid, appeared[byKey[k]], rows[appeared[byKey[k]]],
          now,
          fault, ran);
    } else {
      thrown := MissingTurn(db, t, p, Firsts(vanished, i), vid, now, fault, ran);
    }
  }

  /** The loop over the vanished rows. The DELETE frees the unique path key the UPDATE after it needs. */
  method Settle(db: Database, ghost p: Plan, vanished: seq<int>, vkeys: seq<seq<int>>, appeared: seq<int>,
                ghost akeys: seq<seq<int>>, rows: map<int, FileRow>, byKey: map<seq<int>, nat>,
                ambiguous: set<seq<int>>, count: map<seq<int>, nat>, now: Time, fault: Option<nat>)
    returns (r: Option<Result>, ghost done: set<int>, ghost half: Option<int>)
    requires Valid(db.Snap()) && Covers(db.Snap(), p) && rows == db.files
    requires Lists(p, p.vanished, vanished, vkeys) && Counts(vkeys, count)
    requires Lists(p, p.appeared, appeared, akeys) && Indexes(akeys, byKey, ambiguous)
    modifies db
    ensures fault.None? ==> r.Some?
    ensures db.Snap() == PassTo(old(db.Snap()), p, done, half, now)
    ensures r.Some? ==>
              && db.Snap() == Reconciling(old(db.Snap()), p, p.vanished, now)
              && r.value.moved == |MovedIn(p, p.vanished)| && r.value.moved + r.value.missing == |p.vanished|
  {
    ghost var t := db.Snap();
    var moved, missing, i, ran := 0, 0, 0, 0;
    ReconcilingNothing(t, p, now);
    assert Firsts(vanished, 0) == {} && MovedIn(p, {}) == {};
    hide Valid, Covers, Reconciling, PassTo, Lists, Counts, Indexes, Firsts, MovedIn;
    while i < |vanished|
      invariant 0 <= i <= |vanished|
      invariant Firsts(vanished, i) <= p.vanished
      invariant db.Snap() == Reconciling(t, p, Firsts(vanished, i), now)
      invariant moved == |MovedIn(p, Firsts(vanished, i))| && moved + missing == i == |Firsts(vanished, i)|
    {
      FirstsGrow(p, vanished, vkeys, i);
      MovedGrows(p, Firsts(vanished, i), vanished[i]);
      assert Firsts(vanished, i + 1) <= p.vanished;
      var found, thrown;
      ghost var cut;
      found, thrown, cut := LoopTurn(db, t, p, vanished, vkeys, appeared, akeys, rows, byKey, ambiguous, count, i, now,
          fault, ran);
      if thrown {
        return None, Firsts(vanished, i), cut;
      }
      if found {
        moved, ran := moved + 1, ran + 2;
      } else {
        missing, ran := missing + 1, ran + 1;
      }
      i := i + 1;
    }
    FirstsAll(p, vanished, vkeys);
    BetweenRows(t, p, p.vanished, now);
    r, done, half := Some(Result(moved, missing)), p.vanished, None;
  }

  // ---- What the pass guarantees ----

  /** What a sweep has touched is not missing. */
  ghost predicate SweptFrom(t: Tables, root: int, start: Time) {
    forall id :: id in t.files && TouchedRow(t.files[id], root, start) ==> t.files[id].status != Missing
  }

  ghost predicate Live(t: Tables, root: int, id: int) {
    id in t.files && t.files[id].root == root && t.files[id].status != Missing
  }

  ghost function LivePaths(t: Tables, root: int): set<int> {
    set id | id in t.files && Live(t, root, id) :: t.files[id].place.hash
  }

  ghost function TouchedPaths(t: Tables, root: int, start: Time): set<int> {
    set id | id in t.files && TouchedRow(t.files[id], root, start) :: t.files[id].place.hash
  }

  /** A row that is not missing was either touched or has vanished. */
  lemma RowSets(t: Tables, root: int, start: Time)
    requires SweptFrom(t, root, start)
    ensures var p := PlanOf(t, root, start);
            && (forall id :: id in p.vanished ==> id in t.files && !TouchedRow(t.files[id], root, start))
            && (forall id :: id in t.files && t.files[id].root == root && t.files[id].status != Missing ==>
                  (id in p.vanished <==> !TouchedRow(t.files[id], root, start)))
  {
  }

  /** The target of a row that stays has not vanished itself. */
  lemma TargetNotVanished(p: Plan, v: int)
    requires v in p.vanished && Moved(p, v) && v !in Dropped(p, p.vanished)
    ensures TargetOf(p, v) !in p.vanished
  {
    assert Moves(p, v, TargetOf(p, v));
    assert TargetOf(p, v) in Dropped(p, p.vanished);
  }

  /** A row that takes over one that has not vanished stays. */
  lemma MoverStays(p: Plan, v: int, a: int)
    requires Moves(p, v, a) && a !in p.vanished
    ensures v !in Dropped(p, p.vanished)
  {
    forall w | w in p.vanished && Moved(p, w)
      ensures TargetOf(p, w) != v
    {
      assert Moves(p, w, TargetOf(p, w));
    }
  }

  /** A live row after the pass stands at a touched path. */
  lemma LiveWasTouched(t: Tables, root: int, start: Time, now: Time, id: int)
    requires SweptFrom(t, root, start) && Live(Reconciled(t, root, start, now), root, id)
    ensures Reconciled(t, root, start, now).files[id].place.hash in TouchedPaths(t, root, start)
  {
    var p := PlanOf(t, root, start);
    RowSets(t, root, start);
    if id in p.vanished {
      assert Moved(p, id);
      var a := TargetOf(p, id);
      assert Moves(p, id, a);
      TargetNotVanished(p, id);
    }
  }

  /** A touched path has a live row after the pass. */
  lemma TouchedStaysLive(t: Tables, root: int, start: Time, now: Time, id: int)
    requires SweptFrom(t, root, start) && id in t.files && TouchedRow(t.files[id], root, start)
    ensures t.files[id].place.hash in LivePaths(Reconciled(t, root, start, now), root)
  {
    var p, u := PlanOf(t, root, start), Reconciled(t, root, start, now);
    RowSets(t, root, start);
    if id in Dropped(p, p.vanished) {
      var v :| v in p.vanished && Moved(p, v) && TargetOf(p, v) == id;
      assert Moves(p, v, id);
      MoverStays(p, v, id);
      assert Live(u, root, v) && u.files[v].place.hash == t.files[id].place.hash;
    } else {
      assert Live(u, root, id);
    }
  }

  /** The sweep alone is authoritative: after the pass the live paths of the root are exactly those
      the sweep touched. */
  lemma LiveIsTouched(t: Tables, root: int, start: Time, now: Time)
    requires Valid(t) && SweptFrom(t, root, start)
    ensures LivePaths(Reconciled(t, root, start, now), root) == TouchedPaths(t, root, start)
  {
    hide Reconciled, TouchedRow, SweptFrom, PlanOf;
    var u := Reconciled(t, root, start, now);
    forall hash | hash in LivePaths(u, root)
      ensures hash in TouchedPaths(t, root, start)
    {
      var id :| id in u.files && Live(u, root, id) && u.files[id].place.hash == hash;
      LiveWasTouched(t, root, start, now, id);
    }
    forall hash | hash in TouchedPaths(t, root, start)
      ensures hash in LivePaths(u, root)
    {
      var id :| id in t.files && TouchedRow(t.files[id], root, start) && t.files[id].place.hash == hash;
      TouchedStaysLive(t, root, start, now, id);
    }
  }

  /** Rows of one root have as many paths as rows. */
  lemma {:induction false} PathsCount(files: map<int, FileRow>, root: int, ids: set<int>)
    requires UniquePaths(files) && ids <= files.Keys && forall id :: id in ids ==> files[id].root == root
    ensures |set id | id in ids :: files[id].place.hash| == |ids|
    decreases |ids|
  {
    var paths := set id | id in ids :: files[id].place.hash;
    if |ids| > 0 {
      assert exists id :: id in ids by {
        if forall id: int :: id !in ids {
          assert false;
        }
      }
      var id: int :| id in ids;
      var rest := ids - {id};
      PathsCount(files, root, rest);
      var restPaths := set i | i in rest :: files[i].place.hash;
      assert files[id].place.hash !in restPaths by {
        if j :| j in rest && files[j].place.hash == files[id].place.hash {
          assert At(files[j], files[id].root, files[id].place.hash);
        }
      }
      assert paths == restPaths + {files[id].place.hash};
    } else {
      assert ids == {};
      assert paths == {};
    }
  }

  function LiveIds(t: Tables, root: int): set<int> {
    set id | id in t.files && t.files[id].root == root && t.files[id].status != Missing
  }

  function OkIds(t: Tables, root: int): set<int> {
    set id | id in t.files && t.files[id].root == root && t.files[id].status == Ok
  }

  /** The pass leaves exactly as many live rows as the sweep touched. */
  lemma LiveCount(t: Tables, root: int, start: Time, now: Time)
    requires Valid(t) && SweptFrom(t, root, start)
    ensures |LiveIds(Reconciled(t, root, start, now), root)| == |TouchedIds(t, root, start)|
  {
    ReconciledValid(t, root, start, now);
    LiveIsTouched(t, root, start, now);
    LivePathCount(Reconciled(t, root, start, now), root);
    TouchedPathCount(t, root, start);
  }

  lemma ReconciledValid(t: Tables, root: int, start: Time, now: Time)
    requires Valid(t)
    ensures Valid(Reconciled(t, root, start, now))
  {
    ReconcilingValid(t, PlanOf(t, root, start), Vanished(t, root, start), now);
  }

  lemma LivePathCount(t: Tables, root: int)
    requires Valid(t)
    ensures |LivePaths(t, root)| == |LiveIds(t, root)|
  {
    PathsCount(t.files, root, LiveIds(t, root));
    assert LivePaths(t, root) == set id | id in LiveIds(t, root) :: t.files[id].place.hash;
  }

  lemma TouchedPathCount(t: Tables, root: int, start: Time)
    requires Valid(t)
    ensures |TouchedPaths(t, root, start)| == |TouchedIds(t, root, start)|
  {
    PathsCount(t.files, root, TouchedIds(t, root, start));
    assert TouchedPaths(t, root, start) == set id | id in TouchedIds(t, root, start) :: t.files[id].place.hash;
  }

  ghost function Guarded(t: Tables, root: int, start: Time, prior: int, now: Time): Tables {
    if GuardTrips(|TouchedIds(t, root, start)|, prior) then t else Reconciled(t, root, start, now)
  }

  lemma SubsetCount(a: set<int>, b: set<int>)
    requires a <= b
    ensures |a| <= |b|
  {
    assert b == a + (b - a);
  }

  /** Whether or not the guard trips, at least half of what was indexed cleanly before the sweep,
      and never nothing, stays live. */
  lemma HalfStaysLive(before: Tables, t: Tables, root: int, start: Time, now: Time)
    requires Valid(t) && SweptFrom(t, root, start)
    requires OkIds(before, root) <= LiveIds(t, root) && |OkIds(before, root)| > 0
    ensures var prior := |OkIds(before, root)|;
            && |LiveIds(Guarded(t, root, start, prior, now), root)| >= 1
            && |LiveIds(Guarded(t, root, start, prior, now), root)| >= prior / 2
  {
    SubsetCount(OkIds(before, root), LiveIds(t, root));
    LiveCount(t, root, start, now);
  }

  lemma DroppedAppeared(p: Plan, done: set<int>)
    ensures Dropped(p, done) <= p.appeared
  {
    forall id | id in Dropped(p, done)
      ensures id in p.appeared
    {
      var v :| v in done && Moved(p, v) && TargetOf(p, v) == id;
      assert Moves(p, v, id);
    }
  }

  lemma FramesOutlive(t: Tables, p: Plan, now: Time)
    requires Valid(t) && Covers(t, p)
    ensures var u := Reconciling(t, p, p.vanished, now);
            && (forall f :: f in t.frames && t.frames[f].file !in p.appeared ==>
                  f in u.frames && u.frames[f] == t.frames[f] && CardsOf(u, f) == CardsOf(t, f))
            && (forall q :: q in t.tags && q.0 in u.frames ==> q in u.tags)
  {
    DroppedAppeared(p, p.vanished);
  }

  /** A frame is lost only with a file row that appeared during the sweep; tags go with frames. */
  lemma FramesSurvive(t: Tables, root: int, start: Time, now: Time)
    requires Valid(t)
    ensures var u := Reconciled(t, root, start, now);
            && (forall f :: f in t.frames && !AppearedRow(t.files[t.frames[f].file], root, start) ==>
                  f in u.frames && u.frames[f] == t.frames[f] && CardsOf(u, f) == CardsOf(t, f))
            && (forall q :: q in t.tags && q.0 in u.frames ==> q in u.tags)
  {
    FramesOutlive(t, PlanOf(t, root, start), now);
  }

  /** A row is dropped by the pass exactly when it is some vanished row's move target. */
  lemma RowDropped(t: Tables, root: int, start: Time, now: Time, a: int)
    requires a in t.files
    ensures a !in Reconciled(t, root, start, now).files <==> exists v :: Moves(PlanOf(t, root, start), v, a)
  {
    var p := PlanOf(t, root, start);
    if a in Dropped(p, p.vanished) {
      var v :| v in p.vanished && Moved(p, v) && TargetOf(p, v) == a;
      assert Moves(p, v, a);
    }
    if v :| Moves(p, v, a) {
      MovesMatch(p, v, a, v, TargetOf(p, v));
    }
  }

  /** And a frame with its row. */
  lemma FrameDropped(t: Tables, root: int, start: Time, now: Time, f: int)
    requires Valid(t) && f in t.frames
    ensures f !in Reconciled(t, root, start, now).frames
        <==> exists v :: Moves(PlanOf(t, root, start), v, t.frames[f].file)
  {
    RowDropped(t, root, start, now, t.frames[f].file);
    hide Moves;
  }

  /** A vanished row survives the pass exactly when it is not its own move target: when its first
      and last stamp do not enclose the start of the sweep, or its content key is shared. */
  lemma VanishedSurvives(t: Tables, root: int, start: Time, now: Time, v: int)
    requires v in Vanished(t, root, start)
    ensures v in Reconciled(t, root, start, now).files <==> !Moves(PlanOf(t, root, start), v, v)
  {
    var p := PlanOf(t, root, start);
    if v in Dropped(p, p.vanished) {
      var w :| w in p.vanished && Moved(p, w) && TargetOf(p, w) == v;
      assert Moves(p, w, v);
    }
    if Moves(p, v, v) {
      MovesMatch(p, v, v, v, TargetOf(p, v));
    }
  }

  // ---- A pass cut short ----

  /** The vanished rows whose DELETE has been reached: those dealt with, and perhaps one that was not
      re-anchored any more. */
  function Reached(p: Plan, done: set<int>, half: Option<int>): set<int> {
    (done + if half.Some? then {half.value} else {}) * p.vanished
  }

  /** Each statement of the pass commits on its own. After some of them: the vanished rows in `done` are
      dealt with, and the duplicate of one more may be deleted. */
  ghost function PassTo(t: Tables, p: Plan, done: set<int>, half: Option<int>, now: Time): Tables
    requires Covers(t, p)
  {
    var gone := Dropped(p, Reached(p, done, half));
    Without(t, gone).(files := map i | i in t.files && i !in gone :: RowAfter(t, p, done * p.vanished, now, i))
  }

  /** That is where the loop stands between two rows, */
  lemma BetweenRows(t: Tables, p: Plan, done: set<int>, now: Time)
    requires Covers(t, p) && done <= p.vanished
    ensures PassTo(t, p, done, None, now) == Reconciling(t, p, done, now)
  {
    assert Reached(p, done, None) == done && done * p.vanished == done;
  }

  /** and between the DELETE and the UPDATE of one. */
  lemma BetweenStatements(t: Tables, p: Plan, done: set<int>, v: int, now: Time)
    requires Valid(t) && Covers(t, p) && done <= p.vanished && v in p.vanished && v !in done && Moved(p, v)
    ensures PassTo(t, p, done, Some(v), now) == Without(Reconciling(t, p, done, now), {TargetOf(p, v)})
  {
    var a, u := TargetOf(p, v), Reconciling(t, p, done, now);
    assert Reached(p, done, Some(v)) == done + {v} && done * p.vanished == done;
    DroppedGrows(p, done, v);
    WithoutTwice(t, Dropped(p, done), a, u.files);
    assert PassTo(t, p, done, Some(v), now).files == Without(u, {a}).files;
  }

  lemma WithoutValid(t: Tables, ids: set<int>)
    requires Valid(t)
    ensures Valid(Without(t, ids))
  {
  }

  /** Wherever the pass is cut short, the tables are valid. */
  lemma CutValid(t: Tables, p: Plan, done: set<int>, half: Option<int>, now: Time)
    requires Valid(t) && Covers(t, p)
    ensures Valid(PassTo(t, p, done, half, now))
  {
    var d := done * p.vanished;
    ReconcilingValid(t, p, d, now);
    if half.Some? && half.value in p.vanished && half.value !in d && Moved(p, half.value) {
      WithoutValid(Reconciling(t, p, d, now), {TargetOf(p, half.value)});
      BetweenStatements(t, p, d, half.value, now);
      assert Reached(p, done, half) == Reached(p, d, half) && d * p.vanished == d;
    } else {
      BetweenRows(t, p, d, now);
      UnmovedHalf(p, done, half);
      assert d * p.vanished == d;
    }
  }

  lemma UnmovedHalf(p: Plan, done: set<int>, half: Option<int>)
    requires half.Some? && half.value in p.vanished && half.value !in done ==> !Moved(p, half.value)
    ensures Dropped(p, Reached(p, done, half)) == Dropped(p, done * p.vanished)
    ensures Reached(p, done * p.vanished, None) == done * p.vanished
  {
  }

  /** It is too late for a row exactly when it is the move target of a row that was reached. */
  lemma CutDropped(t: Tables, p: Plan, done: set<int>, half: Option<int>, now: Time, a: int)
    requires Covers(t, p) && a in t.files
    ensures a !in PassTo(t, p, done, half, now).files <==> exists v :: (v in done || half == Some(v)) && Moves(p, v, a)
  {
    var reached := Reached(p, done, half);
    if a in Dropped(p, reached) {
      var v :| v in reached && Moved(p, v) && TargetOf(p, v) == a;
      assert Moves(p, v, a);
    }
    if v :| (v in done || half == Some(v)) && Moves(p, v, a) {
      MovesMatch(p, v, a, v, TargetOf(p, v));
      assert v in reached;
    }
  }

  lemma CutRow(t: Tables, p: Plan, done: set<int>, half: Option<int>, now: Time, id: int)
    requires Covers(t, p) && id in PassTo(t, p, done, half, now).files
    ensures var row := PassTo(t, p, done, half, now).files[id];
            && id in t.files && row.firstSeen == t.files[id].firstSeen && row.root == t.files[id].root
            && (row.lastSeen == t.files[id].lastSeen || row.lastSeen == Some(now))
            && (id !in p.vanished ==> row == t.files[id])
  {
  }

  /** Frames, cards and tags go with file rows, and no others go. */
  lemma CutFrames(t: Tables, p: Plan, done: set<int>, half: Option<int>, now: Time)
    requires Valid(t) && Covers(t, p)
    ensures var u := PassTo(t, p, done, half, now);
            && (forall f :: f in t.frames ==> (f in u.frames <==> t.frames[f].file in u.files))
            && (forall f :: f in t.frames && f in u.frames ==>
                  u.frames[f] == t.frames[f] && CardsOf(u, f) == CardsOf(t, f))
            && (forall q :: q in t.tags && q.0 in u.frames ==> q in u.tags)
  {
  }

  /** What is live after the whole pass is live wherever it is cut short. */
  lemma CutKeepsLive(t: Tables, root: int, start: Time, now: Time, done: set<int>, half: Option<int>)
    ensures LiveIds(Reconciled(t, root, start, now), root)
         <= LiveIds(PassTo(t, PlanOf(t, root, start), done, half, now), root)
  {
    var p := PlanOf(t, root, start);
    forall id | id in LiveIds(Reconciled(t, root, start, now), root)
      ensures id in LiveIds(PassTo(t, p, done, half, now), root)
    {
      LiveAfterCut(t, root, p, now, done, half, id);
    }
  }

  lemma LiveAfterCut(t: Tables, root: int, p: Plan, now: Time, done: set<int>, half: Option<int>, id: int)
    requires Covers(t, p) && id in LiveIds(Reconciling(t, p, p.vanished, now), root)
    requires forall v :: v in p.vanished ==> t.files[v].status != Missing
    ensures id in LiveIds(PassTo(t, p, done, half, now), root)
  {
    var reached := Reached(p, done, half);
    assert Dropped(p, reached) <= Dropped(p, p.vanished);
    assert id in PassTo(t, p, done, half, now).files;
    hide Moved, Dropped, Reached;
  }

  lemma WholePass(t: Tables, root: int, start: Time, now: Time)
    ensures var p := PlanOf(t, root, start); Reconciled(t, root, start, now) == PassTo(t, p, p.vanished, None, now)
  {
    BetweenRows(t, PlanOf(t, root, start), Vanished(t, root, start), now);
  }
}
