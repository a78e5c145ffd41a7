/** The worker pass of a sweep. Every work item is looked up, then handled; workers interleave the
    two steps of their items in any order. */
module Sweep {
  import opened Options
  import opened Tables
  import opened FrameStore
  import opened Database

  /** What a worker meets at a path: stat failed, a file younger than the settle window, a sidecar
      (recorded in another table), or a frame file with its header, or what reading it threw. */
  datatype Found =
    | Gone
    | Settling
    | Sidecar(recorded: bool)
    | Unreadable(what: string)
    | Readable(hdus: seq<Hdu>, faults: seq<Option<Fault>>, what: string)

  datatype Item = Item(root: int, place: Place, size: int, mtime: Time, inode: int, found: Found)

  function Info(item: Item): FileInfo {
    FileInfo(item.root, item.place, Some(item.size), Some(item.mtime), Some(item.inode))
  }

  predicate IsFrameFile(item: Item) {
    item.found.Unreadable? || item.found.Readable?
  }

  ghost predicate KeyedBy(item: Item, root: int, hash: int) {
    item.root == root && item.place.hash == hash
  }

  /** mtimes are compared to the second: the first 19 characters of their text. */
  predicate SameSecond(a: Time, b: Time) {
    a / 1000000 == b / 1000000
  }

  /** Indexed cleanly before, with the same size and mtime. */
  predicate Unchanged(size: Option<int>, mtime: Option<Time>, status: Status, item: Item) {
    && status == Ok
    && size == Some(item.size)
    && mtime.Some?
    && SameSecond(mtime.value, item.mtime)
  }

  ghost predicate Skips(t: Tables, item: Item) {
    && Known(t, item.root, item.place.hash)
    && var row := t.files[IdAt(t, item.root, item.place.hash)];
       Unchanged(row.size, row.mtime, row.status, item)
  }

  /** UPDATE files SET last_seen_utc = now, status = 'ok' WHERE id = .. */
  function Touched(t: Tables, id: int, now: Time): Tables {
    if id in t.files then t.(files := t.files[id := t.files[id].(lastSeen := Some(now), status := Ok)]) else t
  }

  const SECOND := 1000000

  /** The session's local time: `zone` seconds ahead of UTC. */
  function LocalTime(now: Time, zone: int): Time {
    now + zone * SECOND
  }

  /** The error row. An insert leaves first_seen_utc to its default, CURRENT_TIMESTAMP(6), which is
      the session's local time. */
  ghost function ErrorUpserted(t: Tables, item: Item, what: string, now: Time, zone: int): Tables {
    if Known(t, item.root, item.place.hash) then
      var id := IdAt(t, item.root, item.place.hash);
      t.(files := t.files[id := t.files[id].(status := Error, error := Some(Prefix(what, 500)), lastSeen := Some(now))])
    else
      t.(files := t.files[t.nextFile := ErrorRow(item, what, now, zone)], nextFile := t.nextFile + 1)
  }

  function ErrorRow(item: Item, what: string, now: Time, zone: int): FileRow {
    FileRow(item.root, item.place, Some(item.size), Some(item.mtime), None, Error, Some(Prefix(what, 500)),
        LocalTime(now, zone),
            Some(now), None)
  }

  /** A new or changed file: read, store, and on any exception record the error row instead. */
  ghost function Processed(t: Tables, item: Item, now: Time, zone: int): Tables
    requires IsFrameFile(item)
  {
    match item.found
    case Readable(hdus, faults, what) =>
      if Succeeds(faults, hdus, 0) then Stored(t, Info(item), hdus, now) else ErrorUpserted(t, item, what, now, zone)
    case Unreadable(what) => ErrorUpserted(t, item, what, now, zone)
  }

  /** One item from look-up to end, undisturbed. */
  ghost function Handled(t: Tables, item: Item, now: Time, zone: int): Tables {
    if !IsFrameFile(item) then t
    else if Skips(t, item) then Touched(t, IdAt(t, item.root, item.place.hash), now)
    else Processed(t, item, now, zone)
  }

  // ---- What an item makes its path show ----

  function ErrorShown(before: Option<FileView>, item: Item, what: string): FileView {
    match before
    case Some(v) => v.(status := Error, error := Some(Prefix(what, 500)))
    case None => FileView(item.place, Some(item.size), Some(item.mtime), None, Error, Some(Prefix(what, 500)), map[])
  }

  ghost function Shown(before: Option<FileView>, item: Item): Option<FileView> {
    if !IsFrameFile(item) then before
    else if before.Some? && Unchanged(before.value.size, before.value.mtime, before.value.status, item) then before
    else match item.found
      case Readable(hdus, faults, what) =>
        if Succeeds(faults, hdus, 0) then Some(FileShown(before, Info(item), hdus))
            else Some(ErrorShown(before, item, what))
      case Unreadable(what) => Some(ErrorShown(before, item, what))
  }

  /** t and u show the same except at one path, where u shows v. */
  ghost predicate ShowsOnly(t: Tables, u: Tables, root: int, hash: int, v: Option<FileView>) {
    && ViewAt(u, root, hash) == v
    && forall r, h :: (r, h) != (root, hash) ==> ViewAt(u, r, h) == ViewAt(t, r, h)
  }

  lemma RowRewrittenElsewhere(t: Tables, u: Tables, id: int, row: FileRow, r: int, h: int)
    requires Valid(t) && id in t.files && Valid(u)
    requires u == t.(files := t.files[id := row])
    requires row.root == t.files[id].root && row.place == t.files[id].place
    requires (r, h) != (row.root, row.place.hash)
    ensures ViewAt(u, r, h) == ViewAt(t, r, h)
  {
    StoredElsewhere(t, u, id, r, h);
  }

  lemma RowRewrittenView(t: Tables, u: Tables, id: int, row: FileRow)
    requires Valid(u) && id in t.files
    requires u == t.(files := t.files[id := row])
    ensures ViewAt(u, row.root, row.place.hash) ==
            Some(FileView(row.place, row.size, row.mtime, row.inode, row.status, row.error, FramesOf(t, id)))
  {
    ViewOfRow(u, id);
    SameFrames(u, t, id);
  }

  /** Rewriting stamp, status and error columns of one row changes no other path. */
  lemma RowRewritten(t: Tables, u: Tables, id: int, row: FileRow)
    requires Valid(t) && id in t.files
    requires u == t.(files := t.files[id := row])
    requires row.root == t.files[id].root && row.place == t.files[id].place && row.firstSeen == t.files[id].firstSeen
    ensures Valid(u) && Kept(t, u)
    ensures ShowsOnly(t, u, row.root, row.place.hash,
              Some(FileView(row.place, row.size, row.mtime, row.inode, row.status, row.error, FramesOf(t, id))))
  {
    RowReplacedTables(t, u, id, row);
    RowRewrittenView(t, u, id, row);
    hide Valid, Kept, ViewAt;
    forall r, h | (r, h) != (row.root, row.place.hash)
      ensures ViewAt(u, r, h) == ViewAt(t, r, h)
    {
      RowRewrittenElsewhere(t, u, id, row, r, h);
    }
  }

  lemma ErrorUpsertedEffect(t: Tables, item: Item, what: string, now: Time, zone: int)
    requires Valid(t)
    ensures var u := ErrorUpserted(t, item, what, now, zone);
            && Valid(u) && Kept(t, u)
            && ShowsOnly(t, u, item.root, item.place.hash,
                Some(ErrorShown(ViewAt(t, item.root, item.place.hash), item, what)))
  {
    if Known(t, item.root, item.place.hash) {
      var id := IdAt(t, item.root, item.place.hash);
      var u := ErrorUpserted(t, item, what, now, zone);
      RowRewritten(t, u, id, u.files[id]);
    } else {
      RowAdded(t, ErrorUpserted(t, item, what, now, zone), ErrorRow(item, what, now, zone));
    }
  }

  /** A row inserted for a new path shows its columns and no frames there, and changes no other path. */
  lemma RowAdded(t: Tables, u: Tables, row: FileRow)
    requires Valid(t) && !Known(t, row.root, row.place.hash)
    requires u == t.(files := t.files[t.nextFile := row], nextFile := t.nextFile + 1)
    ensures Valid(u) && Kept(t, u)
    ensures ShowsOnly(t, u, row.root, row.place.hash,
              Some(FileView(row.place, row.size, row.mtime, row.inode, row.status, row.error, map[])))
  {
    var id := t.nextFile;
    RowAddedTables(t, u, row);
    ViewOfRow(u, id);
    NoFramesYet(u, id, t);
    hide Valid, Kept, ViewAt;
    forall r, h | (r, h) != (row.root, row.place.hash)
      ensures ViewAt(u, r, h) == ViewAt(t, r, h)
    {
      StoredElsewhere(t, u, id, r, h);
    }
  }

  lemma TouchedEffect(t: Tables, item: Item, id: int, now: Time)
    requires Valid(t) && id in t.files && At(t.files[id], item.root, item.place.hash)
    requires t.files[id].status == Ok
    ensures var u := Touched(t, id, now);
            && Valid(u) && Kept(t, u)
            && ShowsOnly(t, u, item.root, item.place.hash, ViewAt(t, item.root, item.place.hash))
  {
    RowRewritten(t, Touched(t, id, now), id, t.files[id].(lastSeen := Some(now), status := Ok));
    ViewOfRow(t, id);
  }

  lemma ProcessedEffect(t: Tables, item: Item, now: Time, zone: int)
    requires Valid(t) && IsFrameFile(item) && !Skips(t, item)
    ensures var u := Processed(t, item, now, zone);
            && Valid(u) && Kept(t, u)
            && ShowsOnly(t, u, item.root, item.place.hash, Shown(ViewAt(t, item.root, item.place.hash), item))
  {
    match item.found
    case Readable(hdus, faults, what) =>
      if Succeeds(faults, hdus, 0) {
        StoredEffect(t, Info(item), hdus, now);
      } else {
        ErrorUpsertedEffect(t, item, what, now, zone);
      }
    case Unreadable(what) =>
      ErrorUpsertedEffect(t, item, what, now, zone);
  }

  /** Handling one item shows exactly Shown at its path, and loses nothing. */
  lemma HandledEffect(t: Tables, item: Item, now: Time, zone: int)
    requires Valid(t)
    ensures var u := Handled(t, item, now, zone);
            && Valid(u) && Kept(t, u)
            && ShowsOnly(t, u, item.root, item.place.hash, Shown(ViewAt(t, item.root, item.place.hash), item))
  {
    if IsFrameFile(item) {
      if Skips(t, item) {
        TouchedEffect(t, item, IdAt(t, item.root, item.place.hash), now);
      } else {
        ProcessedEffect(t, item, now, zone);
      }
    }
  }

  // ---- Interleaved workers ----

  /** Where the worker holding an item is; Decided carries the id to touch if the look-up found the
      file unchanged. */
  datatype Phase = Waiting | Decided(touch: Option<int>) | Finished

  datatype State = State(t: Tables, phases: seq<Phase>)

  ghost function Advance(s: State, items: seq<Item>, i: nat, now: Time, zone: int): State
    requires i < |items| == |s.phases|
  {
    match s.phases[i]
    case Waiting =>
      if !IsFrameFile(items[i]) then s.(phases := s.phases[i := Finished])
      else if Skips(s.t, items[i]) then
        s.(phases := s.phases[i := Decided(Some(IdAt(s.t, items[i].root, items[i].place.hash)))])
      else s.(phases := s.phases[i := Decided(None)])
    case Decided(Some(id)) => State(Touched(s.t, id, now), s.phases[i := Finished])
    case Decided(None) =>
      State(if IsFrameFile(items[i]) then Processed(s.t, items[i], now, zone) else s.t, s.phases[i := Finished])
    case Finished => s
  }

  ghost predicate DistinctPaths(items: seq<Item>) {
    forall i, j :: 0 <= i < |items| && 0 <= j < |items| && KeyedBy(items[i], items[j].root, items[j].place.hash)
        ==> i == j
  }

  /** Each path shows its outcome if its item is finished, and its initial state otherwise. */
  ghost predicate PathwiseDone(t0: Tables, items: seq<Item>, s: State) {
    && |s.phases| == |items|
    && (forall i :: 0 <= i < |items| ==>
          ViewAt(s.t, items[i].root, items[i].place.hash) ==
          var before := ViewAt(t0, items[i].root, items[i].place.hash);
          if s.phases[i].Finished? then Shown(before, items[i]) else before)
    && (forall r, h :: (forall i :: 0 <= i < |items| ==> !KeyedBy(items[i], r, h)) ==>
        ViewAt(s.t, r, h) == ViewAt(t0, r, h))
  }

  /** A decision still holds when it is acted on, whatever the other workers did in between. */
  ghost predicate DecisionsHold(items: seq<Item>, s: State)
    requires |s.phases| == |items|
  {
    forall i :: 0 <= i < |items| && s.phases[i].Decided? ==>
      && IsFrameFile(items[i])
      && (s.phases[i].touch.None? ==> !Skips(s.t, items[i]))
      && (s.phases[i].touch.Some? ==>
            && Skips(s.t, items[i])
            && s.phases[i].touch.value == IdAt(s.t, items[i].root, items[i].place.hash))
  }

  ghost predicate SweepInv(t0: Tables, items: seq<Item>, s: State) {
    Valid(s.t) && Kept(t0, s.t) && PathwiseDone(t0, items, s) && DecisionsHold(items, s)
  }

  lemma SkipsSeen(t: Tables, item: Item)
    requires Valid(t)
    ensures Skips(t, item) <==>
            var v := ViewAt(t, item.root, item.place.hash);
            v.Some? && Unchanged(v.value.size, v.value.mtime, v.value.status, item)
  {
  }

  lemma IdKept(t: Tables, u: Tables, root: int, hash: int)
    requires Valid(u) && Kept(t, u) && Known(t, root, hash)
    ensures Known(u, root, hash) && IdAt(u, root, hash) == IdAt(t, root, hash)
  {
    assert At(u.files[IdAt(t, root, hash)], root, hash);
  }

  lemma KeptTwice(t: Tables, u: Tables, v: Tables)
    requires Kept(t, u) && Kept(u, v)
    ensures Kept(t, v)
  {
    forall i | i in t.files
      ensures i in v.files && v.files[i].firstSeen == t.files[i].firstSeen
          && At(v.files[i], t.files[i].root, t.files[i].place.hash)
    {
      assert i in u.files && At(u.files[i], t.files[i].root, t.files[i].place.hash);
    }
    forall f | f in t.frames
      ensures f in v.frames && SameSlot(v.frames[f], t.frames[f]) && v.frames[f].flatSet == t.frames[f].flatSet
    {
      assert f in u.frames;
    }
  }

  lemma AdvanceKeepsInv(t0: Tables, items: seq<Item>, s: State, i: nat, now: Time, zone: int)
    requires SweepInv(t0, items, s) && DistinctPaths(items) && i < |items|
    ensures SweepInv(t0, items, Advance(s, items, i, now, zone))
  {
    var s', item := Advance(s, items, i, now, zone), items[i];
    match s.phases[i]
    case Waiting =>
      SkipsSeen(s.t, item);
    case Finished =>
    case Decided(touch) =>
      SkipsSeen(s.t, item);
      if touch.Some? {
        TouchedEffect(s.t, item, touch.value, now);
      } else {
        ProcessedEffect(s.t, item, now, zone);
      }
      assert s.phases[i].Decided?;
      OthersUndisturbed(t0, items, s, s', i);
  }

  /** Acting on item i leaves every other path, and every other decision, as it was. */
  lemma OthersUndisturbed(t0: Tables, items: seq<Item>, s: State, s': State, i: nat)
    requires SweepInv(t0, items, s) && DistinctPaths(items) && i < |items| && !s.phases[i].Finished?
    requires Valid(s'.t) && Kept(s.t, s'.t) && s'.phases == s.phases[i := Finished]
    requires ShowsOnly(s.t, s'.t, items[i].root, items[i].place.hash,
               Shown(ViewAt(t0, items[i].root, items[i].place.hash), items[i]))
    ensures SweepInv(t0, items, s')
  {
    KeptTwice(t0, s.t, s'.t);
    forall j | 0 <= j < |items| && j != i
      ensures ViewAt(s'.t, items[j].root, items[j].place.hash) == ViewAt(s.t, items[j].root, items[j].place.hash)
      ensures s'.phases[j].Decided? ==> (Skips(s'.t, items[j]) <==> Skips(s.t, items[j]))
      ensures s'.phases[j].Decided? && Skips(s.t, items[j]) ==>
                IdAt(s'.t, items[j].root, items[j].place.hash) == IdAt(s.t, items[j].root, items[j].place.hash)
    {
      assert !KeyedBy(items[i], items[j].root, items[j].place.hash);
      SkipsSeen(s.t, items[j]);
      SkipsSeen(s'.t, items[j]);
      if Skips(s.t, items[j]) {
        IdKept(s.t, s'.t, items[j].root, items[j].place.hash);
      }
    }
    forall r, h | forall k :: 0 <= k < |items| ==> !KeyedBy(items[k], r, h)
      ensures ViewAt(s'.t, r, h) == ViewAt(t0, r, h)
    {
      assert !KeyedBy(items[i], r, h);
    }
  }

  datatype Turn = Turn(i: nat, now: Time)

  ghost function Run(s: State, items: seq<Item>, turns: seq<Turn>, zone: int): State
    requires |s.phases| == |items| && forall n :: 0 <= n < |turns| ==> turns[n].i < |items|
    ensures |Run(s, items, turns, zone).phases| == |items|
  {
    if turns == [] then s
    else
      var last := turns[|turns| - 1];
      Advance(Run(s, items, turns[..|turns| - 1], zone), items, last.i, last.now, zone)
  }

  ghost function Start(t: Tables, items: seq<Item>): State {
    State(t, seq(|items|, _ => Waiting))
  }

  lemma {:induction false} RunKeepsInv(t0: Tables, items: seq<Item>, turns: seq<Turn>, zone: int)
    requires Valid(t0) && DistinctPaths(items) && forall n :: 0 <= n < |turns| ==> turns[n].i < |items|
    ensures SweepInv(t0, items, Run(Start(t0, items), items, turns, zone))
  {
    if turns != [] {
      RunKeepsInv(t0, items, turns[..|turns| - 1], zone);
      AdvanceKeepsInv(t0, items, Run(Start(t0, items), items, turns[..|turns| - 1], zone),
                      turns[|turns| - 1].i, turns[|turns| - 1].now, zone);
    }
  }

  ghost predicate Complete(s: State) {
    forall i :: 0 <= i < |s.phases| ==> s.phases[i].Finished?
  }

  // ---- The sequential sweep ----

  /** The items in order, one after the other, with a stamp each. */
  ghost function Swept(t: Tables, items: seq<Item>, stamps: seq<Time>, zone: int): Tables
    requires |stamps| == |items|
  {
    if items == [] then t
    else Handled(Swept(t, items[..|items| - 1], stamps[..|items| - 1], zone), items[|items| - 1], stamps[|items| - 1],
        zone)
  }

  lemma {:induction false} SweptEffect(t: Tables, items: seq<Item>, stamps: seq<Time>, zone: int)
    requires Valid(t) && |stamps| == |items| && DistinctPaths(items)
    ensures Valid(Swept(t, items, stamps, zone)) && Kept(t, Swept(t, items, stamps, zone))
    ensures PathwiseDone(t, items, State(Swept(t, items, stamps, zone), seq(|items|, _ => Finished)))
  {
    if items != [] {
      var n := |items| - 1;
      SweptEffect(t, items[..n], stamps[..n], zone);
      var u, v := Swept(t, items[..n], stamps[..n], zone), Swept(t, items, stamps, zone);
      HandledEffect(u, items[n], stamps[n], zone);
      KeptTwice(t, u, v);
      hide Valid, Kept, Swept;
      PathwiseStep(t, u, v, items);
    }
  }

  lemma PathwiseStep(t: Tables, u: Tables, v: Tables, items: seq<Item>)
    requires items != [] && DistinctPaths(items)
    requires PathwiseDone(t, items[..|items| - 1], State(u, seq(|items| - 1, _ => Finished)))
    requires var last := items[|items| - 1];
             ShowsOnly(u, v, last.root, last.place.hash, Shown(ViewAt(u, last.root, last.place.hash), last))
    ensures PathwiseDone(t, items, State(v, seq(|items|, _ => Finished)))
  {
    hide Shown, ViewAt;
    var n := |items| - 1;
    var front, last := items[..n], items[n];
    assert forall i :: 0 <= i < n ==> front[i] == items[i];
    assert forall i :: 0 <= i < n ==>
        !KeyedBy(last, items[i].root, items[i].place.hash) && !KeyedBy(items[i], last.root, last.place.hash);
    forall r, h | forall i :: 0 <= i < |items| ==> !KeyedBy(items[i], r, h)
      ensures ViewAt(v, r, h) == ViewAt(t, r, h)
    {
      assert !KeyedBy(items[n], r, h);
      assert forall i :: 0 <= i < n ==> KeyedBy(front[i], r, h) == KeyedBy(items[i], r, h);
    }
  }

  /** Confluence: however the workers interleave, and whatever stamps their statements get, the
      finished sweep shows at every path what the sequential sweep shows. */
  lemma Confluence(t: Tables, items: seq<Item>, turns: seq<Turn>, stamps: seq<Time>, zone: int)
    requires Valid(t) && DistinctPaths(items) && |stamps| == |items|
    requires forall n :: 0 <= n < |turns| ==> turns[n].i < |items|
    requires Complete(Run(Start(t, items), items, turns, zone))
    ensures forall root, hash ::
              ViewAt(Run(Start(t, items), items, turns, zone).t, root, hash)
                  == ViewAt(Swept(t, items, stamps, zone), root, hash)
  {
    var s := Run(Start(t, items), items, turns, zone);
    RunKeepsInv(t, items, turns, zone);
    SweptEffect(t, items, stamps, zone);
    var u := Swept(t, items, stamps, zone);
    forall root, hash
      ensures ViewAt(s.t, root, hash) == ViewAt(u, root, hash)
    {
      if i :| 0 <= i < |items| && KeyedBy(items[i], root, hash) {
        assert s.phases[i].Finished?;
        assert State(u, seq(|items|, _ => Finished)).phases[i].Finished?;
      }
    }
  }
}
