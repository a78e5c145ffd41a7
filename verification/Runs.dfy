/** Whole sweeps, and any number of them, over a disk that changes as it likes in between. */
module Runs {
  import opened Options
  import opened Tables
  import opened FrameStore
  import opened Database
  import opened Sweep
  import opened Racing
  import opened Reconcile

  // ---- The rows a sweep leaves ----

  /** Some work item made a worker write the row of this path. */
  ghost predicate ActedIn(items: seq<Item>, root: int, hash: int) {
    exists i :: 0 <= i < |items| && IsFrameFile(items[i]) && KeyedBy(items[i], root, hash)
  }

  predicate Stores(item: Item) {
    item.found.Readable? && Succeeds(item.found.faults, item.found.hdus, 0)
  }

  lemma HandledRow(t: Tables, item: Item, now: Time, zone: int)
    requires Valid(t) && IsFrameFile(item)
    ensures var u := Handled(t, item, now, zone);
            && Valid(u) && Kept(t, u)
            && Known(u, item.root, item.place.hash)
            && var id := IdAt(u, item.root, item.place.hash);
               && u.files[id].lastSeen == Some(now) && u.files[id].status != Missing
               && (forall j :: j in u.files && j != id ==> j in t.files && u.files[j] == t.files[j])
               && (id !in t.files ==> u.files[id].firstSeen == if Stores(item) then now else LocalTime(now, zone))
               && (id in t.files ==>
                   Known(t, item.root, item.place.hash) && u.files[id].firstSeen == t.files[id].firstSeen)
  {
    HandledEffect(t, item, now, zone);
    var u := Handled(t, item, now, zone);
    if Skips(t, item) {
      ViewOfRow(u, IdAt(t, item.root, item.place.hash));
    } else if Stores(item) {
      FileUpsertedEffect(t, Info(item), now);
      var v := FileUpserted(t, Info(item), now);
      FramesStoredEffect(v, IdAt(v, item.root, item.place.hash), ImageHdus(item.found.hdus));
      ViewOfRow(u, IdAt(v, item.root, item.place.hash));
    } else {
      var id := if Known(t, item.root, item.place.hash) then IdAt(t, item.root, item.place.hash) else t.nextFile;
      assert At(u.files[id], item.root, item.place.hash);
      ViewOfRow(u, id);
    }
  }

  lemma ActedInMore(items: seq<Item>, root: int, hash: int)
    requires items != []
    ensures ActedIn(items, root, hash) <==>
              || ActedIn(items[..|items| - 1], root, hash)
              || (IsFrameFile(items[|items| - 1]) && KeyedBy(items[|items| - 1], root, hash))
  {
    var front := items[..|items| - 1];
    if ActedIn(front, root, hash) {
      var i :| 0 <= i < |front| && IsFrameFile(front[i]) && KeyedBy(front[i], root, hash);
      assert items[i] == front[i];
    }
    if ActedIn(items, root, hash) {
      var i :| 0 <= i < |items| && IsFrameFile(items[i]) && KeyedBy(items[i], root, hash);
      assert i < |front| ==> front[i] == items[i];
    }
  }

  ghost predicate Stamped(stamps: seq<Time>, lo: Time, hi: Time) {
    forall i :: 0 <= i < |stamps| ==> lo <= stamps[i] <= hi
  }

  ghost predicate StoredIn(items: seq<Item>, root: int, hash: int) {
    exists i :: 0 <= i < |items| && Stores(items[i]) && KeyedBy(items[i], root, hash)
  }

  /** What the sweep leaves at one path: the old row untouched, or one that bears a stamp of the
      sweep and is not missing. A row created for a readable file is also first seen in it; one
      created for an unreadable file, in the session's local time of it. */
  ghost predicate PathSwept(t: Tables, u: Tables, acted: bool, stored: bool, zone: int, lo: Time, hi: Time, root: int,
      hash: int) {
    if !acted then
      && (Known(u, root, hash) <==> Known(t, root, hash))
      && (Known(t, root, hash) ==>
            IdAt(u, root, hash) == IdAt(t, root, hash) && u.files[IdAt(t, root, hash)] == t.files[IdAt(t, root, hash)])
    else
      && Known(u, root, hash)
      && var row := u.files[IdAt(u, root, hash)];
         && row.status != Missing && row.lastSeen.Some? && lo <= row.lastSeen.value <= hi
         && (Known(t, root, hash) ==>
               IdAt(u, root, hash) == IdAt(t, root, hash) && row.firstSeen == t.files[IdAt(t, root, hash)].firstSeen)
         && (!Known(t, root, hash) ==>
               && IdAt(u, root, hash) !in t.files
               && if stored then lo <= row.firstSeen <= hi
                  else LocalTime(lo, zone) <= row.firstSeen <= LocalTime(hi, zone))
  }

  /** One item changes the row of its own path only. */
  lemma HandledPath(t: Tables, item: Item, now: Time, zone: int, root: int, hash: int)
    requires Valid(t)
    ensures var u := Handled(t, item, now, zone);
            if IsFrameFile(item) && KeyedBy(item, root, hash) then
              && Known(u, root, hash)
              && var row := u.files[IdAt(u, root, hash)];
                 && row.status != Missing && row.lastSeen == Some(now)
                 && (Known(t, root, hash) ==>
                       IdAt(u, root, hash) == IdAt(t, root, hash)
                           && row.firstSeen == t.files[IdAt(t, root, hash)].firstSeen)
                 && (!Known(t, root, hash) ==>
                       IdAt(u, root, hash) !in t.files && row.firstSeen == if Stores(item) then now
                           else LocalTime(now, zone))
            else
              && (Known(u, root, hash) <==> Known(t, root, hash))
              && (Known(t, root, hash) ==>
                    IdAt(u, root, hash) == IdAt(t, root, hash)
                        && u.files[IdAt(t, root, hash)] == t.files[IdAt(t, root, hash)])
  {
    var u := Handled(t, item, now, zone);
    HandledEffect(t, item, now, zone);
    if IsFrameFile(item) {
      HandledRow(t, item, now, zone);
    }
    if Known(t, root, hash) {
      IdKept(t, u, root, hash);
    }
    if Known(u, root, hash) && !(IsFrameFile(item) && KeyedBy(item, root, hash)) {
      assert At(t.files[IdAt(u, root, hash)], root, hash);
    }
  }

  lemma {:induction false} SweptPath(t: Tables, items: seq<Item>, stamps: seq<Time>, zone: int, lo: Time, hi: Time,
                                     root: int, hash: int)
    requires Valid(t) && |stamps| == |items| && DistinctPaths(items) && Stamped(stamps, lo, hi)
    ensures Valid(Swept(t, items, stamps, zone)) && Kept(t, Swept(t, items, stamps, zone))
    ensures PathSwept(t, Swept(t, items, stamps, zone), ActedIn(items, root, hash), StoredIn(items, root, hash), zone,
        lo,
        hi, root, hash)
  {
    if items == [] {
      if Known(t, root, hash) {
        IdKept(t, t, root, hash);
      }
    } else {
      var n := |items| - 1;
      var front, last := items[..n], items[n];
      SweptPath(t, front, stamps[..n], zone, lo, hi, root, hash);
      var u, v := Swept(t, front, stamps[..n], zone), Swept(t, items, stamps, zone);
      HandledEffect(u, last, stamps[n], zone);
      KeptTwice(t, u, v);
      HandledPath(u, last, stamps[n], zone, root, hash);
      ActedInMore(items, root, hash);
      StoredInMore(items, root, hash);
    }
  }

  lemma StoredInMore(items: seq<Item>, root: int, hash: int)
    requires items != [] && DistinctPaths(items)
    ensures var front, last := items[..|items| - 1], items[|items| - 1];
            && (StoredIn(items, root, hash)
                <==> StoredIn(front, root, hash) || (Stores(last) && KeyedBy(last, root, hash)))
            && (StoredIn(front, root, hash) ==> ActedIn(front, root, hash))
            && (KeyedBy(last, root, hash) ==> !ActedIn(front, root, hash))
  {
    var front := items[..|items| - 1];
    if StoredIn(front, root, hash) {
      var i :| 0 <= i < |front| && Stores(front[i]) && KeyedBy(front[i], root, hash);
      assert items[i] == front[i];
    }
    if StoredIn(items, root, hash) {
      var i :| 0 <= i < |items| && Stores(items[i]) && KeyedBy(items[i], root, hash);
      assert i < |front| ==> front[i] == items[i];
    }
    if ActedIn(front, root, hash) {
      var i :| 0 <= i < |front| && IsFrameFile(front[i]) && KeyedBy(front[i], root, hash);
      assert KeyedBy(items[i], items[|items| - 1].root, items[|items| - 1].place.hash) ==> i == |items| - 1;
    }
  }

  // ---- One scan: sweep, guard, reconciliation ----

  /** How a scan ends: with the whole pass; without it, after a stop request, which lets the workers drain
      the queue without acting; or in it, by an exception, when it has dealt with the rows in `done` and
      perhaps deleted the duplicate of one more. */
  datatype Ending = Whole | Stopped | Broken(done: set<int>, half: Option<int>)

  /** start is the server clock before the sweep, turns what the workers do and when, end the clock at the
      pass. */
  datatype Scan = Scan(root: int, start: Time, items: seq<Item>, turns: seq<Turn>, end: Time, ending: Ending)

  /** The tables when the workers are done, however they interleaved. */
  ghost function Raced(t: Tables, s: Scan, zone: int): Tables
    requires InRange(s.items, s.turns)
  {
    Run(Start(t, s.items), s.items, s.turns, zone).t
  }

  ghost function Ended(u: Tables, root: int, start: Time, prior: int, now: Time, e: Ending): Tables {
    if e.Stopped? || GuardTrips(|TouchedIds(u, root, start)|, prior) then u
    else if e.Whole? then Reconciled(u, root, start, now)
    else PassTo(u, PlanOf(u, root, start), e.done, e.half, now)
  }

  ghost function Scanned(t: Tables, s: Scan, zone: int): Tables
    requires InRange(s.items, s.turns)
  {
    Ended(Raced(t, s, zone), s.root, s.start, |OkIds(t, s.root)|, s.end, s.ending)
  }

  /** The pass got to this vanished row. */
  predicate ReachedBy(e: Ending, v: int) {
    e.Whole? || (e.Broken? && (v in e.done || e.half == Some(v)))
  }

  /** Nothing was last seen at the instant or after it. */
  ghost predicate SeenBefore(t: Tables, instant: Time) {
    forall id :: id in t.files && t.files[id].lastSeen.Some? ==> t.files[id].lastSeen.value < instant
  }

  /** Nor first seen. */
  ghost predicate Before(t: Tables, instant: Time) {
    SeenBefore(t, instant) && forall id :: id in t.files ==> t.files[id].firstSeen < instant
  }

  /** A worker finishes what it has begun, and only a stop request leaves items not begun. */
  ghost predicate WellTimed(s: Scan) {
    && InRange(s.items, s.turns)
    && DistinctPaths(s.items)
    && s.start <= s.end
    && (forall n :: 0 <= n < |s.turns| ==> s.start <= s.turns[n].now <= s.end)
    && (forall i :: 0 <= i < |s.items| ==> Steps(s.turns, i) == 0 || Finishes(s.items, s.turns, i))
    && (s.ending.Stopped? || AllFinish(s.items, s.turns))
  }

  /** Item i is a frame file, and a worker has finished it. */
  ghost predicate Acts(s: Scan, i: nat)
    requires i < |s.items|
  {
    IsFrameFile(s.items[i]) && Finishes(s.items, s.turns, i)
  }

  /** A worker wrote the row of this path. */
  ghost predicate ActedOn(s: Scan, root: int, hash: int) {
    exists i :: 0 <= i < |s.items| && Acts(s, i) && KeyedBy(s.items[i], root, hash)
  }

  ghost predicate StoredAt(s: Scan, root: int, hash: int) {
    exists i :: 0 <= i < |s.items| && Acts(s, i) && Stores(s.items[i]) && KeyedBy(s.items[i], root, hash)
  }

  /** The items in the order of their writes are those that were acted on. */
  lemma PickedActs(s: Scan, who: seq<nat>, stamps: seq<Time>, at: seq<nat>, root: int, hash: int)
    requires Orders(s.items, s.turns, who, stamps, at)
    ensures ActedIn(Picked(s.items, who), root, hash) <==> ActedOn(s, root, hash)
    ensures StoredIn(Picked(s.items, who), root, hash) <==> StoredAt(s, root, hash)
  {
    var picked := Picked(s.items, who);
    forall n | 0 <= n < |picked|
      ensures picked[n] == s.items[who[n]] && Acts(s, who[n])
    {
    }
    forall i | 0 <= i < |s.items| && Acts(s, i)
      ensures s.items[i] in picked
    {
      assert i in who;
      var n :| 0 <= n < |who| && who[n] == i;
      assert picked[n] == s.items[i];
    }
    SameActs(s, picked, who, root, hash);
    hide *;
  }

  /** Two lists of the same items act on and store at the same paths. */
  lemma SameActs(s: Scan, picked: seq<Item>, who: seq<nat>, root: int, hash: int)
    requires |picked| == |who| && forall n :: 0 <= n < |who| ==> who[n] < |s.items|
    requires forall n :: 0 <= n < |picked| ==> picked[n] == s.items[who[n]] && Acts(s, who[n])
    requires forall i :: 0 <= i < |s.items| && Acts(s, i) ==> s.items[i] in picked
    ensures ActedIn(picked, root, hash) <==> ActedOn(s, root, hash)
    ensures StoredIn(picked, root, hash) <==> StoredAt(s, root, hash)
  {
    assert forall i :: 0 <= i < |s.items| && Acts(s, i) ==> IsFrameFile(s.items[i]);
    hide Acts, Stores, IsFrameFile, KeyedBy;
    if ActedIn(picked, root, hash) {
      var n :| 0 <= n < |picked| && IsFrameFile(picked[n]) && KeyedBy(picked[n], root, hash);
      assert Acts(s, who[n]) && KeyedBy(s.items[who[n]], root, hash);
    }
    if StoredIn(picked, root, hash) {
      var n :| 0 <= n < |picked| && Stores(picked[n]) && KeyedBy(picked[n], root, hash);
      assert Acts(s, who[n]) && Stores(s.items[who[n]]) && KeyedBy(s.items[who[n]], root, hash);
    }
    if ActedOn(s, root, hash) {
      var i :| 0 <= i < |s.items| && Acts(s, i) && KeyedBy(s.items[i], root, hash);
      var n :| 0 <= n < |picked| && picked[n] == s.items[i];
    }
    if StoredAt(s, root, hash) {
      var i :| 0 <= i < |s.items| && Acts(s, i) && Stores(s.items[i]) && KeyedBy(s.items[i], root, hash);
      var n :| 0 <= n < |picked| && picked[n] == s.items[i];
    }
  }

  lemma RacedPath(t: Tables, s: Scan, zone: int, root: int, hash: int)
    requires Valid(t) && WellTimed(s)
    ensures Valid(Raced(t, s, zone)) && Kept(t, Raced(t, s, zone))
    ensures PathSwept(t, Raced(t, s, zone), ActedOn(s, root, hash), StoredAt(s, root, hash), zone, s.start, s.end, root,
        hash)
  {
    hide Valid, Kept, DistinctPaths, AllFinish, PathSwept, Run, Swept;
    var who, stamps, at := Linearized(t, s.items, s.turns, zone);
    PickedDistinct(s.items, s.turns, who, stamps, at);
    PickedActs(s, who, stamps, at, root, hash);
    PickedStamps(s, who, stamps, at);
    hide Orders, ActedOn, StoredAt, ActedIn, StoredIn;
    SweptPath(t, Picked(s.items, who), stamps, zone, s.start, s.end, root, hash);
  }

  lemma PickedStamps(s: Scan, who: seq<nat>, stamps: seq<Time>, at: seq<nat>)
    requires Orders(s.items, s.turns, who, stamps, at)
    requires forall n :: 0 <= n < |s.turns| ==> s.start <= s.turns[n].now <= s.end
    ensures Stamped(stamps, s.start, s.end)
  {
    hide Finishes;
  }

  /** Each path shows what its item makes of it, if that is finished, and else what it showed. */
  lemma RacedEffect(t: Tables, s: Scan, zone: int)
    requires Valid(t) && WellTimed(s)
    ensures Valid(Raced(t, s, zone)) && Kept(t, Raced(t, s, zone))
    ensures forall i :: 0 <= i < |s.items| ==>
              ViewAt(Raced(t, s, zone), s.items[i].root, s.items[i].place.hash) ==
              var before := ViewAt(t, s.items[i].root, s.items[i].place.hash);
              if Finishes(s.items, s.turns, i) then Shown(before, s.items[i]) else before
    ensures forall r, h :: (forall i :: 0 <= i < |s.items| ==> !KeyedBy(s.items[i], r, h)) ==>
              ViewAt(Raced(t, s, zone), r, h) == ViewAt(t, r, h)
  {
    RunKeepsInv(t, s.items, s.turns, zone);
    hide Finishes, Valid, Kept, ViewAt, Shown, DecisionsHold, Run;
    forall i | 0 <= i < |s.items|
      ensures Run(Start(t, s.items), s.items, s.turns, zone).phases[i].Finished? <==> Finishes(s.items, s.turns, i)
    {
      PhaseIs(t, s.items, s.turns, zone, i);
    }
  }

  lemma RacedRow(t: Tables, s: Scan, zone: int, id: int)
    requires Valid(t) && WellTimed(s) && id in Raced(t, s, zone).files
    ensures var row := Raced(t, s, zone).files[id];
            && (if id in t.files then row.firstSeen == t.files[id].firstSeen
                && At(row, t.files[id].root, t.files[id].place.hash)
                else row.firstSeen <= s.end || row.firstSeen <= LocalTime(s.end, zone))
            && (if ActedOn(s, row.root, row.place.hash) then
                  row.status != Missing && row.lastSeen.Some? && s.start <= row.lastSeen.value <= s.end
                else
                  id in t.files && row == t.files[id])
  {
    var u := Raced(t, s, zone);
    var row := u.files[id];
    RacedPath(t, s, zone, row.root, row.place.hash);
    ViewOfRow(u, id);
    if id in t.files {
      assert At(row, t.files[id].root, t.files[id].place.hash);
      ViewOfRow(t, id);
    }
  }

  lemma RacedReady(t: Tables, s: Scan, zone: int)
    requires Valid(t) && SeenBefore(t, s.start) && WellTimed(s)
    ensures var u := Raced(t, s, zone);
            Valid(u) && Kept(t, u) && SweptFrom(u, s.root, s.start) && OkIds(t, s.root) <= LiveIds(u, s.root)
  {
    var u := Raced(t, s, zone);
    RacedEffect(t, s, zone);
    forall id | id in u.files
      ensures TouchedRow(u.files[id], s.root, s.start) ==> u.files[id].status != Missing
      ensures id in t.files && t.files[id].status == Ok ==> u.files[id].status != Missing
      ensures id in t.files ==> u.files[id].root == t.files[id].root
    {
      RacedRow(t, s, zone, id);
    }
    forall id | id in OkIds(t, s.root)
      ensures id in LiveIds(u, s.root)
    {
      assert id in u.files;
    }
  }

  // ---- What is live after a scan ----

  /** The paths of the root whose rows the workers wrote. */
  ghost function ActedPaths(s: Scan): set<int> {
    set i | 0 <= i < |s.items| && Acts(s, i) && s.items[i].root == s.root :: s.items[i].place.hash
  }

  /** The guard lets the pass run. */
  ghost predicate Passes(t: Tables, s: Scan, zone: int)
    requires InRange(s.items, s.turns)
  {
    !GuardTrips(|TouchedIds(Raced(t, s, zone), s.root, s.start)|, |OkIds(t, s.root)|)
  }

  lemma TouchedIsActed(t: Tables, s: Scan, zone: int)
    requires Valid(t) && SeenBefore(t, s.start) && WellTimed(s)
    ensures TouchedPaths(Raced(t, s, zone), s.root, s.start) == ActedPaths(s)
  {
    var u := Raced(t, s, zone);
    forall hash | hash in TouchedPaths(u, s.root, s.start)
      ensures hash in ActedPaths(s)
    {
      var id :| id in u.files && TouchedRow(u.files[id], s.root, s.start) && u.files[id].place.hash == hash;
      RacedRow(t, s, zone, id);
      assert ActedOn(s, s.root, hash);
    }
    forall hash | hash in ActedPaths(s)
      ensures hash in TouchedPaths(u, s.root, s.start)
    {
      var i :| 0 <= i < |s.items| && Acts(s, i) && s.items[i].root == s.root && s.items[i].place.hash == hash;
      assert KeyedBy(s.items[i], s.root, hash) && ActedOn(s, s.root, hash);
      RacedPath(t, s, zone, s.root, hash);
      assert TouchedRow(u.files[IdAt(u, s.root, hash)], s.root, s.start);
    }
  }

  /** When the guard passes, the live paths after a scan are exactly those whose files it worked on. */
  lemma LiveIsActed(t: Tables, s: Scan, zone: int)
    requires Valid(t) && SeenBefore(t, s.start) && WellTimed(s) && s.ending.Whole? && Passes(t, s, zone)
    ensures LivePaths(Scanned(t, s, zone), s.root) == ActedPaths(s)
  {
    RacedReady(t, s, zone);
    TouchedIsActed(t, s, zone);
    LiveIsTouched(Raced(t, s, zone), s.root, s.start, s.end);
    hide Reconciled, Raced, LivePaths, TouchedPaths, ActedPaths, SweptFrom, WellTimed, Valid;
  }

  /** The guard passes exactly when no clean row was counted before, or the workers acted on a file, and on at
      least half as many as were counted, rounded down. */
  lemma PassesInNumbers(t: Tables, s: Scan, zone: int)
    requires Valid(t) && SeenBefore(t, s.start) && WellTimed(s)
    ensures var acted, prior := |ActedPaths(s)|, |OkIds(t, s.root)|;
            Passes(t, s, zone) <==> prior == 0 || (acted >= 1 && 2 * acted + 1 >= prior)
  {
    RacedEffect(t, s, zone);
    TouchedIsActed(t, s, zone);
    TouchedPathCount(Raced(t, s, zone), s.root, s.start);
    GuardInNumbers(|TouchedIds(Raced(t, s, zone), s.root, s.start)|, |OkIds(t, s.root)|);
    hide Raced, TouchedIds, TouchedPaths, ActedPaths, OkIds, GuardTrips, Valid, Kept, ViewAt;
  }

  /** So a healthy scan is reconciled: the paths the workers acted on are live, and every other is missing;
      and a scan that met too little changes nothing more than the sweep did. */
  lemma HealthyScan(t: Tables, s: Scan, zone: int)
    requires Valid(t) && SeenBefore(t, s.start) && WellTimed(s) && s.ending.Whole?
    ensures var acted, prior := |ActedPaths(s)|, |OkIds(t, s.root)|;
            if prior == 0 || (acted >= 1 && 2 * acted + 1 >= prior)
            then LivePaths(Scanned(t, s, zone), s.root) == ActedPaths(s)
            else Scanned(t, s, zone) == Raced(t, s, zone)
  {
    PassesInNumbers(t, s, zone);
    if Passes(t, s, zone) {
      LiveIsActed(t, s, zone);
    }
    hide Raced, LivePaths, ActedPaths, OkIds, Valid, SeenBefore, WellTimed, TouchedIds, GuardTrips, Reconciled;
  }

  /** Guard or no guard, a scan leaves at least half of what was indexed cleanly before it, and never
      nothing. */
  lemma HalfLivesOn(t: Tables, s: Scan, zone: int)
    requires Valid(t) && SeenBefore(t, s.start) && WellTimed(s) && |OkIds(t, s.root)| > 0
    ensures |LiveIds(Scanned(t, s, zone), s.root)| >= 1
        && |LiveIds(Scanned(t, s, zone), s.root)| >= |OkIds(t, s.root)| / 2
  {
    RacedReady(t, s, zone);
    var u := Raced(t, s, zone);
    hide *;
    HalfEnds(t, u, s.root, s.start, s.end, s.ending);
    ScannedIs(t, s, zone);
  }

  lemma HalfEnds(t: Tables, u: Tables, root: int, start: Time, now: Time, e: Ending)
    requires Valid(u) && SweptFrom(u, root, start) && OkIds(t, root) <= LiveIds(u, root) && |OkIds(t, root)| > 0
    ensures var prior := |OkIds(t, root)|;
            && |LiveIds(Ended(u, root, start, prior, now, e), root)| >= 1
            && |LiveIds(Ended(u, root, start, prior, now, e), root)| >= prior / 2
  {
    HalfStaysLive(t, u, root, start, now);
    SubsetCount(OkIds(t, root), LiveIds(u, root));
    if e.Broken? {
      CutKeepsLive(u, root, start, now, e.done, e.half);
      SubsetCount(LiveIds(Reconciled(u, root, start, now), root),
          LiveIds(PassTo(u, PlanOf(u, root, start), e.done, e.half, now), root));
    }
    hide Reconciled, PassTo, LiveIds, OkIds, Valid, SweptFrom;
  }

  // ---- Which rows and frames a scan loses ----

  /** A scan loses a frame exactly when the pass runs and gets to a vanished row of which the frame's row
      is the move target, be it another one or itself. */
  lemma FrameLost(t: Tables, s: Scan, zone: int, f: int)
    requires Valid(t) && WellTimed(s) && f in t.frames
    ensures f !in Scanned(t, s, zone).frames <==>
              && Passes(t, s, zone)
              && exists v :: ReachedBy(s.ending, v)
                             && Moves(PlanOf(Raced(t, s, zone), s.root, s.start), v, t.frames[f].file)
  {
    var u := Raced(t, s, zone);
    RacedEffect(t, s, zone);
    hide Raced, Moves;
    EndedFrame(u, s.root, s.start, |OkIds(t, s.root)|, s.end, s.ending, f);
  }

  function DoneBy(p: Plan, e: Ending): set<int> {
    if e.Broken? then e.done else p.vanished
  }

  function HalfBy(e: Ending): Option<int> {
    if e.Broken? then e.half else None
  }

  /** Whichever way a scan ends in its pass, it ends after some of the pass's statements. */
  lemma EndedIs(u: Tables, p: Plan, root: int, start: Time, prior: int, now: Time, e: Ending)
    requires p == PlanOf(u, root, start)
    ensures Ended(u, root, start, prior, now, e)
         == if e.Stopped? || GuardTrips(|TouchedIds(u, root, start)|, prior) then u
            else PassTo(u, p, DoneBy(p, e), HalfBy(e), now)
  {
    WholePass(u, root, start, now);
    assert p.vanished == Vanished(u, root, start);
    hide Reconciled, PassTo;
  }

  lemma ReachedIs(p: Plan, e: Ending, a: int)
    requires !e.Stopped?
    ensures (exists v :: (v in DoneBy(p, e) || HalfBy(e) == Some(v)) && Moves(p, v, a))
        <==> exists v :: ReachedBy(e, v) && Moves(p, v, a)
  {
    hide Sole;
    if v :| (v in DoneBy(p, e) || HalfBy(e) == Some(v)) && Moves(p, v, a) {
      assert ReachedBy(e, v) && Moves(p, v, a);
    }
    if v :| ReachedBy(e, v) && Moves(p, v, a) {
      assert (v in DoneBy(p, e) || HalfBy(e) == Some(v)) && Moves(p, v, a);
    }
  }

  lemma EndedFrame(u: Tables, root: int, start: Time, prior: int, now: Time, e: Ending, f: int)
    requires Valid(u) && f in u.frames
    ensures f !in Ended(u, root, start, prior, now, e).frames <==>
              && !GuardTrips(|TouchedIds(u, root, start)|, prior)
              && exists v :: ReachedBy(e, v) && Moves(PlanOf(u, root, start), v, u.frames[f].file)
  {
    var p := PlanOf(u, root, start);
    hide PassTo, Moves, PlanOf, Valid, DoneBy, HalfBy, Ended, KeyOf;
    EndedIs(u, p, root, start, prior, now, e);
    if !e.Stopped? {
      assert u.frames[f].file in u.files by { FrameHasFile(u, f); }
      CutFrames(u, p, DoneBy(p, e), HalfBy(e), now);
      CutDropped(u, p, DoneBy(p, e), HalfBy(e), now, u.frames[f].file);
      ReachedIs(p, e, u.frames[f].file);
    }
  }

  lemma FrameHasFile(u: Tables, f: int)
    requires Valid(u) && f in u.frames
    ensures u.frames[f].file in u.files
  {
  }

  ghost predicate RowKept(t: Tables, w: Tables, v: int) {
    && v in t.files && v in w.files && w.files[v].firstSeen == t.files[v].firstSeen
    && (forall f :: f in t.frames && t.frames[f].file == v ==>
          f in w.frames && SameSlot(w.frames[f], t.frames[f]) && w.frames[f].flatSet == t.frames[f].flatSet)
    && (forall q :: q in t.tags && q.0 in t.frames && t.frames[q.0].file == v ==> q in w.tags)
  }

  /** A row first seen before the scan is never lost, nor any frame, slot, flat set or tag of it, however
      the scan ends. */
  lemma ElderStays(t: Tables, s: Scan, zone: int, v: int)
    requires Valid(t) && WellTimed(s) && v in t.files && t.files[v].firstSeen < s.start
    ensures Valid(Scanned(t, s, zone)) && RowKept(t, Scanned(t, s, zone), v)
  {
    var u := Raced(t, s, zone);
    RacedEffect(t, s, zone);
    hide *;
    ghost var prior := |OkIds(t, s.root)|;
    SweepKeepsRow(t, u, v);
    EndedKeepsRow(u, s.root, s.start, prior, s.end, s.ending, v);
    KeptOn(t, u, Ended(u, s.root, s.start, prior, s.end, s.ending), v);
    ScannedIs(t, s, zone);
  }

  lemma ScannedIs(t: Tables, s: Scan, zone: int)
    requires InRange(s.items, s.turns)
    ensures Scanned(t, s, zone) == Ended(Raced(t, s, zone), s.root, s.start, |OkIds(t, s.root)|, s.end, s.ending)
  {
  }

  lemma SweepKeepsRow(t: Tables, u: Tables, v: int)
    requires Kept(t, u) && v in t.files
    ensures RowKept(t, u, v) && v in u.files && u.files[v].firstSeen == t.files[v].firstSeen
  {
  }

  lemma EndedKeepsRow(u: Tables, root: int, start: Time, prior: int, now: Time, e: Ending, v: int)
    requires Valid(u) && v in u.files && u.files[v].firstSeen < start
    ensures Valid(Ended(u, root, start, prior, now, e)) && RowKept(u, Ended(u, root, start, prior, now, e), v)
  {
    var p := PlanOf(u, root, start);
    hide PassTo, Valid, RowKept, PlanOf, Ended, DoneBy, HalfBy;
    EndedIs(u, p, root, start, prior, now, e);
    CutKeepsElder(u, p, root, start, DoneBy(p, e), HalfBy(e), now, v);
    SameKept(u, v);
  }

  lemma SameKept(u: Tables, v: int)
    requires v in u.files
    ensures RowKept(u, u, v)
  {
  }

  lemma CutKeepsElder(u: Tables, p: Plan, root: int, start: Time, done: set<int>, half: Option<int>, now: Time, v: int)
    requires Valid(u) && v in u.files && u.files[v].firstSeen < start && p == PlanOf(u, root, start)
    ensures Valid(PassTo(u, p, done, half, now)) && RowKept(u, PassTo(u, p, done, half, now), v)
  {
    assert Covers(u, p);
    ElderNoTarget(u, root, start, v);
    hide *;
    CutValid(u, p, done, half, now);
    CutDropped(u, p, done, half, now, v);
    CutFrames(u, p, done, half, now);
    CutRow(u, p, done, half, now, v);
    KeptByCut(u, PassTo(u, p, done, half, now), v);
  }

  lemma KeptByCut(u: Tables, w: Tables, v: int)
    requires v in u.files && v in w.files && w.files[v].firstSeen == u.files[v].firstSeen
    requires forall f :: f in u.frames ==> (f in w.frames <==> u.frames[f].file in w.files)
    requires forall f :: f in u.frames && f in w.frames ==> w.frames[f] == u.frames[f]
    requires forall q :: q in u.tags && q.0 in w.frames ==> q in w.tags
    ensures RowKept(u, w, v)
  {
  }

  lemma ElderNoTarget(u: Tables, root: int, start: Time, a: int)
    requires a in u.files && u.files[a].firstSeen < start
    ensures forall v :: !Moves(PlanOf(u, root, start), v, a)
  {
    hide KeyOf;
  }

  /** Where nothing was first seen in the future, a scan loses no frame that was there when it started,
      nor its slot, its flat set or a tag. */
  lemma ScanKeepsFrames(t: Tables, s: Scan, zone: int)
    requires Valid(t) && Before(t, s.start) && WellTimed(s)
    ensures Valid(Scanned(t, s, zone)) && FramesKept(t, Scanned(t, s, zone))
  {
    var w := Scanned(t, s, zone);
    ScannedValid(t, s, zone);
    forall f | f in t.frames
      ensures RowKept(t, w, t.frames[f].file)
    {
      ElderStays(t, s, zone, t.frames[f].file);
    }
    RowsKeepFrames(t, w);
  }

  lemma ScannedValid(t: Tables, s: Scan, zone: int)
    requires Valid(t) && WellTimed(s)
    ensures Valid(Scanned(t, s, zone))
  {
    var u := Raced(t, s, zone);
    RacedEffect(t, s, zone);
    ReconciledValid(u, s.root, s.start, s.end);
    if s.ending.Broken? {
      CutValid(u, PlanOf(u, s.root, s.start), s.ending.done, s.ending.half, s.end);
    }
    hide Reconciled, Raced, Valid, PassTo;
  }

  lemma RowsKeepFrames(t: Tables, w: Tables)
    requires Valid(t) && forall f :: f in t.frames ==> RowKept(t, w, t.frames[f].file)
    ensures FramesKept(t, w)
  {
    forall q | q in t.tags
      ensures q in w.tags
    {
      var f := q.0;
      assert f in t.frames;
      assert RowKept(t, w, t.frames[f].file);
    }
  }

  // ---- Any number of scans ----

  ghost predicate Clocked(scans: seq<Scan>, from: Time) {
    && (forall n :: 0 <= n < |scans| ==> WellTimed(scans[n]))
    && (|scans| > 0 ==> scans[0].start > from)
    && (forall n :: 0 < n < |scans| ==> scans[n].start > scans[n - 1].end)
  }

  ghost function After(t: Tables, scans: seq<Scan>, zone: int): Tables
    requires forall n :: 0 <= n < |scans| ==> InRange(scans[n].items, scans[n].turns)
  {
    if scans == [] then t else Scanned(After(t, scans[..|scans| - 1], zone), scans[|scans| - 1], zone)
  }

  /** The end of the last scan, or where the run starts. */
  function Until(scans: seq<Scan>, from: Time): Time {
    if scans == [] then from else scans[|scans| - 1].end
  }

  lemma LaterStarts(scans: seq<Scan>, from: Time, n: nat)
    requires Clocked(scans, from) && n < |scans|
    ensures from < scans[n].start && Until(scans[..n], from) < scans[n].start && Clocked(scans[..n], from)
  {
    if n > 0 {
      LaterStarts(scans, from, n - 1);
      assert scans[..n][n - 1] == scans[n - 1];
    }
  }

  lemma {:induction false} ElderStaysThrough(t: Tables, scans: seq<Scan>, zone: int, from: Time, v: int)
    requires Valid(t) && Clocked(scans, from) && v in t.files && t.files[v].firstSeen <= from
    ensures Valid(After(t, scans, zone)) && RowKept(t, After(t, scans, zone), v)
  {
    if scans != [] {
      var n := |scans| - 1;
      LaterStarts(scans, from, n);
      ElderStaysThrough(t, scans[..n], zone, from, v);
      var u := After(t, scans[..n], zone);
      ElderStays(u, scans[n], zone, v);
      KeptOn(t, u, After(t, scans, zone), v);
    }
  }

  lemma KeptOn(t: Tables, u: Tables, w: Tables, v: int)
    requires Valid(t) && RowKept(t, u, v) && RowKept(u, w, v)
    ensures RowKept(t, w, v)
  {
    forall q | q in t.tags && q.0 in t.frames && t.frames[q.0].file == v
      ensures q in w.tags
    {
      var f := q.0;
      assert f in u.frames && u.frames[f].file == v;
      assert q in u.tags;
    }
  }

  /** Whatever the disk looked like to each of the scans, and in whatever zone the session is, every
      frame whose file was first seen before them is still there at the end, in its slot, with its flat
      set and its tags. */
  lemma FramesSurviveAllScans(t: Tables, scans: seq<Scan>, zone: int, from: Time)
    requires Valid(t) && Clocked(scans, from) && forall id :: id in t.files ==> t.files[id].firstSeen <= from
    ensures Valid(After(t, scans, zone)) && FramesKept(t, After(t, scans, zone))
  {
    AfterValid(t, scans, zone, from);
    var w := After(t, scans, zone);
    forall f | f in t.frames
      ensures RowKept(t, w, t.frames[f].file)
    {
      ElderStaysThrough(t, scans, zone, from, t.frames[f].file);
    }
    RowsKeepFrames(t, w);
  }

  lemma {:induction false} AfterValid(t: Tables, scans: seq<Scan>, zone: int, from: Time)
    requires Valid(t) && Clocked(scans, from)
    ensures Valid(After(t, scans, zone))
  {
    if scans != [] {
      var n := |scans| - 1;
      LaterStarts(scans, from, n);
      AfterValid(t, scans[..n], zone, from);
      ScannedValid(After(t, scans[..n], zone), scans[n], zone);
    }
  }

  /** What the end of a scan leaves of a row. */
  lemma EndedRow(u: Tables, root: int, start: Time, prior: int, now: Time, e: Ending, id: int)
    requires id in Ended(u, root, start, prior, now, e).files
    ensures var row := Ended(u, root, start, prior, now, e).files[id];
            && id in u.files && row.firstSeen == u.files[id].firstSeen
            && (row.lastSeen == u.files[id].lastSeen || row.lastSeen == Some(now))
            && (id !in Vanished(u, root, start) ==> row == u.files[id])
  {
    var p := PlanOf(u, root, start);
    WholePass(u, root, start, now);
    if id in Reconciled(u, root, start, now).files {
      CutRow(u, p, p.vanished, None, now, id);
    }
    if e.Broken? && id in PassTo(u, p, e.done, e.half, now).files {
      CutRow(u, p, e.done, e.half, now, id);
    }
    hide Reconciled, PassTo;
  }

  lemma ScannedStamps(t: Tables, s: Scan, zone: int, later: Time)
    requires Valid(t) && SeenBefore(t, s.start) && WellTimed(s) && later > s.end
    ensures SeenBefore(Scanned(t, s, zone), later)
    ensures zone <= 0 && Before(t, s.start) ==> Before(Scanned(t, s, zone), later)
  {
    hide Raced, Valid, Ended;
    var u, w := Raced(t, s, zone), Scanned(t, s, zone);
    forall id | id in w.files
      ensures w.files[id].lastSeen.Some? ==> w.files[id].lastSeen.value < later
      ensures zone <= 0 && Before(t, s.start) ==> w.files[id].firstSeen < later
    {
      EndedRow(u, s.root, s.start, |OkIds(t, s.root)|, s.end, s.ending, id);
      RacedRow(t, s, zone, id);
    }
  }

  lemma {:induction false} AfterStamps(t: Tables, scans: seq<Scan>, zone: int, from: Time)
    requires Valid(t) && SeenBefore(t, from + 1) && Clocked(scans, from)
    ensures Valid(After(t, scans, zone)) && SeenBefore(After(t, scans, zone), Until(scans, from) + 1)
    ensures zone <= 0 && Before(t, from + 1) ==> Before(After(t, scans, zone), Until(scans, from) + 1)
  {
    AfterValid(t, scans, zone, from);
    if scans != [] {
      var n := |scans| - 1;
      LaterStarts(scans, from, n);
      AfterStamps(t, scans[..n], zone, from);
      ScannedStamps(After(t, scans[..n], zone), scans[n], zone, scans[n].end + 1);
    }
  }

  /** After every scan of a run whose guard passes, in whatever zone, exactly the paths it worked on are
      live. */
  lemma AlwaysAuthoritative(t: Tables, scans: seq<Scan>, zone: int, from: Time)
    requires Valid(t) && SeenBefore(t, from + 1) && Clocked(scans, from) && scans != []
    requires scans[|scans| - 1].ending.Whole? && Passes(After(t, scans[..|scans| - 1], zone), scans[|scans| - 1], zone)
    ensures LivePaths(After(t, scans, zone), scans[|scans| - 1].root) == ActedPaths(scans[|scans| - 1])
  {
    var n := |scans| - 1;
    LaterStarts(scans, from, n);
    AfterStamps(t, scans[..n], zone, from);
    LiveIsActed(After(t, scans[..n], zone), scans[n], zone);
  }

  /** An error row keeps the first stamp its insert was given when the file is later indexed. */
  lemma RepairedRow(t: Tables, bad: Item, good: Item, t1: Time, t2: Time, zone: int)
    requires Valid(t) && !Known(t, bad.root, bad.place.hash)
    requires bad.found.Unreadable? && Stores(good) && KeyedBy(good, bad.root, bad.place.hash)
    ensures var u := Handled(Handled(t, bad, t1, zone), good, t2, zone);
            && Known(u, bad.root, bad.place.hash)
            && var row := u.files[IdAt(u, bad.root, bad.place.hash)];
               row.firstSeen == LocalTime(t1, zone) && row.lastSeen == Some(t2) && row.status != Missing
  {
    HandledPath(t, bad, t1, zone, bad.root, bad.place.hash);
    HandledEffect(t, bad, t1, zone);
    HandledPath(Handled(t, bad, t1, zone), good, t2, zone, bad.root, bad.place.hash);
  }

  // ---- A file followed across its moves ----

  /** The content key a work item would give a new row. */
  ghost function ContentOf(item: Item): seq<int> {
    if Stores(item) then ContentKey(FramesShown(map[], ImageHdus(item.found.hdus))) else []
  }

  ghost predicate Absent(t: Tables, s: Scan, id: int)
    requires id in t.files
  {
    t.files[id].root == s.root && t.files[id].status != Missing && !ActedOn(s, s.root, t.files[id].place.hash)
  }

  /** Item j is at a path not indexed before. */
  ghost predicate NewAt(t: Tables, s: Scan, j: nat)
    requires j < |s.items|
  {
    s.items[j].root == s.root && !Known(t, s.root, s.items[j].place.hash)
  }

  /** During scan s the file of row v is gone from its path and has turned up, alone with its
      content, as item m at a path not indexed before; no row first seen in the future has that content;
      and the sweep was healthy. */
  ghost predicate MovesCleanly(t: Tables, s: Scan, zone: int, v: int, m: nat)
    requires InRange(s.items, s.turns)
  {
    && v in t.files && Absent(t, s, v)
    && m < |s.items| && NewAt(t, s, m) && Stores(s.items[m])
    && KeyOf(t, v) != [] && ContentOf(s.items[m]) == KeyOf(t, v)
    && (forall w :: w in t.files && Absent(t, s, w) && KeyOf(t, w) == KeyOf(t, v) ==> w == v)
    && (forall j :: 0 <= j < |s.items| && NewAt(t, s, j) && ContentOf(s.items[j]) == KeyOf(t, v) ==> j == m)
    && t.files[v].firstSeen < s.start
    && (forall w :: w in t.files && AppearedRow(t.files[w], s.root, s.start) ==>
          KeyOf(Raced(t, s, zone), w) != KeyOf(t, v))
    && s.ending.Whole? && Passes(t, s, zone)
  }

  /** A path nobody acted on shows what it showed. */
  lemma UntouchedShown(t: Tables, s: Scan, zone: int, root: int, hash: int)
    requires Valid(t) && WellTimed(s) && !ActedOn(s, root, hash)
    ensures ViewAt(Raced(t, s, zone), root, hash) == ViewAt(t, root, hash)
  {
    RacedEffect(t, s, zone);
    if i :| 0 <= i < |s.items| && KeyedBy(s.items[i], root, hash) {
      assert !Acts(s, i);
    }
    hide Raced, Finishes;
  }

  /** A new path shows what its item gives it. */
  lemma NewlyShown(t: Tables, s: Scan, zone: int, i: nat)
    requires Valid(t) && WellTimed(s) && i < |s.items| && Finishes(s.items, s.turns, i)
    requires !Known(t, s.items[i].root, s.items[i].place.hash)
    ensures ViewAt(Raced(t, s, zone), s.items[i].root, s.items[i].place.hash) == Shown(None, s.items[i])
  {
    RacedEffect(t, s, zone);
    hide Raced, Finishes;
  }

  lemma KeyShown(t: Tables, id: int)
    requires Valid(t) && id in t.files
    ensures var v := ViewAt(t, t.files[id].root, t.files[id].place.hash);
            v.Some? && ContentKey(v.value.frames) == KeyOf(t, id)
  {
    ViewOfRow(t, id);
  }

  /** A row that stays untouched keeps its content key. */
  lemma AbsentKey(t: Tables, s: Scan, zone: int, w: int)
    requires Valid(t) && WellTimed(s)
    requires w in Raced(t, s, zone).files
    requires !ActedOn(s, Raced(t, s, zone).files[w].root,
        Raced(t, s, zone).files[w].place.hash)
    ensures w in t.files && Raced(t, s, zone).files[w] == t.files[w]
    ensures KeyOf(Raced(t, s, zone), w) == KeyOf(t, w)
  {
    var u := Raced(t, s, zone);
    RacedRow(t, s, zone, w);
    RacedEffect(t, s, zone);
    UntouchedShown(t, s, zone, u.files[w].root, u.files[w].place.hash);
    KeyShown(t, w);
    KeyShown(u, w);
  }

  /** A row that the scan created belongs to an item at a new path and has that item's content. */
  lemma AppearedKey(t: Tables, s: Scan, zone: int, b: int) returns (j: nat)
    requires Valid(t) && WellTimed(s)
    requires b in Appeared(Raced(t, s, zone), s.root, s.start) && b !in t.files
    ensures var u := Raced(t, s, zone);
            && j < |s.items| && NewAt(t, s, j)
            && Known(u, s.root, s.items[j].place.hash) && IdAt(u, s.root, s.items[j].place.hash) == b
            && KeyOf(u, b) == ContentOf(s.items[j])
  {
    var u := Raced(t, s, zone);
    RacedEffect(t, s, zone);
    j := AppearedItem(t, s, zone, b);
    ViewOfRow(u, b);
    NewlyShown(t, s, zone, j);
    KeyShown(u, b);
    ShownContent(s.items[j]);
  }

  lemma AppearedItem(t: Tables, s: Scan, zone: int, b: int) returns (j: nat)
    requires Valid(t) && WellTimed(s)
    requires b in Appeared(Raced(t, s, zone), s.root, s.start) && b !in t.files
    ensures j < |s.items| && NewAt(t, s, j) && Acts(s, j)
    ensures var row := Raced(t, s, zone).files[b];
            row.root == s.root && row.place.hash == s.items[j].place.hash
  {
    var u := Raced(t, s, zone);
    var row := u.files[b];
    RacedRow(t, s, zone, b);
    RacedEffect(t, s, zone);
    ViewOfRow(u, b);
    RacedPath(t, s, zone, row.root, row.place.hash);
    j :| 0 <= j < |s.items| && Acts(s, j) && KeyedBy(s.items[j], row.root, row.place.hash);
  }

  /** A file with a content key has a frame. */
  lemma SomeFrame(t: Tables, v: int) returns (f: int)
    requires KeyOf(t, v) != []
    ensures f in t.frames && t.frames[f].file == v
  {
    var frames := FramesOf(t, v);
    var hdu := Sorted(frames.Keys)[0];
    SortedElements(frames.Keys);
    assert hdu in Sorted(frames.Keys);
    f := FrameAt(t, v, hdu);
  }

  lemma ShownContent(item: Item)
    requires IsFrameFile(item)
    ensures Shown(None, item).Some? && ContentKey(Shown(None, item).value.frames) == ContentOf(item)
  {
    EmptyKey();
  }

  lemma EmptyKey()
    ensures ContentKey(map[]) == []
  {
  }

  lemma CleanMoveMatches(t: Tables, s: Scan, zone: int, v: int, m: nat)
    requires Valid(t) && SeenBefore(t, s.start) && WellTimed(s) && MovesCleanly(t, s, zone, v, m)
    ensures var u := Raced(t, s, zone);
            && Known(u, s.root, s.items[m].place.hash)
            && v in u.files && u.files[v] == t.files[v]
            && Moves(PlanOf(u, s.root, s.start), v, IdAt(u, s.root, s.items[m].place.hash))
  {
    SoleVanished(t, s, zone, v, m);
    var a := CleanMoveTarget(t, s, zone, m);
    SoleAppeared(t, s, zone, v, m, a);
  }

  lemma VanishedWasAbsent(t: Tables, s: Scan, zone: int, w: int)
    requires Valid(t) && WellTimed(s) && w in Vanished(Raced(t, s, zone), s.root, s.start)
    ensures w in t.files && Absent(t, s, w)
    ensures PlanOf(Raced(t, s, zone), s.root, s.start).key[w] == KeyOf(t, w)
  {
    hide KeyOf, Raced;
    RacedRow(t, s, zone, w);
    AbsentKey(t, s, zone, w);
    PlannedKey(Raced(t, s, zone), s.root, s.start, w);
  }

  lemma SoleVanished(t: Tables, s: Scan, zone: int, v: int, m: nat)
    requires Valid(t) && SeenBefore(t, s.start) && WellTimed(s) && MovesCleanly(t, s, zone, v, m)
    ensures var u := Raced(t, s, zone);
            var p := PlanOf(u, s.root, s.start);
            && v in u.files && u.files[v] == t.files[v] && v in p.vanished
            && p.key[v] == KeyOf(t, v) && Sole(p, p.vanished, v)
  {
    var u := Raced(t, s, zone);
    hide KeyOf, Raced;
    RacedReady(t, s, zone);
    assert v in u.files && At(u.files[v], t.files[v].root, t.files[v].place.hash);
    AbsentKey(t, s, zone, v);
    PlannedKey(u, s.root, s.start, v);
    forall w | w in Vanished(u, s.root, s.start)
      ensures w in t.files && Absent(t, s, w) && PlanOf(u, s.root, s.start).key[w] == KeyOf(t, w)
    {
      VanishedWasAbsent(t, s, zone, w);
    }
  }

  lemma SoleAppeared(t: Tables, s: Scan, zone: int, v: int, m: nat, a: int)
    requires Valid(t) && SeenBefore(t, s.start) && WellTimed(s) && MovesCleanly(t, s, zone, v, m)
    requires var u := Raced(t, s, zone);
             && Known(u, s.root, s.items[m].place.hash) && a == IdAt(u, s.root, s.items[m].place.hash)
             && PlanOf(u, s.root, s.start).key[a] == ContentOf(s.items[m])
    ensures var p := PlanOf(Raced(t, s, zone), s.root, s.start); Sole(p, p.appeared, a)
  {
    hide KeyOf, Raced, ContentOf;
    var u := Raced(t, s, zone);
    forall b | b in Appeared(u, s.root, s.start) && PlanOf(u, s.root, s.start).key[b] == KeyOf(t, v)
      ensures b == a
    {
      PlannedKey(u, s.root, s.start, b);
      RacedRow(t, s, zone, b);
      if b !in t.files {
        var j := AppearedKey(t, s, zone, b);
      }
    }
  }

  lemma CleanMoveTarget(t: Tables, s: Scan, zone: int, m: nat) returns (a: int)
    requires Valid(t) && SeenBefore(t, s.start) && WellTimed(s)
    requires m < |s.items| && s.items[m].root == s.root && Stores(s.items[m]) && Finishes(s.items, s.turns, m)
        && !Known(t, s.root, s.items[m].place.hash)
    ensures var u := Raced(t, s, zone);
            && Known(u, s.root, s.items[m].place.hash) && a == IdAt(u, s.root, s.items[m].place.hash)
            && a in Appeared(u, s.root, s.start) && u.files[a].place == s.items[m].place && u.files[a].status == Ok
            && u.files[a].size == Some(s.items[m].size) && u.files[a].mtime == Some(s.items[m].mtime)
            && u.files[a].inode == Some(s.items[m].inode)
            && PlanOf(u, s.root, s.start).key[a] == ContentOf(s.items[m])
  {
    var u := Raced(t, s, zone);
    var hash := s.items[m].place.hash;
    assert Acts(s, m) && KeyedBy(s.items[m], s.root, hash);
    RacedReady(t, s, zone);
    RacedPath(t, s, zone, s.root, hash);
    a := IdAt(u, s.root, hash);
    NewlyShown(t, s, zone, m);
    ViewOfRow(u, a);
    PlannedKey(u, s.root, s.start, a);
  }

  /** The row follows the file: it stands at the new path, with what was found there, and its frames keep their
      ids. */
  lemma CleanMove(t: Tables, s: Scan, zone: int, v: int, m: nat)
    requires Valid(t) && SeenBefore(t, s.start) && WellTimed(s) && MovesCleanly(t, s, zone, v, m)
    ensures var w := Scanned(t, s, zone);
            && v in w.files && w.files[v].root == s.root && w.files[v].place == s.items[m].place
            && w.files[v].size == Some(s.items[m].size) && w.files[v].mtime == Some(s.items[m].mtime)
            && w.files[v].inode == Some(s.items[m].inode) && w.files[v].status == Ok
            && w.files[v].firstSeen == t.files[v].firstSeen
            && forall f :: f in t.frames && t.frames[f].file == v ==> f in w.frames && w.frames[f].file == v
  {
    var u := Raced(t, s, zone);
    CleanMoveMatches(t, s, zone, v, m);
    var a := CleanMoveTarget(t, s, zone, m);
    assert t.files[v].firstSeen < s.start && Scanned(t, s, zone) == Reconciled(u, s.root, s.start, s.end);
    hide Raced, Reconciled, Scanned, MovesCleanly, Valid, SeenBefore, WellTimed, Moves, PlanOf, KeyOf, ContentOf,
        Absent;
    ElderStays(t, s, zone, v);
    MovedRow(u, s.root, s.start, s.end, v, a);
  }

  lemma MovedRow(t: Tables, root: int, start: Time, now: Time, v: int, a: int)
    requires Moves(PlanOf(t, root, start), v, a) && t.files[v].firstSeen < start
    ensures v in Reconciled(t, root, start, now).files
    ensures Reconciled(t, root, start, now).files[v] == Anchored(t.files[v], t.files[a], now)
  {
    var p := PlanOf(t, root, start);
    MovesMatch(p, v, a, v, TargetOf(p, v));
    VanishedSurvives(t, root, start, now, v);
  }

  /** A file the workers acted on keeps its row and path. */
  lemma StaysPut(t: Tables, s: Scan, zone: int, v: int)
    requires Valid(t) && SeenBefore(t, s.start) && WellTimed(s)
    requires v in t.files && t.files[v].firstSeen < s.start && ActedOn(s, t.files[v].root, t.files[v].place.hash)
    ensures var w := Scanned(t, s, zone);
            && v in w.files && At(w.files[v], t.files[v].root, t.files[v].place.hash) && w.files[v].status != Missing
            && forall f :: f in t.frames && t.frames[f].file == v ==> f in w.frames && w.frames[f].file == v
  {
    var u := Raced(t, s, zone);
    RacedReady(t, s, zone);
    assert v in u.files;
    RacedRow(t, s, zone, v);
    ElderStays(t, s, zone, v);
    UnvanishedStays(t, s, zone, v);
  }

  lemma UnvanishedStays(t: Tables, s: Scan, zone: int, v: int)
    requires Valid(t) && WellTimed(s) && v in t.files && t.files[v].firstSeen < s.start
    requires v in Raced(t, s, zone).files && v !in Vanished(Raced(t, s, zone), s.root, s.start)
    ensures v in Scanned(t, s, zone).files && Scanned(t, s, zone).files[v] == Raced(t, s, zone).files[v]
  {
    ElderStays(t, s, zone, v);
    hide Raced, Vanished, Ended, Valid, WellTimed;
    EndedRow(Raced(t, s, zone), s.root, s.start, |OkIds(t, s.root)|, s.end, s.ending, v);
  }

  /** A missing row is linked again by a scan exactly when the workers act on its own path. */
  lemma MissingReturns(t: Tables, s: Scan, zone: int, v: int)
    requires Valid(t) && SeenBefore(t, s.start) && WellTimed(s)
    requires v in t.files && t.files[v].root == s.root && t.files[v].status == Missing && t.files[v].firstSeen < s.start
    ensures var w := Scanned(t, s, zone);
            && v in w.files && At(w.files[v], s.root, t.files[v].place.hash)
            && (w.files[v].status != Missing <==> ActedOn(s, s.root, t.files[v].place.hash))
  {
    var u := Raced(t, s, zone);
    RacedReady(t, s, zone);
    assert v in u.files;
    RacedRow(t, s, zone, v);
    UnvanishedStays(t, s, zone, v);
  }

  /** At a new path its file gets a new row, whatever its content, unless a row that has just vanished
      moves there; the missing row stays missing. */
  lemma MissingNotFollowed(t: Tables, s: Scan, zone: int, v: int, m: nat)
    requires Valid(t) && SeenBefore(t, s.start) && WellTimed(s)
    requires v in t.files && t.files[v].root == s.root && t.files[v].status == Missing && t.files[v].firstSeen < s.start
    requires !ActedOn(s, s.root, t.files[v].place.hash)
    requires m < |s.items| && NewAt(t, s, m) && Stores(s.items[m]) && Finishes(s.items, s.turns, m)
    requires forall w :: w in t.files && Absent(t, s, w) ==> KeyOf(t, w) != ContentOf(s.items[m])
    ensures var w, hash := Scanned(t, s, zone), s.items[m].place.hash;
            && v in w.files && w.files[v].status == Missing
            && Known(w, s.root, hash)
            && var a := IdAt(w, s.root, hash); a != v && a !in t.files && w.files[a].status == Ok
  {
    MissingReturns(t, s, zone, v);
    var a := CleanMoveTarget(t, s, zone, m);
    NewRowStays(t, s, zone, m, a);
    ScannedValid(t, s, zone);
    var w := Scanned(t, s, zone);
    ViewOfRow(w, a);
  }

  /** A row that is nobody's move target and has not vanished stays as it is. */
  lemma EndedKeeps(u: Tables, root: int, start: Time, prior: int, now: Time, e: Ending, a: int)
    requires a in u.files && a !in Vanished(u, root, start) && forall v :: !Moves(PlanOf(u, root, start), v, a)
    ensures var w := Ended(u, root, start, prior, now, e); a in w.files && w.files[a] == u.files[a]
  {
    var p := PlanOf(u, root, start);
    RowDropped(u, root, start, now, a);
    if e.Broken? {
      CutDropped(u, p, e.done, e.half, now, a);
    }
    hide Reconciled, PassTo, Moves;
    assert a in Ended(u, root, start, prior, now, e).files;
    EndedRow(u, root, start, prior, now, e, a);
  }

  lemma NewRowStays(t: Tables, s: Scan, zone: int, m: nat, a: int)
    requires Valid(t) && SeenBefore(t, s.start) && WellTimed(s)
    requires m < |s.items| && NewAt(t, s, m) && Stores(s.items[m]) && Finishes(s.items, s.turns, m)
    requires forall w :: w in t.files && Absent(t, s, w) ==> KeyOf(t, w) != ContentOf(s.items[m])
    requires var u := Raced(t, s, zone);
             && a in u.files && At(u.files[a], s.root, s.items[m].place.hash) && u.files[a].status == Ok
             && PlanOf(u, s.root, s.start).key[a] == ContentOf(s.items[m])
    ensures var w := Scanned(t, s, zone);
            a !in t.files && a in w.files && At(w.files[a], s.root, s.items[m].place.hash) && w.files[a].status == Ok
  {
    var u := Raced(t, s, zone);
    var p := PlanOf(u, s.root, s.start);
    RacedReady(t, s, zone);
    assert KeyedBy(s.items[m], s.root, s.items[m].place.hash);
    RacedRow(t, s, zone, a);
    forall v | v in p.vanished
      ensures p.key[v] != p.key[a]
    {
      VanishedWasAbsent(t, s, zone, v);
    }
    assert forall v :: !Moves(p, v, a);
    hide Raced, Moves, PlanOf, Valid, WellTimed, SeenBefore;
    EndedKeeps(u, s.root, s.start, |OkIds(t, s.root)|, s.end, s.ending, a);
  }

  /** In every scan the file of row v stays where it is, or moves cleanly, or, being live, is not got to
      before a stop. */
  ghost predicate Followed(t: Tables, scans: seq<Scan>, zone: int, v: int)
    requires forall n :: 0 <= n < |scans| ==> InRange(scans[n].items, scans[n].turns)
  {
    forall n :: 0 <= n < |scans| ==> FollowedAt(After(t, scans[..n], zone), scans[n], zone, v)
  }

  ghost predicate FollowedAt(t: Tables, s: Scan, zone: int, v: int)
    requires InRange(s.items, s.turns)
  {
    && v in t.files
    && (|| ActedOn(s, t.files[v].root, t.files[v].place.hash)
        || (exists m: nat :: MovesCleanly(t, s, zone, v, m))
        || (s.ending.Stopped? && t.files[v].status != Missing))
  }

  /** A scan that is stopped before it gets to a file leaves its row as it is. */
  lemma StoppedBefore(t: Tables, s: Scan, zone: int, v: int)
    requires Valid(t) && WellTimed(s) && s.ending.Stopped? && v in t.files
    requires !ActedOn(s, t.files[v].root, t.files[v].place.hash)
    ensures v in Scanned(t, s, zone).files && Scanned(t, s, zone).files[v] == t.files[v]
  {
    RacedEffect(t, s, zone);
    assert v in Raced(t, s, zone).files;
    RacedRow(t, s, zone, v);
    hide Raced, Valid;
  }

  /** However often such a file is renamed, its row and its frames keep their ids, and the row ends
      live at the file's last path. */
  lemma {:induction false} FileFollowed(t: Tables, scans: seq<Scan>, zone: int, from: Time, v: int)
    requires Valid(t) && SeenBefore(t, from + 1) && Clocked(scans, from)
    requires v in t.files && t.files[v].firstSeen <= from && scans != [] && Followed(t, scans, zone, v)
    ensures var w, u, last := After(t, scans, zone), After(t, scans[..|scans| - 1], zone), scans[|scans| - 1];
            && v in u.files && v in w.files && w.files[v].status != Missing
            && (|| At(w.files[v], u.files[v].root, u.files[v].place.hash)
                || exists m: nat :: MovesCleanly(u, last, zone, v, m) && w.files[v].place == last.items[m].place)
            && forall f :: f in t.frames && t.frames[f].file == v ==> f in w.frames && w.frames[f].file == v
  {
    var n := |scans| - 1;
    var u := After(t, scans[..n], zone);
    LaterStarts(scans, from, n);
    AfterStamps(t, scans[..n], zone, from);
    ElderStaysThrough(t, scans[..n], zone, from, v);
    ElderStaysThrough(t, scans, zone, from, v);
    assert FollowedAt(u, scans[n], zone, v);
    if ActedOn(scans[n], u.files[v].root, u.files[v].place.hash) {
      StaysPut(u, scans[n], zone, v);
    } else if exists m: nat :: MovesCleanly(u, scans[n], zone, v, m) {
      var m: nat :| MovesCleanly(u, scans[n], zone, v, m);
      CleanMove(u, scans[n], zone, v, m);
    } else {
      StoppedBefore(u, scans[n], zone, v);
    }
  }
}
