/** scan_root on the database: the worker loop body, its counters, and the whole pass. */
module Scanner {
  import opened Options
  import opened Tables
  import opened FrameStore
  import opened Database
  import opened Sweep
  import opened Racing
  import opened Reconcile
  import opened Runs
  import opened Artifacts
  import opened Rereading
  import BoundedQueue

  /** Which counter an item ends in. */
  datatype Verdict = Unseen | IsSettling | IsArtifact | IsSkipped | IsAdded | IsUpdated | IsErrored

  ghost function VerdictOf(t: Tables, item: Item): Verdict {
    match item.found
    case Gone => Unseen
    case Settling => IsSettling
    case Sidecar(recorded) => if recorded then IsArtifact else IsErrored
    case _ =>
      if Skips(t, item) then IsSkipped
      else if !Stores(item) then IsErrored
      else if Known(t, item.root, item.place.hash) then IsUpdated
      else IsAdded
  }

  datatype Counts = Counts(
    seen: nat, added: nat, updated: nat, skipped: nat, settling: nat, errored: nat, artifacts: nat, frames: nat)

  function Bumped(c: Counts, v: Verdict, frames: nat): Counts {
    match v
    case Unseen => c
    case IsSettling => c.(seen := c.seen + 1, settling := c.settling + 1)
    case IsArtifact => c.(seen := c.seen + 1, artifacts := c.artifacts + 1)
    case IsSkipped => c.(seen := c.seen + 1, skipped := c.skipped + 1)
    case IsAdded => c.(seen := c.seen + 1, added := c.added + 1, frames := c.frames + frames)
    case IsUpdated => c.(seen := c.seen + 1, updated := c.updated + 1, frames := c.frames + frames)
    case IsErrored => c.(seen := c.seen + 1, errored := c.errored + 1)
  }

  class Tally {
    var seen: nat
    var added: nat
    var updated: nat
    var skipped: nat
    var settling: nat
    var errored: nat
    var artifacts: nat
    var frames: nat

    constructor ()
      ensures Snap() == Counts(0, 0, 0, 0, 0, 0, 0, 0)
    {
      seen, added, updated, skipped, settling, errored, artifacts, frames := 0, 0, 0, 0, 0, 0, 0, 0;
    }

    function Snap(): Counts
      reads this
    {
      Counts(seen, added, updated, skipped, settling, errored, artifacts, frames)
    }
  }

  function FramesOfItem(item: Item): nat {
    if item.found.Readable? then |ImageHdus(item.found.hdus)| else 0
  }

  method UpsertError(db: Database, item: Item, what: string, now: Time, zone: int)
    requires Valid(db.Snap())
    modifies db
    ensures db.Snap() == ErrorUpserted(old(db.Snap()), item, what, now, zone)
  {
    var known := db.SelectFile(item.root, item.place.hash);
    match known {
      case Some(id) =>
        db.files := db.files[id := db.files[id].(status := Error, error := Some(Prefix(what, 500)),
            lastSeen := Some(now))];
      case None =>
        db.files := db.files[db.nextFile := ErrorRow(item, what, now, zone)];
        db.nextFile := db.nextFile + 1;
    }
  }

  // ---- The loop body, in its two steps ----

  /** What a worker carries from the look-up to the end of its pass. */
  datatype Job = Job(touch: Option<int>, known: bool)

  /** What the look-up found, and what it counted. */
  ghost predicate Looked(t: Tables, item: Item, c: Counts, c': Counts, job: Option<Job>) {
    && (job.Some? <==> IsFrameFile(item))
    && (job.Some? ==>
          && job.value.known == Known(t, item.root, item.place.hash)
          && job.value.touch == (if Skips(t, item) then Some(IdAt(t, item.root, item.place.hash)) else None)
          && c' == c.(seen := c.seen + 1))
    && (job.None? ==> c' == Bumped(c, VerdictOf(t, item), FramesOfItem(item)))
  }

  function ShelfLooked(a: Artifacts, item: Item): Artifacts {
    if item.found == Sidecar(true) then Recorded(a, item) else a
  }

  /** The first step: stat, settle gate and sidecar, or the look-up of a frame file. A job is left to do
      exactly for a frame file. */
  method LookUp(db: Database, shelf: Shelf, tally: Tally, item: Item) returns (job: Option<Job>)
    requires Valid(db.Snap())
    modifies shelf, tally
    ensures Looked(db.Snap(), item, old(tally.Snap()), tally.Snap(), job)
    ensures shelf.Snap() == ShelfLooked(old(shelf.Snap()), item)
  {
    job := None;
    if item.found.Gone? {
      return;
    }
    tally.seen := tally.seen + 1;
    if IsFrameFile(item) {
      var row := db.SelectFile(item.root, item.place.hash);
      var same := row.Some?
          && Unchanged(db.files[row.value].size, db.files[row.value].mtime, db.files[row.value].status, item);
      job := Some(Job(if same then row else None, row.Some?));
    } else if item.found.Settling? {
      tally.settling := tally.settling + 1;
    } else if item.found.recorded {
      shelf.Record(item);
      tally.artifacts := tally.artifacts + 1;
    } else {
      tally.errored := tally.errored + 1;
    }
  }

  /** The second step: touch an unchanged file, else read and store, else record the error. */
  method Finish(db: Database, tally: Tally, item: Item, job: Job, now: Time, zone: int)
    requires Valid(db.Snap()) && IsFrameFile(item)
    requires job.touch.Some? ==> job.touch.value in db.files
    modifies db, tally
    ensures db.Snap() == match job.touch
                         case Some(id) => Touched(old(db.Snap()), id, now)
                         case None => Processed(old(db.Snap()), item, now, zone)
    ensures tally.Snap() == Bumped(old(tally.Snap()), JobVerdict(job, item),
        FramesOfItem(item)).(seen := old(tally.seen))
  {
    hide Valid, Stored, ErrorUpserted, Succeeds;
    match job.touch {
      case Some(id) =>
        db.files := db.files[id := db.files[id].(lastSeen := Some(now), status := Ok)];
        tally.skipped := tally.skipped + 1;
      case None =>
        match item.found {
          case Readable(hdus, faults, what) =>
            var outcome, attempts := db.StoreFile(Info(item), hdus, now, faults);
            match outcome {
              case Done(written) =>
                tally.frames := tally.frames + written;
                if job.known {
                  tally.updated := tally.updated + 1;
                } else {
                  tally.added := tally.added + 1;
                }
              case Thrown(_) =>
                tally.errored := tally.errored + 1;
                UpsertError(db, item, what, now, zone);
            }
          case Unreadable(what) =>
            tally.errored := tally.errored + 1;
            UpsertError(db, item, what, now, zone);
        }
    }
  }

  function JobVerdict(job: Job, item: Item): Verdict {
    if job.touch.Some? then IsSkipped
    else if !Stores(item) then IsErrored
    else if job.known then IsUpdated
    else IsAdded
  }

  /** One pass through the worker loop for a popped item that nobody disturbs; none after a stop request. */
  method Work(db: Database, shelf: Shelf, tally: Tally, item: Item, now: Time, zone: int, stop: bool)
    requires Valid(db.Snap())
    modifies db, shelf, tally
    ensures stop ==>
              && db.Snap() == old(db.Snap()) && shelf.Snap() == old(shelf.Snap()) && tally.Snap() == old(tally.Snap())
    ensures !stop ==>
              && shelf.Snap() == ShelfLooked(old(shelf.Snap()), item)
              && db.Snap() == Handled(old(db.Snap()), item, now, zone)
              && tally.Snap() == Bumped(old(tally.Snap()), VerdictOf(old(db.Snap()), item), FramesOfItem(item))
    ensures Valid(db.Snap())
  {
    HandledEffect(db.Snap(), item, now, zone);
    if stop {
      return;
    }
    var job := LookUp(db, shelf, tally, item);
    hide Valid, Processed, Touched, ShelfLooked;
    if job.Some? {
      Finish(db, tally, item, job.value, now, zone);
    }
  }

  // ---- The counters do not depend on the interleaving ----

  function Plus(c: Counts, d: Counts): Counts {
    Counts(c.seen + d.seen, c.added + d.added, c.updated + d.updated, c.skipped + d.skipped, c.settling + d.settling,
        c.errored + d.errored, c.artifacts + d.artifacts, c.frames + d.frames)
  }

  const ZERO := Counts(0, 0, 0, 0, 0, 0, 0, 0)
  const ONE := Counts(1, 0, 0, 0, 0, 0, 0, 0)

  /** What a verdict adds to the counters. */
  function Delta(seen: nat, v: Verdict, frames: nat): Counts {
    Counts(seen, if v.IsAdded? then 1 else 0, if v.IsUpdated? then 1 else 0, if v.IsSkipped? then 1 else 0,
        if v.IsSettling? then 1 else 0, if v.IsErrored? then 1 else 0, if v.IsArtifact? then 1 else 0,
        if v.IsAdded? || v.IsUpdated? then frames else 0)
  }

  /** What a finished item adds to the counters: what it would add alone, before the sweep. */
  ghost function Share(t: Tables, item: Item, phase: Phase): Counts {
    match phase
    case Waiting => ZERO
    case Decided(_) => ONE
    case Finished => Delta(if VerdictOf(t, item).Unseen? then 0 else 1, VerdictOf(t, item), FramesOfItem(item))
  }

  ghost function Total(t: Tables, items: seq<Item>, phases: seq<Phase>): Counts
    requires |phases| == |items|
  {
    if items == [] then ZERO
    else
      var n := |items| - 1;
      Plus(Total(t, items[..n], phases[..n]), Share(t, items[n], phases[n]))
  }

  lemma {:induction false} NothingCounted(t: Tables, items: seq<Item>, phases: seq<Phase>)
    requires |phases| == |items| && forall i :: 0 <= i < |phases| ==> phases[i].Waiting?
    ensures Total(t, items, phases) == ZERO
  {
    hide Plus, Delta, VerdictOf, FramesOfItem, ZERO;
    if items != [] {
      NothingCounted(t, items[..|items| - 1], phases[..|items| - 1]);
      PlusZero(ZERO);
    }
  }

  /** An item that goes on adds the difference of its shares. */
  lemma {:induction false} TotalUpdate(t: Tables, items: seq<Item>, phases: seq<Phase>, i: nat, phase: Phase, d: Counts)
    requires i < |items| == |phases| && Share(t, items[i], phase) == Plus(Share(t, items[i], phases[i]), d)
    ensures Total(t, items, phases[i := phase]) == Plus(Total(t, items, phases), d)
  {
    hide Share;
    var n := |items| - 1;
    if i == n {
      assert phases[i := phase][..n] == phases[..n];
    } else {
      TotalUpdate(t, items[..n], phases[..n], i, phase, d);
      assert phases[i := phase][..n] == phases[..n][i := phase];
    }
  }

  predicate Balanced(c: Counts) {
    c.seen == c.settling + c.artifacts + c.skipped + c.added + c.updated + c.errored
  }

  lemma BalancedPlus(c: Counts, v: Verdict, frames: nat)
    requires Balanced(c)
    ensures var d := Plus(c, Delta(if v.Unseen? then 0 else 1, v, frames));
            Balanced(d) && d.seen == c.seen + if v.Unseen? then 0 else 1
  {
  }

  /** Nobody is in the middle of an item. */
  ghost predicate NoneDecided(phases: seq<Phase>) {
    forall i :: 0 <= i < |phases| ==> !phases[i].Decided?
  }

  /** Then every item that existed is counted once in seen and once in
      exactly one of the other counters. */
  lemma {:induction false} TotalBalanced(t: Tables, items: seq<Item>, phases: seq<Phase>)
    requires |phases| == |items| && NoneDecided(phases)
    ensures Balanced(Total(t, items, phases))
    ensures Total(t, items, phases).seen == SeenItems(items, phases)
  {
    hide Plus, Delta, FramesOfItem, Skips, Stores, Known, Balanced;
    if items == [] {
      ZeroBalanced();
    } else {
      var n := |items| - 1;
      TotalBalanced(t, items[..n], phases[..n]);
      var c := Total(t, items[..n], phases[..n]);
      BalancedPlus(c, VerdictOf(t, items[n]), FramesOfItem(items[n]));
      PlusNothing(c);
    }
  }

  lemma ZeroBalanced()
    ensures Balanced(ZERO)
  {
  }

  lemma PlusNothing(c: Counts)
    ensures Plus(c, ZERO) == c
  {
  }

  /** The finished items that were still there. */
  function SeenItems(items: seq<Item>, phases: seq<Phase>): nat
    requires |phases| == |items|
  {
    if items == [] then 0
    else
      var n := |items| - 1;
      SeenItems(items[..n], phases[..n]) + if phases[n].Finished? && !items[n].found.Gone? then 1 else 0
  }

  // ---- What each counter counts ----

  /** How many finished items are of a kind. */
  ghost function CountOf(items: seq<Item>, phases: seq<Phase>, kind: Item -> bool): nat
    requires |phases| == |items|
  {
    if items == [] then 0
    else
      var n := |items| - 1;
      CountOf(items[..n], phases[..n], kind) + if phases[n].Finished? && kind(items[n]) then 1 else 0
  }

  /** The image HDUs of the finished items of a kind. */
  ghost function ImagesOf(items: seq<Item>, phases: seq<Phase>, kind: Item -> bool): nat
    requires |phases| == |items|
  {
    if items == [] then 0
    else
      var n := |items| - 1;
      ImagesOf(items[..n], phases[..n], kind)
      + if phases[n].Finished? && kind(items[n]) && items[n].found.Readable? then |ImageHdus(items[n].found.hdus)|
          else 0
  }

  ghost function Before(t: Tables, item: Item): Option<FileView> {
    ViewAt(t, item.root, item.place.hash)
  }

  /** The path showed a clean file of this size and second before the sweep. */
  ghost predicate WasClean(t: Tables, item: Item) {
    ShowsClean(Before(t, item), item.size, item.mtime)
  }

  predicate CanStore(item: Item) {
    item.found.Readable? && Succeeds(item.found.faults, item.found.hdus, 0)
  }

  ghost predicate IsNew(t: Tables, item: Item) {
    CanStore(item) && Before(t, item).None?
  }

  ghost predicate IsChanged(t: Tables, item: Item) {
    CanStore(item) && Before(t, item).Some? && !WasClean(t, item)
  }

  ghost predicate IsSame(t: Tables, item: Item) {
    IsFrameFile(item) && WasClean(t, item)
  }

  ghost predicate IsBad(t: Tables, item: Item) {
    item.found == Sidecar(false) || (IsFrameFile(item) && !WasClean(t, item) && !CanStore(item))
  }

  /** What one finished item adds. */
  lemma ShareMeans(t: Tables, item: Item)
    requires Valid(t)
    ensures var c := Share(t, item, Finished);
            && c.seen == (if item.found.Gone? then 0 else 1)
            && c.settling == (if item.found.Settling? then 1 else 0)
            && c.artifacts == (if item.found == Sidecar(true) then 1 else 0)
            && c.skipped == (if IsSame(t, item) then 1 else 0)
            && c.added == (if IsNew(t, item) then 1 else 0)
            && c.updated == (if IsChanged(t, item) then 1 else 0)
            && c.errored == (if IsBad(t, item) then 1 else 0)
            && c.frames == if IsNew(t, item) || IsChanged(t, item) then |ImageHdus(item.found.hdus)| else 0
  {
    SkipsSeen(t, item);
    hide Valid, Succeeds, ImageHdus, ViewOfFile, Skips;
  }

  /** The counters of a sweep: added are the stored files whose path had no row before it, updated those whose
      path had one, skipped the clean files that were the same, errored what could not be recorded, read or
      stored. */
  lemma {:induction false} CountersMean(t: Tables, items: seq<Item>, phases: seq<Phase>)
    requires Valid(t) && |phases| == |items| && NoneDecided(phases)
    ensures var c := Total(t, items, phases);
            && c.seen == CountOf(items, phases, (item: Item) => !item.found.Gone?)
            && c.settling == CountOf(items, phases, (item: Item) => item.found.Settling?)
            && c.artifacts == CountOf(items, phases, (item: Item) => item.found == Sidecar(true))
            && c.skipped == CountOf(items, phases, item => IsSame(t, item))
            && c.added == CountOf(items, phases, item => IsNew(t, item))
            && c.updated == CountOf(items, phases, item => IsChanged(t, item))
            && c.errored == CountOf(items, phases, item => IsBad(t, item))
            && c.frames == ImagesOf(items, phases, item => IsNew(t, item) || IsChanged(t, item))
  {
    if items != [] {
      var n := |items| - 1;
      CountersMean(t, items[..n], phases[..n]);
      ShareMeans(t, items[n]);
      hide Share, Valid, IsSame, IsNew, IsChanged, IsBad, ImageHdus;
      NothingShared(t, items[n], phases[n]);
    }
  }

  lemma NothingShared(t: Tables, item: Item, phase: Phase)
    requires !phase.Decided?
    ensures phase.Finished? || Share(t, item, phase) == ZERO
  {
  }

  /** While an item is not finished, its path shows what it showed at the start, and so its verdict stands. */
  lemma VerdictStands(t0: Tables, items: seq<Item>, s: State, i: nat)
    requires Valid(t0) && |s.phases| == |items| && SweepInv(t0, items, s) && i < |items| && !s.phases[i].Finished?
    ensures VerdictOf(s.t, items[i]) == VerdictOf(t0, items[i])
    ensures Known(s.t, items[i].root, items[i].place.hash) == Known(t0, items[i].root, items[i].place.hash)
  {
    SkipsSeen(t0, items[i]);
    SkipsSeen(s.t, items[i]);
    assert ViewAt(s.t, items[i].root, items[i].place.hash) == ViewAt(t0, items[i].root, items[i].place.hash);
    hide Skips, Valid, Kept, Unchanged, Stores;
  }

  // ---- The workers, interleaved ----

  /** The jobs in progress are those of the machine, and each knows whether its path was indexed. */
  ghost predicate JobsMatch(t0: Tables, items: seq<Item>, phases: seq<Phase>, begun: seq<bool>,
      jobs: seq<Option<Job>>) {
    && |phases| == |items| == |jobs| == |begun|
    && forall i :: 0 <= i < |items| ==>
         && (begun[i] <==> !phases[i].Waiting?)
         && (phases[i].Decided? <==> jobs[i].Some?)
         && (jobs[i].Some? ==>
               && IsFrameFile(items[i])
               && jobs[i].value.touch == phases[i].touch
               && jobs[i].value.known == Known(t0, items[i].root, items[i].place.hash))
  }

  lemma DecidedJob(t0: Tables, items: seq<Item>, s: State, i: nat, job: Job, now: Time, zone: int)
    requires Valid(t0) && |s.phases| == |items| && SweepInv(t0, items, s) && i < |items|
    requires s.phases[i].Decided? && job.touch == s.phases[i].touch
    requires job.known == Known(t0, items[i].root, items[i].place.hash)
    ensures IsFrameFile(items[i]) && JobVerdict(job, items[i]) == VerdictOf(t0, items[i])
    ensures job.touch.Some? ==> job.touch.value in s.t.files
    ensures Advance(s, items, i, now, zone).t
         == match job.touch
            case Some(id) => Touched(s.t, id, now)
            case None => Processed(s.t, items[i], now, zone)
  {
    VerdictStands(t0, items, s, i);
    assert IsFrameFile(items[i]);
    assert job.touch.Some? <==> Skips(s.t, items[i]);
    hide Stores, Processed, Touched;
  }

  lemma BumpedAdds(c: Counts, v: Verdict, frames: nat)
    ensures Bumped(c, v, frames) == Plus(c, Delta(if v.Unseen? then 0 else 1, v, frames))
    ensures v != Unseen ==> Bumped(c, v, frames).(seen := c.seen) == Plus(c, Delta(0, v, frames))
  {
  }

  lemma DeltaLate(v: Verdict, frames: nat)
    ensures Delta(1, v, frames) == Plus(ONE, Delta(0, v, frames))
  {
    var d := Delta(0, v, frames);
    assert Delta(1, v, frames) == d.(seen := 1);
    assert d.seen == 0;
    hide Delta;
    SeenPlusOne(d);
  }

  lemma SeenPlusOne(d: Counts)
    ensures Plus(ONE, d) == d.(seen := d.seen + 1)
  {
  }

  lemma ShareOf(t: Tables, item: Item)
    ensures Share(t, item, Waiting) == ZERO
    ensures var v := VerdictOf(t, item);
            Share(t, item, Finished) == Delta(if v.Unseen? then 0 else 1, v, FramesOfItem(item))
    ensures forall touch :: Share(t, item, Decided(touch)) == ONE
  {
    hide Delta, VerdictOf, FramesOfItem;
  }

  lemma PlusZero(c: Counts)
    ensures Plus(ZERO, c) == c
  {
  }

  lemma SeenPlus(c: Counts)
    ensures c.(seen := c.seen + 1) == Plus(c, ONE)
  {
  }

  lemma FrameIsSeen(t: Tables, item: Item)
    requires IsFrameFile(item)
    ensures VerdictOf(t, item) != Unseen
  {
  }

  /** The phase an item is in after a turn. */
  lemma PhaseAfter(items: seq<Item>, s: State, i: nat, now: Time, zone: int)
    requires |s.phases| == |items| && i < |items|
    ensures var s' := Advance(s, items, i, now, zone);
            && s'.phases == s.phases[i := s'.phases[i]]
            && (s.phases[i].Waiting? ==>
                  s'.t == s.t && if IsFrameFile(items[i]) then s'.phases[i].Decided? else s'.phases[i].Finished?)
            && (!s.phases[i].Waiting? ==> s'.phases[i].Finished?)
  {
    hide Skips, Touched, Processed;
  }

  /** The first turn of an item. */
  lemma LookUpCounts(t0: Tables, items: seq<Item>, s: State, i: nat, now: Time, zone: int, c: Counts)
    requires |s.phases| == |items| && i < |items| && s.phases[i].Waiting?
    requires VerdictOf(s.t, items[i]) == VerdictOf(t0, items[i]) && c == Total(t0, items, s.phases)
    ensures Total(t0, items, Advance(s, items, i, now, zone).phases)
         == if IsFrameFile(items[i]) then c.(seen := c.seen + 1)
            else Bumped(c, VerdictOf(s.t, items[i]), FramesOfItem(items[i]))
  {
    hide *;
    PhaseAfter(items, s, i, now, zone);
    ghost var phase := Advance(s, items, i, now, zone).phases[i];
    ShareOf(t0, items[i]);
    ghost var v := VerdictOf(t0, items[i]);
    ghost var d := Delta(if v.Unseen? then 0 else 1, v, FramesOfItem(items[i]));
    if IsFrameFile(items[i]) {
      PlusZero(ONE);
      TotalUpdate(t0, items, s.phases, i, phase, ONE);
      SeenPlus(c);
    } else {
      PlusZero(d);
      TotalUpdate(t0, items, s.phases, i, phase, d);
      BumpedAdds(c, VerdictOf(t0, items[i]), FramesOfItem(items[i]));
    }
  }

  /** The second turn of a frame file. */
  lemma FinishCounts(t0: Tables, items: seq<Item>, s: State, i: nat, now: Time, zone: int, c: Counts)
    requires |s.phases| == |items| && i < |items| && s.phases[i].Decided? && IsFrameFile(items[i])
    requires c == Total(t0, items, s.phases)
    ensures Total(t0, items, Advance(s, items, i, now, zone).phases)
         == Bumped(c, VerdictOf(t0, items[i]), FramesOfItem(items[i])).(seen := c.seen)
  {
    FrameIsSeen(t0, items[i]);
    hide *;
    PhaseAfter(items, s, i, now, zone);
    ghost var v, frames := VerdictOf(t0, items[i]), FramesOfItem(items[i]);
    ShareOf(t0, items[i]);
    DeltaLate(v, frames);
    BumpedAdds(c, v, frames);
    TotalUpdate(t0, items, s.phases, i, Finished, Delta(0, v, frames));
  }

  lemma StartJobs(t0: Tables, items: seq<Item>)
    ensures JobsMatch(t0, items, Start(t0, items).phases, seq(|items|, _ => false), seq(|items|, _ => None))
  {
  }

  lemma RunMore(t0: Tables, items: seq<Item>, turns: seq<Turn>, n: nat, zone: int)
    requires InRange(items, turns) && n < |turns|
    ensures Run(Start(t0, items), items, turns[..n + 1], zone)
         == Advance(Run(Start(t0, items), items, turns[..n], zone), items, turns[n].i, turns[n].now, zone)
  {
    assert turns[..n + 1][..n] == turns[..n];
    hide Advance, Start;
  }

  /** What the look-up leaves is what the machine decides. */
  lemma JobsLooked(t0: Tables, items: seq<Item>, s: State, begun: seq<bool>, jobs: seq<Option<Job>>, i: nat, now: Time,
      zone: int, job: Option<Job>)
    requires i < |items| && JobsMatch(t0, items, s.phases, begun, jobs) && s.phases[i].Waiting?
    requires Known(s.t, items[i].root, items[i].place.hash) == Known(t0, items[i].root, items[i].place.hash)
    requires job.Some? <==> IsFrameFile(items[i])
    requires job.Some? ==>
               && job.value.known == Known(s.t, items[i].root, items[i].place.hash)
               && job.value.touch == (if Skips(s.t, items[i])
                                      then Some(IdAt(s.t, items[i].root, items[i].place.hash)) else None)
    ensures JobsMatch(t0, items, Advance(s, items, i, now, zone).phases, begun[i := true], jobs[i := job])
  {
    hide Skips, Known, IsFrameFile;
  }

  lemma JobsFinished(t0: Tables, items: seq<Item>, s: State, begun: seq<bool>, jobs: seq<Option<Job>>, i: nat,
      now: Time,
      zone: int)
    requires i < |items| && JobsMatch(t0, items, s.phases, begun, jobs) && !s.phases[i].Waiting?
    ensures JobsMatch(t0, items, Advance(s, items, i, now, zone).phases, begun, jobs[i := None])
  {
    PhaseAfter(items, s, i, now, zone);
    hide Known, IsFrameFile, Advance;
  }

  /** What one turn of the worker that has item i must leave. */
  ghost predicate Turned(t0: Tables, items: seq<Item>, s: State, i: nat, now: Time, zone: int, t: Tables, c: Counts,
      begun: seq<bool>, jobs: seq<Option<Job>>)
    requires i < |items| == |s.phases|
  {
    var s' := Advance(s, items, i, now, zone);
    t == s'.t && JobsMatch(t0, items, s'.phases, begun, jobs) && c == Total(t0, items, s'.phases)
  }

  method FirstTurn(db: Database, shelf: Shelf, tally: Tally, items: seq<Item>, begun: seq<bool>, jobs: seq<Option<Job>>,
      i: nat,
      now: Time, zone: int, ghost t0: Tables, ghost s: State)
    returns (begun': seq<bool>, jobs': seq<Option<Job>>)
    requires Valid(t0) && i < |items| == |s.phases| && JobsMatch(t0, items, s.phases, begun, jobs)
    requires s.t == db.Snap() && SweepInv(t0, items, s) && tally.Snap() == Total(t0, items, s.phases)
    requires s.phases[i].Waiting?
    modifies shelf, tally
    ensures Turned(t0, items, s, i, now, zone, db.Snap(), tally.Snap(), begun', jobs')
    ensures shelf.Snap() == ShelfLooked(old(shelf.Snap()), items[i])
  {
    assert |begun| == |jobs| == |items|;
    RunIsValid(t0, items, s);
    ghost var c := tally.Snap();
    hide *;
    var job := LookUp(db, shelf, tally, items[i]);
    begun', jobs' := begun[i := true], jobs[i := job];
    FirstTurned(t0, items, s, i, now, zone, c, tally.Snap(), begun, jobs, job);
  }

  lemma FirstTurned(t0: Tables, items: seq<Item>, s: State, i: nat, now: Time, zone: int, c: Counts, c': Counts,
      begun: seq<bool>, jobs: seq<Option<Job>>, job: Option<Job>)
    requires Valid(t0) && i < |items| == |s.phases| && JobsMatch(t0, items, s.phases, begun, jobs)
    requires SweepInv(t0, items, s) && s.phases[i].Waiting? && c == Total(t0, items, s.phases)
    requires Looked(s.t, items[i], c, c', job)
    ensures |begun| == |jobs| == |items|
    ensures Turned(t0, items, s, i, now, zone, s.t, c', begun[i := true], jobs[i := job])
  {
    hide Total, Valid, SweepInv, Bumped, VerdictOf, Skips, Known;
    PhaseAfter(items, s, i, now, zone);
    VerdictStands(t0, items, s, i);
    LookUpCounts(t0, items, s, i, now, zone, c);
    JobsLooked(t0, items, s, begun, jobs, i, now, zone, job);
    hide Advance, JobsMatch;
  }

  lemma TurnedIs(t0: Tables, items: seq<Item>, s: State, i: nat, now: Time, zone: int, t: Tables, c: Counts,
      begun: seq<bool>, jobs: seq<Option<Job>>)
    requires i < |items| == |s.phases|
    requires var s' := Advance(s, items, i, now, zone);
             t == s'.t && JobsMatch(t0, items, s'.phases, begun, jobs) && c == Total(t0, items, s'.phases)
    ensures Turned(t0, items, s, i, now, zone, t, c, begun, jobs)
  {
    hide Advance, JobsMatch, Total;
  }

  method SecondTurn(db: Database, tally: Tally, items: seq<Item>, begun: seq<bool>, jobs: seq<Option<Job>>, i: nat,
      job: Job, now: Time, zone: int, ghost t0: Tables, ghost s: State)
    returns (jobs': seq<Option<Job>>)
    requires Valid(t0) && i < |items| == |s.phases| && JobsMatch(t0, items, s.phases, begun, jobs)
    requires s.t == db.Snap() && SweepInv(t0, items, s) && tally.Snap() == Total(t0, items, s.phases)
    requires s.phases[i].Decided? && jobs[i] == Some(job)
    modifies db, tally
    ensures Turned(t0, items, s, i, now, zone, db.Snap(), tally.Snap(), begun, jobs')
  {
    assert |jobs| == |items|;
    JobAt(t0, items, s, begun, jobs, i);
    RunIsValid(t0, items, s);
    hide *;
    DecidedJob(t0, items, s, i, job, now, zone);
    FinishCounts(t0, items, s, i, now, zone, tally.Snap());
    JobsFinished(t0, items, s, begun, jobs, i, now, zone);
    Finish(db, tally, items[i], job, now, zone);
    jobs' := jobs[i := None];
    TurnedIs(t0, items, s, i, now, zone, db.Snap(), tally.Snap(), begun, jobs');
  }

  /** One turn of the worker that has item i. */
  method TakeTurn(db: Database, shelf: Shelf, tally: Tally, items: seq<Item>, begun: seq<bool>, jobs: seq<Option<Job>>,
      i: nat,
      now: Time, zone: int, ghost t0: Tables, ghost s: State)
    returns (begun': seq<bool>, jobs': seq<Option<Job>>)
    requires Valid(t0) && i < |items| == |s.phases| && JobsMatch(t0, items, s.phases, begun, jobs)
    requires s.t == db.Snap() && SweepInv(t0, items, s) && tally.Snap() == Total(t0, items, s.phases)
    modifies db, shelf, tally
    ensures Turned(t0, items, s, i, now, zone, db.Snap(), tally.Snap(), begun', jobs')
    ensures shelf.Snap() == if s.phases[i].Waiting? then ShelfLooked(old(shelf.Snap()), items[i]) else old(shelf.Snap())
  {
    assert |begun| == |jobs| == |items|;
    JobAt(t0, items, s, begun, jobs, i);
    hide *;
    begun', jobs' := begun, jobs;
    if !begun[i] {
      begun', jobs' := FirstTurn(db, shelf, tally, items, begun, jobs, i, now, zone, t0, s);
    } else if jobs[i].Some? {
      jobs' := SecondTurn(db, tally, items, begun, jobs, i, jobs[i].value, now, zone, t0, s);
    } else {
      NothingToDo(items, s, i, now, zone);
      TurnedIs(t0, items, s, i, now, zone, db.Snap(), tally.Snap(), begun, jobs);
    }
  }

  lemma JobAt(t0: Tables, items: seq<Item>, s: State, begun: seq<bool>, jobs: seq<Option<Job>>, i: nat)
    requires i < |items| && JobsMatch(t0, items, s.phases, begun, jobs)
    ensures begun[i] <==> !s.phases[i].Waiting?
    ensures jobs[i].Some? <==> s.phases[i].Decided?
    ensures jobs[i].Some? ==>
              && IsFrameFile(items[i]) && jobs[i].value.touch == s.phases[i].touch
              && jobs[i].value.known == Known(t0, items[i].root, items[i].place.hash)
  {
    hide Known, IsFrameFile;
  }

  lemma NothingToDo(items: seq<Item>, s: State, i: nat, now: Time, zone: int)
    requires |s.phases| == |items| && i < |items| && s.phases[i].Finished?
    ensures Advance(s, items, i, now, zone) == s
  {
    hide Skips, Touched, Processed;
  }

  /** Where the workers are after n turns. */
  ghost predicate Reached(t0: Tables, items: seq<Item>, turns: seq<Turn>, n: nat, zone: int, t: Tables, c: Counts,
      phases: seq<Phase>, begun: seq<bool>, jobs: seq<Option<Job>>)
    requires InRange(items, turns) && n <= |turns|
  {
    && State(t, phases) == Run(Start(t0, items), items, turns[..n], zone)
    && JobsMatch(t0, items, phases, begun, jobs)
    && c == Total(t0, items, phases)
  }

  method NextTurn(db: Database, shelf: Shelf, tally: Tally, items: seq<Item>, turns: seq<Turn>, n: nat,
      begun: seq<bool>,
      jobs: seq<Option<Job>>, zone: int, ghost t0: Tables, ghost phases: seq<Phase>)
    returns (begun': seq<bool>, jobs': seq<Option<Job>>, ghost phases': seq<Phase>)
    requires Valid(t0) && DistinctPaths(items) && InRange(items, turns) && n < |turns|
    requires Reached(t0, items, turns, n, zone, db.Snap(), tally.Snap(), phases, begun, jobs)
    requires turns[n].i < |phases|
    modifies db, shelf, tally
    ensures Reached(t0, items, turns, n + 1, zone, db.Snap(), tally.Snap(), phases', begun', jobs')
    ensures shelf.Snap() == if phases[turns[n].i].Waiting? then ShelfLooked(old(shelf.Snap()), items[turns[n].i])
                            else old(shelf.Snap())
  {
    ghost var s := State(db.Snap(), phases);
    RunKeepsInv(t0, items, turns[..n], zone);
    RunMore(t0, items, turns, n, zone);
    hide Valid, Total, SweepInv, Advance, Start, DistinctPaths, Run, JobsMatch;
    begun', jobs' := TakeTurn(db, shelf, tally, items, begun, jobs, turns[n].i, turns[n].now, zone, t0, s);
    phases' := Advance(s, items, turns[n].i, turns[n].now, zone).phases;
  }

  /** The workers' share, turn by turn. */
  method WorkTurns(db: Database, shelf: Shelf, tally: Tally, items: seq<Item>, turns: seq<Turn>, zone: int)
    requires Valid(db.Snap()) && DistinctPaths(items) && InRange(items, turns) && tally.Snap() == ZERO
    modifies db, shelf, tally
    ensures var s := Run(Start(old(db.Snap()), items), items, turns, zone);
            && Valid(db.Snap()) && db.Snap() == s.t && tally.Snap() == Total(old(db.Snap()), items, s.phases)
    ensures shelf.Snap() == RecordedAll(old(shelf.Snap()), items, turns)
  {
    ghost var t0, a := db.Snap(), shelf.Snap();
    hide *;
    var begun, jobs := seq(|items|, _ => false), seq(|items|, _ => None);
    ghost var phases: seq<Phase> := Start(t0, items).phases;
    NoneReached(t0, items, turns, zone, begun, jobs);
    NoneRecorded(a, items, turns);
    var n := 0;
    while n < |turns|
      invariant 0 <= n <= |turns|
      invariant Reached(t0, items, turns, n, zone, db.Snap(), tally.Snap(), phases, begun, jobs)
      invariant shelf.Snap() == RecordedAll(a, items, turns[..n])
    {
      TurnRecords(a, t0, items, turns, n, zone, db.Snap(), tally.Snap(), phases, begun, jobs);
      begun, jobs, phases := NextTurn(db, shelf, tally, items, turns, n, begun, jobs, zone, t0, phases);
      n := n + 1;
    }
    assert turns[..|turns|] == turns;
    AllReached(t0, items, turns, zone, db.Snap(), tally.Snap(), phases, begun, jobs);
  }

  lemma NoneRecorded(a: Artifacts, items: seq<Item>, turns: seq<Turn>)
    requires InRange(items, turns)
    ensures InRange(items, turns[..0]) && RecordedAll(a, items, turns[..0]) == a
  {
  }

  /** The turn that finds an item waiting is its first. */
  lemma TurnRecords(a: Artifacts, t0: Tables, items: seq<Item>, turns: seq<Turn>, n: nat, zone: int, t: Tables,
      c: Counts, phases: seq<Phase>, begun: seq<bool>, jobs: seq<Option<Job>>)
    requires InRange(items, turns) && n < |turns|
    requires Reached(t0, items, turns, n, zone, t, c, phases, begun, jobs)
    ensures InRange(items, turns[..n]) && InRange(items, turns[..n + 1]) && turns[n].i < |phases| == |items|
    ensures var b := RecordedAll(a, items, turns[..n]);
            var after := if phases[turns[n].i].Waiting? then ShelfLooked(b, items[turns[n].i]) else b;
            RecordedAll(a, items, turns[..n + 1]) == after
  {
    assert turns[..n + 1][..n] == turns[..n];
    PhaseIs(t0, items, turns[..n], zone, turns[n].i);
    hide Run, Total, Recorded;
  }

  lemma NoneReached(t0: Tables, items: seq<Item>, turns: seq<Turn>, zone: int, begun: seq<bool>, jobs: seq<Option<Job>>)
    requires InRange(items, turns) && begun == seq(|items|, _ => false) && jobs == seq(|items|, _ => None)
    ensures Reached(t0, items, turns, 0, zone, t0, ZERO, Start(t0, items).phases, begun, jobs)
  {
    NothingCounted(t0, items, Start(t0, items).phases);
    StartJobs(t0, items);
    RunNothing(t0, items, zone);
    assert turns[..0] == [];
    hide Total, Run, JobsMatch;
  }

  lemma AllReached(t0: Tables, items: seq<Item>, turns: seq<Turn>, zone: int, t: Tables, c: Counts, phases: seq<Phase>,
      begun: seq<bool>, jobs: seq<Option<Job>>)
    requires Valid(t0) && DistinctPaths(items) && InRange(items, turns)
    requires Reached(t0, items, turns, |turns|, zone, t, c, phases, begun, jobs)
    ensures var s := Run(Start(t0, items), items, turns, zone);
            Valid(t) && t == s.t && c == Total(t0, items, s.phases)
  {
    assert turns[..|turns|] == turns;
    RunKeepsInv(t0, items, turns, zone);
    hide Total, Run, Start;
  }

  lemma RunNothing(t0: Tables, items: seq<Item>, zone: int)
    ensures Run(Start(t0, items), items, [], zone) == State(t0, Start(t0, items).phases)
  {
  }

  lemma RunIsValid(t0: Tables, items: seq<Item>, s: State)
    requires SweepInv(t0, items, s)
    ensures Valid(s.t)
  {
  }

  // ---- The whole pass ----

  ghost predicate ScanOf(s: Scan, root: int, start: Time, items: seq<Item>, turns: seq<Turn>, end: Time) {
    s == Scan(root, start, items, turns, end, s.ending)
  }

  lemma NoneHalfway(t: Tables, s: Scan, zone: int)
    requires WellTimed(s)
    ensures NoneDecided(Run(Start(t, s.items), s.items, s.turns, zone).phases)
  {
    hide Run, Finishes, Steps;
    forall i | 0 <= i < |s.items|
      ensures !Run(Start(t, s.items), s.items, s.turns, zone).phases[i].Decided?
    {
      PhaseIs(t, s.items, s.turns, zone, i);
    }
  }

  /** scan_root: the walked items pass through the queue to the workers, who interleave as they like; the
      sidecars they recorded are linked; then the tables are reconciled, unless a stop was requested, or
      until a statement throws. The counters do not depend on the interleaving, and every item that still
      existed is counted exactly once. */
  method ScanRoot(db: Database, shelf: Shelf, root: int, start: Time, items: seq<Item>, turns: seq<Turn>, end: Time,
      stop: bool, fault: Option<nat>, linkFault: Option<nat>, workers: nat, depth: nat, schedule: seq<(nat, nat)>,
      zone: int, fold: char -> char)
    returns (counts: Counts, ghost s: Scan, ghost linked: set<int>)
    requires Valid(db.Snap()) && workers >= 1
    requires WellTimed(Scan(root, start, items, turns, end, if stop then Stopped else Whole))
    modifies db, shelf
    ensures ScanOf(s, root, start, items, turns, end) && WellTimed(s)
    ensures (s.ending.Stopped? <==> stop) && (!stop && fault.None? ==> s.ending.Whole?)
    ensures Valid(db.Snap()) && db.Snap() == Scanned(old(db.Snap()), s, zone)
    ensures shelf.Snap() == ShelfAfter(old(shelf.Snap()), old(db.Snap()), s, zone, fold, linked)
    ensures LinkingGot(linked, Gathered(old(shelf.Snap()), s), root, counts.artifacts, linkFault)
    ensures var phases := Run(Start(old(db.Snap()), items), items, turns, zone).phases;
            && counts == Total(old(db.Snap()), items, phases)
            && Balanced(counts) && counts.seen == SeenItems(items, phases)
  {
    ghost var t0, a := db.Snap(), shelf.Snap();
    ghost var planned := Scan(root, start, items, turns, end, if stop then Stopped else Whole);
    ghost var e := Stopped;
    var prior := |OkIds(db.Snap(), root)|;
    SweepEnds(t0, planned, zone);
    assert DistinctPaths(items) && InRange(items, turns);
    hide *;
    counts, linked := SweepAndLink(db, shelf, root, items, turns, linkFault, workers, depth, schedule, zone, fold);
    ghost var u := db.Snap();
    if !stop {
      e := Reconciliation(db, root, start, prior, end, fault);
    }
    shelf.Release(db);
    ScanIs(t0, planned, e, zone, u, db.Snap());
    s := planned.(ending := e);
    ShelfIs(a, t0, s, zone, fold, linked, db.Snap());
  }

  /** The pool, the workers' turns, and the links. */
  method SweepAndLink(db: Database, shelf: Shelf, root: int, items: seq<Item>, turns: seq<Turn>, linkFault: Option<nat>,
      workers: nat, depth: nat, schedule: seq<(nat, nat)>, zone: int, fold: char -> char)
    returns (counts: Counts, ghost linked: set<int>)
    requires Valid(db.Snap()) && workers >= 1 && DistinctPaths(items) && InRange(items, turns)
    modifies db, shelf
    ensures var s := Run(Start(old(db.Snap()), items), items, turns, zone);
            && Valid(db.Snap()) && db.Snap() == s.t && counts == Total(old(db.Snap()), items, s.phases)
    ensures shelf.Snap() == LinkedTo(RecordedAll(old(shelf.Snap()), items, turns), db.Snap(), fold, linked)
    ensures LinkingGot(linked, RecordedAll(old(shelf.Snap()), items, turns), root, counts.artifacts, linkFault)
  {
    var tally := new Tally();
    assert tally.Snap() == ZERO;
    hide *;
    var popped, _ := BoundedQueue.RunPool(items, workers, depth, schedule);
    WorkTurns(db, shelf, tally, popped, turns, zone);
    counts := tally.Snap();
    linked := Link(db, shelf, root, counts.artifacts, fold, linkFault);
  }

  /** How far the linking pass gets. */
  ghost predicate LinkingGot(linked: set<int>, a: Artifacts, root: int, arts: nat, fault: Option<nat>) {
    && linked <= Unlinked(a, root)
    && (arts == 0 ==> linked == {})
    && (arts > 0 && fault.None? ==> linked == Unlinked(a, root))
  }

  method Link(db: Database, shelf: Shelf, root: int, arts: nat, fold: char -> char, fault: Option<nat>)
    returns (ghost linked: set<int>)
    modifies shelf
    ensures shelf.Snap() == LinkedTo(old(shelf.Snap()), db.Snap(), fold, linked)
    ensures LinkingGot(linked, old(shelf.Snap()), root, arts, fault)
  {
    hide LinkedTo, Unlinked;
    linked := shelf.LinkSidecars(db, root, arts, fold, fault);
  }

  lemma ShelfIs(a: Artifacts, t: Tables, s: Scan, zone: int, fold: char -> char, linked: set<int>, w: Tables)
    requires WellTimed(s) && w == Scanned(t, s, zone)
    ensures Gathered(a, s) == RecordedAll(a, s.items, s.turns)
    ensures ShelfAfter(a, t, s, zone, fold, linked)
         == Released(LinkedTo(RecordedAll(a, s.items, s.turns), Run(Start(t, s.items), s.items, s.turns, zone).t, fold,
                linked), w.frames.Keys)
  {
    hide Scanned, RecordedAll, Run, LinkedTo, Released, DistinctPaths, AllFinish, Finishes;
  }

  lemma ScanIs(t: Tables, s: Scan, e: Ending, zone: int, u: Tables, w: Tables)
    requires WellTimed(s) && (e.Stopped? <==> s.ending.Stopped?)
    requires u == Run(Start(t, s.items), s.items, s.turns, zone).t
    requires w == if e.Stopped? then u else Ended(u, s.root, s.start, |OkIds(t, s.root)|, s.end, e)
    ensures WellTimed(s.(ending := e)) && w == Scanned(t, s.(ending := e), zone)
    ensures ScanOf(s.(ending := e), s.root, s.start, s.items, s.turns, s.end)
  {
    hide Run, Reconciled, PassTo, AllFinish, DistinctPaths, Finishes;
  }

  /** The pass, and how it ended. */
  method Reconciliation(db: Database, root: int, start: Time, prior: int, end: Time, fault: Option<nat>)
    returns (ghost e: Ending)
    requires Valid(db.Snap())
    modifies db
    ensures Valid(db.Snap()) && db.Snap() == Ended(old(db.Snap()), root, start, prior, end, e)
    ensures !e.Stopped? && (fault.None? ==> e.Whole?)
  {
    ghost var u := db.Snap();
    hide *;
    var r;
    ghost var done, half;
    r, done, half := ReconcileRoot(db, root, start, prior, end, fault);
    e := if r.Some? then Whole else Broken(done, half);
    PassEnds(u, db.Snap(), root, start, prior, end, r, done, half);
  }

  lemma PassEnds(u: Tables, w: Tables, root: int, start: Time, prior: int, now: Time, r: Option<Reconcile.Result>,
      done: set<int>, half: Option<int>)
    requires var touched := |TouchedIds(u, root, start)|;
             if prior <= 0 || (touched >= 1 && 2 * touched + 1 >= prior) then
               && w == PassTo(u, PlanOf(u, root, start), done, half, now)
               && (r.Some? ==> w == Reconciled(u, root, start, now))
             else w == u
    ensures w == Ended(u, root, start, prior, now, if r.Some? then Whole else Broken(done, half))
  {
    GuardInNumbers(|TouchedIds(u, root, start)|, prior);
    hide Reconciled, PassTo, PlanOf, GuardTrips, TouchedIds;
  }

  lemma SweepEnds(t: Tables, s: Scan, zone: int)
    requires WellTimed(s)
    ensures var phases := Run(Start(t, s.items), s.items, s.turns, zone).phases;
            Balanced(Total(t, s.items, phases)) && Total(t, s.items, phases).seen == SeenItems(s.items, phases)
  {
    NoneHalfway(t, s, zone);
    var phases := Run(Start(t, s.items), s.items, s.turns, zone).phases;
    hide Total, SeenItems, Balanced;
    TotalBalanced(t, s.items, phases);
  }
}
