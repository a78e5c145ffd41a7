/** The clustering loops behind the suggestions: sorted rows cut into maximal runs. */
module Clusters {
  import opened Options

  // ---- Runs ----

  /** A row joins the last run if it is linked to the row before it, else begins a run. */
  function Joining<T>(runs: seq<seq<T>>, front: seq<T>, last: T, linked: (T, T) -> bool): seq<seq<T>> {
    if runs != [] && front != [] && linked(front[|front| - 1], last)
    then runs[..|runs| - 1] + [runs[|runs| - 1] + [last]]
    else runs + [[last]]
  }

  /** The rows cut wherever a row is not linked to the one before it. */
  function Runs<T>(rows: seq<T>, linked: (T, T) -> bool): seq<seq<T>> {
    if rows == [] then []
    else Joining(Runs(rows[..|rows| - 1], linked), rows[..|rows| - 1], rows[|rows| - 1], linked)
  }

  function Flatten<T>(runs: seq<seq<T>>): seq<T> {
    if runs == [] then [] else Flatten(runs[..|runs| - 1]) + runs[|runs| - 1]
  }

  ghost predicate LinkedWithin<T>(run: seq<T>, linked: (T, T) -> bool) {
    run != [] && forall i :: 0 < i < |run| ==> linked(run[i - 1], run[i])
  }

  ghost predicate CutBetween<T>(a: seq<T>, b: seq<T>, linked: (T, T) -> bool) {
    a != [] && b != [] && !linked(a[|a| - 1], b[0])
  }

  /** A partition of the rows, in order, into runs that are linked inside and cut at their ends. */
  ghost predicate IsPartition<T>(runs: seq<seq<T>>, rows: seq<T>, linked: (T, T) -> bool) {
    && Flatten(runs) == rows
    && (forall i :: 0 <= i < |runs| ==> LinkedWithin(runs[i], linked))
    && (forall i :: 0 < i < |runs| ==> CutBetween(runs[i - 1], runs[i], linked))
  }

  lemma FlattenMore<T>(runs: seq<seq<T>>, run: seq<T>)
    ensures Flatten(runs + [run]) == Flatten(runs) + run
  {
    assert (runs + [run])[..|runs|] == runs;
  }

  /** The last row of a flattened list is the last of its last run. */
  lemma LastOfFlatten<T>(runs: seq<seq<T>>)
    requires runs != [] && runs[|runs| - 1] != []
    ensures var all, run := Flatten(runs), runs[|runs| - 1]; all != [] && all[|all| - 1] == run[|run| - 1]
  {
  }

  lemma RunsSnoc<T>(front: seq<T>, last: T, linked: (T, T) -> bool)
    ensures Runs(front + [last], linked) == Joining(Runs(front, linked), front, last, linked)
  {
    hide Joining;
    assert (front + [last])[..|front|] == front;
  }

  /** A row that is not linked to the one before it begins a run. */
  lemma AppendRun<T>(runs: seq<seq<T>>, rows: seq<T>, last: T, linked: (T, T) -> bool)
    requires IsPartition(runs, rows, linked) && (rows == [] || !linked(rows[|rows| - 1], last))
    ensures IsPartition(runs + [[last]], rows + [last], linked)
  {
    FlattenMore(runs, [last]);
    if runs != [] {
      assert LinkedWithin(runs[|runs| - 1], linked);
      LastOfFlatten(runs);
    }
    hide Flatten;
  }

  /** A linked row joins the last run. */
  lemma ExtendRun<T>(head: seq<seq<T>>, tail: seq<T>, rows: seq<T>, last: T, linked: (T, T) -> bool)
    requires IsPartition(head + [tail], rows, linked) && tail != [] && linked(tail[|tail| - 1], last)
    ensures IsPartition(head + [tail + [last]], rows + [last], linked)
  {
    FlattenMore(head, tail);
    FlattenMore(head, tail + [last]);
    hide Flatten;
    assert Flatten(head) + (tail + [last]) == Flatten(head) + tail + [last];
    var runs, runs' := head + [tail], head + [tail + [last]];
    assert LinkedWithin(runs[|head|], linked);
    forall i | 0 <= i < |runs'|
      ensures LinkedWithin(runs'[i], linked)
    {
      if i < |head| {
        assert LinkedWithin(runs[i], linked);
      }
    }
    forall i | 0 < i < |runs'|
      ensures CutBetween(runs'[i - 1], runs'[i], linked)
    {
      assert CutBetween(runs[i - 1], runs[i], linked);
    }
  }

  lemma {:induction false} RunsPartition<T>(rows: seq<T>, linked: (T, T) -> bool)
    ensures IsPartition(Runs(rows, linked), rows, linked)
  {
    if rows == [] {
      NoRuns<T>(linked);
    } else {
      hide *;
      var front, last := rows[..|rows| - 1], rows[|rows| - 1];
      RunsPartition(front, linked);
      RunsSnoc(front, last, linked);
      assert rows == front + [last];
      NextRow(Runs(front, linked), front, last, linked);
    }
  }

  lemma NoRuns<T>(linked: (T, T) -> bool)
    ensures IsPartition([], [], linked) && Runs([], linked) == []
  {
  }

  lemma NextRow<T>(runs: seq<seq<T>>, front: seq<T>, last: T, linked: (T, T) -> bool)
    requires IsPartition(runs, front, linked)
    ensures IsPartition(Joining(runs, front, last, linked), front + [last], linked)
  {
    hide Runs, IsPartition, Flatten, LinkedWithin, CutBetween;
    NoRows(runs, front, linked);
    if runs != [] && linked(front[|front| - 1], last) {
      LastRun(runs, front, linked);
      assert runs == runs[..|runs| - 1] + [runs[|runs| - 1]];
      ExtendRun(runs[..|runs| - 1], runs[|runs| - 1], front, last, linked);
    } else {
      AppendRun(runs, front, last, linked);
    }
  }

  /** The last row is the last of the last run; without runs there are no rows. */
  lemma LastRun<T>(runs: seq<seq<T>>, rows: seq<T>, linked: (T, T) -> bool)
    requires IsPartition(runs, rows, linked) && runs != []
    ensures var run := runs[|runs| - 1]; rows != [] && run != [] && rows[|rows| - 1] == run[|run| - 1]
  {
    assert LinkedWithin(runs[|runs| - 1], linked);
    LastOfFlatten(runs);
  }

  lemma NoRows<T>(runs: seq<seq<T>>, rows: seq<T>, linked: (T, T) -> bool)
    requires IsPartition(runs, rows, linked)
    ensures runs == [] <==> rows == []
  {
    if runs != [] {
      LastRun(runs, rows, linked);
    }
  }

  /** There is only one such partition. */
  lemma {:induction false} PartitionIsUnique<T>(runs: seq<seq<T>>, rows: seq<T>, linked: (T, T) -> bool)
    requires IsPartition(runs, rows, linked)
    ensures runs == Runs(rows, linked)
    decreases |rows|
  {
    NoRows(runs, rows, linked);
    if runs != [] {
      var head, run := runs[..|runs| - 1], runs[|runs| - 1];
      assert runs == head + [run];
      LastRun(runs, rows, linked);
      var front, last := rows[..|rows| - 1], rows[|rows| - 1];
      assert rows == front + [last];
      RunsSnoc(front, last, linked);
      if |run| == 1 {
        DropRun(head, run, front, last, linked);
        hide Runs;
        PartitionIsUnique(head, front, linked);
        assert run == [last];
      } else {
        DropRow(head, run, front, last, linked);
        hide Runs;
        var shorter := run[..|run| - 1];
        PartitionIsUnique(head + [shorter], front, linked);
        LastRun(head + [shorter], front, linked);
        assert (head + [shorter])[..|head|] == head && run == shorter + [last];
      }
    }
  }

  lemma DropRun<T>(head: seq<seq<T>>, run: seq<T>, front: seq<T>, last: T, linked: (T, T) -> bool)
    requires IsPartition(head + [run], front + [last], linked) && |run| == 1 && run[0] == last
    ensures IsPartition(head, front, linked) && (head != [] ==> front != [] && !linked(front[|front| - 1], last))
    ensures head == [] <==> front == []
  {
    var runs := head + [run];
    FlattenMore(head, run);
    assert run == [last];
    assert Flatten(head) == front by {
      assert (Flatten(head) + run)[..|Flatten(head)|] == Flatten(head);
      assert (front + [last])[..|front|] == front;
    }
    assert forall i :: 0 <= i < |head| ==> LinkedWithin(runs[i], linked) && runs[i] == head[i];
    assert forall i :: 0 < i < |head| ==> CutBetween(runs[i - 1], runs[i], linked);
    NoRows(head, front, linked);
    if head != [] {
      assert CutBetween(runs[|head| - 1], runs[|head|], linked);
      LastRun(head, front, linked);
    }
  }

  lemma DropRow<T>(head: seq<seq<T>>, run: seq<T>, front: seq<T>, last: T, linked: (T, T) -> bool)
    requires IsPartition(head + [run], front + [last], linked) && |run| > 1 && run[|run| - 1] == last
    ensures IsPartition(head + [run[..|run| - 1]], front, linked)
    ensures linked(run[|run| - 2], last)
  {
    var shorter := run[..|run| - 1];
    FlattenMore(head, run);
    FlattenMore(head, shorter);
    assert run == shorter + [last];
    assert Flatten(head) + shorter == front by {
      assert (Flatten(head) + run)[..|front|] == Flatten(head) + shorter;
      assert (front + [last])[..|front|] == front;
    }
    ShorterIsPartition(head, run, front, linked);
    assert LinkedWithin((head + [run])[|head|], linked);
  }

  lemma ShorterIsPartition<T>(head: seq<seq<T>>, run: seq<T>, front: seq<T>, linked: (T, T) -> bool)
    requires |run| > 1 && Flatten(head + [run[..|run| - 1]]) == front
    requires forall i :: 0 <= i < |head + [run]| ==> LinkedWithin((head + [run])[i], linked)
    requires forall i :: 0 < i < |head + [run]| ==> CutBetween((head + [run])[i - 1], (head + [run])[i], linked)
    ensures IsPartition(head + [run[..|run| - 1]], front, linked)
  {
    var shorter := run[..|run| - 1];
    var runs, runs' := head + [run], head + [shorter];
    assert LinkedWithin(runs[|head|], linked);
    forall i | 0 <= i < |runs'|
      ensures LinkedWithin(runs'[i], linked)
    {
      if i < |head| {
        assert LinkedWithin(runs[i], linked);
      }
    }
    forall i | 0 < i < |runs'|
      ensures CutBetween(runs'[i - 1], runs'[i], linked)
    {
      assert CutBetween(runs[i - 1], runs[i], linked);
    }
  }

  // ---- Flat sets: one rig's flats in one filter, without a long gap ----

  datatype FlatRow = FlatRow(rig: Option<int>, date: Option<string>, epoch: Option<int>, filter: Option<int>)

  datatype FlatCluster = FlatCluster(rig: int, filter: int, start: string, end: string, frames: nat)

  predicate Usable(r: FlatRow) {
    r.rig.Some? && r.date.Some? && r.epoch.Some?
  }

  function UsableRows(rows: seq<FlatRow>): seq<FlatRow> {
    if rows == [] then []
    else UsableRows(rows[..|rows| - 1]) + (if Usable(rows[|rows| - 1]) then [rows[|rows| - 1]] else [])
  }

  function FilterId(r: FlatRow): int {
    r.filter.GetOr(-1)
  }

  function SameSession(gap: int): (FlatRow, FlatRow) -> bool {
    (a: FlatRow, b: FlatRow) =>
      a.rig == b.rig && FilterId(a) == FilterId(b) && b.epoch.GetOr(0) - a.epoch.GetOr(0) <= gap
  }

  function ClusterOf(run: seq<FlatRow>): FlatCluster {
    if run == [] then FlatCluster(-1, -2, "", "", 0)
    else FlatCluster(run[0].rig.GetOr(-1), FilterId(run[0]), run[0].date.GetOr(""), run[|run| - 1].date.GetOr(""),
        |run|)
  }

  function ClustersOf(runs: seq<seq<FlatRow>>): seq<FlatCluster> {
    seq(|runs|, i requires 0 <= i < |runs| => ClusterOf(runs[i]))
  }

  /** The loop of the flat-set suggestions: each row opens a cluster or joins the current one. */
  method SuggestFlatSets(rows: seq<FlatRow>, gap: int) returns (out: seq<FlatCluster>)
    ensures out == ClustersOf(Runs(UsableRows(rows), SameSession(gap)))
  {
    out := [];
    var current: Option<FlatCluster> := None;
    var lastEpoch := 0;
    ghost var done: seq<FlatRow> := [];
    var i := 0;
    NothingDone(rows, gap);
    hide FlatProgress, Runs, ClustersOf, ClusterOf, Joined, UsableRows, SameSession, FilterId;
    while i < |rows|
      invariant 0 <= i <= |rows| && done == UsableRows(rows[..i])
      invariant FlatProgress(done, gap, out, current, lastEpoch)
    {
      var r := rows[i];
      UsableMore(rows, i);
      if Usable(r) {
        UsableHas(r);
        FilterIs(r);
        FlatStep(done, gap, out, current, lastEpoch, r);
        if Opens(current, lastEpoch, r, gap) {
          if current.Some? {
            out := out + [current.value];
          }
          var fid := if r.filter.Some? then r.filter.value else -1;
          current := Some(FlatCluster(r.rig.value, fid, r.date.value, r.date.value, 0));
        }
        current := Some(Joined(current.value, r));
        lastEpoch := r.epoch.value;
        done := done + [r];
      }
      i := i + 1;
    }
    assert rows[..i] == rows;
    FlatEnds(done, gap, out, current, lastEpoch);
    if current.Some? {
      out := out + [current.value];
    }
  }

  lemma NothingDone(rows: seq<FlatRow>, gap: int)
    ensures UsableRows(rows[..0]) == [] && FlatProgress([], gap, [], None, 0)
  {
  }

  lemma UsableMore(rows: seq<FlatRow>, i: nat)
    requires i < |rows|
    ensures UsableRows(rows[..i + 1]) == if Usable(rows[i]) then UsableRows(rows[..i]) + [rows[i]]
        else UsableRows(rows[..i])
  {
    assert rows[..i + 1][..i] == rows[..i];
    hide Usable;
    assert UsableRows(rows[..i]) + [] == UsableRows(rows[..i]);
  }

  lemma FilterIs(r: FlatRow)
    ensures FilterId(r) == if r.filter.Some? then r.filter.value else -1
  {
  }

  lemma UsableHas(r: FlatRow)
    requires Usable(r)
    ensures r.rig.Some? && r.date.Some? && r.epoch.Some?
  {
  }

  /** All runs but the last are written; the last is the current cluster. */
  ghost predicate FlatProgress(done: seq<FlatRow>, gap: int, out: seq<FlatCluster>, current: Option<FlatCluster>,
      lastEpoch: int) {
    var runs := Runs(done, SameSession(gap));
    && (forall k :: 0 <= k < |done| ==> Usable(done[k]))
    && (done == [] <==> current.None?) && (done == [] ==> out == [])
    && (done != [] ==>
          && runs != []
          && out == ClustersOf(runs[..|runs| - 1])
          && current == Some(ClusterOf(runs[|runs| - 1]))
          && lastEpoch == done[|done| - 1].epoch.value
          && LinkedSame(runs[|runs| - 1], done[|done| - 1]))
  }

  /** A run's first row tells its rig and filter. */
  ghost predicate LinkedSame(run: seq<FlatRow>, last: FlatRow) {
    run != [] && run[0].rig == last.rig && FilterId(run[0]) == FilterId(last) && run[|run| - 1] == last
  }

  function Joined(current: FlatCluster, r: FlatRow): FlatCluster {
    current.(end := r.date.GetOr(""), frames := current.frames + 1)
  }

  predicate Opens(current: Option<FlatCluster>, lastEpoch: int, r: FlatRow, gap: int)
    requires Usable(r)
  {
    current.None? || r.rig.value != current.value.rig || FilterId(r) != current.value.filter
        || r.epoch.value - lastEpoch > gap
  }

  lemma FlatStep(done: seq<FlatRow>, gap: int, out: seq<FlatCluster>, current: Option<FlatCluster>, lastEpoch: int,
      r: FlatRow)
    requires FlatProgress(done, gap, out, current, lastEpoch) && Usable(r)
    ensures if Opens(current, lastEpoch, r, gap) then
              FlatProgress(done + [r], gap, if current.Some? then out + [current.value] else out,
                Some(Joined(FlatCluster(r.rig.value, FilterId(r), r.date.value, r.date.value, 0), r)), r.epoch.value)
            else FlatProgress(done + [r], gap, out, Some(Joined(current.value, r)), r.epoch.value)
  {
    var linked := SameSession(gap);
    RunsSnoc(done, r, linked);
    AllUsable(done, r, gap, out, current, lastEpoch);
    if done == [] {
      FlatFirst(r, gap);
      assert done + [r] == [r];
    } else {
      FlatLinked(done, gap, out, current, lastEpoch, r);
      if linked(done[|done| - 1], r) {
        FlatJoins(done, gap, out, current, lastEpoch, r);
      } else {
        FlatOpens(done, gap, out, current, lastEpoch, r);
      }
    }
  }

  lemma AllUsable(done: seq<FlatRow>, r: FlatRow, gap: int, out: seq<FlatCluster>, current: Option<FlatCluster>,
      lastEpoch: int)
    requires FlatProgress(done, gap, out, current, lastEpoch) && Usable(r)
    ensures forall k :: 0 <= k < |done + [r]| ==> Usable((done + [r])[k])
    ensures done == [] <==> current.None?
    ensures done == [] ==> out == []
  {
  }

  lemma FlatFirst(r: FlatRow, gap: int)
    requires Usable(r)
    ensures FlatProgress([r], gap, [],
        Some(Joined(FlatCluster(r.rig.value, FilterId(r), r.date.value, r.date.value, 0), r)), r.epoch.value)
  {
    assert [r][..0] == [];
    assert Runs([r], SameSession(gap)) == [[r]];
  }

  /** The loop's test is the link between rows. */
  lemma FlatLinked(done: seq<FlatRow>, gap: int, out: seq<FlatCluster>, current: Option<FlatCluster>, lastEpoch: int,
      r: FlatRow)
    requires FlatProgress(done, gap, out, current, lastEpoch) && Usable(r) && done != []
    ensures SameSession(gap)(done[|done| - 1], r) <==> !Opens(current, lastEpoch, r, gap)
  {
    hide Runs;
  }

  lemma FlatJoins(done: seq<FlatRow>, gap: int, out: seq<FlatCluster>, current: Option<FlatCluster>, lastEpoch: int,
      r: FlatRow)
    requires FlatProgress(done, gap, out, current, lastEpoch) && Usable(r) && done != []
        && SameSession(gap)(done[|done| - 1], r)
    requires Runs(done + [r], SameSession(gap)) == Joining(Runs(done, SameSession(gap)), done, r, SameSession(gap))
    requires forall k :: 0 <= k < |done + [r]| ==> Usable((done + [r])[k])
    ensures FlatProgress(done + [r], gap, out, Some(Joined(current.value, r)), r.epoch.value)
  {
    hide Runs, ClustersOf;
    var runs, runs' := Runs(done, SameSession(gap)), Runs(done + [r], SameSession(gap));
    var head, tail := runs[..|runs| - 1], runs[|runs| - 1];
    assert runs' == head + [tail + [r]];
    assert runs'[..|runs'| - 1] == head && runs'[|runs'| - 1] == tail + [r];
    assert ClusterOf(tail + [r]) == Joined(ClusterOf(tail), r);
  }

  lemma FlatOpens(done: seq<FlatRow>, gap: int, out: seq<FlatCluster>, current: Option<FlatCluster>, lastEpoch: int,
      r: FlatRow)
    requires FlatProgress(done, gap, out, current, lastEpoch) && Usable(r) && done != []
        && !SameSession(gap)(done[|done| - 1], r)
    requires Runs(done + [r], SameSession(gap)) == Joining(Runs(done, SameSession(gap)), done, r, SameSession(gap))
    requires forall k :: 0 <= k < |done + [r]| ==> Usable((done + [r])[k])
    ensures FlatProgress(done + [r], gap, out + [current.value],
              Some(Joined(FlatCluster(r.rig.value, FilterId(r), r.date.value, r.date.value, 0), r)), r.epoch.value)
  {
    var runs, runs' := Runs(done, SameSession(gap)), Runs(done + [r], SameSession(gap));
    ClustersSnoc(runs);
    hide Runs, ClustersOf;
    assert runs' == runs + [[r]];
    assert runs'[..|runs'| - 1] == runs && runs'[|runs'| - 1] == [r];
  }

  lemma ClustersSnoc(runs: seq<seq<FlatRow>>)
    requires runs != []
    ensures ClustersOf(runs) == ClustersOf(runs[..|runs| - 1]) + [ClusterOf(runs[|runs| - 1])]
  {
    hide ClusterOf;
  }

  lemma FlatEnds(done: seq<FlatRow>, gap: int, out: seq<FlatCluster>, current: Option<FlatCluster>, lastEpoch: int)
    requires FlatProgress(done, gap, out, current, lastEpoch)
    ensures (if current.Some? then out + [current.value] else out) == ClustersOf(Runs(done, SameSession(gap)))
  {
    var runs := Runs(done, SameSession(gap));
    if done != [] {
      ClustersSnoc(runs);
    }
    hide ClusterOf;
  }

  function TotalFrames(cs: seq<FlatCluster>): nat {
    if cs == [] then 0 else TotalFrames(cs[..|cs| - 1]) + cs[|cs| - 1].frames
  }

  lemma {:induction false} FlattenedCount(runs: seq<seq<FlatRow>>)
    requires forall i :: 0 <= i < |runs| ==> runs[i] != []
    ensures TotalFrames(ClustersOf(runs)) == |Flatten(runs)|
  {
    if runs != [] {
      FlattenedCount(runs[..|runs| - 1]);
      assert ClustersOf(runs)[..|runs| - 1] == ClustersOf(runs[..|runs| - 1]);
    }
  }

  /** No flat is lost or counted twice: the clusters' frames add up to the usable rows. */
  lemma FlatsConserved(rows: seq<FlatRow>, gap: int)
    ensures TotalFrames(ClustersOf(Runs(UsableRows(rows), SameSession(gap)))) == |UsableRows(rows)|
  {
    RunsPartition(UsableRows(rows), SameSession(gap));
    var runs := Runs(UsableRows(rows), SameSession(gap));
    assert forall i :: 0 <= i < |runs| ==> LinkedWithin(runs[i], SameSession(gap));
    FlattenedCount(runs);
  }

  // ---- Rigs: one camera's focal lengths, each within two percent of the one before ----

  datatype FocalRow = FocalRow(camera: Option<int>, focal: Option<real>, count: nat)

  datatype Suggestion = Suggestion(camera: int, low: real, high: real, frames: nat)

  datatype Range = Range(camera: int, low: real, high: real)

  predicate Known(r: FocalRow) {
    r.camera.Some? && r.focal.Some?
  }

  function CloseFocal(): (FocalRow, FocalRow) -> bool {
    (a: FocalRow, b: FocalRow) => Known(a) && Known(b) && a.camera == b.camera && b.focal.value <= a.focal.value * 1.02
  }

  function CountOf(run: seq<FocalRow>): nat {
    if run == [] then 0 else CountOf(run[..|run| - 1]) + run[|run| - 1].count
  }

  /** A rig's range on the camera has a focal length in common with this one. */
  predicate IsCovered(covered: seq<Range>, camera: int, low: real, high: real) {
    exists i :: 0 <= i < |covered| && covered[i].camera == camera && covered[i].low <= high && low <= covered[i].high
  }

  /** The loop over the rigs' ranges. */
  method Covering(covered: seq<Range>, camera: int, low: real, high: real) returns (cov: bool)
    ensures cov == IsCovered(covered, camera, low, high)
  {
    cov := false;
    var i := 0;
    while i < |covered|
      invariant 0 <= i <= |covered|
      invariant !IsCovered(covered[..i], camera, low, high)
    {
      if covered[i].camera == camera && !(high < covered[i].low || low > covered[i].high) {
        return true;
      }
      assert forall k :: 0 <= k < i ==> covered[..i][k] == covered[k];
      i := i + 1;
    }
    assert covered[..i] == covered;
  }

  /** What one run suggests: nothing when a rig's range meets it already, or for a row without a value. */
  function SuggestionOf(run: seq<FocalRow>, covered: seq<Range>): seq<Suggestion> {
    if run == [] || !Known(run[0]) || !Known(run[|run| - 1]) then []
    else
      var camera, low, high := run[0].camera.value, run[0].focal.value, run[|run| - 1].focal.value;
      if IsCovered(covered, camera, low, high) then [] else [Suggestion(camera, low, high, CountOf(run))]
  }

  function SuggestionsOf(runs: seq<seq<FocalRow>>, covered: seq<Range>): seq<Suggestion> {
    if runs == [] then [] else SuggestionsOf(runs[..|runs| - 1], covered) + SuggestionOf(runs[|runs| - 1], covered)
  }

  /** The inner loop: from row i on, as long as the camera is the same and the focal length close. */
  method RunFrom(rows: seq<FocalRow>, i: nat) returns (j: nat, high: real, count: nat)
    requires i < |rows| && Known(rows[i])
    ensures i < j <= |rows| && LinkedWithin(rows[i..j], CloseFocal())
        && (j < |rows| ==> !CloseFocal()(rows[j - 1], rows[j]))
    ensures Known(rows[j - 1]) && rows[j - 1].focal.value == high && count == CountOf(rows[i..j])
  {
    hide CountOf, LinkedWithin;
    var camera := rows[i].camera.value;
    high, count, j := rows[i].focal.value, rows[i].count, i + 1;
    OneRow(rows[i]);
    assert rows[i..j] == [rows[i]];
    while j < |rows| && Known(rows[j]) && rows[j].camera.value == camera && rows[j].focal.value <= high * 1.02
      invariant i < j <= |rows|
      invariant LinkedWithin(rows[i..j], CloseFocal())
      invariant Known(rows[j - 1]) && rows[j - 1].camera.value == camera && rows[j - 1].focal.value == high
      invariant count == CountOf(rows[i..j])
    {
      CountMore(rows, i, j);
      LinkedMore(rows, i, j);
      high, count := rows[j].focal.value, count + rows[j].count;
      j := j + 1;
    }
  }

  /** The two-index loop of the rig suggestions. */
  method SuggestRigs(rows: seq<FocalRow>, covered: seq<Range>) returns (out: seq<Suggestion>)
    ensures out == SuggestionsOf(Runs(rows, CloseFocal()), covered)
  {
    hide *;
    out := [];
    var i := 0;
    ghost var runs: seq<seq<FocalRow>> := [];
    NothingYet(rows, covered);
    while i < |rows|
      invariant 0 <= i <= |rows|
      invariant IsPartition(runs, rows[..i], CloseFocal()) && out == SuggestionsOf(runs, covered)
      invariant i > 0 && i < |rows| ==> !CloseFocal()(rows[i - 1], rows[i])
    {
      var j := i + 1;
      if Known(rows[i]) {
        var high, count;
        j, high, count := RunFrom(rows, i);
        RunSuggests(rows, i, j, covered);
        KnownHas(rows[i]);
        var cov := Covering(covered, rows[i].camera.value, rows[i].focal.value, high);
        if !cov {
          out := out + [Suggestion(rows[i].camera.value, rows[i].focal.value, high, count)];
        }
      } else {
        LoneRow(rows, i, covered);
        assert out + [] == out;
      }
      ExtendPartition(runs, rows, i, j, covered);
      runs := runs + [rows[i..j]];
      i := j;
    }
    assert rows[..i] == rows;
    PartitionIsUnique(runs, rows, CloseFocal());
  }

  lemma NothingYet(rows: seq<FocalRow>, covered: seq<Range>)
    ensures IsPartition([], rows[..0], CloseFocal()) && SuggestionsOf([], covered) == []
  {
  }

  lemma KnownHas(r: FocalRow)
    requires Known(r)
    ensures r.camera.Some? && r.focal.Some?
  {
  }

  lemma RunSuggests(rows: seq<FocalRow>, i: nat, j: nat, covered: seq<Range>)
    requires i < j <= |rows| && Known(rows[i]) && Known(rows[j - 1])
    ensures var camera, low, high := rows[i].camera.value, rows[i].focal.value, rows[j - 1].focal.value;
            SuggestionOf(rows[i..j], covered)
            == if IsCovered(covered, camera, low, high) then []
                else [Suggestion(camera, low, high, CountOf(rows[i..j]))]
  {
    hide IsCovered, CountOf;
    assert rows[i..j][0] == rows[i] && rows[i..j][j - i - 1] == rows[j - 1];
  }

  /** A row without a camera or a focal length is a run of its own, and suggests nothing. */
  lemma LoneRow(rows: seq<FocalRow>, i: nat, covered: seq<Range>)
    requires i < |rows| && !Known(rows[i])
    ensures LinkedWithin(rows[i..i + 1], CloseFocal()) && SuggestionOf(rows[i..i + 1], covered) == []
    ensures i + 1 < |rows| ==> !CloseFocal()(rows[i], rows[i + 1])
  {
    assert rows[i..i + 1] == [rows[i]];
  }

  lemma OneRow(r: FocalRow)
    ensures CountOf([r]) == r.count && LinkedWithin([r], CloseFocal())
  {
    assert [r][..0] == [];
    assert LinkedWithin([r], CloseFocal());
  }

  lemma CountMore(rows: seq<FocalRow>, i: nat, j: nat)
    requires i < j < |rows|
    ensures CountOf(rows[i..j + 1]) == CountOf(rows[i..j]) + rows[j].count
  {
    assert rows[i..j + 1][..j - i] == rows[i..j];
  }

  lemma LinkedMore(rows: seq<FocalRow>, i: nat, j: nat)
    requires i < j < |rows| && LinkedWithin(rows[i..j], CloseFocal()) && CloseFocal()(rows[j - 1], rows[j])
    ensures LinkedWithin(rows[i..j + 1], CloseFocal())
  {
    var run, more := rows[i..j], rows[i..j + 1];
    forall k | 0 < k < |more|
      ensures CloseFocal()(more[k - 1], more[k])
    {
      if k < |run| {
        assert run[k - 1] == more[k - 1] && run[k] == more[k];
      }
    }
  }

  lemma ExtendPartition(runs: seq<seq<FocalRow>>, rows: seq<FocalRow>, i: nat, j: nat, covered: seq<Range>)
    requires i < j <= |rows| && IsPartition(runs, rows[..i], CloseFocal()) && LinkedWithin(rows[i..j], CloseFocal())
    requires i > 0 ==> !CloseFocal()(rows[i - 1], rows[i])
    ensures IsPartition(runs + [rows[i..j]], rows[..j], CloseFocal())
    ensures SuggestionsOf(runs + [rows[i..j]], covered)
        == SuggestionsOf(runs, covered) + SuggestionOf(rows[i..j], covered)
  {
    var run := rows[i..j];
    FlattenMore(runs, run);
    assert rows[..i] + run == rows[..j];
    assert (runs + [run])[..|runs|] == runs;
    if runs != [] {
      LastOfFlatten(runs);
      assert rows[..i][i - 1] == rows[i - 1] && run[0] == rows[i];
    }
  }

  /** The suggested bounds. */
  function SuggestedLow(s: Suggestion): int {
    (s.low - (if s.low * 0.015 < 1.0 then 1.0 else s.low * 0.015)).Floor
  }

  function SuggestedHigh(s: Suggestion): int {
    -((-(s.high + (if s.high * 0.015 < 1.0 then 1.0 else s.high * 0.015))).Floor)
  }

  /** The bounds leave at least one millimetre and at least one and a half percent on either side, and are the
      closest whole numbers that do. */
  lemma SuggestedMargins(s: Suggestion)
    ensures var low, high := SuggestedLow(s) as real, SuggestedHigh(s) as real;
            && low <= s.low - 1.0 && low <= s.low - s.low * 0.015
            && (low + 1.0 > s.low - 1.0 || low + 1.0 > s.low - s.low * 0.015)
            && high >= s.high + 1.0 && high >= s.high + s.high * 0.015
            && (high - 1.0 < s.high + 1.0 || high - 1.0 < s.high + s.high * 0.015)
  {
  }

  ghost predicate Ascending(rows: seq<FocalRow>) {
    forall i, j :: 0 <= i < j < |rows| && Known(rows[i]) && Known(rows[j]) && rows[i].camera == rows[j].camera ==>
      rows[i].focal.value <= rows[j].focal.value
  }

  /** On sorted rows a suggestion's range takes in every row of its run. */
  lemma SuggestionCovers(run: seq<FocalRow>, covered: seq<Range>, k: nat)
    requires LinkedWithin(run, CloseFocal()) && Ascending(run) && |SuggestionOf(run, covered)| == 1 && k < |run|
    ensures var s := SuggestionOf(run, covered)[0];
            Known(run[k]) && run[k].camera.value == s.camera
                && SuggestedLow(s) as real <= run[k].focal.value <= SuggestedHigh(s) as real
  {
    SameCamera(run, k);
    SameCamera(run, |run| - 1);
    var s := SuggestionOf(run, covered)[0];
    assert s.low <= run[k].focal.value <= s.high;
  }

  lemma {:induction false} SameCamera(run: seq<FocalRow>, k: nat)
    requires LinkedWithin(run, CloseFocal()) && k < |run| && Known(run[0])
    ensures Known(run[k]) && run[k].camera == run[0].camera
  {
    if k > 0 {
      SameCamera(run, k - 1);
      assert CloseFocal()(run[k - 1], run[k]);
    }
  }
}
