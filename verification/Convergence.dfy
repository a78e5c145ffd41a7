/** Many workers resolving filter or camera names at once: each name gets one row and every worker that
    row's id, as long as no transaction that added a row is rolled back. The cache of a worker outlives a
    rollback. The two tables do not meet, so one state holds one of them. */
module Convergence {
  import opened Options
  import opened Chars
  import opened Equipment

  datatype Kind = Filters | Cameras

  function Width(k: Kind): nat {
    if k.Filters? then FILTER_WIDTH else MODEL_WIDTH
  }

  /** The name of the row for a name of a header: the name itself, or the model in it. */
  function RowName(k: Kind, raw: string): string {
    if k.Filters? then raw else BaseModel(raw, 0)
  }

  /** A row is its worker's own until that worker commits. */
  datatype Row = Row(id: int, name: string, owner: Option<nat>)

  /** A worker's cache, the name it has inserted but not yet read back, and whether a row whose id it had
      cached was ever rolled back. */
  datatype Worker = Worker(cache: map<string, int>, asked: Option<string>, lost: bool)

  /** The registry is the snapshot all workers share, loaded before the sweep. */
  datatype State = State(kind: Kind, rows: seq<Row>, nextId: int, registry: EquipmentRegistry, workers: seq<Worker>)

  /** The snapshot's rows, by name in lower case. */
  function Registered(s: State): map<string, int> {
    if s.kind.Filters? then s.registry.filtersByName else s.registry.camerasByModel
  }

  function Aliased(s: State, key: string): int {
    if s.kind.Filters? then AliasId(s.registry.filterAliases, key, true)
        else AliasId(s.registry.cameraAliases, key, false)
  }

  /** The answer that needs no row: an alias's id, or -1 where there is no camera model in the name. */
  function Settled(s: State, key: string): Option<int> {
    if Aliased(s, key) >= 0 then Some(Aliased(s, key))
    else if RowName(s.kind, key) == "" then Some(-1)
    else None
  }

  datatype Action =
    | Settle(name: string) // answered without a row
    | Known(name: string)  // answered from the registry snapshot
    | Insert(name: string) // INSERT IGNORE
    | Read                 // the read-back, into the cache
    | Commit
    | Rollback

  predicate Visible(r: Row, w: nat) {
    r.owner == None || r.owner == Some(w)
  }

  predicate NameOf(r: Row, key: string) {
    Lower(r.name) == key
  }

  /** Another worker's uncommitted row of the same name makes the insert wait. */
  predicate Blocked(rows: seq<Row>, w: nat, key: string) {
    exists i :: 0 <= i < |rows| && NameOf(rows[i], key) && !Visible(rows[i], w)
  }

  predicate Present(rows: seq<Row>, key: string) {
    exists i :: 0 <= i < |rows| && NameOf(rows[i], key)
  }

  /** The id of the visible row of a name; -1 when there is none. */
  function Find(rows: seq<Row>, w: nat, key: string): int {
    if rows == [] then -1
    else if NameOf(rows[0], key) && Visible(rows[0], w) then rows[0].id
    else Find(rows[1..], w, key)
  }

  /** The worker is free and has no answer in its cache; an empty filter name is not asked for. */
  predicate Asks(s: State, w: nat, name: string)
    requires w < |s.workers|
  {
    s.workers[w].asked.None? && Lower(name) !in s.workers[w].cache && (s.kind.Filters? ==> name != "")
  }

  predicate CanAct(s: State, w: nat, a: Action) {
    && w < |s.workers|
    && match a
       case Settle(name) => Asks(s, w, name) && Settled(s, Lower(name)).Some?
       case Known(name) =>
         Asks(s, w, name) && Settled(s, Lower(name)).None? && Lower(RowName(s.kind, name)) in Registered(s)
       case Insert(name) =>
         && Asks(s, w, name) && Settled(s, Lower(name)).None? && Lower(RowName(s.kind, name)) !in Registered(s)
         && !Blocked(s.rows, w, Lower(Cut(RowName(s.kind, name), Width(s.kind))))
       case Read => s.workers[w].asked.Some?
       case Commit => s.workers[w].asked.None?
       case Rollback => true
  }

  function Kept(rows: seq<Row>, w: nat): seq<Row> {
    if rows == [] then []
    else (if rows[0].owner == Some(w) then [] else [rows[0]]) + Kept(rows[1..], w)
  }

  function Committed(rows: seq<Row>, w: nat): seq<Row> {
    seq(|rows|, i requires 0 <= i < |rows| => if rows[i].owner == Some(w) then rows[i].(owner := None) else rows[i])
  }

  /** The id is of a row the worker has not committed. */
  predicate Owned(rows: seq<Row>, w: nat, id: int) {
    exists i :: 0 <= i < |rows| && rows[i].id == id && rows[i].owner == Some(w)
  }

  /** The answer for the name is a row's id, and the worker has not committed that row. */
  predicate RowOwned(s: State, w: nat, key: string, id: int) {
    Settled(s, key).None? && Owned(s.rows, w, id)
  }

  /** A rollback would leave the worker an answer without its row. */
  predicate WouldLose(s: State, w: nat)
    requires w < |s.workers|
  {
    exists key :: key in s.workers[w].cache && RowOwned(s, w, key, s.workers[w].cache[key])
  }

  function Act(s: State, w: nat, a: Action): State
    requires CanAct(s, w, a)
  {
    var me := s.workers[w];
    match a
    case Settle(name) =>
      s.(workers := s.workers[w := me.(cache := me.cache[Lower(name) := Settled(s, Lower(name)).value])])
    case Known(name) =>
      var id := Registered(s)[Lower(RowName(s.kind, name))];
      s.(workers := s.workers[w := me.(cache := me.cache[Lower(name) := id])])
    case Insert(name) =>
      var cut := Cut(RowName(s.kind, name), Width(s.kind));
      var s' := if Present(s.rows, Lower(cut)) then s
                else s.(rows := s.rows + [Row(s.nextId, cut, Some(w))], nextId := s.nextId + 1);
      s'.(workers := s.workers[w := me.(asked := Some(name))])
    case Read =>
      var key := Lower(me.asked.value);
      var id := Find(s.rows, w, Lower(RowName(s.kind, me.asked.value)));
      s.(workers := s.workers[w := me.(cache := me.cache[key := id], asked := None)])
    case Commit =>
      s.(rows := Committed(s.rows, w))
    case Rollback =>
      s.(rows := Kept(s.rows, w), workers := s.workers[w := me.(asked := None, lost := me.lost || WouldLose(s, w))])
  }

  // ---- The invariant ----

  ghost predicate OneRowEach(s: State) {
    && s.nextId > 0
    && (forall i :: 0 <= i < |s.rows| ==> 0 < s.rows[i].id < s.nextId && |s.rows[i].name| <= Width(s.kind))
    && (forall i, j :: 0 <= i < j < |s.rows| ==>
        s.rows[i].id != s.rows[j].id && Lower(s.rows[i].name) != Lower(s.rows[j].name))
  }

  /** The worker sees a row of this name with this id. */
  ghost predicate Sees(rows: seq<Row>, w: nat, key: string, id: int) {
    exists i :: 0 <= i < |rows| && NameOf(rows[i], key) && rows[i].id == id && Visible(rows[i], w)
  }

  /** The right answer for a name in lower case: what needs no row, or the row's id, or -1 for a name too
      long to have a row. */
  ghost predicate Right(s: State, rows: seq<Row>, w: nat, key: string, id: int) {
    if Settled(s, key).Some? then id == Settled(s, key).value
    else if |RowName(s.kind, key)| <= Width(s.kind) then Sees(rows, w, Lower(RowName(s.kind, key)), id)
    else id == -1
  }

  ghost predicate CacheRight(s: State, w: nat)
    requires w < |s.workers|
  {
    forall key :: key in s.workers[w].cache ==> Right(s, s.rows, w, key, s.workers[w].cache[key])
  }

  /** There is a committed row of this name with this id. */
  ghost predicate HasCommitted(rows: seq<Row>, key: string, id: int) {
    exists i :: 0 <= i < |rows| && NameOf(rows[i], key) && rows[i].id == id && rows[i].owner.None?
  }

  /** The registry's rows are committed. */
  ghost predicate RegistryRight(s: State) {
    forall key :: key in Registered(s) ==> HasCommitted(s.rows, key, Registered(s)[key])
  }

  /** The name of the row a worker waits for, in lower case. */
  function AskedKey(s: State, w: nat): string
    requires w < |s.workers| && s.workers[w].asked.Some?
  {
    Lower(Cut(RowName(s.kind, s.workers[w].asked.value), Width(s.kind)))
  }

  /** What was inserted is there to be read back. */
  ghost predicate AskedRight(s: State, w: nat)
    requires w < |s.workers|
  {
    s.workers[w].asked.Some? ==>
      && Settled(s, Lower(s.workers[w].asked.value)).None?
      && exists i :: 0 <= i < |s.rows| && NameOf(s.rows[i], AskedKey(s, w)) && Visible(s.rows[i], w)
  }

  ghost predicate Inv(s: State) {
    && OneRowEach(s) && RegistryRight(s)
    && forall w :: 0 <= w < |s.workers| ==> AskedRight(s, w) && (!s.workers[w].lost ==> CacheRight(s, w))
  }

  /** Loaded tables, a snapshot of them, idle workers. */
  ghost predicate Start(s: State) {
    && OneRowEach(s) && RegistryRight(s) && (forall i :: 0 <= i < |s.rows| ==> s.rows[i].owner.None?)
    && forall w :: 0 <= w < |s.workers| ==> s.workers[w] == Worker(map[], None, false)
  }

  ghost predicate Reachable(s: State, steps: nat)
    decreases steps
  {
    if steps == 0 then Start(s)
    else exists before, w, a {:trigger Act(before, w, a)} ::
           Reachable(before, steps - 1) && CanAct(before, w, a) && s == Act(before, w, a)
  }

  lemma LowerLength(s: string)
    ensures |Lower(s)| == |s|
  {
  }

  lemma LowerTwice(s: string)
    ensures Lower(Lower(s)) == Lower(s)
  {
    assert forall i :: 0 <= i < |s| ==> Lower(s)[i] == LowerChar(s[i]);
  }

  /** The row of a name does not depend on the name's case. */
  lemma RowNameCaseless(k: Kind, raw: string)
    ensures Lower(RowName(k, Lower(raw))) == Lower(RowName(k, raw)) && |RowName(k, Lower(raw))| == |RowName(k, raw)|
  {
    LowerTwice(raw);
    LowerLength(raw);
    if k.Cameras? {
      BaseModelCaseless(raw, Lower(raw), 0);
    }
  }

  /** With one row a name, a lookup gives the row the worker sees. */
  lemma {:induction false} FindSees(rows: seq<Row>, w: nat, key: string, id: int)
    requires forall i, j :: 0 <= i < j < |rows| ==> Lower(rows[i].name) != Lower(rows[j].name)
    requires Sees(rows, w, key, id)
    ensures Find(rows, w, key) == id
  {
    hide Lower;
    var i :| 0 <= i < |rows| && NameOf(rows[i], key) && rows[i].id == id && Visible(rows[i], w);
    if i > 0 {
      assert rows[1..][i - 1] == rows[i];
      FindSees(rows[1..], w, key, id);
    }
  }

  lemma {:induction false} FindNothing(rows: seq<Row>, w: nat, key: string)
    requires forall i :: 0 <= i < |rows| ==> !NameOf(rows[i], key)
    ensures Find(rows, w, key) == -1
  {
    if rows != [] {
      FindNothing(rows[1..], w, key);
    }
  }

  /** The read-back answers rightly, whatever the worker went through before. */
  lemma ReadBackRight(s: State, w: nat)
    requires Inv(s) && CanAct(s, w, Read)
    ensures var raw := s.workers[w].asked.value;
            Right(s, s.rows, w, Lower(raw), Find(s.rows, w, Lower(RowName(s.kind, raw))))
  {
    var raw := s.workers[w].asked.value;
    var name := RowName(s.kind, raw);
    RowNameCaseless(s.kind, raw);
    LowerLength(name);
    hide Lower, RowName, Settled, Width;
    assert AskedRight(s, w);
    if |name| <= Width(s.kind) {
      var i :| 0 <= i < |s.rows| && NameOf(s.rows[i], Lower(name)) && Visible(s.rows[i], w);
      assert Sees(s.rows, w, Lower(name), s.rows[i].id);
      FindSees(s.rows, w, Lower(name), s.rows[i].id);
    } else {
      forall i | 0 <= i < |s.rows|
        ensures !NameOf(s.rows[i], Lower(name))
      {
        LowerLength(s.rows[i].name);
      }
      FindNothing(s.rows, w, Lower(name));
    }
  }

  // ---- Every step keeps it ----

  /** Rows are only added to, or committed: what a worker saw it still sees. */
  ghost predicate Grows(a: seq<Row>, b: seq<Row>) {
    |a| <= |b| && forall i :: 0 <= i < |a| ==>
      b[i].id == a[i].id && b[i].name == a[i].name && (b[i].owner == a[i].owner || b[i].owner.None?)
  }

  lemma StillRight(s: State, a: seq<Row>, b: seq<Row>, w: nat, key: string, id: int)
    requires Grows(a, b) && Right(s, a, w, key, id)
    ensures Right(s, b, w, key, id)
  {
    hide Lower, RowName, Settled, Width;
    var rowKey := Lower(RowName(s.kind, key));
    if Sees(a, w, rowKey, id) {
      var i :| 0 <= i < |a| && NameOf(a[i], rowKey) && a[i].id == id && Visible(a[i], w);
      assert NameOf(b[i], rowKey) && b[i].id == id && Visible(b[i], w);
    }
  }

  lemma GrowsKeeps(s: State, s': State)
    requires Inv(s) && Grows(s.rows, s'.rows) && OneRowEach(s')
    requires s'.kind == s.kind && s'.registry == s.registry && s'.workers == s.workers
    ensures Inv(s')
  {
    hide Lower, OneRowEach, RowName, Width, AliasId, Right, Settled, AskedKey;
    assert Registered(s') == Registered(s);
    forall key | key in Registered(s)
      ensures HasCommitted(s'.rows, key, Registered(s)[key])
    {
      assert HasCommitted(s.rows, key, Registered(s)[key]);
      var i :| 0 <= i < |s.rows| && NameOf(s.rows[i], key) && s.rows[i].id == Registered(s)[key]
          && s.rows[i].owner.None?;
      assert NameOf(s'.rows[i], key);
    }
    forall w | 0 <= w < |s.workers|
      ensures AskedRight(s', w) && (!s.workers[w].lost ==> CacheRight(s', w))
    {
      SameAnswers(s, s', w);
      assert AskedRight(s, w);
      if s.workers[w].asked.Some? {
        var i :| 0 <= i < |s.rows| && NameOf(s.rows[i], AskedKey(s, w)) && Visible(s.rows[i], w);
        assert NameOf(s'.rows[i], AskedKey(s, w)) && Visible(s'.rows[i], w);
      }
      if !s.workers[w].lost {
        assert CacheRight(s, w);
        forall key | key in s.workers[w].cache
          ensures Right(s', s'.rows, w, key, s.workers[w].cache[key])
        {
          StillRight(s, s.rows, s'.rows, w, key, s.workers[w].cache[key]);
        }
      }
    }
  }

  /** What is right depends on the rows, and on nothing else that changes. */
  lemma SameAnswers(s: State, s': State, w: nat)
    requires s'.kind == s.kind && s'.registry == s.registry && w < |s.workers| == |s'.workers|
    ensures forall key :: Settled(s', key) == Settled(s, key)
    ensures forall rows, key, id :: Right(s', rows, w, key, id) == Right(s, rows, w, key, id)
    ensures s'.workers[w].asked == s.workers[w].asked && s.workers[w].asked.Some? ==> AskedKey(s', w) == AskedKey(s, w)
  {
    hide Lower, RowName, Width, AliasId, Sees;
  }

  lemma SettleKeeps(s: State, w: nat, name: string)
    requires Inv(s) && CanAct(s, w, Settle(name))
    ensures Inv(Act(s, w, Settle(name)))
  {
    hide Lower, OneRowEach, RowName, Width, Settled;
    OthersKeep(s, Act(s, w, Settle(name)), w, Lower(name), Settled(s, Lower(name)).value);
  }

  lemma KnownKeeps(s: State, w: nat, name: string)
    requires Inv(s) && CanAct(s, w, Known(name))
    ensures Inv(Act(s, w, Known(name)))
  {
    var s' := Act(s, w, Known(name));
    var key := Lower(RowName(s.kind, name));
    var id := Registered(s)[key];
    RowNameCaseless(s.kind, name);
    LowerLength(RowName(s.kind, name));
    hide Lower, OneRowEach, RowName, Width, Settled;
    assert HasCommitted(s.rows, key, id);
    var i :| 0 <= i < |s.rows| && NameOf(s.rows[i], key) && s.rows[i].id == id && s.rows[i].owner.None?;
    assert Sees(s.rows, w, key, id);
    NamesFit(s, i, key);
    assert Right(s, s.rows, w, Lower(name), id);
    OthersKeep(s, s', w, Lower(name), id);
  }

  lemma NamesFit(s: State, i: nat, key: string)
    requires OneRowEach(s) && i < |s.rows| && NameOf(s.rows[i], key)
    ensures |key| <= Width(s.kind)
  {
    hide Width;
  }

  /** One worker remembers a right answer; nothing else changes. */
  lemma OthersKeep(s: State, s': State, w: nat, key: string, id: int)
    requires Inv(s) && w < |s.workers| == |s'.workers| && s'.rows == s.rows && s'.registry == s.registry
        && s'.nextId == s.nextId
    requires s'.kind == s.kind
    requires forall v :: 0 <= v < |s.workers| && v != w ==> s'.workers[v] == s.workers[v]
    requires s'.workers[w].asked.None? && s'.workers[w].lost == s.workers[w].lost
    requires s'.workers[w].cache == s.workers[w].cache[key := id] && Right(s, s.rows, w, key, id)
    ensures Inv(s')
  {
    hide Lower, OneRowEach, Right, RowName, Width, Settled, AskedKey;
    assert OneRowEach(s') by { SameRows(s, s'); }
    assert Registered(s') == Registered(s);
    forall v | 0 <= v < |s.workers|
      ensures AskedRight(s', v) && (!s'.workers[v].lost ==> CacheRight(s', v))
    {
      SameAnswers(s, s', v);
      assert AskedRight(s, v) && (!s.workers[v].lost ==> CacheRight(s, v));
    }
  }

  lemma SameRows(s: State, s': State)
    requires OneRowEach(s) && s'.rows == s.rows && s'.nextId == s.nextId && s'.kind == s.kind
    ensures OneRowEach(s')
  {
  }

  lemma ReadKeeps(s: State, w: nat)
    requires Inv(s) && CanAct(s, w, Read)
    ensures Inv(Act(s, w, Read))
  {
    ReadBackRight(s, w);
    hide Lower, Find, Right, OneRowEach, RowName, Width, Settled;
    var raw := s.workers[w].asked.value;
    OthersKeep(s, Act(s, w, Read), w, Lower(raw), Find(s.rows, w, Lower(RowName(s.kind, raw))));
  }

  lemma CommitKeeps(s: State, w: nat)
    requires Inv(s) && CanAct(s, w, Commit)
    ensures Inv(Act(s, w, Commit))
  {
    var s' := Act(s, w, Commit);
    assert OneRowEach(s') by {
      hide Lower, Width;
    }
    hide OneRowEach, Lower;
    GrowsKeeps(s, s');
  }

  /** An insert adds a row only for a new name. */
  lemma InsertOneRowEach(s: State, w: nat, name: string)
    requires OneRowEach(s) && CanAct(s, w, Insert(name))
    ensures var s' := Act(s, w, Insert(name));
            && OneRowEach(s') && OneRowEach(s'.(workers := s.workers)) && Grows(s.rows, s'.rows)
            && exists i :: 0 <= i < |s'.rows| && NameOf(s'.rows[i], AskedKey(s', w)) && Visible(s'.rows[i], w)
  {
    hide Lower, RowName, Settled, Width;
    var cut := Cut(RowName(s.kind, name), Width(s.kind));
    var s' := Act(s, w, Insert(name));
    assert AskedKey(s', w) == Lower(cut);
    if Present(s.rows, Lower(cut)) {
      var i :| 0 <= i < |s.rows| && NameOf(s.rows[i], Lower(cut));
      assert Visible(s.rows[i], w);
    } else {
      assert s'.rows[|s.rows|] == Row(s.nextId, cut, Some(w));
      assert NameOf(s'.rows[|s.rows|], Lower(cut));
      forall i, j | 0 <= i < j < |s'.rows|
        ensures s'.rows[i].id != s'.rows[j].id && Lower(s'.rows[i].name) != Lower(s'.rows[j].name)
      {
        assert !NameOf(s.rows[i], Lower(cut));
      }
    }
  }

  lemma InsertKeeps(s: State, w: nat, name: string)
    requires Inv(s) && CanAct(s, w, Insert(name))
    ensures Inv(Act(s, w, Insert(name)))
  {
    InsertOneRowEach(s, w, name);
    var s' := Act(s, w, Insert(name));
    var grown := s'.(workers := s.workers);
    assert s'.kind == s.kind && s'.registry == s.registry
        && s'.workers == s.workers[w := s.workers[w].(asked := Some(name))];
    assert Settled(s, Lower(name)).None?;
    hide Lower, OneRowEach, Act, CanAct, Settled, RowName, Width, Right, AskedKey;
    GrowsKeeps(s, grown);
    forall v | 0 <= v < |s.workers|
      ensures AskedRight(s', v) && (!s'.workers[v].lost ==> CacheRight(s', v))
    {
      SameAnswers(grown, s', v);
      SameAnswers(s, s', v);
      assert AskedRight(grown, v) && (!s.workers[v].lost ==> CacheRight(grown, v));
    }
  }

  // ---- Rollback ----

  /** What is kept: the rows of others, in order. */
  lemma {:induction false} KeptRows(rows: seq<Row>, w: nat)
    ensures forall r :: r in Kept(rows, w) <==> r in rows && r.owner != Some(w)
  {
    if rows != [] {
      KeptRows(rows[1..], w);
    }
  }

  ghost predicate DistinctRows(rows: seq<Row>) {
    forall i, j :: 0 <= i < j < |rows| ==> rows[i].id != rows[j].id && Lower(rows[i].name) != Lower(rows[j].name)
  }

  lemma {:induction false} KeptDistinct(rows: seq<Row>, w: nat)
    requires DistinctRows(rows)
    ensures DistinctRows(Kept(rows, w))
  {
    hide Lower;
    if rows != [] {
      KeptRows(rows[1..], w);
      KeptDistinct(rows[1..], w);
      var kept := Kept(rows[1..], w);
      forall j | 0 <= j < |kept|
        ensures rows[0].id != kept[j].id && Lower(rows[0].name) != Lower(kept[j].name)
      {
        assert kept[j] in kept;
        var k :| 0 <= k < |rows[1..]| && rows[1..][k] == kept[j];
        assert rows[k + 1] == kept[j];
      }
    }
  }

  lemma KeptOneRowEach(s: State, s': State, w: nat)
    requires OneRowEach(s) && s'.nextId == s.nextId && s'.kind == s.kind && s'.rows == Kept(s.rows, w)
    ensures OneRowEach(s')
  {
    KeptRows(s.rows, w);
    assert DistinctRows(s.rows);
    KeptDistinct(s.rows, w);
    hide Lower;
    forall i | 0 <= i < |s'.rows|
      ensures 0 < s'.rows[i].id < s'.nextId && |s'.rows[i].name| <= Width(s'.kind)
    {
      assert s'.rows[i] in s'.rows;
    }
  }

  /** A row that is not the worker's own survives its rollback. */
  lemma Survives(rows: seq<Row>, w: nat, i: nat) returns (k: nat)
    requires i < |rows| && rows[i].owner != Some(w)
    ensures k < |Kept(rows, w)| && Kept(rows, w)[k] == rows[i]
  {
    KeptRows(rows, w);
    assert rows[i] in Kept(rows, w);
    k :| 0 <= k < |Kept(rows, w)| && Kept(rows, w)[k] == rows[i];
  }

  lemma RightAfterRollback(s: State, w: nat, v: nat, key: string, id: int)
    requires Right(s, s.rows, v, key, id) && (v != w || !RowOwned(s, w, key, id))
    ensures Right(s, Kept(s.rows, w), v, key, id)
  {
    hide Lower, RowName, Width, Settled, Kept;
    var rowKey := Lower(RowName(s.kind, key));
    if Settled(s, key).None? && Sees(s.rows, v, rowKey, id) {
      var i :| 0 <= i < |s.rows| && NameOf(s.rows[i], rowKey) && s.rows[i].id == id && Visible(s.rows[i], v);
      var k := Survives(s.rows, w, i);
      assert NameOf(Kept(s.rows, w)[k], rowKey);
    }
  }

  lemma RollbackKeeps(s: State, w: nat)
    requires Inv(s) && CanAct(s, w, Rollback)
    ensures Inv(Act(s, w, Rollback))
  {
    var s' := Act(s, w, Rollback);
    KeptOneRowEach(s, s', w);
    hide Lower, OneRowEach, Kept, RowName, Width, Settled, Right, AskedKey, AliasId;
    assert Registered(s') == Registered(s);
    forall key | key in Registered(s)
      ensures HasCommitted(s'.rows, key, Registered(s)[key])
    {
      assert HasCommitted(s.rows, key, Registered(s)[key]);
      var i :| 0 <= i < |s.rows| && NameOf(s.rows[i], key) && s.rows[i].id == Registered(s)[key]
          && s.rows[i].owner.None?;
      var k := Survives(s.rows, w, i);
      assert NameOf(s'.rows[k], key);
    }
    forall v | 0 <= v < |s.workers|
      ensures AskedRight(s', v) && (!s'.workers[v].lost ==> CacheRight(s', v))
    {
      RollbackKeepsWorker(s, w, v);
    }
  }

  lemma LosesNone(s: State, w: nat, key: string)
    requires w < |s.workers| && key in s.workers[w].cache && !WouldLose(s, w)
    ensures !RowOwned(s, w, key, s.workers[w].cache[key])
  {
  }

  lemma RollbackKeepsWorker(s: State, w: nat, v: nat)
    requires Inv(s) && CanAct(s, w, Rollback) && v < |s.workers|
    ensures var s' := Act(s, w, Rollback);
            AskedRight(s', v) && (!s'.workers[v].lost ==> CacheRight(s', v))
  {
    var s' := Act(s, w, Rollback);
    hide Lower, OneRowEach, Kept, RowName, Width, Settled, Right, AskedKey, AliasId, WouldLose, RowOwned;
    SameAnswers(s, s', v);
    assert AskedRight(s, v) && (!s.workers[v].lost ==> CacheRight(s, v));
    if v != w && s.workers[v].asked.Some? {
      var key := AskedKey(s, v);
      var i :| 0 <= i < |s.rows| && NameOf(s.rows[i], key) && Visible(s.rows[i], v);
      var k := Survives(s.rows, w, i);
      assert NameOf(s'.rows[k], key) && Visible(s'.rows[k], v);
    }
    if !s'.workers[v].lost {
      forall key | key in s.workers[v].cache
        ensures Right(s', s'.rows, v, key, s.workers[v].cache[key])
      {
        if v == w {
          LosesNone(s, w, key);
        }
        RightAfterRollback(s, w, v, key, s.workers[v].cache[key]);
      }
    }
  }

  lemma InvStep(s: State, w: nat, a: Action)
    requires Inv(s) && CanAct(s, w, a)
    ensures Inv(Act(s, w, a))
  {
    hide Inv, Act, CanAct;
    match a
    case Settle(name) => SettleKeeps(s, w, name);
    case Known(name) => KnownKeeps(s, w, name);
    case Insert(name) => InsertKeeps(s, w, name);
    case Read => ReadKeeps(s, w);
    case Commit => CommitKeeps(s, w);
    case Rollback => RollbackKeeps(s, w);
  }

  lemma {:induction false} ReachableInv(s: State, steps: nat)
    requires Reachable(s, steps)
    ensures Inv(s)
    decreases steps
  {
    hide Act, CanAct, OneRowEach, RegistryRight, CacheRight, AskedRight;
    if steps == 0 {
      StartInv(s);
    } else {
      var before, w, a :| Reachable(before, steps - 1) && CanAct(before, w, a) && s == Act(before, w, a);
      ReachableInv(before, steps - 1);
      InvStep(before, w, a);
    }
  }

  lemma StartInv(s: State)
    requires Start(s)
    ensures Inv(s)
  {
  }

  // ---- Lost means wrong ----

  /** An answer without its row: ids are not given twice, so there will never be one. */
  ghost predicate Dead(s: State, key: string, id: int) {
    Settled(s, key).None? && 0 < id < s.nextId && forall i :: 0 <= i < |s.rows| ==> s.rows[i].id != id
  }

  /** A worker asks only for what it has not cached, and one that has lost a row has a dead answer. */
  ghost predicate Marked(s: State, w: nat)
    requires w < |s.workers|
  {
    && (s.workers[w].asked.Some? ==> Lower(s.workers[w].asked.value) !in s.workers[w].cache)
    && (s.workers[w].lost ==> exists key :: key in s.workers[w].cache && Dead(s, key, s.workers[w].cache[key]))
  }

  ghost predicate AllMarked(s: State) {
    forall w :: 0 <= w < |s.workers| ==> Marked(s, w)
  }

  /** No row gets an id that was given before. */
  ghost predicate FreshIds(s: State, s': State) {
    && s.nextId <= s'.nextId
    && forall i :: 0 <= i < |s'.rows| ==> s'.rows[i].id >= s.nextId || HasId(s.rows, s'.rows[i].id)
  }

  ghost predicate HasId(rows: seq<Row>, id: int) {
    exists i :: 0 <= i < |rows| && rows[i].id == id
  }

  lemma DeadStays(s: State, s': State, key: string, id: int)
    requires Dead(s, key, id) && FreshIds(s, s') && s'.kind == s.kind && s'.registry == s.registry
    ensures Dead(s', key, id)
  {
    hide Lower, RowName, AliasId;
  }

  lemma ActFreshIds(s: State, w: nat, a: Action)
    requires OneRowEach(s) && CanAct(s, w, a)
    ensures FreshIds(s, Act(s, w, a)) && Act(s, w, a).kind == s.kind && Act(s, w, a).registry == s.registry
  {
    hide Lower, RowName, Width, Settled, Registered, OneRowEach, WouldLose;
    var s' := Act(s, w, a);
    if a.Rollback? {
      KeptRows(s.rows, w);
      forall i | 0 <= i < |s'.rows|
        ensures HasId(s.rows, s'.rows[i].id)
      {
        assert s'.rows[i] in s'.rows;
      }
    } else {
      assert forall i :: 0 <= i < |s.rows| ==> s'.rows[i].id == s.rows[i].id;
      forall i | 0 <= i < |s.rows|
        ensures HasId(s.rows, s'.rows[i].id)
      {
        assert s.rows[i].id == s'.rows[i].id;
      }
    }
  }

  /** What a worker has cached it keeps. */
  lemma CacheGrows(s: State, w: nat, a: Action, v: nat)
    requires CanAct(s, w, a) && Marked(s, w) && v < |s.workers|
    ensures var old', new' := s.workers[v].cache, Act(s, w, a).workers[v].cache;
            forall key :: key in old' ==> key in new' && new'[key] == old'[key]
    ensures Act(s, w, a).workers[v].asked.Some? ==>
              Act(s, w, a).workers[v] == s.workers[v] || a == Insert(Act(s, w, a).workers[v].asked.value)
    ensures Act(s, w, a).workers[v].lost == (s.workers[v].lost || (v == w && a.Rollback? && WouldLose(s, w)))
  {
    hide Lower, RowName, Width, Settled, Registered, WouldLose, Find, Kept, Present, Blocked;
  }

  lemma MarkedStep(s: State, w: nat, a: Action, v: nat)
    requires Inv(s) && AllMarked(s) && CanAct(s, w, a) && v < |s.workers|
    ensures v < |Act(s, w, a).workers| && Marked(Act(s, w, a), v)
  {
    hide OneRowEach, RegistryRight, AskedRight, CacheRight, WouldLose, Lower, RowName, Width, Settled, Registered;
    var s' := Act(s, w, a);
    assert Marked(s, v) && Marked(s, w);
    ActFreshIds(s, w, a);
    CacheGrows(s, w, a, v);
    if s.workers[v].lost {
      var key :| key in s.workers[v].cache && Dead(s, key, s.workers[v].cache[key]);
      DeadStays(s, s', key, s.workers[v].cache[key]);
    } else if s'.workers[v].lost {
      var key := LosesDead(s, w);
    }
  }

  lemma LosesDead(s: State, w: nat) returns (key: string)
    requires OneRowEach(s) && w < |s.workers| && WouldLose(s, w)
    ensures var s' := Act(s, w, Rollback);
            key in s'.workers[w].cache && Dead(s', key, s'.workers[w].cache[key])
  {
    hide Lower, RowName, Width;
    key :| key in s.workers[w].cache && RowOwned(s, w, key, s.workers[w].cache[key]);
    OwnedIdGone(s, w, s.workers[w].cache[key]);
  }

  lemma {:induction false} ReachableMarked(s: State, steps: nat)
    requires Reachable(s, steps)
    ensures AllMarked(s)
    decreases steps
  {
    hide Act, CanAct, OneRowEach, RegistryRight, Marked;
    if steps == 0 {
      StartMarked(s);
    } else {
      var before, w, a :| Reachable(before, steps - 1) && CanAct(before, w, a) && s == Act(before, w, a);
      ReachableMarked(before, steps - 1);
      ReachableInv(before, steps - 1);
      SameWorkers(before, w, a);
      forall v | 0 <= v < |s.workers|
        ensures Marked(s, v)
      {
        MarkedStep(before, w, a, v);
      }
    }
  }

  lemma SameWorkers(s: State, w: nat, a: Action)
    requires CanAct(s, w, a)
    ensures |Act(s, w, a).workers| == |s.workers|
  {
  }

  lemma StartMarked(s: State)
    requires Start(s)
    ensures AllMarked(s)
  {
    hide OneRowEach, RegistryRight;
  }

  /** In every interleaving, a worker's cache is right exactly when no row whose id it had cached was ever
      rolled back. */
  lemma LostIsWrong(s: State, steps: nat, w: nat)
    requires Reachable(s, steps) && w < |s.workers|
    ensures CacheRight(s, w) <==> !s.workers[w].lost
  {
    ReachableInv(s, steps);
    ReachableMarked(s, steps);
    hide OneRowEach, RegistryRight, Reachable, Lower, RowName, Width, Settled;
    assert Marked(s, w);
    if s.workers[w].lost {
      var key :| key in s.workers[w].cache && Dead(s, key, s.workers[w].cache[key]);
      assert !Right(s, s.rows, w, key, s.workers[w].cache[key]);
    }
  }

  // ---- The main results ----

  /** In every interleaving each name has at most one row, and all workers that never lost a row they had
      cached, which are those with a right cache, agree on every name they have resolved: on the alias or the
      missing model where that settles it, on -1 where the name is too long, and else on the id of the one row
      of the name. */
  lemma EveryInterleaving(s: State, steps: nat, v: nat, w: nat, key: string)
    requires Reachable(s, steps) && v < |s.workers| && w < |s.workers| && !s.workers[v].lost && !s.workers[w].lost
    requires key in s.workers[v].cache && key in s.workers[w].cache
    ensures s.workers[v].cache[key] == s.workers[w].cache[key]
    ensures Settled(s, key).Some? ==> s.workers[w].cache[key] == Settled(s, key).value
    ensures Settled(s, key).None? && |RowName(s.kind, key)| > Width(s.kind) ==> s.workers[w].cache[key] == -1
    ensures Settled(s, key).None? && |RowName(s.kind, key)| <= Width(s.kind) ==>
              IsOnlyRow(s.rows, Lower(RowName(s.kind, key)), s.workers[w].cache[key])
  {
    ReachableInv(s, steps);
    hide Lower, Reachable, RowName, Width, Settled;
    assert CacheRight(s, v) && CacheRight(s, w);
    assert Right(s, s.rows, v, key, s.workers[v].cache[key]) && Right(s, s.rows, w, key, s.workers[w].cache[key]);
    if Settled(s, key).None? && |RowName(s.kind, key)| <= Width(s.kind) {
      OnlyRow(s, v, Lower(RowName(s.kind, key)), s.workers[v].cache[key]);
      OnlyRow(s, w, Lower(RowName(s.kind, key)), s.workers[w].cache[key]);
    }
  }

  /** One row has the name, and it has this id. */
  ghost predicate IsOnlyRow(rows: seq<Row>, key: string, id: int) {
    exists i ::
      && 0 <= i < |rows| && NameOf(rows[i], key) && rows[i].id == id
      && forall j :: 0 <= j < |rows| && NameOf(rows[j], key) ==> j == i
  }

  lemma OnlyRow(s: State, w: nat, key: string, id: int)
    requires OneRowEach(s) && Sees(s.rows, w, key, id)
    ensures IsOnlyRow(s.rows, key, id)
  {
    hide Lower, OneRowEach;
    var i :| 0 <= i < |s.rows| && NameOf(s.rows[i], key) && s.rows[i].id == id && Visible(s.rows[i], w);
    OneNamed(s, i, key);
  }

  lemma OneNamed(s: State, i: nat, key: string)
    requires OneRowEach(s) && i < |s.rows| && NameOf(s.rows[i], key)
    ensures forall j :: 0 <= j < |s.rows| && j != i ==> !NameOf(s.rows[j], key)
  {
    hide Lower;
    forall j | 0 <= j < |s.rows| && j != i
      ensures !NameOf(s.rows[j], key)
    {
      assert Lower(s.rows[j].name) != Lower(s.rows[i].name) by {
        if j < i {
          assert Lower(s.rows[j].name) != Lower(s.rows[i].name);
        } else {
          assert Lower(s.rows[i].name) != Lower(s.rows[j].name);
        }
      }
    }
  }

  /** An id of the worker's own rows is gone after its rollback. */
  lemma OwnedIdGone(s: State, w: nat, id: int)
    requires OneRowEach(s) && Owned(s.rows, w, id)
    ensures 0 < id < s.nextId && forall k :: 0 <= k < |Kept(s.rows, w)| ==> Kept(s.rows, w)[k].id != id
  {
    KeptRows(s.rows, w);
    hide Lower, Kept;
    var kept := Kept(s.rows, w);
    var i :| 0 <= i < |s.rows| && s.rows[i].id == id && s.rows[i].owner == Some(w);
    forall k | 0 <= k < |kept|
      ensures kept[k].id != id
    {
      assert kept[k] in kept;
      var j :| 0 <= j < |s.rows| && s.rows[j] == kept[k];
      assert j != i;
      assert (j < i ==> s.rows[j].id != s.rows[i].id) && (i < j ==> s.rows[i].id != s.rows[j].id);
    }
  }

  lemma OwnedGone(s: State, w: nat, key: string, id: int)
    requires OneRowEach(s) && Owned(s.rows, w, id)
    ensures !Sees(Kept(s.rows, w), w, key, id)
  {
    OwnedIdGone(s, w, id);
    hide Kept, Owned, OneRowEach;
  }

  /** The rows of all names that need one have ids. */
  lemma OwnedFits(s: State, w: nat, key: string, id: int)
    requires OneRowEach(s) && RowOwned(s, w, key, id) && Right(s, s.rows, w, key, id)
    ensures |RowName(s.kind, key)| <= Width(s.kind)
  {
    hide Lower, RowName, Width, Settled;
  }

  lemma WrongAfterRollback(s: State, w: nat, key: string, id: int)
    requires OneRowEach(s) && Right(s, s.rows, w, key, id) && RowOwned(s, w, key, id)
    ensures !Right(s, Kept(s.rows, w), w, key, id)
  {
    OwnedFits(s, w, key, id);
    OwnedGone(s, w, Lower(RowName(s.kind, key)), id);
    hide Lower, RowName, Width, Settled, Kept, OneRowEach, Owned;
  }

  /** A rollback leaves a right cache right exactly when no cached id is of a row rolled back. */
  lemma RollbackSafe(s: State, w: nat)
    requires Inv(s) && w < |s.workers| && CacheRight(s, w)
    ensures CacheRight(Act(s, w, Rollback), w)
       <==> forall key :: key in s.workers[w].cache ==> !RowOwned(s, w, key, s.workers[w].cache[key])
  {
    var s' := Act(s, w, Rollback);
    assert CacheRight(s, w);
    assert s'.rows == Kept(s.rows, w) && s'.workers[w].cache == s.workers[w].cache;
    SameAnswers(s, s', w);
    hide Act, Kept, RowOwned, OneRowEach, Right, Settled;
    forall key | key in s.workers[w].cache
      ensures Right(s', s'.rows, w, key, s.workers[w].cache[key]) <==> !RowOwned(s, w, key, s.workers[w].cache[key])
    {
      var id := s.workers[w].cache[key];
      assert Right(s, s.rows, w, key, id);
      if RowOwned(s, w, key, id) {
        WrongAfterRollback(s, w, key, id);
      } else {
        RightAfterRollback(s, w, w, key, id);
      }
    }
  }

  /** The failure is real: a worker creates a filter, its transaction fails, and its cache keeps the id
      of no row; another worker then gives the same name another id. */
  lemma RolledBackId() returns (s: State, steps: nat)
    ensures Reachable(s, steps) && |s.workers| == 2
    ensures s.workers[0].cache == map["ha" := 1] && s.workers[1].cache == map["ha" := 2]
    ensures s.rows == [Row(2, "Ha", Some(1))]
  {
    var s0 := State(Filters, [], 1, EMPTY, [IDLE, IDLE]);
    ReachableStart(s0);
    hide Lower, Reachable, Start;
    steps := 0;
    var s2 := CreatesHa(s0, 0, steps);
    var s3 := LosesHa(s2, 0, steps + 2);
    s := CreatesHa(s3, 1, steps + 3);
    steps := steps + 5;
  }

  lemma LosesHa(s: State, w: nat, steps: nat) returns (s': State)
    requires Reachable(s, steps) && w < |s.workers| && |s.rows| == 1 && s.rows[0].owner == Some(w)
        && s.workers[w].asked.None? && s.workers[w].cache == map["ha" := s.rows[0].id] && Settled(s, "ha").None?
    ensures Reachable(s', steps + 1)
        && s' == State(s.kind, [], s.nextId, s.registry, s.workers[w := s.workers[w].(lost := true)])
  {
    hide Reachable, Settled;
    assert RowOwned(s, w, "ha", s.workers[w].cache["ha"]);
    assert WouldLose(s, w);
    s' := Act(s, w, Rollback);
    assert s.rows == [s.rows[0]];
    KeptNone(s.rows[0], w);
    ReachableNext(s, steps, w, Rollback);
  }

  lemma ReachableStart(s: State)
    requires Start(s)
    ensures Reachable(s, 0)
  {
  }

  lemma KeptNone(r: Row, w: nat)
    requires r.owner == Some(w)
    ensures Kept([r], w) == []
  {
    assert [r][1..] == [];
  }

  const IDLE := Worker(map[], None, false)

  const EMPTY := EquipmentRegistry(map[], [], map[], [], [], None)

  /** An idle worker resolves a filter nobody has. */
  lemma CreatesHa(s: State, w: nat, steps: nat) returns (s2: State)
    requires Reachable(s, steps) && w < |s.workers| && s.rows == [] && s.registry == EMPTY && s.kind == Filters
        && s.workers[w] == IDLE
    ensures Reachable(s2, steps + 2)
    ensures s2 == State(Filters, [Row(s.nextId, "Ha", Some(w))], s.nextId + 1, EMPTY,
        s.workers[w := Worker(map["ha" := s.nextId], None, false)])
  {
    hide Reachable, Start;
    var s1 := InsertsHa(s, w, steps);
    LowerHa();
    hide Lower, Cut;
    FindOne(s1.rows[0], w, "ha");
    s2 := Act(s1, w, Read);
    ReachableNext(s1, steps + 1, w, Read);
  }

  lemma InsertsHa(s: State, w: nat, steps: nat) returns (s1: State)
    requires Reachable(s, steps) && w < |s.workers| && s.rows == [] && s.registry == EMPTY && s.kind == Filters
        && s.workers[w] == IDLE
    ensures Reachable(s1, steps + 1)
    ensures s1 == State(Filters, [Row(s.nextId, "Ha", Some(w))], s.nextId + 1, EMPTY,
        s.workers[w := Worker(map[], Some("Ha"), false)])
  {
    LowerHa();
    hide Lower, Cut, Reachable, Start;
    s1 := Act(s, w, Insert("Ha"));
    ReachableNext(s, steps, w, Insert("Ha"));
  }

  lemma ReachableNext(s: State, steps: nat, w: nat, a: Action)
    requires Reachable(s, steps) && CanAct(s, w, a)
    ensures Reachable(Act(s, w, a), steps + 1)
  {
    hide Act, CanAct, Start;
  }

  lemma FindOne(r: Row, w: nat, key: string)
    requires NameOf(r, key) && Visible(r, w)
    ensures Find([r], w, key) == r.id
  {
  }

  lemma LowerHa()
    ensures Lower("Ha") == "ha" && Cut("Ha", FILTER_WIDTH) == "Ha"
  {
  }

  // ---- A worker alone is the resolver ----

  function NamedRows(rows: seq<Row>): seq<Named> {
    seq(|rows|, i requires 0 <= i < |rows| => Named(rows[i].id, rows[i].name))
  }

  /** The table as the resolver has it. */
  function TableOf(s: State): NameTable {
    NameTable(NamedRows(s.rows), s.nextId)
  }

  /** What the resolver answers for a name. */
  function ResolverAnswer(s: State, name: string): Answer {
    match s.kind
    case Filters => FilterAnswer(s.registry, TableOf(s), name)
    case Cameras => CameraAnswer(s.registry, TableOf(s), name)
  }

  /** The steps of a worker that asks for a name and is not disturbed. */
  ghost predicate Alone(s: State, w: nat, name: string, after: State) {
    && w < |s.workers| && Asks(s, w, name)
    && if CanAct(s, w, Settle(name)) then after == Act(s, w, Settle(name))
       else if CanAct(s, w, Known(name)) then after == Act(s, w, Known(name))
       else CanAct(s, w, Insert(name)) && CanAct(Act(s, w, Insert(name)), w, Read)
            && after == Act(Act(s, w, Insert(name)), w, Read)
  }

  lemma {:induction false} FindsAsTable(rows: seq<Row>, w: nat, key: string)
    requires forall i :: 0 <= i < |rows| ==> Visible(rows[i], w)
    ensures Find(rows, w, key) == FindId(NamedRows(rows), key)
    ensures (forall i :: 0 <= i < |rows| ==> rows[i].id > 0) ==>
              (Present(rows, key) <==> FindId(NamedRows(rows), key) != -1)
  {
    hide Lower;
    if rows != [] {
      FindsAsTable(rows[1..], w, key);
      assert NamedRows(rows)[0] == Named(rows[0].id, rows[0].name) && NamedRows(rows)[1..] == NamedRows(rows[1..]);
      if i :| 0 <= i < |rows| && NameOf(rows[i], key) {
        assert i > 0 ==> NameOf(rows[1..][i - 1], key);
      }
      if i :| 0 <= i < |rows[1..]| && NameOf(rows[1..][i], key) {
        assert NameOf(rows[i + 1], key);
      }
    }
  }

  ghost predicate AllCommitted(rows: seq<Row>) {
    forall i :: 0 <= i < |rows| ==> rows[i].owner.None?
  }

  /** Where all rows are committed, a worker that is not disturbed gets the resolver's answer into its cache and
      leaves the resolver's table. */
  lemma AloneAnswers(s: State, w: nat, name: string, after: State)
    requires OneRowEach(s) && RegistryRight(s) && AllCommitted(s.rows)
    requires Alone(s, w, name, after)
    ensures |after.workers| == |s.workers|
    ensures after.workers[w].cache == s.workers[w].cache[Lower(name) := ResolverAnswer(s, name).id]
    ensures TableOf(after) == ResolverAnswer(s, name).table
  {
    hide Settled, ResolverAnswer, Registered, TableOf, RowName, Lower, OneRowEach, RegistryRight, Present, Find,
        Blocked;
    if CanAct(s, w, Settle(name)) {
      SettledAnswer(s, name);
      SameTable(s, after);
    } else if CanAct(s, w, Known(name)) {
      KnownAnswer(s, name);
      SameTable(s, after);
    } else {
      InsertedAnswer(s, w, name);
    }
  }

  lemma SameTable(s: State, after: State)
    requires after.rows == s.rows && after.nextId == s.nextId
    ensures TableOf(after) == TableOf(s)
  {
  }

  /** Whether the answer needs a row, for the name as it is written. */
  lemma SameModel(s: State, name: string)
    ensures RowName(s.kind, Lower(name)) == "" <==> RowName(s.kind, name) == ""
  {
    LowerTwice(name);
    LowerLength(name);
    BaseModelCaseless(Lower(name), name, 0);
  }

  lemma SettledAnswer(s: State, name: string)
    requires (s.kind.Filters? ==> name != "") && Settled(s, Lower(name)).Some?
    ensures ResolverAnswer(s, name) == Answer(TableOf(s), Settled(s, Lower(name)).value)
  {
    SameModel(s, name);
    LowerTwice(name);
    LowerLength(name);
    hide Lower, BaseModel, AliasId, TableOf, Created;
  }

  lemma KnownAnswer(s: State, name: string)
    requires OneRowEach(s) && RegistryRight(s) && (s.kind.Filters? ==> name != "")
    requires Settled(s, Lower(name)).None? && Lower(RowName(s.kind, name)) in Registered(s)
    ensures ResolverAnswer(s, name) == Answer(TableOf(s), Registered(s)[Lower(RowName(s.kind, name))])
  {
    SameModel(s, name);
    KnownPositive(s, Lower(RowName(s.kind, name)));
    hide Lower, BaseModel, AliasId, TableOf, Created, OneRowEach, RegistryRight;
  }

  lemma KnownPositive(s: State, key: string)
    requires OneRowEach(s) && RegistryRight(s) && key in Registered(s)
    ensures Registered(s)[key] > 0
  {
    assert HasCommitted(s.rows, key, Registered(s)[key]);
    hide Lower;
  }

  /** Otherwise the name is created. */
  lemma CreatedAnswer(s: State, name: string)
    requires (s.kind.Filters? ==> name != "")
    requires Settled(s, Lower(name)).None? && Lower(RowName(s.kind, name)) !in Registered(s)
    ensures ResolverAnswer(s, name) == Created(TableOf(s), RowName(s.kind, name), Width(s.kind))
  {
    SameModel(s, name);
    hide Lower, BaseModel, AliasId, TableOf, Created;
  }

  lemma InsertedAnswer(s: State, w: nat, name: string)
    requires OneRowEach(s) && AllCommitted(s.rows) && w < |s.workers| && CanAct(s, w, Insert(name))
    requires CanAct(Act(s, w, Insert(name)), w, Read)
    ensures var after := Act(Act(s, w, Insert(name)), w, Read);
            && |after.workers| == |s.workers|
            && after.workers[w].cache == s.workers[w].cache[Lower(name) := ResolverAnswer(s, name).id]
            && TableOf(after) == ResolverAnswer(s, name).table
  {
    CreatedAnswer(s, name);
    var full := RowName(s.kind, name);
    var cut := Cut(full, Width(s.kind));
    var rows := if Present(s.rows, Lower(cut)) then s.rows else s.rows + [Row(s.nextId, cut, Some(w))];
    var next := if Present(s.rows, Lower(cut)) then s.nextId else s.nextId + 1;
    IdsPositive(s);
    hide Settled, Registered, RowName, Lower, OneRowEach, Blocked, ResolverAnswer, Present, Find, FindId;
    FindsAsTable(s.rows, w, Lower(cut));
    FindsAsTable(rows, w, Lower(full));
    assert NamedRows(s.rows + [Row(s.nextId, cut, Some(w))]) == NamedRows(s.rows) + [Named(s.nextId, cut)];
    assert InsertIgnore(TableOf(s), full, Width(s.kind)) == NameTable(NamedRows(rows), next);
  }

  lemma IdsPositive(s: State)
    requires OneRowEach(s)
    ensures forall i :: 0 <= i < |s.rows| ==> s.rows[i].id > 0
  {
    hide Lower;
  }
}
