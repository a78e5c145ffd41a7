/** Equipment ids: the per-worker resolver, its caches, and the registry tables it adds to. */
module Equipment {
  import opened Options
  import opened Chars

  // ---- The tables ----

  datatype Named = Named(id: int, name: string)

  /** A table of names, unique under the collation, with its next automatic id. */
  datatype NameTable = NameTable(rows: seq<Named>, nextId: int)

  const FILTER_WIDTH := 32
  const MODEL_WIDTH := 64

  function Cut(name: string, width: nat): string {
    if |name| <= width then name else name[..width]
  }

  /** The row of a name, given in lower case; -1 when there is none. */
  function FindId(rows: seq<Named>, key: string): int {
    if rows == [] then -1 else if Lower(rows[0].name) == key then rows[0].id else FindId(rows[1..], key)
  }

  ghost predicate ValidTable(t: NameTable, width: nat) {
    && t.nextId > 0
    && (forall i :: 0 <= i < |t.rows| ==> 0 < t.rows[i].id < t.nextId && |t.rows[i].name| <= width)
    && (forall i, j :: 0 <= i < j < |t.rows| ==>
        t.rows[i].id != t.rows[j].id && Lower(t.rows[i].name) != Lower(t.rows[j].name))
  }

  /** INSERT IGNORE: a name already there, or one too long, is no error. */
  function InsertIgnore(t: NameTable, name: string, width: nat): NameTable {
    if FindId(t.rows, Lower(Cut(name, width))) != -1 then t
    else NameTable(t.rows + [Named(t.nextId, Cut(name, width))], t.nextId + 1)
  }

  lemma {:induction false} FoundRow(rows: seq<Named>, key: string) returns (i: nat)
    requires FindId(rows, key) != -1
    ensures i < |rows| && Lower(rows[i].name) == key && rows[i].id == FindId(rows, key)
  {
    if Lower(rows[0].name) == key {
      i := 0;
    } else {
      i := FoundRow(rows[1..], key);
      i := i + 1;
    }
  }

  lemma {:induction false} NotFound(rows: seq<Named>, key: string)
    requires forall i :: 0 <= i < |rows| ==> rows[i].id != -1
    ensures FindId(rows, key) == -1 <==> forall i :: 0 <= i < |rows| ==> Lower(rows[i].name) != key
  {
    if rows != [] {
      assert forall i :: 0 <= i < |rows| - 1 ==> rows[1..][i] == rows[i + 1];
      NotFound(rows[1..], key);
      if Lower(rows[0].name) != key && FindId(rows[1..], key) == -1 {
        assert forall i :: 1 <= i < |rows| ==> rows[i] == rows[1..][i - 1];
      }
    }
  }

  /** A row once found is found in every longer table. */
  lemma {:induction false} FoundLater(rows: seq<Named>, more: seq<Named>, key: string)
    ensures FindId(rows + more, key) == if FindId(rows, key) != -1 then FindId(rows, key) else FindId(more, key)
    requires forall i :: 0 <= i < |rows| ==> rows[i].id != -1
  {
    if rows == [] {
      assert rows + more == more;
    } else {
      assert (rows + more)[1..] == rows[1..] + more;
      FoundLater(rows[1..], more, key);
    }
  }

  /** Inserting keeps names unique, and then finds the name: unless it did not fit. */
  lemma InsertFinds(t: NameTable, name: string, width: nat)
    requires ValidTable(t, width)
    ensures ValidTable(InsertIgnore(t, name, width), width) && t.rows <= InsertIgnore(t, name, width).rows
    ensures FindId(InsertIgnore(t, name, width).rows, Lower(name)) != -1 <==> |name| <= width
    ensures FindId(InsertIgnore(t, name, width).rows, Lower(Cut(name, width))) != -1
  {
    var cut := Cut(name, width);
    var t' := InsertIgnore(t, name, width);
    NotFound(t.rows, Lower(cut));
    FoundLater(t.rows, [Named(t.nextId, cut)], Lower(cut));
    if FindId(t'.rows, Lower(name)) != -1 {
      var i := FoundRow(t'.rows, Lower(name));
      assert |Lower(t'.rows[i].name)| == |Lower(name)|;
    }
  }

  // ---- The registry snapshot ----

  datatype Alias = Alias(pattern: string, id: nat)

  datatype Rig = Rig(id: int, camera: int, low: real, high: real, site: Option<int>)

  datatype EquipmentRegistry = EquipmentRegistry(
    camerasByModel: map<string, int>,
    cameraAliases: seq<Alias>,
    filtersByName: map<string, int>,
    filterAliases: seq<Alias>,
    rigs: seq<Rig>,
    defaultSite: Option<int>)

  predicate Contains(s: string, part: string) {
    exists i :: 0 <= i <= |s| - |part| && IsAt(s, part, i)
  }

  predicate IsAt(s: string, part: string, i: nat)
    requires i + |part| <= |s|
  {
    s[i..i + |part|] == part
  }

  /** part is somewhere in s. */
  lemma ContainsIs(s: string, part: string)
    ensures Contains(s, part) <==> exists before: string, after: string :: s == before + part + after
  {
    if i :| 0 <= i <= |s| - |part| && IsAt(s, part, i) {
      assert s == s[..i] + part + s[i + |part|..];
    }
    if before: string, after: string :| s == before + part + after {
      assert IsAt(s, part, |before|);
    }
  }

  /** The id of the first alias that applies to a key; -1 when none does. */
  function AliasId(aliases: seq<Alias>, key: string, exact: bool): int {
    if aliases == [] then -1
    else if (if exact then key == Lower(aliases[0].pattern) else Contains(key, Lower(aliases[0].pattern)))
        then aliases[0].id
    else AliasId(aliases[1..], key, exact)
  }

  function LookUp(m: map<string, int>, key: string): int {
    if key in m then m[key] else -1
  }

  /** The model number after "ASI" at one place: an optional blank, then three or four digits. */
  function ModelAt(s: string, i: nat): Option<string>
    requires i <= |s|
  {
    if |s| < i + 3 || Lower(s[i..i + 3]) != "asi" then None else
    var d := if i + 3 < |s| && IsSpace(s[i + 3]) then i + 4 else i + 3;
    if |s| < d + 3 || !IsDigit(s[d]) || !IsDigit(s[d + 1]) || !IsDigit(s[d + 2]) then None
    else if d + 3 < |s| && IsDigit(s[d + 3]) then Some(s[d..d + 4])
    else Some(s[d..d + 3])
  }

  /** base_model: the first place where a model number is. */
  function BaseModel(s: string, i: nat): string
    requires i <= |s|
    decreases |s| - i
  {
    match ModelAt(s, i)
    case Some(digits) => "ASI" + digits
    case None => if i == |s| then "" else BaseModel(s, i + 1)
  }

  /** At i the letters ASI stand, in any case, and from d on, after a blank at most, three digits. */
  predicate ModelStarts(s: string, i: nat, d: nat) {
    && d + 3 <= |s| && (d == i + 3 || (d == i + 4 && IsSpace(s[i + 3])))
    && s[i] in ['A', 'a'] && s[i + 1] in ['S', 's'] && s[i + 2] in ['I', 'i']
    && IsDigit(s[d]) && IsDigit(s[d + 1]) && IsDigit(s[d + 2])
  }

  /** Its number: three digits, or four where there is a fourth. */
  function NumberAt(s: string, d: nat): string
    requires d + 3 <= |s|
  {
    if d + 3 < |s| && IsDigit(s[d + 3]) then s[d..d + 4] else s[d..d + 3]
  }

  /** The first place where a model starts, from i on. */
  ghost predicate FirstModel(s: string, from: nat, i: nat, d: nat) {
    from <= i && ModelStarts(s, i, d) && forall j, e :: from <= j < i ==> !ModelStarts(s, j, e)
  }

  lemma IsAsi(t: string)
    requires |t| == 3
    ensures Lower(t) == "asi" <==> t[0] in ['A', 'a'] && t[1] in ['S', 's'] && t[2] in ['I', 'i']
  {
    assert |Lower(t)| == 3;
    assert Lower(t)[0] == LowerChar(t[0]) && Lower(t)[1] == LowerChar(t[1]) && Lower(t)[2] == LowerChar(t[2]);
    if t[0] in ['A', 'a'] && t[1] in ['S', 's'] && t[2] in ['I', 'i'] {
      assert Lower(t) == ['a', 's', 'i'];
    }
  }

  lemma ModelAtIs(s: string, i: nat)
    requires i <= |s|
    ensures ModelAt(s, i).Some? <==> exists d :: ModelStarts(s, i, d)
    ensures forall d :: ModelStarts(s, i, d) ==> ModelAt(s, i) == Some(NumberAt(s, d))
  {
    if i + 3 <= |s| {
      IsAsi(s[i..i + 3]);
      assert s[i..i + 3][0] == s[i] && s[i..i + 3][1] == s[i + 1] && s[i..i + 3][2] == s[i + 2];
      hide Lower;
      var d := if i + 3 < |s| && IsSpace(s[i + 3]) then i + 4 else i + 3;
      assert ModelAt(s, i).Some? <==> ModelStarts(s, i, d);
      forall e | ModelStarts(s, i, e)
        ensures e == d
      {
        if e == i + 3 && d == i + 4 {
          SpaceNoDigit(s[i + 3]);
        }
      }
    }
  }

  lemma SpaceNoDigit(c: char)
    ensures !IsSpace(c) || !IsDigit(c)
  {
  }

  /** The model is ASI and the number at the first place that has one; there is none only if no place has. */
  lemma {:induction false} BaseModelIs(s: string, from: nat) returns (i: nat, d: nat)
    requires from <= |s|
    ensures BaseModel(s, from) == "" ==> forall j: nat, e: nat :: from <= j ==> !ModelStarts(s, j, e)
    ensures BaseModel(s, from) != "" ==>
              FirstModel(s, from, i, d) && d + 3 <= |s| && BaseModel(s, from) == "ASI" + NumberAt(s, d)
    decreases |s| - from
  {
    ModelAtIs(s, from);
    ModelInText(s);
    hide ModelAt, NumberAt, ModelStarts;
    i, d := 0, 0;
    if ModelAt(s, from).Some? {
      i := from;
      d :| ModelStarts(s, from, d);
    } else if from < |s| {
      i, d := BaseModelIs(s, from + 1);
    }
  }

  lemma ModelInText(s: string)
    ensures forall i: nat, d: nat :: ModelStarts(s, i, d) ==> i < |s| && d + 3 <= |s|
  {
  }

  // ---- Answers without a cache ----

  datatype Answer = Answer(table: NameTable, id: int)

  function Created(t: NameTable, name: string, width: nat): Answer {
    var t' := InsertIgnore(t, name, width);
    Answer(t', FindId(t'.rows, Lower(name)))
  }

  function FilterAnswer(reg: EquipmentRegistry, t: NameTable, raw: string): Answer {
    var key := Lower(raw);
    if raw == "" then Answer(t, -1)
    else if AliasId(reg.filterAliases, key, true) >= 0 then Answer(t, AliasId(reg.filterAliases, key, true))
    else if LookUp(reg.filtersByName, key) >= 0 then Answer(t, LookUp(reg.filtersByName, key))
    else Created(t, raw, FILTER_WIDTH)
  }

  function CameraAnswer(reg: EquipmentRegistry, t: NameTable, raw: string): Answer {
    var key, model := Lower(raw), BaseModel(raw, 0);
    if AliasId(reg.cameraAliases, key, false) >= 0 then Answer(t, AliasId(reg.cameraAliases, key, false))
    else if model == "" then Answer(t, -1)
    else if Lower(model) in reg.camerasByModel then Answer(t, reg.camerasByModel[Lower(model)])
    else Created(t, model, MODEL_WIDTH)
  }

  /** What a cache promises: asking again would change nothing and give the cached id. */
  ghost predicate FiltersFit(reg: EquipmentRegistry, t: NameTable, cache: map<string, int>) {
    forall raw: string {:trigger FilterAnswer(reg, t, raw)} ::
      Lower(raw) in cache ==> FilterAnswer(reg, t, raw) == Answer(t, cache[Lower(raw)])
  }

  ghost predicate CamerasFit(reg: EquipmentRegistry, t: NameTable, cache: map<string, int>) {
    forall raw: string {:trigger CameraAnswer(reg, t, raw)} ::
      Lower(raw) in cache ==> CameraAnswer(reg, t, raw) == Answer(t, cache[Lower(raw)])
  }

  lemma CutCaseless(a: string, b: string, width: nat)
    requires Lower(a) == Lower(b)
    ensures Lower(Cut(a, width)) == Lower(Cut(b, width))
  {
    assert |Lower(a)| == |a| && |Lower(b)| == |b|;
    assert forall i :: 0 <= i < |a| ==> Lower(a)[i] == LowerChar(a[i]) && Lower(b)[i] == LowerChar(b[i]);
  }

  /** A name once created is answered from the table, in every spelling, however the table has grown. */
  lemma CreatedOnce(t: NameTable, later: NameTable, a: string, b: string, width: nat)
    requires ValidTable(t, width) && ValidTable(later, width) && Lower(a) == Lower(b)
    requires Created(t, a, width).table.rows <= later.rows
    ensures Created(later, b, width) == Answer(later, Created(t, a, width).id)
  {
    var made := Created(t, a, width).table;
    var more := later.rows[|made.rows|..];
    assert later.rows == made.rows + more;
    InsertFinds(t, a, width);
    CutCaseless(a, b, width);
    FoundLater(made.rows, more, Lower(Cut(a, width)));
    FoundLater(made.rows, more, Lower(a));
    InsertFinds(later, b, width);
    assert |Lower(a)| == |a| && |Lower(b)| == |b|;
  }

  lemma {:induction false} BaseModelCaseless(a: string, b: string, i: nat)
    requires Lower(a) == Lower(b) && i <= |a|
    ensures |a| == |b| && BaseModel(a, i) == BaseModel(b, i)
    decreases |a| - i
  {
    ModelAtCaseless(a, b, i);
    if i < |a| {
      BaseModelCaseless(a, b, i + 1);
    }
  }

  /** Texts that differ only in case have the same digits and blanks. */
  ghost predicate Alike(a: string, b: string) {
    |a| == |b| && forall k :: 0 <= k < |a| ==>
      && IsDigit(a[k]) == IsDigit(b[k]) && (IsDigit(a[k]) ==> a[k] == b[k]) && IsSpace(a[k]) == IsSpace(b[k])
  }

  lemma CaselessAlike(a: string, b: string)
    requires Lower(a) == Lower(b)
    ensures Alike(a, b)
  {
    assert |Lower(a)| == |a| && |Lower(b)| == |b|;
    assert forall k :: 0 <= k < |a| ==> Lower(a)[k] == LowerChar(a[k]) && Lower(b)[k] == LowerChar(b[k]);
  }

  lemma SliceCaseless(a: string, b: string, i: nat, n: nat)
    requires Lower(a) == Lower(b) && i <= n <= |a|
    ensures |a| == |b| && Lower(a[i..n]) == Lower(b[i..n])
  {
    assert |Lower(a)| == |a| && |Lower(b)| == |b|;
    assert Lower(a[i..n]) == Lower(a)[i..n];
    assert Lower(b[i..n]) == Lower(b)[i..n];
  }

  lemma DigitsAlike(a: string, b: string, d: nat, n: nat)
    requires Alike(a, b) && d <= n <= |a| && forall k :: d <= k < n ==> IsDigit(a[k])
    ensures a[d..n] == b[d..n]
  {
  }

  lemma ModelAtCaseless(a: string, b: string, i: nat)
    requires Lower(a) == Lower(b) && i <= |a|
    ensures |a| == |b| && ModelAt(a, i) == ModelAt(b, i)
  {
    CaselessAlike(a, b);
    if i + 3 <= |a| {
      SliceCaseless(a, b, i, i + 3);
      hide Lower, IsDigit, IsSpace;
      var d := if i + 3 < |a| && IsSpace(a[i + 3]) then i + 4 else i + 3;
      if |a| >= d + 3 && IsDigit(a[d]) && IsDigit(a[d + 1]) && IsDigit(a[d + 2]) {
        DigitsAlike(a, b, d, d + 3);
        if d + 3 < |a| && IsDigit(a[d + 3]) {
          DigitsAlike(a, b, d, d + 4);
        }
      }
    }
  }

  /** A cache goes on fitting a table that only grows. */
  lemma FiltersStillFit(reg: EquipmentRegistry, t: NameTable, later: NameTable, cache: map<string, int>)
    requires ValidTable(t, FILTER_WIDTH) && ValidTable(later, FILTER_WIDTH) && t.rows <= later.rows
    requires FiltersFit(reg, t, cache)
    ensures FiltersFit(reg, later, cache)
  {
    hide ValidTable, Created, AliasId, LookUp;
    forall raw: string | Lower(raw) in cache
      ensures FilterAnswer(reg, later, raw) == Answer(later, cache[Lower(raw)])
    {
      assert FilterAnswer(reg, t, raw) == Answer(t, cache[Lower(raw)]);
      if Created(t, raw, FILTER_WIDTH).table == t {
        CreatedOnce(t, later, raw, raw, FILTER_WIDTH);
      }
    }
  }

  lemma CamerasStillFit(reg: EquipmentRegistry, t: NameTable, later: NameTable, cache: map<string, int>)
    requires ValidTable(t, MODEL_WIDTH) && ValidTable(later, MODEL_WIDTH) && t.rows <= later.rows
    requires CamerasFit(reg, t, cache)
    ensures CamerasFit(reg, later, cache)
  {
    hide ValidTable, Created, AliasId, BaseModel;
    forall raw: string | Lower(raw) in cache
      ensures CameraAnswer(reg, later, raw) == Answer(later, cache[Lower(raw)])
    {
      assert CameraAnswer(reg, t, raw) == Answer(t, cache[Lower(raw)]);
      if Created(t, BaseModel(raw, 0), MODEL_WIDTH).table == t {
        CreatedOnce(t, later, BaseModel(raw, 0), BaseModel(raw, 0), MODEL_WIDTH);
      }
    }
  }

  /** Remembering an answer keeps the cache fitting. */
  lemma FilterRemembered(reg: EquipmentRegistry, t: NameTable, cache: map<string, int>, raw: string)
    requires ValidTable(t, FILTER_WIDTH) && FiltersFit(reg, t, cache) && raw != ""
    ensures var a := FilterAnswer(reg, t, raw);
            ValidTable(a.table, FILTER_WIDTH) && FiltersFit(reg, a.table, cache[Lower(raw) := a.id])
  {
    var a := FilterAnswer(reg, t, raw);
    InsertFinds(t, raw, FILTER_WIDTH);
    FiltersStillFit(reg, t, a.table, cache);
    forall raw2: string | Lower(raw2) == Lower(raw)
      ensures FilterAnswer(reg, a.table, raw2) == a
    {
      assert |Lower(raw2)| == |raw2| && |Lower(raw)| == |raw|;
      if a == Created(t, raw, FILTER_WIDTH) {
        CreatedOnce(t, a.table, raw, raw2, FILTER_WIDTH);
      }
      hide Lower, Created, AliasId, LookUp;
    }
  }

  lemma CameraRemembered(reg: EquipmentRegistry, t: NameTable, cache: map<string, int>, raw: string)
    requires ValidTable(t, MODEL_WIDTH) && CamerasFit(reg, t, cache)
    ensures var a := CameraAnswer(reg, t, raw);
            ValidTable(a.table, MODEL_WIDTH) && CamerasFit(reg, a.table, cache[Lower(raw) := a.id])
  {
    var a := CameraAnswer(reg, t, raw);
    InsertFinds(t, BaseModel(raw, 0), MODEL_WIDTH);
    CamerasStillFit(reg, t, a.table, cache);
    forall raw2: string | Lower(raw2) == Lower(raw)
      ensures CameraAnswer(reg, a.table, raw2) == a
    {
      BaseModelCaseless(raw, raw2, 0);
      hide Lower, Created, AliasId, BaseModel;
      if a == Created(t, BaseModel(raw, 0), MODEL_WIDTH) {
        CreatedOnce(t, a.table, BaseModel(raw, 0), BaseModel(raw, 0), MODEL_WIDTH);
      }
    }
  }

  // ---- The resolver ----

  /** The two tables a resolver adds to. */
  class EquipmentTables {
    var cameras: NameTable
    var filters: NameTable

    constructor (cameras: NameTable, filters: NameTable)
      ensures this.cameras == cameras && this.filters == filters
    {
      this.cameras := cameras;
      this.filters := filters;
    }
  }

  datatype EquipmentIds = EquipmentIds(camera: Option<int>, rig: Option<int>, filter: Option<int>, site: Option<int>)

  datatype Frame = Frame(instrument: Option<string>, filter: Option<string>, focal: Option<real>)

  predicate Covers(rig: Rig, camera: int, focal: real) {
    rig.camera == camera && rig.low <= focal <= rig.high
  }

  /** The first rig that covers the frame. */
  function RigFor(rigs: seq<Rig>, camera: int, focal: real): Option<Rig> {
    if rigs == [] then None
    else if Covers(rigs[0], camera, focal) then Some(rigs[0])
    else RigFor(rigs[1..], camera, focal)
  }

  function Positive(id: int): Option<int> {
    if id > 0 then Some(id) else None
  }

  /** The ids of a frame, as the definition gives them from the camera's and the filter's. */
  function IdsOf(reg: EquipmentRegistry, frame: Frame, camera: Option<int>, filter: Option<int>): EquipmentIds {
    var rig := if camera.Some? && frame.focal.Some? then RigFor(reg.rigs, camera.value, frame.focal.value) else None;
    var site := if rig.Some? && rig.value.site.Some? then rig.value.site else reg.defaultSite;
    EquipmentIds(camera, if rig.Some? then Some(rig.value.id) else None, filter, site)
  }

  class EquipmentResolver {
    const reg: EquipmentRegistry
    var cameraCache: map<string, int>
    var filterCache: map<string, int>

    constructor (reg: EquipmentRegistry)
      ensures this.reg == reg && cameraCache == map[] && filterCache == map[]
    {
      this.reg := reg;
      cameraCache := map[];
      filterCache := map[];
    }

    /** The tables are valid and the caches agree with them. */
    ghost predicate Fits(db: EquipmentTables)
      reads this, db
    {
      && ValidTable(db.cameras, MODEL_WIDTH) && ValidTable(db.filters, FILTER_WIDTH)
      && CamerasFit(reg, db.cameras, cameraCache) && FiltersFit(reg, db.filters, filterCache)
    }

    /** With its cache a resolver gives the answer it would give without one. */
    method ResolveFilter(raw: string, db: EquipmentTables) returns (id: int)
      requires Fits(db)
      modifies this`filterCache, db`filters
      ensures Fits(db)
      ensures Answer(db.filters, id) == FilterAnswer(reg, old(db.filters), raw)
    {
      if raw == "" {
        return -1;
      }
      var key := Lower(raw);
      if key in filterCache {
        assert FilterAnswer(reg, db.filters, raw) == Answer(db.filters, filterCache[key]);
        return filterCache[key];
      }
      FilterRemembered(reg, db.filters, filterCache, raw);
      var i := 0;
      while i < |reg.filterAliases| && key != Lower(reg.filterAliases[i].pattern)
        invariant 0 <= i <= |reg.filterAliases|
        invariant AliasId(reg.filterAliases, key, true) == AliasId(reg.filterAliases[i..], key, true)
      {
        i := i + 1;
      }
      id := if i < |reg.filterAliases| then reg.filterAliases[i].id else -1;
      if id < 0 && key in reg.filtersByName {
        id := reg.filtersByName[key];
      }
      if id < 0 {
        db.filters := InsertIgnore(db.filters, raw, FILTER_WIDTH);
        id := FindId(db.filters.rows, Lower(raw));
      }
      filterCache := filterCache[key := id];
    }

    method ResolveCamera(raw: string, db: EquipmentTables) returns (id: int)
      requires Fits(db)
      modifies this`cameraCache, db`cameras
      ensures Fits(db)
      ensures Answer(db.cameras, id) == CameraAnswer(reg, old(db.cameras), raw)
    {
      var key := Lower(raw);
      if key in cameraCache {
        assert CameraAnswer(reg, db.cameras, raw) == Answer(db.cameras, cameraCache[key]);
        return cameraCache[key];
      }
      CameraRemembered(reg, db.cameras, cameraCache, raw);
      var i := 0;
      while i < |reg.cameraAliases| && !Contains(key, Lower(reg.cameraAliases[i].pattern))
        invariant 0 <= i <= |reg.cameraAliases|
        invariant AliasId(reg.cameraAliases, key, false) == AliasId(reg.cameraAliases[i..], key, false)
      {
        i := i + 1;
      }
      id := if i < |reg.cameraAliases| then reg.cameraAliases[i].id else -1;
      if id < 0 {
        var model := BaseModel(raw, 0);
        if model != "" {
          if Lower(model) in reg.camerasByModel {
            id := reg.camerasByModel[Lower(model)];
          } else {
            db.cameras := InsertIgnore(db.cameras, model, MODEL_WIDTH);
            id := FindId(db.cameras.rows, Lower(model));
          }
        }
      }
      cameraCache := cameraCache[key := id];
    }

    /** All ids of a frame: the camera's, the filter's, then the first rig that covers it. */
    method Resolve(frame: Frame, db: EquipmentTables) returns (ids: EquipmentIds)
      requires Fits(db)
      modifies this`cameraCache, this`filterCache, db
      ensures Fits(db)
      ensures var camera := if frame.instrument.Some? then CameraAnswer(reg, old(db.cameras), frame.instrument.value)
                            else Answer(old(db.cameras), -1);
              var filter := if frame.filter.Some? then FilterAnswer(reg, old(db.filters), frame.filter.value)
                            else Answer(old(db.filters), -1);
              && db.cameras == camera.table && db.filters == filter.table
              && ids == IdsOf(reg, frame, Positive(camera.id), Positive(filter.id))
    {
      ids := EquipmentIds(None, None, None, None);
      if frame.instrument.Some? {
        var camera := ResolveCamera(frame.instrument.value, db);
        if camera > 0 {
          ids := ids.(camera := Some(camera));
        }
      }
      if frame.filter.Some? {
        var filter := ResolveFilter(frame.filter.value, db);
        if filter > 0 {
          ids := ids.(filter := Some(filter));
        }
      }
      if ids.camera.Some? && frame.focal.Some? {
        var i := 0;
        while i < |reg.rigs| && !Covers(reg.rigs[i], ids.camera.value, frame.focal.value)
          invariant 0 <= i <= |reg.rigs|
          invariant RigFor(reg.rigs, ids.camera.value, frame.focal.value)
              == RigFor(reg.rigs[i..], ids.camera.value, frame.focal.value)
        {
          i := i + 1;
        }
        if i < |reg.rigs| {
          ids := ids.(rig := Some(reg.rigs[i].id));
          if reg.rigs[i].site.Some? {
            ids := ids.(site := reg.rigs[i].site);
          }
        }
      }
      if ids.site.None? {
        ids := ids.(site := reg.defaultSite);
      }
    }
  }
}
