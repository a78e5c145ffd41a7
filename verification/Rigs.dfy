/** Rig membership: every frame carries the id of its rig, kept by the handlers that create, edit and
    delete rigs and by each store; the resolver defines what it should be. */
module Rigs {
  import opened Options
  import Equipment

  datatype RigRow = RigRow(name: string, camera: int, low: real, high: real, active: bool)

  datatype FrameRow = FrameRow(camera: Option<int>, focal: Option<real>, rig: Option<int>)

  /** The two tables, and the next automatic rig id. */
  datatype Book = Book(rigs: map<int, RigRow>, frames: map<int, FrameRow>, nextRig: int)

  predicate Covered(r: RigRow, f: FrameRow) {
    f.camera == Some(r.camera) && f.focal.Some? && r.low <= f.focal.value <= r.high
  }

  // ---- What membership should be ----

  ghost predicate Valid(b: Book) {
    && (forall id :: id in b.rigs ==> id < b.nextRig && b.rigs[id].camera > 0 && b.rigs[id].low <= b.rigs[id].high)
    && (forall f :: f in b.frames && b.frames[f].rig.Some? ==> b.frames[f].rig.value in b.rigs)
  }

  /** Active rigs on one camera have ranges that do not meet. */
  ghost predicate Disjoint(rigs: map<int, RigRow>) {
    forall a, b ::
      a in rigs && b in rigs && a != b && rigs[a].active && rigs[b].active && rigs[a].camera == rigs[b].camera ==>
      rigs[a].high < rigs[b].low || rigs[b].high < rigs[a].low
  }

  /** The active rigs, in whatever order the server lists them. */
  ghost predicate IsSnapshot(rigs: map<int, RigRow>, reg: seq<Equipment.Rig>) {
    && (forall i :: 0 <= i < |reg| ==> IsRow(rigs, reg[i]))
    && (forall id :: id in rigs && rigs[id].active ==> exists i :: 0 <= i < |reg| && reg[i].id == id)
  }

  predicate IsRow(rigs: map<int, RigRow>, r: Equipment.Rig) {
    r.id in rigs && rigs[r.id].active && r.camera == rigs[r.id].camera && r.low == rigs[r.id].low
        && r.high == rigs[r.id].high
  }

  /** What resolving a frame from scratch gives. */
  function Resolved(reg: seq<Equipment.Rig>, f: FrameRow): Option<int> {
    if f.camera.None? || f.focal.None? then None
    else
      match Equipment.RigFor(reg, f.camera.value, f.focal.value)
      case Some(r) => Some(r.id)
      case None => None
  }

  /** The frame's rig is the active one that covers it, if one does. */
  ghost predicate Belongs(rigs: map<int, RigRow>, f: FrameRow) {
    && (f.rig.Some? ==> f.rig.value in rigs && rigs[f.rig.value].active)
    && (forall id :: id in rigs && rigs[id].active ==> (f.rig == Some(id) <==> Covered(rigs[id], f)))
  }

  /** With disjoint ranges, belonging is agreeing with the resolver, whatever the order of its rigs. */
  lemma BelongsIsResolved(rigs: map<int, RigRow>, reg: seq<Equipment.Rig>, f: FrameRow)
    requires Disjoint(rigs) && IsSnapshot(rigs, reg)
    ensures Belongs(rigs, f) <==> f.rig == Resolved(reg, f)
  {
    if Belongs(rigs, f) && f.rig.Some? {
      var id := f.rig.value;
      assert id in rigs && rigs[id].active && f.rig == Some(id);
      assert Covered(rigs[id], f);
    }
    if f.camera.Some? && f.focal.Some? {
      var c, x := f.camera.value, f.focal.value;
      match Equipment.RigFor(reg, c, x)
      case None =>
        FirstCovers(reg, c, x);
        forall id | id in rigs && rigs[id].active
          ensures !Covered(rigs[id], f)
        {
          var i :| 0 <= i < |reg| && reg[i].id == id;
          assert !Equipment.Covers(reg[i], c, x) && IsRow(rigs, reg[i]);
        }
      case Some(r) =>
        FirstCovers(reg, c, x);
        assert IsRow(rigs, r) && Covered(rigs[r.id], f);
    }
  }

  /** A frame's rig is right exactly when it is what the resolver gives in every order of the rigs. */
  lemma BelongsInAnyOrder(rigs: map<int, RigRow>, f: FrameRow)
    ensures Belongs(rigs, f) <==> forall reg :: IsSnapshot(rigs, reg) ==> f.rig == Resolved(reg, f)
  {
    if Belongs(rigs, f) {
      forall reg | IsSnapshot(rigs, reg)
        ensures f.rig == Resolved(reg, f)
      {
        ResolvedCovers(rigs, reg, f);
        if f.rig.Some? {
          var id := f.rig.value;
          assert id in rigs && rigs[id].active && f.rig == Some(id);
          assert Covered(rigs[id], f);
        }
      }
    } else {
      var reg := AnyOrder(rigs, rigs.Keys);
      ResolvedCovers(rigs, reg, f);
      if f.rig == Resolved(reg, f) {
        var id :| id in rigs && rigs[id].active && !(f.rig == Some(id) <==> Covered(rigs[id], f));
        var first := [RowOf(rigs, id)] + reg;
        FirstInOrder(rigs, id, reg);
        assert Resolved(first, f) == Some(id);
      }
    }
  }

  function RowOf(rigs: map<int, RigRow>, id: int): Equipment.Rig
    requires id in rigs
  {
    Equipment.Rig(id, rigs[id].camera, rigs[id].low, rigs[id].high, None)
  }

  lemma FirstInOrder(rigs: map<int, RigRow>, id: int, reg: seq<Equipment.Rig>)
    requires IsSnapshot(rigs, reg) && id in rigs && rigs[id].active
    ensures IsSnapshot(rigs, [RowOf(rigs, id)] + reg)
  {
    var all := [RowOf(rigs, id)] + reg;
    forall c | c in rigs && rigs[c].active
      ensures exists i :: 0 <= i < |all| && all[i].id == c
    {
      var i :| 0 <= i < |reg| && reg[i].id == c;
      assert all[i + 1].id == c;
    }
  }

  /** There is an order of the active rigs. */
  lemma {:induction false} AnyOrder(rigs: map<int, RigRow>, ids: set<int>) returns (reg: seq<Equipment.Rig>)
    requires ids <= rigs.Keys
    ensures forall i :: 0 <= i < |reg| ==> IsRow(rigs, reg[i])
    ensures forall id :: id in ids && rigs[id].active ==> exists i :: 0 <= i < |reg| && reg[i].id == id
    decreases ids
  {
    reg := [];
    if id: int :| id in ids {
      var rest := AnyOrder(rigs, ids - {id});
      reg := if rigs[id].active then [RowOf(rigs, id)] + rest else rest;
      forall c | c in ids && rigs[c].active
        ensures exists i :: 0 <= i < |reg| && reg[i].id == c
      {
        if c == id {
          assert reg[0].id == c;
        } else {
          var i :| 0 <= i < |rest| && rest[i].id == c;
          assert reg[i + if rigs[id].active then 1 else 0].id == c;
        }
      }
    }
  }

  lemma {:induction false} FirstCovers(reg: seq<Equipment.Rig>, c: int, x: real)
    ensures match Equipment.RigFor(reg, c, x)
            case None => forall i :: 0 <= i < |reg| ==> !Equipment.Covers(reg[i], c, x)
            case Some(r) => r in reg && Equipment.Covers(r, c, x)
  {
    if reg != [] && !Equipment.Covers(reg[0], c, x) {
      FirstCovers(reg[1..], c, x);
      assert forall i :: 0 <= i < |reg| - 1 ==> reg[1..][i] == reg[i + 1];
      if Equipment.RigFor(reg, c, x).None? {
        forall i | 0 <= i < |reg|
          ensures !Equipment.Covers(reg[i], c, x)
        {
          if i > 0 {
            assert reg[i] == reg[1..][i - 1];
          }
        }
      }
    }
  }

  ghost predicate Agrees(b: Book) {
    forall f :: f in b.frames ==> Belongs(b.rigs, b.frames[f])
  }

  /** The weaker claim: a frame's rig, if it has one, covers it. */
  ghost predicate AssignedCovers(b: Book) {
    forall f :: f in b.frames && b.frames[f].rig.Some? ==>
      b.frames[f].rig.value in b.rigs && Covered(b.rigs[b.frames[f].rig.value], b.frames[f])
  }

  // ---- The statements ----

  /** UPDATE frames SET rig_id = NULL WHERE rig_id = id */
  function Released(frames: map<int, FrameRow>, id: int): map<int, FrameRow> {
    map f | f in frames :: if frames[f].rig == Some(id) then frames[f].(rig := None) else frames[f]
  }

  /** UPDATE frames SET rig_id = id WHERE camera_id = ... AND focal_len_mm BETWEEN ... */
  function Claimed(frames: map<int, FrameRow>, id: int, r: RigRow): map<int, FrameRow> {
    map f | f in frames :: if Covered(r, frames[f]) then frames[f].(rig := Some(id)) else frames[f]
  }

  predicate NameTaken(rigs: map<int, RigRow>, name: string, except: int) {
    exists id :: id in rigs && id != except && rigs[id].name == name
  }

  // ---- The requests ----

  datatype Patch = Patch(name: Option<string>, camera: Option<int>, low: Option<real>, high: Option<real>)

  /** An accepted request says whether its range meets that of another active rig on the camera. */
  datatype Reply = Ok(id: int, warning: bool) | BadRequest | NotFound | Conflict

  predicate Meets(a: RigRow, b: RigRow) {
    a.camera == b.camera && a.low <= b.high && b.low <= a.high
  }

  /** rig_overlap_warning: the active rigs but the one asked about. */
  predicate Overlaps(rigs: map<int, RigRow>, r: RigRow, except: int) {
    exists id :: id in rigs && id != except && rigs[id].active && Meets(rigs[id], r)
  }

  function CreateReply(b: Book, name: string, camera: int, low: real, high: real): Reply {
    if name == "" || camera <= 0 then BadRequest
    else if low <= 0.0 || high < low then BadRequest
    else if NameTaken(b.rigs, name, b.nextRig) then Conflict
    else Ok(b.nextRig, Overlaps(b.rigs, RigRow(name, camera, low, high, true), b.nextRig))
  }

  function Create(b: Book, name: string, camera: int, low: real, high: real): Book {
    if !CreateReply(b, name, camera, low, high).Ok? then b
    else
      var r := RigRow(name, camera, low, high, true);
      Book(b.rigs[b.nextRig := r], Claimed(b.frames, b.nextRig, r), b.nextRig + 1)
  }

  function NewCamera(p: Patch, r: RigRow): int {
    if p.camera.Some? && p.camera.value > 0 then p.camera.value else r.camera
  }

  function Edited(p: Patch, r: RigRow): RigRow {
    RigRow(p.name.GetOr(r.name), NewCamera(p, r), p.low.GetOr(r.low), p.high.GetOr(r.high), r.active)
  }

  /** A change of the camera or of the range decides membership again. */
  predicate MovesFrames(p: Patch) {
    (p.camera.Some? && p.camera.value > 0) || p.low.Some? || p.high.Some?
  }

  function EditReply(b: Book, id: int, p: Patch): Reply {
    if id !in b.rigs then NotFound
    else if Edited(p, b.rigs[id]).high < Edited(p, b.rigs[id]).low then BadRequest
    else if p.name.None? && !MovesFrames(p) then BadRequest
    else if NameTaken(b.rigs, Edited(p, b.rigs[id]).name, id) then Conflict
    else Ok(id, Overlaps(b.rigs, Edited(p, b.rigs[id]), id))
  }

  function Edit(b: Book, id: int, p: Patch): Book {
    if !EditReply(b, id, p).Ok? then b
    else
      var r := Edited(p, b.rigs[id]);
      var frames := if MovesFrames(p) && r.camera > 0 then Claimed(Released(b.frames, id), id, r) else b.frames;
      b.(rigs := b.rigs[id := r], frames := frames)
  }

  function Delete(b: Book, id: int): Book {
    b.(rigs := b.rigs - {id}, frames := Released(b.frames, id))
  }

  /** Storing a frame resolves it against the registry its scan loaded, however old that is. The foreign key
      refuses a rig that is gone. */
  function Store(b: Book, reg: seq<Equipment.Rig>, f: int, camera: Option<int>, focal: Option<real>): Book {
    var row := FrameRow(camera, focal, None);
    if Refused(b, Resolved(reg, row)) then b else b.(frames := b.frames[f := row.(rig := Resolved(reg, row))])
  }

  predicate Refused(b: Book, answer: Option<int>) {
    answer.Some? && answer.value !in b.rigs
  }

  /** The warning does not depend on the row of the rig itself. */
  lemma OthersOverlap(rigs: map<int, RigRow>, r: RigRow, id: int, row: RigRow)
    ensures Overlaps(rigs[id := row], r, id) <==> Overlaps(rigs, r, id)
  {
    if o :| o in rigs && o != id && rigs[o].active && Meets(rigs[o], r) {
      assert rigs[id := row][o] == rigs[o];
    }
  }

  /** The handlers, statement by statement. */
  class RigDesk {
    var book: Book

    constructor (book: Book)
      ensures this.book == book
    {
      this.book := book;
    }

    method CreateRig(name: string, camera: int, low: real, high: real) returns (reply: Reply)
      modifies this
      ensures book == Create(old(book), name, camera, low, high)
      ensures reply == CreateReply(old(book), name, camera, low, high)
    {
      if name == "" || camera <= 0 {
        return BadRequest;
      }
      if low <= 0.0 || high < low {
        return BadRequest;
      }
      if NameTaken(book.rigs, name, book.nextRig) {
        return Conflict;
      }
      var id, r := book.nextRig, RigRow(name, camera, low, high, true);
      book := book.(rigs := book.rigs[id := r], nextRig := id + 1);
      book := book.(frames := Claimed(book.frames, id, r));
      OthersOverlap(old(book.rigs), r, id, r);
      reply := Ok(id, Overlaps(book.rigs, r, id));
    }

    method EditRig(id: int, p: Patch) returns (reply: Reply)
      modifies this
      ensures book == Edit(old(book), id, p)
      ensures reply == EditReply(old(book), id, p)
    {
      hide Overlaps, NameTaken, Claimed, Released;
      if id !in book.rigs {
        return NotFound;
      }
      var r := book.rigs[id];
      var moves, edits := false, false;
      if p.name.Some? {
        r := r.(name := p.name.value);
        edits := true;
      }
      if p.camera.Some? && p.camera.value > 0 {
        r := r.(camera := p.camera.value);
        moves, edits := true, true;
      }
      if p.low.Some? {
        r := r.(low := p.low.value);
        moves, edits := true, true;
      }
      if p.high.Some? {
        r := r.(high := p.high.value);
        moves, edits := true, true;
      }
      if r.high < r.low {
        return BadRequest;
      }
      if !edits {
        return BadRequest;
      }
      if NameTaken(book.rigs, r.name, id) {
        return Conflict;
      }
      book := book.(rigs := book.rigs[id := r]);
      if moves && r.camera > 0 {
        book := book.(frames := Released(book.frames, id));
        book := book.(frames := Claimed(book.frames, id, r));
      }
      OthersOverlap(old(book.rigs), r, id, r);
      reply := Ok(id, Overlaps(book.rigs, r, id));
    }

    method DeleteRig(id: int)
      modifies this
      ensures book == Delete(old(book), id)
    {
      book := book.(frames := Released(book.frames, id));
      book := book.(rigs := book.rigs - {id});
    }
  }

  // ---- Membership follows the definition ----

  lemma CreateValid(b: Book, name: string, camera: int, low: real, high: real)
    requires Valid(b)
    ensures Valid(Create(b, name, camera, low, high))
  {
  }

  /** An active rig other than this one covers the frame. */
  predicate Elsewhere(rigs: map<int, RigRow>, except: int, f: FrameRow) {
    exists id :: id in rigs && id != except && rigs[id].active && Covered(rigs[id], f)
  }

  /** A creation is safe when no frame it claims is covered by an active rig already there. */
  predicate CreateSafe(b: Book, name: string, camera: int, low: real, high: real) {
    CreateReply(b, name, camera, low, high).Ok? ==>
      forall f :: f in b.frames && Covered(RigRow(name, camera, low, high, true), b.frames[f]) ==>
        !Elsewhere(b.rigs, b.nextRig, b.frames[f])
  }

  /** An edit is safe when no frame it claims is covered by another active rig, and none is claimed for a
      retired one. */
  predicate EditSafe(b: Book, id: int, p: Patch) {
    EditReply(b, id, p).Ok? && MovesFrames(p) ==>
      forall f :: f in b.frames && Covered(Edited(p, b.rigs[id]), b.frames[f]) ==>
        b.rigs[id].active && !Elsewhere(b.rigs, id, b.frames[f])
  }

  /** A store is safe when what the registry answers is, in the rigs of now, the one active rig that covers
      the frame, or none where none does; or when it is refused. */
  predicate StoreSafe(b: Book, reg: seq<Equipment.Rig>, camera: Option<int>, focal: Option<real>) {
    var row := FrameRow(camera, focal, None);
    match Resolved(reg, row)
    case Some(id) => id in b.rigs ==> b.rigs[id].active && Covered(b.rigs[id], row) && !Elsewhere(b.rigs, id, row)
    case None => forall id :: id in b.rigs && b.rigs[id].active ==> !Covered(b.rigs[id], row)
  }

  lemma SameElsewhere(rigs: map<int, RigRow>, except: int, row: RigRow, f: FrameRow)
    ensures Elsewhere(rigs[except := row], except, f) <==> Elsewhere(rigs, except, f)
  {
    if id :| id in rigs && id != except && rigs[id].active && Covered(rigs[id], f) {
      assert rigs[except := row][id] == rigs[id];
    }
  }

  /** A frame claimed for an active rig belongs to it exactly when no other active rig covers it. */
  lemma ClaimedBelongs(rigs: map<int, RigRow>, id: int, r: RigRow, f: FrameRow)
    requires id in rigs && rigs[id] == r && Covered(r, f) && f.rig == Some(id)
    ensures Belongs(rigs, f) <==> r.active && !Elsewhere(rigs, id, f)
  {
    if c :| c in rigs && c != id && rigs[c].active && Covered(rigs[c], f) {
      assert f.rig != Some(c);
    }
  }

  /** After a creation every frame has the right rig exactly when the creation was safe. */
  lemma CreateAgrees(b: Book, name: string, camera: int, low: real, high: real)
    requires Valid(b) && Agrees(b)
    ensures Valid(Create(b, name, camera, low, high))
    ensures Agrees(Create(b, name, camera, low, high)) <==> CreateSafe(b, name, camera, low, high)
  {
    var b' := Create(b, name, camera, low, high);
    if CreateReply(b, name, camera, low, high).Ok? {
      var id, r := b.nextRig, RigRow(name, camera, low, high, true);
      forall f | f in b.frames
        ensures Belongs(b'.rigs, b'.frames[f]) <==> (Covered(r, b.frames[f]) ==> !Elsewhere(b.rigs, id, b.frames[f]))
      {
        assert Belongs(b.rigs, b.frames[f]);
        if Covered(r, b.frames[f]) {
          ClaimedBelongs(b'.rigs, id, r, b'.frames[f]);
          SameElsewhere(b.rigs, id, r, b'.frames[f]);
        }
      }
    }
  }

  lemma DeleteAgrees(b: Book, id: int)
    requires Valid(b) && Agrees(b)
    ensures Valid(Delete(b, id)) && Agrees(Delete(b, id))
  {
    var b' := Delete(b, id);
    forall f | f in b'.frames
      ensures Belongs(b'.rigs, b'.frames[f])
    {
      assert Belongs(b.rigs, b.frames[f]);
    }
  }

  /** After a store every frame has the right rig exactly when the store was safe, whatever the registry. */
  lemma StoreAgrees(b: Book, reg: seq<Equipment.Rig>, f: int, camera: Option<int>, focal: Option<real>)
    requires Valid(b) && Agrees(b)
    ensures Valid(Store(b, reg, f, camera, focal))
    ensures Agrees(Store(b, reg, f, camera, focal)) <==> StoreSafe(b, reg, camera, focal)
  {
    var b', row := Store(b, reg, f, camera, focal), FrameRow(camera, focal, None);
    var answer := Resolved(reg, row);
    if !Refused(b, answer) {
      var g := b'.frames[f];
      assert forall id :: id in b.rigs ==> Covered(b.rigs[id], g) == Covered(b.rigs[id], row);
      StoredBelongs(b.rigs, g);
      assert Belongs(b'.rigs, g) <==> StoreSafe(b, reg, camera, focal);
    }
  }

  /** Whatever its rig, a frame has the right one exactly when that is an active rig that covers it alone, or
      there is none and no active rig covers it. */
  lemma StoredBelongs(rigs: map<int, RigRow>, f: FrameRow)
    requires f.rig.Some? ==> f.rig.value in rigs
    ensures Belongs(rigs, f) <==>
              match f.rig
              case Some(id) => rigs[id].active && Covered(rigs[id], f) && !Elsewhere(rigs, id, f)
              case None => forall id :: id in rigs && rigs[id].active ==> !Covered(rigs[id], f)
  {
    if f.rig.Some? {
      var id := f.rig.value;
      if rigs[id].active && Covered(rigs[id], f) {
        ClaimedBelongs(rigs, id, rigs[id], f);
      }
    }
  }

  /** With the rigs of now a store is safe exactly when at most one active rig covers the frame. */
  lemma FreshStore(b: Book, reg: seq<Equipment.Rig>, camera: Option<int>, focal: Option<real>)
    requires IsSnapshot(b.rigs, reg)
    ensures var row := FrameRow(camera, focal, None);
            StoreSafe(b, reg, camera, focal) <==>
              forall id :: id in b.rigs && b.rigs[id].active && Covered(b.rigs[id], row) ==> !Elsewhere(b.rigs, id, row)
    ensures StoreCovering(b, reg, camera, focal)
  {
    ResolvedCovers(b.rigs, reg, FrameRow(camera, focal, None));
  }

  /** What the resolver gives is an active rig that covers the frame, and nothing only if none does. */
  lemma ResolvedCovers(rigs: map<int, RigRow>, reg: seq<Equipment.Rig>, f: FrameRow)
    requires IsSnapshot(rigs, reg)
    ensures match Resolved(reg, f)
            case Some(id) => id in rigs && rigs[id].active && Covered(rigs[id], f)
            case None => forall id :: id in rigs && rigs[id].active ==> !Covered(rigs[id], f)
  {
    if f.camera.Some? && f.focal.Some? {
      FirstCovers(reg, f.camera.value, f.focal.value);
      if Resolved(reg, f).None? {
        forall id | id in rigs && rigs[id].active
          ensures !Covered(rigs[id], f)
        {
          var i :| 0 <= i < |reg| && reg[i].id == id;
          assert !Equipment.Covers(reg[i], f.camera.value, f.focal.value) && IsRow(rigs, reg[i]);
        }
      } else {
        var r := Equipment.RigFor(reg, f.camera.value, f.focal.value).value;
        assert IsRow(rigs, r);
      }
    }
  }

  /** After an edit every frame has the right rig exactly when the edit was safe. */
  lemma EditAgrees(b: Book, id: int, p: Patch)
    requires Valid(b) && Agrees(b)
    ensures Valid(Edit(b, id, p))
    ensures Agrees(Edit(b, id, p)) <==> EditSafe(b, id, p)
  {
    var b' := Edit(b, id, p);
    if EditReply(b, id, p).Ok? {
      var r := Edited(p, b.rigs[id]);
      forall f | f in b.frames
        ensures Belongs(b'.rigs, b'.frames[f])
           <==> (MovesFrames(p) && Covered(r, b.frames[f]) ==> b.rigs[id].active && !Elsewhere(b.rigs, id, b.frames[f]))
      {
        assert Belongs(b.rigs, b.frames[f]);
        if MovesFrames(p) && Covered(r, b.frames[f]) {
          ClaimedBelongs(b'.rigs, id, r, b'.frames[f]);
          SameElsewhere(b.rigs, id, r, b'.frames[f]);
        } else {
          UnclaimedBelongs(b, id, p, f);
        }
      }
    }
  }

  /** A frame the edit does not claim keeps, or gets, the right rig. */
  lemma UnclaimedBelongs(b: Book, id: int, p: Patch, f: int)
    requires Valid(b) && EditReply(b, id, p).Ok? && f in b.frames && Belongs(b.rigs, b.frames[f])
    requires !MovesFrames(p) || !Covered(Edited(p, b.rigs[id]), b.frames[f])
    ensures Belongs(Edit(b, id, p).rigs, Edit(b, id, p).frames[f])
  {
    var b', r := Edit(b, id, p), Edited(p, b.rigs[id]);
    assert b'.rigs == b.rigs[id := r] && r.active == b.rigs[id].active;
    if !MovesFrames(p) {
      assert r.camera == b.rigs[id].camera && r.low == b.rigs[id].low && r.high == b.rigs[id].high;
      assert b'.frames == b.frames;
    }
  }

  // ---- The warning ----

  lemma CoveredMeet(a: RigRow, c: RigRow, f: FrameRow)
    requires Covered(a, f) && Covered(c, f)
    ensures Meets(a, c)
  {
  }

  /** Without a warning a creation is safe; and ranges stay disjoint exactly without one. */
  lemma UnwarnedCreate(b: Book, name: string, camera: int, low: real, high: real)
    requires Valid(b) && Disjoint(b.rigs) && CreateReply(b, name, camera, low, high).Ok?
    ensures Disjoint(Create(b, name, camera, low, high).rigs) <==> !CreateReply(b, name, camera, low, high).warning
    ensures !CreateReply(b, name, camera, low, high).warning ==> CreateSafe(b, name, camera, low, high)
  {
    var r := RigRow(name, camera, low, high, true);
    MeetingRows(b.rigs, b.nextRig, r);
    if !Overlaps(b.rigs, r, b.nextRig) {
      forall f | f in b.frames && Covered(r, b.frames[f])
        ensures !Elsewhere(b.rigs, b.nextRig, b.frames[f])
      {
        UnmetIsAlone(b.rigs, b.nextRig, r, b.frames[f]);
      }
    }
  }

  /** Without a warning an edit of an active rig is safe. */
  lemma UnwarnedEdit(b: Book, id: int, p: Patch)
    requires Valid(b) && Disjoint(b.rigs) && EditReply(b, id, p).Ok? && b.rigs[id].active
    ensures Disjoint(Edit(b, id, p).rigs) <==> !EditReply(b, id, p).warning
    ensures !EditReply(b, id, p).warning ==> EditSafe(b, id, p)
  {
    var r := Edited(p, b.rigs[id]);
    MeetingRows(b.rigs, id, r);
    if !Overlaps(b.rigs, r, id) {
      forall f | f in b.frames && Covered(r, b.frames[f])
        ensures !Elsewhere(b.rigs, id, b.frames[f])
      {
        UnmetIsAlone(b.rigs, id, r, b.frames[f]);
      }
    }
  }

  lemma UnmetIsAlone(rigs: map<int, RigRow>, id: int, r: RigRow, f: FrameRow)
    requires !Overlaps(rigs, r, id) && Covered(r, f)
    ensures !Elsewhere(rigs, id, f)
  {
    forall c | c in rigs && c != id && rigs[c].active
      ensures !Covered(rigs[c], f)
    {
      if Covered(rigs[c], f) {
        CoveredMeet(rigs[c], r, f);
      }
    }
  }

  lemma MeetingRows(rigs: map<int, RigRow>, id: int, r: RigRow)
    requires Disjoint(rigs) && r.active
    ensures Disjoint(rigs[id := r]) <==> !Overlaps(rigs, r, id)
  {
    var rigs' := rigs[id := r];
    if c :| c in rigs && c != id && rigs[c].active && Meets(rigs[c], r) {
      assert rigs'[c] == rigs[c] && rigs'[id] == r;
    }
  }

  // ---- The weaker claim, overlaps or not ----

  lemma CreateCovers(b: Book, name: string, camera: int, low: real, high: real)
    requires Valid(b) && AssignedCovers(b)
    ensures AssignedCovers(Create(b, name, camera, low, high))
  {
  }

  lemma EditCovers(b: Book, id: int, p: Patch)
    requires Valid(b) && AssignedCovers(b)
    ensures AssignedCovers(Edit(b, id, p))
  {
    var b' := Edit(b, id, p);
    if EditReply(b, id, p).Ok? && !MovesFrames(p) {
      assert b'.rigs[id].camera == b.rigs[id].camera && b'.rigs[id].low == b.rigs[id].low
          && b'.rigs[id].high == b.rigs[id].high;
    }
  }

  lemma DeleteCovers(b: Book, id: int)
    requires Valid(b) && AssignedCovers(b)
    ensures AssignedCovers(Delete(b, id))
  {
  }

  /** What the registry answers covers the frame now, or is refused. */
  predicate StoreCovering(b: Book, reg: seq<Equipment.Rig>, camera: Option<int>, focal: Option<real>) {
    var row := FrameRow(camera, focal, None);
    match Resolved(reg, row)
    case Some(id) => id in b.rigs ==> Covered(b.rigs[id], row)
    case None => true
  }

  lemma StoreCovers(b: Book, reg: seq<Equipment.Rig>, f: int, camera: Option<int>, focal: Option<real>)
    requires Valid(b) && AssignedCovers(b)
    ensures AssignedCovers(Store(b, reg, f, camera, focal)) <==> StoreCovering(b, reg, camera, focal)
  {
    var b', row := Store(b, reg, f, camera, focal), FrameRow(camera, focal, None);
    if !Refused(b, Resolved(reg, row)) {
      var g := b'.frames[f];
      assert forall id :: id in b.rigs ==> Covered(b.rigs[id], g) == Covered(b.rigs[id], row);
    }
  }

  // ---- Whole histories ----

  datatype Request =
    | CreateRequest(name: string, camera: int, low: real, high: real)
    | EditRequest(id: int, patch: Patch)
    | DeleteRequest(id: int)
    | StoreRequest(reg: seq<Equipment.Rig>, frame: int, cameraId: Option<int>, focal: Option<real>)

  function Serve(b: Book, q: Request): Book {
    match q
    case CreateRequest(name, camera, low, high) => Create(b, name, camera, low, high)
    case EditRequest(id, p) => Edit(b, id, p)
    case DeleteRequest(id) => Delete(b, id)
    case StoreRequest(reg, f, camera, focal) => Store(b, reg, f, camera, focal)
  }

  function ServeAll(b: Book, qs: seq<Request>): Book {
    if qs == [] then b else Serve(ServeAll(b, qs[..|qs| - 1]), qs[|qs| - 1])
  }

  predicate Safe(b: Book, q: Request) {
    match q
    case CreateRequest(name, camera, low, high) => CreateSafe(b, name, camera, low, high)
    case EditRequest(id, p) => EditSafe(b, id, p)
    case DeleteRequest(_) => true
    case StoreRequest(reg, _, camera, focal) => StoreSafe(b, reg, camera, focal)
  }

  lemma ServeAgrees(b: Book, q: Request)
    requires Valid(b) && Agrees(b)
    ensures Valid(Serve(b, q)) && (Agrees(Serve(b, q)) <==> Safe(b, q))
  {
    hide Valid, Agrees, IsSnapshot, Create, Edit, Delete, Store, CreateSafe, EditSafe, StoreSafe;
    match q
    case CreateRequest(name, camera, low, high) => CreateAgrees(b, name, camera, low, high);
    case EditRequest(id, p) => EditAgrees(b, id, p);
    case DeleteRequest(id) => DeleteAgrees(b, id);
    case StoreRequest(reg, f, camera, focal) => StoreAgrees(b, reg, f, camera, focal);
  }

  /** Every request of the history is safe when it comes. */
  ghost predicate AllSafe(b: Book, qs: seq<Request>) {
    forall n :: 0 <= n < |qs| ==> Safe(ServeAll(b, qs[..n]), qs[n])
  }

  /** After every request each frame has the right rig. */
  ghost predicate AlwaysAgrees(b: Book, qs: seq<Request>) {
    forall n :: 0 <= n <= |qs| ==> Agrees(ServeAll(b, qs[..n]))
  }

  /** Whatever creations, edits, deletions and stores come, retired rigs or not, and however old the registry
      of each store: each frame has the right rig throughout exactly when every request was safe when it came. */
  lemma {:induction false} HistoryAgrees(b: Book, qs: seq<Request>)
    requires Valid(b) && Agrees(b)
    ensures AlwaysAgrees(b, qs) <==> AllSafe(b, qs)
    decreases |qs|
  {
    hide Valid, Agrees, IsSnapshot, Serve, Safe;
    if qs != [] {
      var front, last := qs[..|qs| - 1], qs[|qs| - 1];
      assert forall n :: 0 <= n <= |front| ==> front[..n] == qs[..n];
      HistoryAgrees(b, front);
      HistoryValid(b, front);
      assert qs[..|qs|] == qs;
      var before := ServeAll(b, front);
      assert front[..|front|] == front;
      if AlwaysAgrees(b, front) {
        ServeAgrees(before, last);
      }
      LastOfHistory(b, qs);
    } else {
      assert qs[..0] == [];
    }
  }

  lemma LastOfHistory(b: Book, qs: seq<Request>)
    requires qs != []
    ensures var front, last := qs[..|qs| - 1], qs[|qs| - 1];
            && (AlwaysAgrees(b, qs) <==> AlwaysAgrees(b, front) && Agrees(Serve(ServeAll(b, front), last)))
            && (AllSafe(b, qs) <==> AllSafe(b, front) && Safe(ServeAll(b, front), last))
  {
    hide Agrees, Serve, Safe;
    var front := qs[..|qs| - 1];
    assert forall n :: 0 <= n <= |front| ==> front[..n] == qs[..n];
    assert qs[..|qs|] == qs;
  }

  lemma {:induction false} HistoryValid(b: Book, qs: seq<Request>)
    requires Valid(b)
    ensures Valid(ServeAll(b, qs))
    decreases |qs|
  {
    hide Valid, IsSnapshot, Serve;
    if qs != [] {
      var front, last := qs[..|qs| - 1], qs[|qs| - 1];
      assert forall n :: 0 <= n <= |front| ==> front[..n] == qs[..n];
      HistoryValid(b, front);
      ServeValid(ServeAll(b, front), last);
    }
  }

  /** And a frame that has the right rig has the one the resolver computes from scratch. */
  lemma HistoryResolves(b: Book, qs: seq<Request>, reg: seq<Equipment.Rig>, f: int)
    requires Valid(b) && Agrees(b) && AllSafe(b, qs)
    requires IsSnapshot(ServeAll(b, qs).rigs, reg) && f in ServeAll(b, qs).frames
    ensures ServeAll(b, qs).frames[f].rig == Resolved(reg, ServeAll(b, qs).frames[f])
  {
    HistoryAgrees(b, qs);
    assert qs[..|qs|] == qs;
    var b' := ServeAll(b, qs);
    assert Agrees(b');
    BelongsInAnyOrder(b'.rigs, b'.frames[f]);
    hide ServeAll, Resolved, IsSnapshot, Belongs;
  }

  /** Every store of the history has an answer that covers the frame when it comes. */
  ghost predicate AllCovering(b: Book, qs: seq<Request>) {
    forall n :: 0 <= n < |qs| ==> Covering(ServeAll(b, qs[..n]), qs[n])
  }

  predicate Covering(b: Book, q: Request) {
    q.StoreRequest? ==> StoreCovering(b, q.reg, q.cameraId, q.focal)
  }

  ghost predicate AlwaysCovers(b: Book, qs: seq<Request>) {
    forall n :: 0 <= n <= |qs| ==> AssignedCovers(ServeAll(b, qs[..n]))
  }

  /** Safe or not, the rig of a frame covers it throughout exactly when every store's answer did. */
  lemma {:induction false} HistoryCovers(b: Book, qs: seq<Request>)
    requires Valid(b) && AssignedCovers(b)
    ensures Valid(ServeAll(b, qs)) && (AlwaysCovers(b, qs) <==> AllCovering(b, qs))
    decreases |qs|
  {
    hide Valid, AssignedCovers, Serve, Covering;
    if qs != [] {
      var front, last := qs[..|qs| - 1], qs[|qs| - 1];
      HistoryCovers(b, front);
      var before := ServeAll(b, front);
      assert front[..|front|] == front;
      if AlwaysCovers(b, front) {
        ServeCovers(before, last);
      }
      ServeValid(before, last);
      LastCovers(b, qs);
    } else {
      assert qs[..0] == [];
    }
  }

  lemma LastCovers(b: Book, qs: seq<Request>)
    requires qs != []
    ensures var front, last := qs[..|qs| - 1], qs[|qs| - 1];
            && (AlwaysCovers(b, qs) <==> AlwaysCovers(b, front) && AssignedCovers(Serve(ServeAll(b, front), last)))
            && (AllCovering(b, qs) <==> AllCovering(b, front) && Covering(ServeAll(b, front), last))
  {
    hide AssignedCovers, Serve, Covering;
    var front := qs[..|qs| - 1];
    assert forall n :: 0 <= n <= |front| ==> front[..n] == qs[..n];
    assert qs[..|qs|] == qs;
  }

  lemma ServeCovers(b: Book, q: Request)
    requires Valid(b) && AssignedCovers(b)
    ensures AssignedCovers(Serve(b, q)) <==> Covering(b, q)
  {
    hide Valid, AssignedCovers, Create, Edit, Delete, Store, StoreCovering;
    match q
    case CreateRequest(name, camera, low, high) => CreateCovers(b, name, camera, low, high);
    case EditRequest(id, p) => EditCovers(b, id, p);
    case DeleteRequest(id) => DeleteCovers(b, id);
    case StoreRequest(reg, f, camera, focal) => StoreCovers(b, reg, f, camera, focal);
  }

  lemma ServeValid(b: Book, q: Request)
    requires Valid(b)
    ensures Valid(Serve(b, q))
  {
  }

  const ELDER := RigRow("old", 1, 200.0, 400.0, true)
  const SCANNED := [Equipment.Rig(1, 1, 200.0, 400.0, None)]

  /** An old registry breaks both claims, without any overlap: a scan has loaded the rigs, a rig's range is
      then changed, safely and without a warning, and the scan stores a frame by the old range. */
  lemma StaleStore()
    ensures var b, p := Book(map[1 := ELDER], map[], 2), Patch(None, None, Some(100.0), Some(150.0));
            var u := Edit(b, 1, p);
            && Valid(b) && Agrees(b) && IsSnapshot(b.rigs, SCANNED)
            && EditReply(b, 1, p) == Ok(1, false) && EditSafe(b, 1, p) && Disjoint(u.rigs)
            && Agrees(u) && AssignedCovers(u)
            && var w := Store(u, SCANNED, 7, Some(1), Some(250.0));
               Valid(w) && !Agrees(w) && !AssignedCovers(w)
  {
    var b, p := Book(map[1 := ELDER], map[], 2), Patch(None, None, Some(100.0), Some(150.0));
    assert SCANNED[0].id == 1;
    EditAgrees(b, 1, p);
    var u := Edit(b, 1, p);
    assert u.rigs == map[1 := RigRow("old", 1, 100.0, 150.0, true)] && u.frames == map[];
    StoreAgrees(u, SCANNED, 7, Some(1), Some(250.0));
    StoreCovers(u, SCANNED, 7, Some(1), Some(250.0));
    assert Resolved(SCANNED, FrameRow(Some(1), Some(250.0), None)) == Some(1);
  }

  /** If the rig was deleted meanwhile, the store is refused. */
  lemma StoreAfterDelete(b: Book, reg: seq<Equipment.Rig>, id: int, f: int, camera: Option<int>, focal: Option<real>)
    requires Resolved(reg, FrameRow(camera, focal, None)) == Some(id)
    ensures Store(Delete(b, id), reg, f, camera, focal) == Delete(b, id)
  {
  }

  /** Where ranges overlap, the claim does fail: the new rig takes a frame that the resolver, listing
      the rigs by id, gives to the older one. */
  lemma OverlapDisagrees()
    ensures exists b: Book, reg: seq<Equipment.Rig> ::
              && Valid(b) && Agrees(b) && !CreateSafe(b, "new", 1, 100.0, 300.0)
              && var b' := Create(b, "new", 1, 100.0, 300.0);
                 && IsSnapshot(b'.rigs, reg) && 7 in b'.frames && AssignedCovers(b')
                 && b'.frames[7].rig != Resolved(reg, b'.frames[7])
  {
    var elder := RigRow("old", 1, 200.0, 400.0, true);
    var b := Book(map[1 := elder], map[7 := FrameRow(Some(1), Some(250.0), Some(1))], 2);
    var reg := [Equipment.Rig(1, 1, 200.0, 400.0, None), Equipment.Rig(2, 1, 100.0, 300.0, None)];
    var b' := Create(b, "new", 1, 100.0, 300.0);
    assert b'.rigs == map[1 := elder, 2 := RigRow("new", 1, 100.0, 300.0, true)];
    assert reg[0].id == 1 && reg[1].id == 2;
    assert IsSnapshot(b'.rigs, reg);
    assert b'.frames[7].rig == Some(2);
    CreateAgrees(b, "new", 1, 100.0, 300.0);
    BelongsInAnyOrder(b'.rigs, b'.frames[7]);
    assert Resolved(reg, b'.frames[7]) == Some(1);
  }
}
