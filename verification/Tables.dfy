/** The tables a sweep writes, with the keys and cascades of the schema, and what they show for a
    path: the row and its frames without row ids and timestamps. */
module Tables {
  import opened Options

  type Time = int // a UTC instant in microseconds

  datatype Status = Pending | Ok | Error | Missing

  /** The columns of files that say where a file is; hash is rel_path_hash. */
  datatype Place = Place(relPath: string, hash: int, filename: string, ext: Option<string>, format: string,
      bucket: string)

  datatype FileRow = FileRow(
    root: int, place: Place, size: Option<int>, mtime: Option<Time>, inode: Option<int>,
    status: Status, error: Option<string>,
    firstSeen: Time, lastSeen: Option<Time>, lastIndexed: Option<Time>)

  /** columns are the values the header resolves to; flatSet is written by others. */
  datatype FrameRow = FrameRow(file: int, hdu: int, fingerprint: int, columns: seq<string>, flatSet: Option<int>)

  datatype Card = Card(keyword: string, value: Option<string>, comment: Option<string>)

  /** cards holds frame_keywords in ord order; tags holds the (frame, tag) pairs of frame_tags. */
  datatype Tables = Tables(
    files: map<int, FileRow>, frames: map<int, FrameRow>, cards: map<int, seq<Card>>, tags: set<(int, int)>,
    nextFile: int, nextFrame: int)

  predicate At(row: FileRow, root: int, hash: int) {
    row.root == root && row.place.hash == hash
  }

  /** uk_files_path, uk_frames_hdu, the foreign keys and the auto-increment counters. */
  ghost predicate Valid(t: Tables) {
    && UniquePaths(t.files)
    && (forall f, g :: f in t.frames && g in t.frames && SameSlot(t.frames[f], t.frames[g]) ==> f == g)
    && (forall f :: f in t.frames ==> t.frames[f].file in t.files && f < t.nextFrame)
    && (forall i :: i in t.files ==> i < t.nextFile)
    && (forall f :: f in t.cards ==> f in t.frames)
    && (forall p :: p in t.tags ==> p.0 in t.frames)
  }

  predicate SameSlot(a: FrameRow, b: FrameRow) {
    a.file == b.file && a.hdu == b.hdu
  }

  ghost predicate UniquePaths(files: map<int, FileRow>) {
    forall i, j :: i in files && j in files && At(files[i], files[j].root, files[j].place.hash) ==> i == j
  }

  // ---- What a path shows ----

  datatype FrameView = FrameView(fingerprint: int, columns: seq<string>, cards: seq<Card>)

  datatype FileView = FileView(
    place: Place, size: Option<int>, mtime: Option<Time>, inode: Option<int>, status: Status, error: Option<string>,
    frames: map<int, FrameView>)

  ghost predicate Known(t: Tables, root: int, hash: int) {
    exists id :: id in t.files && At(t.files[id], root, hash)
  }

  ghost function IdAt(t: Tables, root: int, hash: int): (id: int)
    requires Known(t, root, hash)
    ensures id in t.files && At(t.files[id], root, hash)
  {
    var id :| id in t.files && At(t.files[id], root, hash);
    id
  }

  function HdusOf(t: Tables, file: int): set<int> {
    set f | f in t.frames && t.frames[f].file == file :: t.frames[f].hdu
  }

  ghost predicate IsFrame(t: Tables, f: int, file: int, hdu: int) {
    f in t.frames && t.frames[f].file == file && t.frames[f].hdu == hdu
  }

  ghost function FrameAt(t: Tables, file: int, hdu: int): (f: int)
    requires hdu in HdusOf(t, file)
    ensures IsFrame(t, f, file, hdu)
  {
    assert exists f :: f in t.frames && t.frames[f].file == file && t.frames[f].hdu == hdu;
    var f :| f in t.frames && t.frames[f].file == file && t.frames[f].hdu == hdu;
    f
  }

  function CardsOf(t: Tables, f: int): seq<Card> {
    if f in t.cards then t.cards[f] else []
  }

  ghost function ViewOfFrame(t: Tables, f: int): FrameView
    requires f in t.frames
  {
    FrameView(t.frames[f].fingerprint, t.frames[f].columns, CardsOf(t, f))
  }

  ghost function FramesOf(t: Tables, file: int): map<int, FrameView> {
    map h | h in HdusOf(t, file) :: ViewOfFrame(t, FrameAt(t, file, h))
  }

  ghost function ViewOfFile(t: Tables, id: int): FileView
    requires id in t.files
  {
    var r := t.files[id];
    FileView(r.place, r.size, r.mtime, r.inode, r.status, r.error, FramesOf(t, id))
  }

  ghost function ViewAt(t: Tables, root: int, hash: int): Option<FileView> {
    if Known(t, root, hash) then Some(ViewOfFile(t, IdAt(t, root, hash))) else None
  }

  /** The unique key makes the row of a path the only one. */
  lemma ViewOfRow(t: Tables, id: int)
    requires Valid(t) && id in t.files
    ensures Known(t, t.files[id].root, t.files[id].place.hash)
    ensures IdAt(t, t.files[id].root, t.files[id].place.hash) == id
    ensures ViewAt(t, t.files[id].root, t.files[id].place.hash) == Some(ViewOfFile(t, id))
  {
    assert At(t.files[id], t.files[id].root, t.files[id].place.hash);
  }

  lemma FrameView1(t: Tables, f: int)
    requires Valid(t) && f in t.frames
    ensures t.frames[f].hdu in HdusOf(t, t.frames[f].file)
    ensures FrameAt(t, t.frames[f].file, t.frames[f].hdu) == f
    ensures FramesOf(t, t.frames[f].file)[t.frames[f].hdu] == ViewOfFrame(t, f)
  {
    assert IsFrame(t, f, t.frames[f].file, t.frames[f].hdu);
  }

  /** Tables that agree on a file's frames and their cards show the same frames for it. */
  lemma SameFrames(t: Tables, u: Tables, file: int)
    requires Valid(t)
    requires forall f :: (f in t.frames && t.frames[f].file == file) <==> (f in u.frames && u.frames[f].file == file)
    requires forall f :: f in t.frames && t.frames[f].file == file ==>
               u.frames[f].hdu == t.frames[f].hdu && ViewOfFrame(u, f) == ViewOfFrame(t, f)
    ensures FramesOf(u, file) == FramesOf(t, file)
  {
    forall h
      ensures h in HdusOf(u, file) <==> h in HdusOf(t, file)
    {
      if h in HdusOf(t, file) {
        assert u.frames[FrameAt(t, file, h)].hdu == h;
      }
      if h in HdusOf(u, file) {
        assert t.frames[FrameAt(u, file, h)].hdu == h;
      }
    }
  }

  // ---- Content keys ----

  function Least(s: set<int>): (m: int)
    requires s != {}
    ensures m in s && forall x :: x in s ==> m <= x
  {
    LeastExists(s);
    var m :| m in s && forall x :: x in s ==> m <= x;
    m
  }

  lemma {:induction false} LeastExists(s: set<int>)
    requires s != {}
    ensures exists m :: m in s && forall x :: x in s ==> m <= x
  {
    assert exists a: int :: a in s by {
      if forall a: int :: a !in s {
        assert false;
      }
    }
    var a: int :| a in s;
    LeastBelow(s, a);
  }

  lemma {:induction false} LeastBelow(s: set<int>, a: int)
    requires a in s
    ensures exists m :: m in s && forall x :: x in s ==> m <= x
    decreases s
  {
    if b :| b in s && b < a {
      assert s == {a} + (s - {a});
      LeastBelow(s - {a}, b);
      var m :| m in s - {a} && forall x :: x in s - {a} ==> m <= x;
      assert m <= b;
      assert forall x :: x in s ==> x == a || x in s - {a};
    }
  }

  function Sorted(s: set<int>): seq<int> {
    if s == {} then [] else [Least(s)] + Sorted(s - {Least(s)})
  }

  lemma {:induction false} SortedElements(s: set<int>)
    ensures forall x :: x in s <==> x in Sorted(s)
  {
    if s != {} {
      SortedElements(s - {Least(s)});
    }
  }

  lemma {:induction false} SortedOrder(s: set<int>)
    ensures forall i, j :: 0 <= i < j < |Sorted(s)| ==> Sorted(s)[i] < Sorted(s)[j]
  {
    if s != {} {
      var rest := s - {Least(s)};
      SortedOrder(rest);
      SortedElements(rest);
      forall i | 0 <= i < |Sorted(rest)|
        ensures Least(s) < Sorted(rest)[i]
      {
        assert Sorted(rest)[i] in rest;
      }
    }
  }

  /** The frames' fingerprints in HDU order. The source joins fixed-width digests, so two joined
      keys are equal exactly when the lists are. */
  function ContentKey(frames: map<int, FrameView>): seq<int> {
    var hdus := Sorted(frames.Keys);
    seq(|hdus|, i requires 0 <= i < |hdus| => Fingerprint(frames, hdus[i]))
  }

  function Fingerprint(frames: map<int, FrameView>, hdu: int): int {
    if hdu in frames then frames[hdu].fingerprint else 0
  }
}
