/** The tables as the mutable database the sweep works on, and store_file on it. */
module Database {
  import opened Options
  import opened Tables
  import opened FrameStore

  /** A DbError thrown by the statement after `after` successful ones. */
  datatype Fault = Fault(after: nat, retryable: bool)

  const MAX_ATTEMPTS := 10

  datatype Outcome = Done(framesWritten: nat) | Thrown(retryable: bool)

  class Database {
    var files: map<int, FileRow>
    var frames: map<int, FrameRow>
    var cards: map<int, seq<Card>>
    var tags: set<(int, int)>
    var nextFile: int
    var nextFrame: int

    function Snap(): Tables
      reads this
    {
      Tables(files, frames, cards, tags, nextFile, nextFrame)
    }

    constructor (t: Tables)
      ensures Snap() == t
    {
      files, frames, cards, tags := t.files, t.frames, t.cards, t.tags;
      nextFile, nextFrame := t.nextFile, t.nextFrame;
    }

    /** ROLLBACK: the undo log restores what START TRANSACTION saw. */
    method Rollback(undo: Tables)
      modifies this
      ensures Snap() == undo
    {
      files, frames, cards, tags := undo.files, undo.frames, undo.cards, undo.tags;
      nextFile, nextFrame := undo.nextFile, undo.nextFrame;
    }

    /** SELECT id FROM files WHERE root_id = .. AND rel_path_hash = .. LIMIT 1 */
    method SelectFile(root: int, hash: int) returns (id: Option<int>)
      requires Valid(Snap())
      ensures id == if Known(Snap(), root, hash) then Some(IdAt(Snap(), root, hash)) else None
    {
      var left := files.Keys;
      while left != {}
        invariant left <= files.Keys
        invariant forall i :: i in files && At(files[i], root, hash) ==> i in left
        decreases |left|
      {
        assert exists i :: i in left by {
          if forall i: int :: i !in left {
            assert false;
          }
        }
        var i: int :| i in left;
        if At(files[i], root, hash) {
          ViewOfRow(Snap(), i);
          return Some(i);
        }
        left := left - {i};
      }
      id := None;
    }

    /** SELECT id FROM frames WHERE file_id = .. AND hdu = .. LIMIT 1 */
    method SelectFrame(file: int, hdu: int) returns (id: Option<int>)
      requires Valid(Snap())
      ensures id == if hdu in HdusOf(Snap(), file) then Some(FrameAt(Snap(), file, hdu)) else None
    {
      var left := frames.Keys;
      while left != {}
        invariant left <= frames.Keys
        invariant forall f :: f in frames && frames[f].file == file && frames[f].hdu == hdu ==> f in left
        decreases |left|
      {
        assert exists f :: f in left by {
          if forall f: int :: f !in left {
            assert false;
          }
        }
        var f: int :| f in left;
        if frames[f].file == file && frames[f].hdu == hdu {
          FrameView1(Snap(), f);
          return Some(f);
        }
        left := left - {f};
      }
      id := None;
    }

    method UpsertFile(info: FileInfo, now: Time)
      requires Valid(Snap())
      modifies this
      ensures Snap() == FileUpserted(old(Snap()), info, now)
    {
      var known := SelectFile(info.root, info.place.hash);
      match known {
        case Some(id) =>
          var firstSeen := files[id].firstSeen;
          files := files[id := FileRow(info.root, info.place, info.size, info.mtime, info.inode, Ok, None, firstSeen,
              Some(now), Some(now))];
        case None =>
          files := files[nextFile := FileRow(info.root, info.place, info.size, info.mtime, info.inode, Ok, None, now,
              Some(now), Some(now))];
          nextFile := nextFile + 1;
      }
    }

    method UpsertFrame(file: int, h: Hdu) returns (f: int)
      requires Valid(Snap())
      modifies this`frames, this`nextFrame
      ensures f == Target(old(Snap()), file, h)
      ensures Snap() == FrameStored(old(Snap()), file, h).(cards := cards)
    {
      var known := SelectFrame(file, h.index);
      match known {
        case Some(id) =>
          f := id;
          frames := frames[f := frames[f].(fingerprint := h.fingerprint, columns := h.columns)];
        case None =>
          f := nextFrame;
          frames := frames[f := FrameRow(file, h.index, h.fingerprint, h.columns, None)];
          nextFrame := nextFrame + 1;
      }
    }

    /** DELETE FROM frame_keywords, then one INSERT whose rows are built in header order. */
    method ReplaceCards(f: int, raw: seq<RawCard>)
      modifies this`cards
      ensures cards == old(cards)[f := StoredCards(raw)]
    {
      var rows: seq<Card> := [];
      var ord := 0;
      while ord < |raw|
        invariant 0 <= ord <= |raw|
        invariant rows == StoredCards(raw[..ord])
      {
        var c := raw[ord];
        var keyword := if |c.keyword| > 72 then c.keyword[..72] else c.keyword;
        var value, comment := None, None;
        if c.value != "" {
          value := Some(if |c.value| > 256 then c.value[..256] else c.value);
        }
        if c.comment != "" {
          comment := Some(if |c.comment| > 256 then c.comment[..256] else c.comment);
        }
        rows := rows + [Card(keyword, value, comment)];
        ord := ord + 1;
      }
      assert raw[..ord] == raw;
      cards := cards[f := rows];
    }

    method StoreFrame(file: int, h: Hdu)
      requires Valid(Snap())
      modifies this
      ensures Snap() == FrameStored(old(Snap()), file, h)
    {
      var f := UpsertFrame(file, h);
      ReplaceCards(f, h.cards);
    }

    /** The loop over the image HDUs, with so many statements left before the fault; ran counts them. */
    method StoreFrames(file: int, images: seq<Hdu>, allowed: nat) returns (ok: bool, ran: nat)
      requires Valid(Snap()) && file in files
      modifies this
      ensures ok <==> FrameStatements(images) <= allowed
      ensures ok ==> Snap() == FramesStored(old(Snap()), file, images) && ran == FrameStatements(images)
    {
      ran := 0;
      var i := 0;
      assert images[..|images|] == images;
      while i < |images|
        invariant 0 <= i <= |images|
        invariant Snap() == FramesStored(old(Snap()), file, images[..i])
        invariant ran == FrameStatements(images[..i]) <= allowed
      {
        FramesStoredEffect(old(Snap()), file, images[..i]);
        assert images[..i + 1][..i] == images[..i];
        ran := ran + if images[i].cards == [] then 3 else 4; // upsert, read-back, DELETE, and INSERT if there are cards
        if allowed < ran {
          FrameStatementsGrow(images, i + 1);
          return false, ran;
        }
        StoreFrame(file, images[i]);
        i := i + 1;
      }
      ok := true;
    }

    /** One transaction. A fault at any statement rolls everything back. */
    method StoreFileOnce(info: FileInfo, hdus: seq<Hdu>, now: Time, fault: Option<Fault>) returns (r: Outcome)
      requires Valid(Snap())
      modifies this
      ensures r.Done? ==> Snap() == Stored(old(Snap()), info, hdus, now) && r.framesWritten == |ImageHdus(hdus)|
      ensures r.Thrown? ==> Snap() == old(Snap()) && fault.Some? && r.retryable == fault.value.retryable
      ensures r.Done? <==> (fault.None? || fault.value.after >= Statements(hdus))
    {
      var undo := Snap();
      var allowed := if fault.Some? then fault.value.after else Statements(hdus);
      if allowed < 3 { // START TRANSACTION, the files upsert, its read-back
        return Thrown(fault.value.retryable);
      }
      UpsertFile(info, now);
      FileUpsertedEffect(undo, info, now);
      var known := SelectFile(info.root, info.place.hash);
      var ok, ran := StoreFrames(known.value, ImageHdus(hdus), allowed - 3);
      if !ok || allowed < 3 + ran + 1 { // a frame, or COMMIT
        Rollback(undo);
        return Thrown(fault.value.retryable);
      }
      r := Done(|ImageHdus(hdus)|);
    }

    /** Retry a transaction that lost a lock, at most ten attempts; attempt n meets faults[n - 1]. */
    method StoreFile(info: FileInfo, hdus: seq<Hdu>, now: Time, faults: seq<Option<Fault>>)
      returns (r: Outcome, attempts: nat)
      requires Valid(Snap())
      modifies this
      ensures 1 <= attempts <= 10
      ensures forall n :: 0 <= n < attempts - 1 ==> Fails(faults, n, hdus) && faults[n].value.retryable
      ensures r.Done? ==> Snap() == Stored(old(Snap()), info, hdus, now) && !Fails(faults, attempts - 1, hdus)
      ensures r.Thrown? ==> Snap() == old(Snap()) && Fails(faults, attempts - 1, hdus)
      ensures r.Thrown? ==> attempts == 10 || !faults[attempts - 1].value.retryable
      ensures r.Done? <==> Succeeds(faults, hdus, 0)
      ensures r.Done? ==> r.framesWritten == |ImageHdus(hdus)| && HeadersHeld(Snap(), info, hdus, now)
    {
      attempts := 1;
      while true
        invariant 1 <= attempts <= MAX_ATTEMPTS
        invariant Snap() == old(Snap())
        invariant Succeeds(faults, hdus, 0) == Succeeds(faults, hdus, attempts - 1)
        invariant forall n :: 0 <= n < attempts - 1 ==> Fails(faults, n, hdus) && faults[n].value.retryable
        decreases MAX_ATTEMPTS - attempts
      {
        r := StoreFileOnce(info, hdus, now, if attempts - 1 < |faults| then faults[attempts - 1] else None);
        if r.Done? || !r.retryable || attempts >= MAX_ATTEMPTS {
          HeadersStored(old(Snap()), info, hdus, now);
          return;
        }
        attempts := attempts + 1;
      }
    }
  }

  /** Upsert and read-back of a frame, DELETE of its cards, and INSERT of the new ones if any. */
  function FrameStatements(images: seq<Hdu>): nat {
    if images == [] then 0
    else FrameStatements(images[..|images| - 1]) + if images[|images| - 1].cards == [] then 3 else 4
  }

  lemma {:induction false} FrameStatementsGrow(images: seq<Hdu>, n: nat)
    requires n <= |images|
    ensures FrameStatements(images[..n]) <= FrameStatements(images)
    decreases |images|
  {
    if n < |images| {
      FrameStatementsGrow(images[..|images| - 1], n);
      assert images[..|images| - 1][..n] == images[..n];
    } else {
      assert images[..n] == images;
    }
  }

  /** START TRANSACTION, upsert and read-back of the file, the frames, COMMIT. */
  function Statements(hdus: seq<Hdu>): nat {
    4 + FrameStatements(ImageHdus(hdus))
  }

  predicate Fails(faults: seq<Option<Fault>>, n: int, hdus: seq<Hdu>) {
    0 <= n < |faults| && faults[n].Some? && faults[n].value.after < Statements(hdus)
  }

  /** Whether attempt n or a later one, up to the tenth, commits. */
  predicate Succeeds(faults: seq<Option<Fault>>, hdus: seq<Hdu>, n: nat)
    decreases MAX_ATTEMPTS - n
  {
    n < MAX_ATTEMPTS && (!Fails(faults, n, hdus) || (faults[n].value.retryable && Succeeds(faults, hdus, n + 1)))
  }
}
