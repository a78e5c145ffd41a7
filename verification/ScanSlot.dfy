/** The one background scan: a mutex, a flag and a thread handle shared by request handlers, the
    scheduler, the scan thread and its progress reporter. */
module ScanSlot {
  import opened Options

  datatype Holder = Nobody | Client(client: nat) | Scan(body: nat) | Reporter

  /** A handler or the scheduler: outside, waiting for the lock, or holding it. Roots is what it wants
      scanned; without roots it only reads the state. */
  datatype ClientPc = Outside | Wants(roots: Option<seq<string>>) | Holds(roots: Option<seq<string>>)

  datatype Outcome = Ran(frames: nat) | Failed

  datatype BodyPc =
    | Top                       // the head of the loop over roots
    | AtRoot | InRoot           // waiting for the lock to announce the root, announcing it
    | Scanning
    | AtResult(outcome: Outcome) | InResult(outcome: Outcome)
    | AtEnd | InEnd             // waiting for the lock to end the run, ending it
    | Leaving                   // the lock released for the last time
    | Exited

  /** A scan thread: its roots, where it is, and whether it left the loop because of a cancel. */
  datatype Body = Body(roots: seq<string>, i: nat, pc: BodyPc, cut: bool)

  datatype Entry = Entry(root: string, outcome: Outcome)

  /** bodies holds every scan thread ever started; the handle, when joinable, is the last one's. */
  datatype Slot = Slot(
    mutex: Holder,
    active: bool,
    finished: bool,
    done: nat,
    total: nat,
    results: seq<Entry>,
    cancel: bool,
    joinable: bool,
    bodies: seq<Body>,
    reporting: bool,
    clients: seq<ClientPc>)

  datatype Action =
    | Request(c: nat, roots: Option<seq<string>>)
    | Lock(c: nat)
    | Answer(c: nat)              // read, or find a scan running: release and leave
    | Join(c: nat)                // reap the finished thread, holding the lock
    | Start(c: nat)               // reset the state, start a thread, release and leave
    | Cancel
    | Loop(k: nat)
    | BodyLock(k: nat)
    | BodyUnlock(k: nat)
    | ScanDone(k: nat, outcome: Outcome)
    | Exit(k: nat)
    | Report(k: nat)              // the reporter takes the lock
    | Reported

  predicate Last(s: Slot, pc: BodyPc) {
    s.bodies != [] && s.bodies[|s.bodies| - 1].pc == pc
  }

  predicate MayStart(s: Slot, c: nat) {
    c < |s.clients| && s.clients[c].Holds? && s.clients[c].roots.Some? && !s.active
  }

  predicate Can(s: Slot, a: Action) {
    match a
    case Request(c, roots) => c < |s.clients| && s.clients[c] == Outside
    case Lock(c) => c < |s.clients| && s.clients[c].Wants? && s.mutex == Nobody
    case Answer(c) => c < |s.clients| && s.clients[c].Holds? && (s.clients[c].roots.None? || s.active)
    case Join(c) => MayStart(s, c) && s.joinable && Last(s, Exited)
    case Start(c) => MayStart(s, c) && !s.joinable
    case Cancel => true
    case Loop(k) => k < |s.bodies| && s.bodies[k].pc.Top?
    case BodyLock(k) => k < |s.bodies| && (s.bodies[k].pc.AtRoot? || s.bodies[k].pc.AtResult? || s.bodies[k].pc.AtEnd?)
        && s.mutex == Nobody
    case BodyUnlock(k) => k < |s.bodies| && Inside(s.bodies[k].pc)
    case ScanDone(k, _) => k < |s.bodies| && s.bodies[k].pc.Scanning? && !s.reporting
    case Exit(k) => k < |s.bodies| && s.bodies[k].pc.Leaving?
    case Report(k) => k < |s.bodies| && s.bodies[k].pc.Scanning? && s.mutex == Nobody && !s.reporting
    case Reported => s.reporting
  }

  /** The body holds the lock. */
  predicate Inside(pc: BodyPc) {
    pc.InRoot? || pc.InResult? || pc.InEnd?
  }

  function Entered(pc: BodyPc): BodyPc {
    match pc
    case AtRoot => InRoot
    case AtResult(o) => InResult(o)
    case AtEnd => InEnd
    case _ => pc
  }

  function Move(s: Slot, k: nat, b: Body): Slot
    requires k < |s.bodies|
  {
    s.(bodies := s.bodies[k := b])
  }

  function Released(s: Slot, k: nat): Slot
    requires k < |s.bodies| && Inside(s.bodies[k].pc)
        && (s.bodies[k].pc.InResult? ==> s.bodies[k].i < |s.bodies[k].roots|)
  {
    var b := s.bodies[k];
    match b.pc
    case InRoot => Move(s, k, b.(pc := Scanning)).(done := b.i, mutex := Nobody)
    case InResult(o) =>
      Move(s, k, b.(pc := Top, i := b.i + 1)).(results := s.results + [Entry(b.roots[b.i], o)], mutex := Nobody)
    case _ => Move(s, k, b.(pc := Leaving)).(active := false, finished := true, done := s.total, mutex := Nobody)
  }

  function Started(s: Slot, c: nat): Slot
    requires MayStart(s, c)
  {
    var roots := s.clients[c].roots.value;
    s.(active := true, finished := false, done := 0, total := |roots|, results := [], cancel := false, joinable := true,
       bodies := s.bodies + [Body(roots, 0, Top, false)], clients := s.clients[c := Outside], mutex := Nobody)
  }

  function Do(s: Slot, a: Action): Slot
    requires Can(s, a) && Counted(s)
  {
    match a
    case Request(c, roots) => s.(clients := s.clients[c := Wants(roots)])
    case Lock(c) => s.(clients := s.clients[c := Holds(s.clients[c].roots)], mutex := Client(c))
    case Answer(c) => s.(clients := s.clients[c := Outside], mutex := Nobody)
    case Join(c) => s.(joinable := false)
    case Start(c) => Started(s, c)
    case Cancel => s.(cancel := true)
    case Loop(k) =>
      var b := s.bodies[k];
      Move(s, k, if b.i == |b.roots| then b.(pc := AtEnd) else if s.cancel then b.(pc := AtEnd, cut := true)
          else b.(pc := AtRoot))
    case BodyLock(k) => Move(s, k, s.bodies[k].(pc := Entered(s.bodies[k].pc))).(mutex := Scan(k))
    case BodyUnlock(k) => Released(s, k)
    case ScanDone(k, o) => Move(s, k, s.bodies[k].(pc := AtResult(o)))
    case Exit(k) => Move(s, k, s.bodies[k].(pc := Exited))
    case Report(k) => s.(reporting := true, mutex := Reporter)
    case Reported => s.(reporting := false, mutex := Nobody)
  }

  // ---- The invariant ----

  /** A body past the head of its loop has a root to work on. */
  predicate AtWork(pc: BodyPc) {
    pc.AtRoot? || pc.InRoot? || pc.Scanning? || pc.AtResult? || pc.InResult?
  }

  ghost predicate Counted(s: Slot) {
    forall k :: 0 <= k < |s.bodies|
        ==> s.bodies[k].i <= |s.bodies[k].roots| && (AtWork(s.bodies[k].pc) ==> s.bodies[k].i < |s.bodies[k].roots|)
  }

  /** No body but the last is left running. */
  ghost predicate OneRuns(s: Slot) {
    forall k :: 0 <= k < |s.bodies| - 1 ==> s.bodies[k].pc.Exited?
  }

  predicate Gone(pc: BodyPc) {
    pc.Leaving? || pc.Exited?
  }

  /** Not active means the last body has let go of the lock for good; not joinable, that it has ended. */
  ghost predicate FlagTells(s: Slot) {
    && (s.bodies == [] ==> !s.active && !s.joinable)
    && (s.bodies != [] ==> (s.active <==> !Gone(s.bodies[|s.bodies| - 1].pc)))
    && (s.bodies != [] && !s.joinable ==> s.bodies[|s.bodies| - 1].pc.Exited?)
  }

  ghost predicate LockHeld(s: Slot) {
    && (forall c :: 0 <= c < |s.clients| ==> (s.clients[c].Holds? <==> s.mutex == Client(c)))
    && (forall k :: 0 <= k < |s.bodies| ==> (Inside(s.bodies[k].pc) <==> s.mutex == Scan(k)))
    && (s.reporting <==> s.mutex == Reporter)
    && (s.mutex.Client? ==> s.mutex.client < |s.clients|)
    && (s.mutex.Scan? ==> s.mutex.body < |s.bodies|)
    && (s.reporting ==> Last(s, Scanning))
  }

  function Roots(es: seq<Entry>): seq<string> {
    seq(|es|, i requires 0 <= i < |es| => es[i].root)
  }

  /** The results are the last body's, in order, as far as it has come. */
  ghost predicate ResultsTell(s: Slot) {
    s.bodies != [] ==>
      var b := s.bodies[|s.bodies| - 1];
      && b.i <= |b.roots| && Roots(s.results) == b.roots[..b.i]
      && s.total == |b.roots|
      && (b.pc.AtEnd? || b.pc.InEnd? || Gone(b.pc) ==> b.i == |b.roots| || b.cut)
      && (b.cut ==> s.cancel && b.i < |b.roots| && (b.pc.AtEnd? || b.pc.InEnd? || Gone(b.pc)))
      && (Gone(b.pc) ==> s.finished && s.done == s.total)
      && (!Gone(b.pc) ==> !s.finished && s.done == Reached(b))
  }

  /** The root a running body has come to: the one it is at, or the last it was at. */
  function Reached(b: Body): nat {
    if b.pc.Scanning? || b.pc.AtResult? || b.pc.InResult? || b.i == 0 then b.i else b.i - 1
  }

  ghost predicate Inv(s: Slot) {
    Counted(s) && OneRuns(s) && FlagTells(s) && LockHeld(s) && (s.bodies != [] ==> ResultsTell(s))
  }

  ghost predicate Initial(s: Slot) {
    && s.mutex == Nobody && !s.active && !s.finished && s.results == [] && !s.cancel && !s.joinable && s.bodies == []
    && !s.reporting
    && forall c :: 0 <= c < |s.clients| ==> s.clients[c] == Outside
  }

  ghost predicate Reachable(s: Slot, steps: nat)
    decreases steps
  {
    if steps == 0 then Initial(s)
    else exists before, a {:trigger Do(before, a)} ::
           Reachable(before, steps - 1) && Can(before, a) && Counted(before) && s == Do(before, a)
  }

  lemma ClientKeeps(s: Slot, a: Action)
    requires Inv(s) && Can(s, a) && (a.Request? || a.Lock? || a.Answer? || a.Join? || a.Cancel?)
    ensures Inv(Do(s, a))
  {
    hide Roots;
  }

  lemma StartKeeps(s: Slot, c: nat)
    requires Inv(s) && Can(s, Start(c))
    ensures Inv(Do(s, Start(c)))
  {
    var s' := Do(s, Start(c));
    var n := |s.bodies|;
    assert s'.bodies[n] == Body(s.clients[c].roots.value, 0, Top, false);
    assert forall k :: 0 <= k < n ==> s'.bodies[k] == s.bodies[k] && s'.bodies[k].pc.Exited?;
    assert Roots(s'.results) == [];
  }

  lemma BodyLast(s: Slot, k: nat)
    requires OneRuns(s) && k < |s.bodies| && !s.bodies[k].pc.Exited?
    ensures k == |s.bodies| - 1
  {
  }

  lemma LoopKeeps(s: Slot, k: nat)
    requires Inv(s) && Can(s, Loop(k))
    ensures Inv(Do(s, Loop(k)))
  {
    BodyLast(s, k);
    hide Roots;
  }

  lemma BodyLockKeeps(s: Slot, k: nat)
    requires Inv(s) && Can(s, BodyLock(k))
    ensures Inv(Do(s, BodyLock(k)))
  {
    BodyLast(s, k);
    hide Roots;
  }

  lemma ScanDoneKeeps(s: Slot, k: nat, o: Outcome)
    requires Inv(s) && Can(s, ScanDone(k, o))
    ensures Inv(Do(s, ScanDone(k, o)))
  {
    BodyLast(s, k);
    hide Roots;
  }

  lemma ExitKeeps(s: Slot, k: nat)
    requires Inv(s) && Can(s, Exit(k))
    ensures Inv(Do(s, Exit(k)))
  {
    BodyLast(s, k);
    hide Roots;
  }

  lemma UnlockKeeps(s: Slot, k: nat)
    requires Inv(s) && Can(s, BodyUnlock(k))
    ensures Inv(Do(s, BodyUnlock(k)))
  {
    BodyLast(s, k);
    var s', b := Do(s, BodyUnlock(k)), s.bodies[k];
    if b.pc.InResult? {
      assert Roots(s'.results) == Roots(s.results) + [b.roots[b.i]];
      assert b.roots[..b.i + 1] == b.roots[..b.i] + [b.roots[b.i]];
    }
    hide Roots;
  }

  lemma ReportKeeps(s: Slot, a: Action)
    requires Inv(s) && Can(s, a) && (a.Report? || a.Reported?)
    ensures Inv(Do(s, a))
  {
    if a.Report? {
      BodyLast(s, a.k);
    }
    hide Roots;
  }

  lemma InvStep(s: Slot, a: Action)
    requires Inv(s) && Can(s, a)
    ensures Counted(s) && Inv(Do(s, a)) && Counted(Do(s, a))
  {
    hide Do, Can;
    if a.Start? {
      StartKeeps(s, a.c);
    } else if a.BodyUnlock? {
      UnlockKeeps(s, a.k);
    } else if a.Report? || a.Reported? {
      ReportKeeps(s, a);
    } else if a.Loop? {
      LoopKeeps(s, a.k);
    } else if a.BodyLock? {
      BodyLockKeeps(s, a.k);
    } else if a.ScanDone? {
      ScanDoneKeeps(s, a.k, a.outcome);
    } else if a.Exit? {
      ExitKeeps(s, a.k);
    } else {
      ClientKeeps(s, a);
    }
  }

  lemma {:induction false} ReachableInv(s: Slot, steps: nat)
    requires Reachable(s, steps)
    ensures Inv(s)
    decreases steps
  {
    hide Do, Can;
    if steps > 0 {
      var before, a :| Reachable(before, steps - 1) && Can(before, a) && Counted(before) && s == Do(before, a);
      ReachableInv(before, steps - 1);
      InvStep(before, a);
    }
  }

  // ---- The main results ----

  /** Whatever requests come and however the threads interleave, at most one scan thread is running. */
  lemma AtMostOneScan(s: Slot, steps: nat, j: nat, k: nat)
    requires Reachable(s, steps) && j < |s.bodies| && k < |s.bodies|
    requires !s.bodies[j].pc.Exited? && !s.bodies[k].pc.Exited?
    ensures j == k
  {
    ReachableInv(s, steps);
    BodyLast(s, j);
    BodyLast(s, k);
  }

  /** A client that joins while it holds the lock waits only for a thread that needs the lock no more;
      and a thread is never replaced before it has been joined. */
  lemma JoinNeverBlocks(s: Slot, steps: nat, c: nat)
    requires Reachable(s, steps) && MayStart(s, c)
    ensures s.joinable ==> s.bodies != [] && (Can(s, Join(c)) || Can(s, Exit(|s.bodies| - 1)))
    ensures Can(s, Start(c)) ==> forall k :: 0 <= k < |s.bodies| ==> s.bodies[k].pc.Exited?
  {
    ReachableInv(s, steps);
    hide Roots, Reachable, LockHeld, Counted, ResultsTell;
    JoinReady(s, c);
  }

  lemma JoinReady(s: Slot, c: nat)
    requires OneRuns(s) && FlagTells(s) && MayStart(s, c)
    ensures s.joinable ==> s.bodies != [] && (Can(s, Join(c)) || Can(s, Exit(|s.bodies| - 1)))
    ensures Can(s, Start(c)) ==> forall k :: 0 <= k < |s.bodies| ==> s.bodies[k].pc.Exited?
  {
  }

  /** A run that has ended has one result for each root of a prefix, in order: of all roots exactly when it
      was not cut short, and it is only cut short by a cancel, before a root that is left. */
  lemma EveryRootOnce(s: Slot, steps: nat)
    requires Reachable(s, steps) && s.bodies != [] && !s.active
    ensures var b := s.bodies[|s.bodies| - 1];
            && Roots(s.results) <= b.roots && s.finished && s.done == s.total == |b.roots|
            && (Roots(s.results) == b.roots <==> !b.cut)
            && (b.cut ==> s.cancel)
  {
    ReachableInv(s, steps);
    var b := s.bodies[|s.bodies| - 1];
    assert b.roots[..|b.roots|] == b.roots;
    assert |Roots(s.results)| == |s.results|;
  }

  /** While a run is active its results are those of a prefix of its roots, in order, and the progress it shows
      is behind them by one root at most, and never ahead. */
  lemma ProgressTold(s: Slot, steps: nat)
    requires Reachable(s, steps) && s.active
    ensures s.bodies != []
    ensures var b := s.bodies[|s.bodies| - 1];
            && Roots(s.results) <= b.roots && !s.finished && s.total == |b.roots|
            && s.done <= |s.results| <= s.done + 1
  {
    ReachableInv(s, steps);
    var b := s.bodies[|s.bodies| - 1];
    assert b.roots[..|b.roots|] == b.roots;
    assert |Roots(s.results)| == |s.results|;
  }

  /** Someone is at work: a client not outside, or a body not exited. */
  predicate Busy(s: Slot) {
    || (exists c :: 0 <= c < |s.clients| && s.clients[c] != Outside)
    || (exists k :: 0 <= k < |s.bodies| && !s.bodies[k].pc.Exited?)
  }

  /** The step of whoever holds the lock, or else of whoever wants it. */
  predicate IsWork(a: Action) {
    !a.Request? && !a.Cancel? && !a.Report?
  }

  /** While anyone is at work, some step other than a new request is possible: no deadlock. */
  lemma NoDeadlock(s: Slot, steps: nat) returns (a: Action)
    requires Reachable(s, steps) && Busy(s)
    ensures Can(s, a) && IsWork(a)
  {
    ReachableInv(s, steps);
    hide Roots, Reachable, ResultsTell, FlagTells, OneRuns, Counted, Can, IsWork, Busy;
    match s.mutex
    case Client(c) => a := HolderActs(s, c);
    case Scan(k) => a := ScanActs(s, k);
    case Reporter => a := ReporterActs(s);
    case Nobody => a := FreeActs(s);
  }

  lemma ScanActs(s: Slot, k: nat) returns (a: Action)
    requires LockHeld(s) && s.mutex == Scan(k)
    ensures Can(s, a) && IsWork(a)
  {
    a := BodyUnlock(k);
  }

  lemma ReporterActs(s: Slot) returns (a: Action)
    requires LockHeld(s) && s.mutex == Reporter
    ensures Can(s, a) && IsWork(a)
  {
    a := Reported;
  }

  lemma FreeActs(s: Slot) returns (a: Action)
    requires LockHeld(s) && s.mutex == Nobody && Busy(s)
    ensures Can(s, a) && IsWork(a)
  {
    if c :| 0 <= c < |s.clients| && s.clients[c] != Outside {
      assert !s.clients[c].Holds?;
      a := Lock(c);
    } else {
      var k :| 0 <= k < |s.bodies| && !s.bodies[k].pc.Exited?;
      a := BodyActs(s, k);
    }
  }

  lemma HolderActs(s: Slot, c: nat) returns (a: Action)
    requires LockHeld(s) && FlagTells(s) && s.mutex == Client(c)
    ensures Can(s, a) && IsWork(a)
  {
    if s.clients[c].roots.None? || s.active {
      a := Answer(c);
    } else if !s.joinable {
      a := Start(c);
    } else if Last(s, Exited) {
      a := Join(c);
    } else {
      a := Exit(|s.bodies| - 1);
    }
  }

  lemma BodyActs(s: Slot, k: nat) returns (a: Action)
    requires LockHeld(s) && s.mutex == Nobody && k < |s.bodies| && !s.bodies[k].pc.Exited?
    ensures Can(s, a) && IsWork(a)
  {
    match s.bodies[k].pc
    case Top => a := Loop(k);
    case Scanning => a := ScanDone(k, Failed);
    case Leaving => a := Exit(k);
    case _ => a := BodyLock(k);
  }

  // ---- Progress ----

  /** How many steps a body has before it exits. */
  function BodyLeft(b: Body): nat
    requires b.i <= |b.roots|
  {
    var rounds := 6 * (|b.roots| - b.i);
    match b.pc
    case Top => rounds + 6
    case AtRoot => rounds + 5
    case InRoot => rounds + 4
    case Scanning => rounds + 3
    case AtResult(_) => rounds + 2
    case InResult(_) => rounds + 1
    case AtEnd => 4
    case InEnd => 3
    case Leaving => 2
    case Exited => 0
  }

  function ClientLeft(s: Slot, c: nat): nat
    requires c < |s.clients|
  {
    match s.clients[c]
    case Outside => 0
    case Wants(Some(roots)) => 6 * |roots| + 10
    case Holds(Some(roots)) => 6 * |roots| + 9
    case Wants(None) => 2
    case Holds(None) => 1
  }

  function Sum(s: Slot, n: nat): nat
    requires n <= |s.clients|
  {
    if n == 0 then 0 else Sum(s, n - 1) + ClientLeft(s, n - 1)
  }

  function BodiesLeft(s: Slot): nat
    requires Counted(s)
  {
    if s.bodies == [] then 0 else BodyLeft(s.bodies[|s.bodies| - 1])
  }

  /** The work ahead: what clients still ask for, what the scan still has to do, the thread to join. */
  function Left(s: Slot): nat
    requires Counted(s)
  {
    Sum(s, |s.clients|) + BodiesLeft(s) + (if s.joinable then 1 else 0)
  }

  lemma {:induction false} SumUpdate(s: Slot, s': Slot, c: nat, n: nat)
    requires n <= |s.clients| == |s'.clients| && c < |s.clients| && forall j :: 0 <= j < |s.clients| && j != c ==>
        s'.clients[j] == s.clients[j]
    ensures Sum(s', n) == Sum(s, n) + (if c < n then ClientLeft(s', c) - ClientLeft(s, c) else 0)
  {
    if n > 0 {
      SumUpdate(s, s', c, n - 1);
    }
  }

  lemma {:induction false} SumSame(s: Slot, s': Slot, n: nat)
    requires n <= |s.clients| && s'.clients == s.clients
    ensures Sum(s', n) == Sum(s, n)
  {
    if n > 0 {
      SumSame(s, s', n - 1);
    }
  }

  /** Every step but a new request lessens the work ahead; the reporter and a cancel leave it alone. So
      without new requests only finitely many steps remain, and then nobody is waiting. */
  lemma WorkLessens(s: Slot, a: Action)
    requires Inv(s) && Can(s, a) && !a.Request?
    ensures Counted(Do(s, a))
    ensures if a.Cancel? || a.Report? || a.Reported? then Left(Do(s, a)) == Left(s) else Left(Do(s, a)) < Left(s)
  {
    InvStep(s, a);
    hide Do, Can, Left, Inv, Counted;
    if a.Lock? || a.Answer? {
      ClientStepLeft(s, a);
    } else if a.Start? {
      StartStepLeft(s, a.c);
    } else if a.Join? || a.Cancel? || a.Report? || a.Reported? {
      QuietStepLeft(s, a);
    } else {
      BodyWorkLeft(s, a);
    }
  }

  lemma StartStepLeft(s: Slot, c: nat)
    requires Inv(s) && Can(s, Start(c)) && Counted(s) && Counted(Do(s, Start(c)))
    ensures Left(Do(s, Start(c))) < Left(s)
  {
    SumUpdate(s, Do(s, Start(c)), c, |s.clients|);
    StartLeft(s, c);
    hide Inv, BodiesLeft, Counted;
  }

  lemma QuietStepLeft(s: Slot, a: Action)
    requires Can(s, a) && Counted(s) && Counted(Do(s, a)) && (a.Join? || a.Cancel? || a.Report? || a.Reported?)
    ensures if a.Join? then Left(Do(s, a)) < Left(s) else Left(Do(s, a)) == Left(s)
  {
    SumSame(s, Do(s, a), |s.clients|);
    hide Counted, BodyLeft;
  }

  lemma BodyWorkLeft(s: Slot, a: Action)
    requires Inv(s) && Can(s, a) && Counted(s) && Counted(Do(s, a))
    requires a.Loop? || a.BodyLock? || a.BodyUnlock? || a.ScanDone? || a.Exit?
    ensures Left(Do(s, a)) < Left(s)
  {
    SumSame(s, Do(s, a), |s.clients|);
    if a.BodyUnlock? {
      UnlockLeft(s, a.k);
    } else {
      BodyStepLeft(s, a);
    }
    hide Inv, Counted, BodiesLeft;
  }

  lemma ClientStepLeft(s: Slot, a: Action)
    requires Counted(s) && Can(s, a) && (a.Lock? || a.Answer?)
    ensures Counted(Do(s, a)) && Left(Do(s, a)) < Left(s)
  {
    SumUpdate(s, Do(s, a), a.c, |s.clients|);
    hide BodyLeft;
  }

  lemma StartLeft(s: Slot, c: nat)
    requires Inv(s) && Can(s, Start(c))
    ensures var s' := Do(s, Start(c)); BodiesLeft(s) == 0 && BodiesLeft(s') == 6 * |s.clients[c].roots.value| + 6
  {
  }

  lemma BodyStepLeft(s: Slot, a: Action)
    requires Inv(s) && Can(s, a) && (a.Loop? || a.BodyLock? || a.ScanDone? || a.Exit?)
    ensures var s' := Do(s, a); Counted(s') && BodiesLeft(s') < BodiesLeft(s) && s'.joinable == s.joinable
  {
    InvStep(s, a);
    hide Roots, LockHeld, ResultsTell, FlagTells, Inv;
    BodyLast(s, a.k);
  }

  lemma UnlockLeft(s: Slot, k: nat)
    requires Inv(s) && Can(s, BodyUnlock(k))
    ensures var s' := Do(s, BodyUnlock(k)); Counted(s') && BodiesLeft(s') < BodiesLeft(s) && s'.joinable == s.joinable
  {
    InvStep(s, BodyUnlock(k));
    hide Roots, LockHeld, ResultsTell, FlagTells, Inv;
    BodyLast(s, k);
  }
}
