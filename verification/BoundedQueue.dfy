/** The bounded, closable queue between the directory walker and the sweep workers.

    The class is the queue itself: each method is one critical section, run with the mutex held.
    The protocol below it interleaves any number of producers and consumers through the mutex and
    the two condition variables: a wait set is the set of threads marked Asleep, and notify_one is
    a separate step after the unlock, so it can be overtaken by any other thread. */
module BoundedQueue {
  import opened Options

  class Queue<T> {
    const capacity: nat
    var queue: seq<T>
    var closed: bool

    constructor (requested: nat)
      ensures capacity == (if requested == 0 then 1 else requested)
      ensures queue == [] && !closed
    {
      capacity := if requested == 0 then 1 else requested;
      queue := [];
      closed := false;
    }

    /** The predicate the producers' wait re-evaluates. */
    predicate PushReady()
      reads this
    {
      |queue| < capacity || closed
    }

    /** The predicate the consumers' wait re-evaluates. */
    predicate PopReady()
      reads this
    {
      queue != [] || closed
    }

    /** The rest of push once its wait is over. */
    method Push(value: T) returns (accepted: bool)
      requires PushReady()
      modifies this
      ensures accepted == !old(closed)
      ensures queue == (if accepted then old(queue) + [value] else old(queue))
      ensures closed == old(closed)
    {
      if closed {
        return false;
      }
      queue := queue + [value];
      accepted := true;
    }

    /** The rest of pop once its wait is over; None only when closed and drained. */
    method Pop() returns (item: Option<T>)
      requires PopReady()
      modifies this
      ensures item == (if old(queue) == [] then None else Some(old(queue)[0]))
      ensures queue == (if old(queue) == [] then [] else old(queue)[1..])
      ensures item.None? ==> closed
      ensures closed == old(closed)
    {
      if queue == [] {
        return None;
      }
      item := Some(queue[0]);
      queue := queue[1..];
    }

    method Close()
      modifies this
      ensures closed && queue == old(queue)
    {
      closed := true;
    }
  }

  // ---- The protocol ----

  /** Where a thread is inside a wait: about to test the predicate for the first time, in the wait
      set, or taken out of it by a notification and about to test again. */
  datatype Wait = Calling | Asleep | Woken

  datatype Thread<T> =
    | Pushing(todo: seq<T>, closer: bool, wait: Wait) // in push(todo[0]); past the last push when todo is empty
    | NotifyingConsumer(todo: seq<T>, closer: bool)   // enqueued and unlocked, not_empty_.notify_one() still due
    | Popping(wait: Wait)
    | NotifyingProducer                               // dequeued and unlocked, not_full_.notify_one() still due
    | ClosingConsumers                                // closed_ is set, not_empty_.notify_all() still due
    | ClosingProducers                                // not_full_.notify_all() still due
    | Finished

  /** accepted and popped record the history of the queue. */
  datatype State<T> = State(
    capacity: nat, queue: seq<T>, closed: bool, threads: seq<Thread<T>>, accepted: seq<T>, popped: seq<T>)

  datatype Kind =
    | ConsumerAsleep | ConsumerWoken | ConsumerNotice
    | ProducerAsleep | ProducerWoken | ProducerNotice
    | CloseFirst | CloseSecond | Plain

  function KindOf<T>(t: Thread<T>): Kind {
    match t
    case Pushing(_, _, Asleep) => ProducerAsleep
    case Pushing(_, _, Woken) => ProducerWoken
    case Pushing(_, _, Calling) => Plain
    case NotifyingConsumer(_, _) => ConsumerNotice
    case Popping(Asleep) => ConsumerAsleep
    case Popping(Woken) => ConsumerWoken
    case Popping(Calling) => Plain
    case NotifyingProducer => ProducerNotice
    case ClosingConsumers => CloseFirst
    case ClosingProducers => CloseSecond
    case Finished => Plain
  }

  function Wake<T>(t: Thread<T>): Thread<T> {
    match t
    case Pushing(todo, closer, Asleep) => Pushing(todo, closer, Woken)
    case Popping(Asleep) => Popping(Woken)
    case _ => t
  }

  function WakeAll<T>(ts: seq<Thread<T>>, k: Kind): (r: seq<Thread<T>>)
    ensures |r| == |ts|
  {
    seq(|ts|, i requires 0 <= i < |ts| => if KindOf(ts[i]) == k then Wake(ts[i]) else ts[i])
  }

  function Count<T>(ts: seq<Thread<T>>, k: Kind): nat {
    if ts == [] then 0 else (if KindOf(ts[0]) == k then 1 else 0) + Count(ts[1..], k)
  }

  /** The wait set that notify_one picks from, for a thread with a notification due. */
  function Listeners<T>(t: Thread<T>): Kind {
    if t.NotifyingConsumer? then ConsumerAsleep else ProducerAsleep
  }

  predicate IsNotice<T>(t: Thread<T>) {
    t.NotifyingConsumer? || t.NotifyingProducer?
  }

  /** Thread i may move; a notify_one moves together with the sleeper `woken` it picks, or with
      nobody (woken == i) when its wait set is empty. */
  predicate Movable<T>(ts: seq<Thread<T>>, i: nat, woken: nat) {
    && i < |ts|
    && woken < |ts|
    && match ts[i]
       case Pushing(_, _, wait) => wait != Asleep && woken == i
       case Popping(wait) => wait != Asleep && woken == i
       case NotifyingConsumer(_, _) => WakesOne(ts, i, woken)
       case NotifyingProducer => WakesOne(ts, i, woken)
       case Finished => false
       case _ => woken == i
  }

  predicate WakesOne<T>(ts: seq<Thread<T>>, i: nat, woken: nat)
    requires i < |ts| && woken < |ts|
  {
    if woken == i then Count(ts, Listeners(ts[i])) == 0 else KindOf(ts[woken]) == Listeners(ts[i])
  }

  predicate Enabled<T>(s: State<T>, i: nat, woken: nat) {
    Movable(s.threads, i, woken)
  }

  function Next<T>(s: State<T>, i: nat, woken: nat): State<T>
    requires i < |s.threads| && woken < |s.threads|
  {
    match s.threads[i]
    case Pushing(todo, closer, _) =>
      if todo == [] then
        if closer then s.(closed := true, threads := s.threads[i := ClosingConsumers])
        else s.(threads := s.threads[i := Finished])
      else if s.closed then
        s.(threads := s.threads[i := Pushing(todo[1..], closer, Calling)])
      else if |s.queue| < s.capacity then
        s.(queue := s.queue + [todo[0]], accepted := s.accepted + [todo[0]],
           threads := s.threads[i := NotifyingConsumer(todo[1..], closer)])
      else
        s.(threads := s.threads[i := Pushing(todo, closer, Asleep)])
    case Popping(_) =>
      if s.queue != [] then
        s.(queue := s.queue[1..], popped := s.popped + [s.queue[0]],
           threads := s.threads[i := NotifyingProducer])
      else if s.closed then
        s.(threads := s.threads[i := Finished])
      else
        s.(threads := s.threads[i := Popping(Asleep)])
    case NotifyingConsumer(todo, closer) =>
      s.(threads := s.threads[woken := Wake(s.threads[woken])][i := Pushing(todo, closer, Calling)])
    case NotifyingProducer =>
      s.(threads := s.threads[woken := Wake(s.threads[woken])][i := Popping(Calling)])
    case ClosingConsumers =>
      s.(threads := WakeAll(s.threads, ConsumerAsleep)[i := ClosingProducers])
    case ClosingProducers =>
      s.(threads := WakeAll(s.threads, ProducerAsleep)[i := Finished])
    case Finished => s
  }

  /** A spurious wakeup: a sleeper leaves its wait set unasked. */
  function Spurious<T>(s: State<T>, i: nat): State<T>
    requires i < |s.threads|
  {
    s.(threads := s.threads[i := Wake(s.threads[i])])
  }

  // ---- No wakeup is lost ----

  /** The eight counts that matter, of one thread table. */
  datatype Counts = Counts(
    consumersAsleep: int, consumersWoken: int, consumerNotices: int,
    producersAsleep: int, producersWoken: int, producerNotices: int, closeFirst: int, closeSecond: int)

  function CountsOf<T>(ts: seq<Thread<T>>): Counts {
    Counts(Count(ts, ConsumerAsleep), Count(ts, ConsumerWoken), Count(ts, ConsumerNotice),
           Count(ts, ProducerAsleep), Count(ts, ProducerWoken), Count(ts, ProducerNotice),
           Count(ts, CloseFirst), Count(ts, CloseSecond))
  }

  function Plus(c: Counts, k: Kind, n: int): Counts {
    match k
    case ConsumerAsleep => c.(consumersAsleep := c.consumersAsleep + n)
    case ConsumerWoken => c.(consumersWoken := c.consumersWoken + n)
    case ConsumerNotice => c.(consumerNotices := c.consumerNotices + n)
    case ProducerAsleep => c.(producersAsleep := c.producersAsleep + n)
    case ProducerWoken => c.(producersWoken := c.producersWoken + n)
    case ProducerNotice => c.(producerNotices := c.producerNotices + n)
    case CloseFirst => c.(closeFirst := c.closeFirst + n)
    case CloseSecond => c.(closeSecond := c.closeSecond + n)
    case Plain => c
  }

  /** Wakeups on their way to the consumers cover the queue, those on their way to the producers
      cover the free slots, and a closed queue has no sleeper that close() will not reach. */
  predicate Covered(c: Counts, queued: int, capacity: int, closed: bool) {
    && (c.consumersAsleep > 0 ==> c.consumersWoken + c.consumerNotices >= queued)
    && (!closed && c.producersAsleep > 0 ==> c.producersWoken + c.producerNotices >= capacity - queued)
    && (closed && c.consumersAsleep > 0 ==> c.closeFirst > 0)
    && (closed && c.producersAsleep > 0 ==> c.closeFirst + c.closeSecond > 0)
  }

  ghost predicate NoLostWakeup<T>(s: State<T>) {
    Covered(CountsOf(s.threads), |s.queue|, s.capacity, s.closed)
  }

  ghost predicate Conserved<T>(s: State<T>) {
    && 1 <= s.capacity
    && |s.queue| <= s.capacity
    && s.accepted == s.popped + s.queue
    && forall i :: 0 <= i < |s.threads| && s.threads[i].Pushing? && s.threads[i].wait != Calling ==>
         s.threads[i].todo != []
  }

  ghost predicate Inv<T>(s: State<T>) {
    Conserved(s) && NoLostWakeup(s)
  }

  ghost predicate Initial<T>(s: State<T>) {
    && 1 <= s.capacity
    && s.queue == s.accepted == s.popped == []
    && !s.closed
    && forall i :: 0 <= i < |s.threads| ==>
         (s.threads[i].Pushing? || s.threads[i].Popping?) && s.threads[i].wait == Calling
  }

  lemma {:induction false} CountUpdate<T>(ts: seq<Thread<T>>, i: nat, t: Thread<T>, k: Kind)
    requires i < |ts|
    ensures Count(ts[i := t], k)
         == Count(ts, k) - (if KindOf(ts[i]) == k then 1 else 0) + (if KindOf(t) == k then 1 else 0)
  {
    if i == 0 {
      assert ts[i := t][1..] == ts[1..];
    } else {
      CountUpdate(ts[1..], i - 1, t, k);
      assert ts[i := t][1..] == ts[1..][i - 1 := t];
    }
  }

  lemma {:induction false} CountZero<T>(ts: seq<Thread<T>>, k: Kind)
    ensures Count(ts, k) == 0 <==> forall i :: 0 <= i < |ts| ==> KindOf(ts[i]) != k
  {
    if ts != [] {
      CountZero(ts[1..], k);
      assert forall i :: 1 <= i < |ts| ==> ts[i] == ts[1..][i - 1];
      if Count(ts[1..], k) != 0 {
        var j :| 0 <= j < |ts[1..]| && KindOf(ts[1..][j]) == k;
        assert KindOf(ts[j + 1]) == k;
      }
    }
  }

  /** notify_all turns every sleeper of one kind into a woken thread and touches nobody else. */
  lemma {:induction false} CountWakeAll<T>(ts: seq<Thread<T>>, k: Kind, asked: Kind)
    requires k in {ConsumerAsleep, ProducerAsleep}
    ensures Count(WakeAll(ts, k), asked) ==
            if asked == k then 0
            else if asked == (if k == ConsumerAsleep then ConsumerWoken else ProducerWoken)
            then Count(ts, asked) + Count(ts, k) else Count(ts, asked)
  {
    if ts != [] {
      CountWakeAll(ts[1..], k, asked);
      assert WakeAll(ts, k)[1..] == WakeAll(ts[1..], k);
    }
  }

  lemma {:induction false} InvInitial<T>(s: State<T>)
    requires Initial(s)
    ensures Inv(s)
  {
    CountZero(s.threads, ConsumerAsleep);
    CountZero(s.threads, ProducerAsleep);
  }

  lemma CountsUpdate<T>(ts: seq<Thread<T>>, i: nat, t: Thread<T>)
    requires i < |ts|
    ensures CountsOf(ts[i := t]) == Plus(Plus(CountsOf(ts), KindOf(ts[i]), -1), KindOf(t), 1)
  {
    hide Count, KindOf;
    CountUpdate(ts, i, t, ConsumerAsleep);
    CountUpdate(ts, i, t, ConsumerWoken);
    CountUpdate(ts, i, t, ConsumerNotice);
    CountUpdate(ts, i, t, ProducerAsleep);
    CountUpdate(ts, i, t, ProducerWoken);
    CountUpdate(ts, i, t, ProducerNotice);
    CountUpdate(ts, i, t, CloseFirst);
    CountUpdate(ts, i, t, CloseSecond);
  }

  lemma InvStep<T>(s: State<T>, i: nat, woken: nat)
    requires Inv(s) && Enabled(s, i, woken)
    ensures Inv(Next(s, i, woken))
  {
    ConservedStep(s, i, woken);
    match s.threads[i]
    case Pushing(_, _, _) => PushStepCovers(s, i);
    case Popping(_) => PopStepCovers(s, i);
    case NotifyingConsumer(_, _) => NotifyStepCovers(s, i, woken);
    case NotifyingProducer => NotifyStepCovers(s, i, woken);
    case _ => CloseStepCovers(s, i);
  }

  lemma ConservedStep<T>(s: State<T>, i: nat, woken: nat)
    requires Conserved(s) && Enabled(s, i, woken)
    ensures Conserved(Next(s, i, woken))
  {
  }

  lemma CountsNat<T>(ts: seq<Thread<T>>)
    ensures var c := CountsOf(ts);
            c.consumersWoken >= 0 && c.consumerNotices >= 0 && c.producersWoken >= 0 && c.producerNotices >= 0
  {
  }

  lemma PushStepCovers<T>(s: State<T>, i: nat)
    requires Inv(s) && Enabled(s, i, i) && s.threads[i].Pushing?
    ensures NoLostWakeup(Next(s, i, i))
  {
    var s' := Next(s, i, i);
    assert s'.threads == s.threads[i := s'.threads[i]];
    CountsUpdate(s.threads, i, s'.threads[i]);
    CountsNat(s'.threads);
    hide CountsOf, Count;
  }

  lemma PopStepCovers<T>(s: State<T>, i: nat)
    requires Inv(s) && Enabled(s, i, i) && s.threads[i].Popping?
    ensures NoLostWakeup(Next(s, i, i))
  {
    var s' := Next(s, i, i);
    assert s'.threads == s.threads[i := s'.threads[i]];
    CountsUpdate(s.threads, i, s'.threads[i]);
    CountsNat(s'.threads);
    hide CountsOf, Count;
  }

  lemma AskedCounts<T>(ts: seq<Thread<T>>)
    ensures CountsOf(ts).consumersAsleep == Count(ts, ConsumerAsleep)
        && CountsOf(ts).producersAsleep == Count(ts, ProducerAsleep)
  {
  }

  /** notify_one finds nobody exactly when the wait set is empty. */
  lemma AskedKinds<T>(ts: seq<Thread<T>>, i: nat, woken: nat)
    requires Movable(ts, i, woken) && IsNotice(ts[i])
    ensures woken == i && ts[i].NotifyingConsumer? ==> CountsOf(ts).consumersAsleep == 0
    ensures woken == i && ts[i].NotifyingProducer? ==> CountsOf(ts).producersAsleep == 0
    ensures woken != i ==> KindOf(ts[woken]) == Listeners(ts[i])
  {
  }

  lemma NotifyStepCovers<T>(s: State<T>, i: nat, woken: nat)
    requires Inv(s) && Enabled(s, i, woken) && IsNotice(s.threads[i])
    ensures NoLostWakeup(Next(s, i, woken))
  {
    var t, ts := s.threads[i], s.threads;
    AskedKinds(ts, i, woken);
    NoticeCounts(s, i, woken);
    hide CountsOf, Count, Next;
  }

  /** A notify_one hands its notice over: one sleeper fewer, one woken thread more. */
  lemma NoticeCounts<T>(s: State<T>, i: nat, woken: nat)
    requires Enabled(s, i, woken) && IsNotice(s.threads[i])
    ensures var c, s' := CountsOf(s.threads), Next(s, i, woken);
            && s'.(threads := s.threads) == s
            && var d := CountsOf(s'.threads);
               d == if s.threads[i].NotifyingConsumer? then
                 if woken == i then c.(consumerNotices := c.consumerNotices - 1)
                 else c.(consumerNotices := c.consumerNotices - 1, consumersAsleep := c.consumersAsleep - 1,
                     consumersWoken := c.consumersWoken + 1)
               else
                 if woken == i then c.(producerNotices := c.producerNotices - 1)
                 else c.(producerNotices := c.producerNotices - 1, producersAsleep := c.producersAsleep - 1,
                     producersWoken := c.producersWoken + 1)
  {
    var ts, t := s.threads, Next(s, i, woken).threads[i];
    if woken == i {
      assert ts[i := Wake(ts[i])] == ts;
      CountsUpdate(ts, i, t);
    } else {
      WakeThenReturn(ts, i, woken, t);
    }
    hide CountsOf, Count;
  }

  lemma WakeThenReturn<T>(ts: seq<Thread<T>>, i: nat, woken: nat, t: Thread<T>)
    requires i < |ts| && woken < |ts| && i != woken
    ensures CountsOf(ts[woken := Wake(ts[woken])][i := t]) ==
            Plus(Plus(Plus(Plus(CountsOf(ts), KindOf(ts[woken]), -1), KindOf(Wake(ts[woken])), 1), KindOf(ts[i]), -1),
                KindOf(t), 1)
  {
    CountsUpdate(ts, woken, Wake(ts[woken]));
    CountsUpdate(ts[woken := Wake(ts[woken])], i, t);
    hide *;
  }

  lemma CloseStepCovers<T>(s: State<T>, i: nat)
    requires Inv(s) && Enabled(s, i, i)
    requires s.threads[i].ClosingConsumers? || s.threads[i].ClosingProducers?
    ensures NoLostWakeup(Next(s, i, i))
  {
    AskedCounts(s.threads);
    hide CountsOf;
    var s' := Next(s, i, i);
    var k := if s.threads[i].ClosingConsumers? then ConsumerAsleep else ProducerAsleep;
    var mid := WakeAll(s.threads, k);
    CountsWakeAll(s.threads, k);
    CountsUpdate(mid, i, s'.threads[i]);
  }

  lemma CountsWakeAll<T>(ts: seq<Thread<T>>, k: Kind)
    requires k in {ConsumerAsleep, ProducerAsleep}
    ensures CountsOf(WakeAll(ts, k)) ==
            Plus(Plus(CountsOf(ts), k, 0 - Count(ts, k)), if k == ConsumerAsleep then ConsumerWoken else ProducerWoken,
                Count(ts, k))
  {
    hide Count, WakeAll, KindOf;
    CountWakeAll(ts, k, ConsumerAsleep);
    CountWakeAll(ts, k, ConsumerWoken);
    CountWakeAll(ts, k, ConsumerNotice);
    CountWakeAll(ts, k, ProducerAsleep);
    CountWakeAll(ts, k, ProducerWoken);
    CountWakeAll(ts, k, ProducerNotice);
    CountWakeAll(ts, k, CloseFirst);
    CountWakeAll(ts, k, CloseSecond);
  }

  lemma InvSpurious<T>(s: State<T>, i: nat)
    requires Inv(s) && i < |s.threads|
    ensures Inv(Spurious(s, i))
  {
    CountsUpdate(s.threads, i, Wake(s.threads[i]));
  }

  /** One event of a run. */
  datatype Event = Move(i: nat, woken: nat) | Stray(i: nat)

  ghost predicate Legal<T>(s: State<T>, e: Event) {
    match e
    case Move(i, woken) => Enabled(s, i, woken)
    case Stray(i) => i < |s.threads|
  }

  function Apply<T>(s: State<T>, e: Event): State<T>
    requires e.i < |s.threads| && (e.Move? ==> e.woken < |s.threads|)
  {
    match e
    case Move(i, woken) => Next(s, i, woken)
    case Stray(i) => Spurious(s, i)
  }

  ghost predicate IsRun<T>(states: seq<State<T>>, events: seq<Event>) {
    && |states| == |events| + 1
    && Initial(states[0])
    && forall n :: 0 <= n < |events| ==> Legal(states[n], events[n]) && states[n + 1] == Apply(states[n], events[n])
  }

  /** Every reachable state, spurious wakeups included, conserves the items in FIFO order and has
      lost no wakeup. */
  lemma {:induction false} EveryReachableState<T>(states: seq<State<T>>, events: seq<Event>)
    requires IsRun(states, events)
    ensures forall n :: 0 <= n < |states| ==> Inv(states[n])
  {
    var n := 0;
    InvInitial(states[0]);
    while n < |events|
      invariant 0 <= n <= |events|
      invariant forall m :: 0 <= m <= n ==> Inv(states[m])
    {
      assert Legal(states[n], events[n]);
      match events[n] {
        case Move(i, woken) => InvStep(states[n], i, woken);
        case Stray(i) => InvSpurious(states[n], i);
      }
      n := n + 1;
    }
  }

  /** No real step is possible. */
  ghost predicate Stuck<T>(s: State<T>) {
    forall i, woken :: !Movable(s.threads, i, woken)
  }

  /** When a thread sleeps although its predicate holds, somebody is about to move. */
  lemma NoSleeperWithWork<T>(s: State<T>)
    requires Inv(s) && Stuck(s)
    ensures forall i :: 0 <= i < |s.threads| ==>
      match s.threads[i]
      case Popping(wait) => wait == Asleep && s.queue == [] && !s.closed
      case Pushing(_, _, wait) => wait == Asleep && |s.queue| == s.capacity && !s.closed
      case Finished => true
      case _ => false
    ensures s.closed ==> forall i :: 0 <= i < |s.threads| ==> s.threads[i].Finished?
  {
    forall i | 0 <= i < |s.threads|
      ensures s.threads[i].Finished? || KindOf(s.threads[i]) in {ConsumerAsleep, ProducerAsleep}
    {
      if IsNotice(s.threads[i]) {
        var k := Listeners(s.threads[i]);
        CountZero(s.threads, k);
        if Count(s.threads, k) == 0 {
          assert Enabled(s, i, i);
        } else {
          var woken :| 0 <= woken < |s.threads| && KindOf(s.threads[woken]) == k;
          assert Enabled(s, i, woken);
        }
      } else {
        assert !Enabled(s, i, i);
      }
    }
    CountZero(s.threads, ConsumerWoken);
    CountZero(s.threads, ConsumerNotice);
    CountZero(s.threads, ProducerWoken);
    CountZero(s.threads, ProducerNotice);
    CountZero(s.threads, CloseFirst);
    CountZero(s.threads, CloseSecond);
    CountZero(s.threads, ConsumerAsleep);
    CountZero(s.threads, ProducerAsleep);
  }

  // ---- Termination of every run ----

  /** What a thread can still cost. n is the number of threads, so that a notify_all can pay for
      everybody it wakes. */
  function Weight<T>(t: Thread<T>, n: nat): nat {
    match t
    case Pushing(todo, closer, wait) =>
      6 * |todo| + (if closer then 2 * n + 2 else 0) + (if wait == Asleep then 0 else 1)
    case NotifyingConsumer(todo, closer) => 6 * |todo| + (if closer then 2 * n + 2 else 0) + 3
    case Popping(wait) => if wait == Asleep then 0 else 1
    case NotifyingProducer => 3
    case ClosingConsumers => 2 * n + 2
    case ClosingProducers => n + 1
    case Finished => 0
  }

  function Total<T>(ts: seq<Thread<T>>, n: nat): nat {
    if ts == [] then 0 else Weight(ts[0], n) + Total(ts[1..], n)
  }

  function Measure<T>(s: State<T>): nat {
    Total(s.threads, |s.threads|) + 3 * |s.queue|
  }

  lemma {:induction false} TotalUpdate<T>(ts: seq<Thread<T>>, i: nat, t: Thread<T>, n: nat)
    requires i < |ts|
    ensures Total(ts[i := t], n) == Total(ts, n) - Weight(ts[i], n) + Weight(t, n)
  {
    if i == 0 {
      assert ts[i := t][1..] == ts[1..];
    } else {
      TotalUpdate(ts[1..], i - 1, t, n);
      assert ts[i := t][1..] == ts[1..][i - 1 := t];
    }
  }

  lemma {:induction false} TotalWakeAll<T>(ts: seq<Thread<T>>, k: Kind, n: nat)
    ensures Total(WakeAll(ts, k), n) <= Total(ts, n) + |ts|
  {
    if ts != [] {
      TotalWakeAll(ts[1..], k, n);
      assert WakeAll(ts, k)[1..] == WakeAll(ts[1..], k);
    }
  }

  /** Every real step uses up some of the measure, so no run of real steps is infinite. */
  lemma MeasureDrops<T>(s: State<T>, i: nat, woken: nat)
    requires Enabled(s, i, woken)
    ensures Measure(Next(s, i, woken)) < Measure(s)
  {
    match s.threads[i]
    case Pushing(_, _, _) => QueueStepDrops(s, i);
    case Popping(_) => QueueStepDrops(s, i);
    case NotifyingConsumer(_, _) => NotifyStepDrops(s, i, woken);
    case NotifyingProducer => NotifyStepDrops(s, i, woken);
    case _ => CloseStepDrops(s, i);
  }

  /** A run without spurious wakeups has at most Measure(first state) steps. */
  lemma {:induction false} RunLength<T>(states: seq<State<T>>, events: seq<Event>)
    requires IsRun(states, events) && forall n :: 0 <= n < |events| ==> events[n].Move?
    ensures |events| <= Measure(states[0])
  {
    var n := 0;
    while n < |events|
      invariant 0 <= n <= |events|
      invariant n + Measure(states[n]) <= Measure(states[0])
    {
      assert Legal(states[n], events[n]);
      MeasureDrops(states[n], events[n].i, events[n].woken);
      n := n + 1;
    }
  }

  lemma QueueStepDrops<T>(s: State<T>, i: nat)
    requires Enabled(s, i, i) && (s.threads[i].Pushing? || s.threads[i].Popping?)
    ensures Measure(Next(s, i, i)) < Measure(s)
  {
    var s' := Next(s, i, i);
    TotalUpdate(s.threads, i, s'.threads[i], |s.threads|);
    assert s'.threads == s.threads[i := s'.threads[i]];
  }

  lemma NotifyStepDrops<T>(s: State<T>, i: nat, woken: nat)
    requires Enabled(s, i, woken) && IsNotice(s.threads[i])
    ensures Measure(Next(s, i, woken)) < Measure(s)
  {
    var s', n := Next(s, i, woken), |s.threads|;
    TotalUpdate(s.threads, woken, Wake(s.threads[woken]), n);
    TotalUpdate(s.threads[woken := Wake(s.threads[woken])], i, s'.threads[i], n);
  }

  lemma CloseStepDrops<T>(s: State<T>, i: nat)
    requires Enabled(s, i, i)
    requires s.threads[i].ClosingConsumers? || s.threads[i].ClosingProducers?
    ensures Measure(Next(s, i, i)) < Measure(s)
  {
    var s', n := Next(s, i, i), |s.threads|;
    var k := if s.threads[i].ClosingConsumers? then ConsumerAsleep else ProducerAsleep;
    TotalWakeAll(s.threads, k, n);
    TotalUpdate(WakeAll(s.threads, k), i, s'.threads[i], n);
  }

  // ---- The sweep's pool ----

  datatype Role = Consumer | Producer(closer: bool)

  /** What a thread of a given role can be doing, and what its having finished proves. */
  ghost predicate Fits<T>(t: Thread<T>, role: Role, s: State<T>) {
    match role
    case Consumer => t.Popping? || t.NotifyingProducer? || (t.Finished? && s.closed && s.queue == [])
    case Producer(closer) =>
      || ((t.Pushing? || t.NotifyingConsumer?) && t.closer == closer)
      || (closer && s.closed && (t.ClosingConsumers? || t.ClosingProducers?))
      || (t.Finished? && (closer ==> s.closed))
  }

  ghost predicate RolesKept<T>(s: State<T>, roles: seq<Role>) {
    |roles| == |s.threads| && forall i :: 0 <= i < |roles| ==> Fits(s.threads[i], roles[i], s)
  }

  lemma RolesStep<T>(s: State<T>, roles: seq<Role>, i: nat, woken: nat)
    requires RolesKept(s, roles) && Enabled(s, i, woken)
    ensures RolesKept(Next(s, i, woken), roles)
  {
    var s' := Next(s, i, woken);
    forall k | 0 <= k < |roles|
      ensures Fits(s'.threads[k], roles[k], s')
    {
      assert Fits(s.threads[k], roles[k], s) && Fits(s.threads[i], roles[i], s);
    }
  }

  /** Once no thread can move, a pool with a worker and with a producer that closes has finished
      every thread and popped everything it accepted. */
  lemma PoolDrains<T>(s: State<T>, roles: seq<Role>)
    requires Inv(s) && Stuck(s) && RolesKept(s, roles)
    requires Consumer in roles && Producer(true) in roles
    ensures forall i :: 0 <= i < |s.threads| ==> s.threads[i].Finished?
    ensures s.closed && s.queue == [] && s.popped == s.accepted
  {
    NoSleeperWithWork(s);
    var w :| 0 <= w < |roles| && roles[w] == Consumer;
    var p :| 0 <= p < |roles| && roles[p] == Producer(true);
    assert Fits(s.threads[w], Consumer, s) && Fits(s.threads[p], Producer(true), s);
  }

  /** The items a producer has still to offer. */
  function Todo<T>(t: Thread<T>): seq<T> {
    if t.Pushing? || t.NotifyingConsumer? then t.todo else []
  }

  /** scan_root's pool: thread 0 walks and closes, all others are workers. Everything walked is
      either accepted already or still to be offered, so nothing is ever refused. */
  ghost predicate Walking<T>(s: State<T>, roles: seq<Role>, items: seq<T>) {
    && RolesKept(s, roles)
    && |roles| >= 2
    && roles[0] == Producer(true)
    && (forall i :: 1 <= i < |roles| ==> roles[i] == Consumer)
    && s.accepted + Todo(s.threads[0]) == items
    && (s.closed ==> Todo(s.threads[0]) == [])
  }

  lemma WalkingStep<T>(s: State<T>, roles: seq<Role>, items: seq<T>, i: nat, woken: nat)
    requires Walking(s, roles, items) && Enabled(s, i, woken)
    ensures Walking(Next(s, i, woken), roles, items)
  {
    RolesStep(s, roles, i, woken);
    var s' := Next(s, i, woken);
    assert Fits(s.threads[i], roles[i], s);
    if i == 0 && s.threads[0].Pushing? && s.threads[0].todo != [] && !s.closed && |s.queue| < s.capacity {
      var todo := s.threads[0].todo;
      assert s.accepted + [todo[0]] + todo[1..] == s.accepted + todo;
    }
  }

  function Pool<T>(items: seq<T>, workers: nat, capacity: nat): State<T> {
    State(capacity, [], false, [Pushing(items, true, Calling)] + seq(workers, _ => Popping(Calling)), [], [])
  }

  function PoolRoles(workers: nat): seq<Role> {
    [Producer(true)] + seq(workers, _ => Consumer)
  }

  /** The pool of scan_root under an arbitrary scheduler: whatever thread the scheduler lets move,
      and whatever sleeper a notification picks, it ends, and the workers have received exactly the
      walked items, in walk order. `schedule` is the scheduler; a choice that is not possible is
      replaced by one that is. */
  method RunPool<T>(items: seq<T>, workers: nat, requested: nat, schedule: seq<(nat, nat)>)
    returns (popped: seq<T>, ghost final: State<T>)
    requires workers >= 1
    ensures popped == items
    ensures final.popped == items && final.queue == [] && final.closed
    ensures forall i :: 0 <= i < |final.threads| ==> final.threads[i].Finished?
  {
    var q := new Queue<T>(requested);
    var threads := Pool(items, workers, q.capacity).threads;
    ghost var roles := PoolRoles(workers);
    popped := [];
    ghost var accepted: seq<T> := [];
    var turn := 0;
    ghost var s := Pool(items, workers, q.capacity);
    InvInitial(s);
    while true
      invariant s == State(q.capacity, q.queue, q.closed, threads, accepted, popped)
      invariant fresh(q)
      invariant Inv(s) && Walking(s, roles, items) && roles == PoolRoles(workers)
      decreases Measure(s)
    {
      var found, i, woken := Choose(threads, if turn < |schedule| then schedule[turn] else (0, 0));
      if !found {
        break;
      }
      turn := turn + 1;
      InvStep(s, i, woken);
      WalkingStep(s, roles, items, i, woken);
      MeasureDrops(s, i, woken);
      s := Next(s, i, woken);
      threads, popped, accepted := Act(q, threads, popped, accepted, i, woken);
    }
    assert roles[0] == Producer(true) && roles[1] == Consumer;
    PoolDrains(s, roles);
    final := s;
  }

  /** One real step of the pool, carried out on the queue object. */
  method Act<T>(q: Queue<T>, threads: seq<Thread<T>>, popped: seq<T>, ghost accepted: seq<T>, i: nat, woken: nat)
    returns (threads': seq<Thread<T>>, popped': seq<T>, ghost accepted': seq<T>)
    requires Enabled(State(q.capacity, q.queue, q.closed, threads, accepted, popped), i, woken)
    modifies q
    ensures State(q.capacity, q.queue, q.closed, threads', accepted', popped') ==
            old(Next(State(q.capacity, q.queue, q.closed, threads, accepted, popped), i, woken))
  {
    popped', accepted' := popped, accepted;
    match threads[i] {
      case Pushing(todo, closer, _) =>
        if todo == [] {
          if closer {
            q.Close();
          }
          threads' := threads[i := if closer then ClosingConsumers else Finished];
        } else if q.PushReady() {
          var ok := q.Push(todo[0]);
          accepted' := if ok then accepted + [todo[0]] else accepted;
          threads' := threads[i := if ok then NotifyingConsumer(todo[1..], closer)
              else Pushing(todo[1..], closer, Calling)];
        } else {
          threads' := threads[i := Pushing(todo, closer, Asleep)];
        }
      case Popping(_) =>
        if q.PopReady() {
          var item := q.Pop();
          popped' := if item.Some? then popped + [item.value] else popped;
          threads' := threads[i := if item.Some? then NotifyingProducer else Finished];
        } else {
          threads' := threads[i := Popping(Asleep)];
        }
      case NotifyingConsumer(todo, closer) =>
        threads' := threads[woken := Wake(threads[woken])][i := Pushing(todo, closer, Calling)];
      case NotifyingProducer =>
        threads' := threads[woken := Wake(threads[woken])][i := Popping(Calling)];
      case ClosingConsumers =>
        threads' := WakeAll(threads, ConsumerAsleep)[i := ClosingProducers];
      case ClosingProducers =>
        threads' := WakeAll(threads, ProducerAsleep)[i := Finished];
    }
  }

  /** The scheduler's choice when it is possible, otherwise the first thread that can move. */
  method Choose<T>(ts: seq<Thread<T>>, wish: (nat, nat)) returns (found: bool, i: nat, woken: nat)
    ensures found <==> exists j, v :: Movable(ts, j, v)
    ensures found ==> Movable(ts, i, woken)
    ensures Movable(ts, wish.0, wish.1) ==> (i, woken) == wish
  {
    i, woken := wish.0, wish.1;
    found := Movable(ts, i, woken);
    if found {
      return;
    }
    i := 0;
    while i < |ts|
      invariant 0 <= i <= |ts|
      invariant forall j, v :: 0 <= j < i ==> !Movable(ts, j, v)
    {
      var v := 0;
      while v < |ts|
        invariant 0 <= v <= |ts|
        invariant forall u :: 0 <= u < v ==> !Movable(ts, i, u)
      {
        if Movable(ts, i, v) {
          return true, i, v;
        }
        v := v + 1;
      }
      i := i + 1;
    }
    found := false;
  }
}
