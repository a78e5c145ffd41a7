/** Workers that interleave leave, ids and stamps included, what some order of the same items, worked on one
    after the other, leaves. */
module Racing {
  import opened Options
  import opened Tables
  import opened FrameStore
  import opened Database
  import opened Sweep

  // ---- Which items are finished ----

  /** How many turns an item has had. */
  function Steps(turns: seq<Turn>, i: nat): nat {
    if turns == [] then 0
    else Steps(turns[..|turns| - 1], i) + if turns[|turns| - 1].i == i then 1 else 0
  }

  /** A frame file is looked up, then handled; anything else is done with at once. */
  predicate Finishes(items: seq<Item>, turns: seq<Turn>, i: nat)
    requires i < |items|
  {
    Steps(turns, i) >= if IsFrameFile(items[i]) then 2 else 1
  }

  predicate InRange(items: seq<Item>, turns: seq<Turn>) {
    forall n :: 0 <= n < |turns| ==> turns[n].i < |items|
  }

  ghost predicate AllFinish(items: seq<Item>, turns: seq<Turn>) {
    forall i :: 0 <= i < |items| ==> Finishes(items, turns, i)
  }

  lemma {:induction false} PhaseIs(t: Tables, items: seq<Item>, turns: seq<Turn>, zone: int, i: nat)
    requires InRange(items, turns) && i < |items|
    ensures var phase := Run(Start(t, items), items, turns, zone).phases[i];
            && (phase.Waiting? <==> Steps(turns, i) == 0)
            && (phase.Finished? <==> Finishes(items, turns, i))
    decreases |turns|
  {
    hide Skips, Touched, Processed;
    if turns != [] {
      PhaseIs(t, items, turns[..|turns| - 1], zone, i);
    }
  }

  lemma RunCompletes(t: Tables, items: seq<Item>, turns: seq<Turn>, zone: int)
    requires InRange(items, turns)
    ensures Complete(Run(Start(t, items), items, turns, zone)) <==> AllFinish(items, turns)
  {
    hide Run, Finishes;
    forall i | 0 <= i < |items|
      ensures Run(Start(t, items), items, turns, zone).phases[i].Finished? <==> Finishes(items, turns, i)
    {
      PhaseIs(t, items, turns, zone, i);
    }
  }

  // ---- The order of the writes ----

  function Picked(items: seq<Item>, who: seq<nat>): seq<Item>
    requires forall n :: 0 <= n < |who| ==> who[n] < |items|
  {
    seq(|who|, n requires 0 <= n < |who| => items[who[n]])
  }

  /** The finished frame files, each once, in the order of the turns that wrote them, with their stamps. */
  ghost predicate Orders(items: seq<Item>, turns: seq<Turn>, who: seq<nat>, stamps: seq<Time>, at: seq<nat>) {
    && |who| == |stamps| == |at|
    && (forall n :: 0 <= n < |who| ==>
          && who[n] < |items| && IsFrameFile(items[who[n]]) && Finishes(items, turns, who[n])
          && at[n] < |turns| && turns[at[n]] == Turn(who[n], stamps[n]))
    && (forall m, n :: 0 <= m < n < |who| ==> who[m] != who[n] && at[m] < at[n])
    && (forall i :: 0 <= i < |items| && IsFrameFile(items[i]) && Finishes(items, turns, i) ==> i in who)
  }

  /** The second turn of a frame file handles it, as if it had not been disturbed since the first. */
  lemma DecidedHandles(t0: Tables, items: seq<Item>, s: State, i: nat, now: Time, zone: int)
    requires |s.phases| == |items| && SweepInv(t0, items, s) && i < |items|
    ensures Advance(s, items, i, now, zone).t
         == if s.phases[i].Decided? then Handled(s.t, items[i], now, zone) else s.t
  {
    hide Skips, Touched, Processed, Valid, Kept, PathwiseDone;
    if s.phases[i].Decided? {
      assert IsFrameFile(items[i]);
    }
  }

  lemma SweptMore(t: Tables, items: seq<Item>, stamps: seq<Time>, item: Item, now: Time, zone: int)
    requires |stamps| == |items|
    ensures Swept(t, items + [item], stamps + [now], zone) == Handled(Swept(t, items, stamps, zone), item, now, zone)
  {
    var all, clock := items + [item], stamps + [now];
    assert all[..|all| - 1] == items && clock[..|clock| - 1] == stamps;
  }

  lemma StepsMore(turns: seq<Turn>, last: Turn, i: nat)
    ensures Steps(turns + [last], i) == Steps(turns, i) + if last.i == i then 1 else 0
  {
    assert (turns + [last])[..|turns|] == turns;
  }

  /** The turn writes: it is the second one of a frame file. */
  predicate Writes(items: seq<Item>, turns: seq<Turn>, i: nat)
    requires i < |items|
  {
    IsFrameFile(items[i]) && Steps(turns, i) == 1
  }

  lemma FinishesMore(items: seq<Item>, turns: seq<Turn>, last: Turn, i: nat)
    requires i < |items|
    ensures Finishes(items, turns, i) ==> Finishes(items, turns + [last], i)
    ensures IsFrameFile(items[i]) ==>
              (Finishes(items, turns + [last], i) <==>
                 Finishes(items, turns, i) || (i == last.i && Writes(items, turns, i)))
    ensures Writes(items, turns, i) ==> !Finishes(items, turns, i)
  {
    StepsMore(turns, last, i);
    hide Steps;
  }

  lemma OrdersKept(items: seq<Item>, turns: seq<Turn>, last: Turn, who: seq<nat>, stamps: seq<Time>, at: seq<nat>)
    requires Orders(items, turns, who, stamps, at) && last.i < |items| && !Writes(items, turns, last.i)
    ensures Orders(items, turns + [last], who, stamps, at)
  {
    hide Finishes, Writes;
    forall i | 0 <= i < |items|
      ensures Finishes(items, turns, i) ==> Finishes(items, turns + [last], i)
      ensures IsFrameFile(items[i]) ==> (Finishes(items, turns + [last], i) ==> Finishes(items, turns, i))
    {
      FinishesMore(items, turns, last, i);
    }
    assert forall m :: 0 <= m < |turns| ==> (turns + [last])[m] == turns[m];
  }

  lemma OrdersExtended(items: seq<Item>, turns: seq<Turn>, last: Turn, who: seq<nat>, stamps: seq<Time>, at: seq<nat>)
    requires Orders(items, turns, who, stamps, at) && last.i < |items| && Writes(items, turns, last.i)
    ensures Orders(items, turns + [last], who + [last.i], stamps + [last.now], at + [|turns|])
  {
    hide Finishes, Writes, IsFrameFile;
    var who', stamps', at', turns' := who + [last.i], stamps + [last.now], at + [|turns|], turns + [last];
    FinishesMore(items, turns, last, last.i);
    assert IsFrameFile(items[last.i]) by {
      WriterIsFrame(items, turns, last.i);
    }
    forall n | 0 <= n < |who'|
      ensures who'[n] < |items| && IsFrameFile(items[who'[n]]) && Finishes(items, turns', who'[n])
      ensures at'[n] < |turns'| && turns'[at'[n]] == Turn(who'[n], stamps'[n])
      ensures n < |who| ==> who'[n] != last.i && at'[n] < |turns|
    {
      if n < |who| {
        assert who'[n] == who[n];
        FinishesMore(items, turns, last, who[n]);
      }
    }
    forall i | 0 <= i < |items| && IsFrameFile(items[i]) && Finishes(items, turns', i)
      ensures i in who'
    {
      FinishesMore(items, turns, last, i);
      if i == last.i {
        assert who'[|who|] == i;
      }
    }
  }

  lemma WriterIsFrame(items: seq<Item>, turns: seq<Turn>, i: nat)
    requires i < |items| && Writes(items, turns, i)
    ensures IsFrameFile(items[i])
  {
  }

  /** However the workers interleave, and whether or not all items are finished, the tables are those of
      the finished frame files worked on one after the other, in the order in which they were written. */
  lemma {:induction false} Linearized(t: Tables, items: seq<Item>, turns: seq<Turn>, zone: int)
    returns (who: seq<nat>, stamps: seq<Time>, at: seq<nat>)
    requires Valid(t) && DistinctPaths(items) && InRange(items, turns)
    ensures Orders(items, turns, who, stamps, at)
    ensures Run(Start(t, items), items, turns, zone).t == Swept(t, Picked(items, who), stamps, zone)
    decreases |turns|
  {
    hide Valid, DistinctPaths, SweepInv, Handled, Steps, Swept, Advance;
    who, stamps, at := [], [], [];
    if turns == [] {
      NothingYet(t, items, zone);
    } else {
      var front, last := turns[..|turns| - 1], turns[|turns| - 1];
      who, stamps, at := Linearized(t, items, front, zone);
      var s := Run(Start(t, items), items, front, zone);
      RunKeepsInv(t, items, front, zone);
      DecidedHandles(t, items, s, last.i, last.now, zone);
      PhaseIs(t, items, front, zone, last.i);
      assert front + [last] == turns;
      if s.phases[last.i].Decided? {
        DecidedIsFrame(t, items, s, last.i);
        OrdersExtended(items, front, last, who, stamps, at);
        SweptMore(t, Picked(items, who), stamps, items[last.i], last.now, zone);
        assert Picked(items, who + [last.i]) == Picked(items, who) + [items[last.i]];
        who, stamps, at := who + [last.i], stamps + [last.now], at + [|front|];
      } else {
        OrdersKept(items, front, last, who, stamps, at);
      }
    }
  }

  lemma NothingYet(t: Tables, items: seq<Item>, zone: int)
    ensures Orders(items, [], [], [], [])
    ensures Run(Start(t, items), items, [], zone).t == t == Swept(t, Picked(items, []), [], zone)
  {
  }

  lemma DecidedIsFrame(t0: Tables, items: seq<Item>, s: State, i: nat)
    requires |s.phases| == |items| && SweepInv(t0, items, s) && i < |items| && s.phases[i].Decided?
    ensures IsFrameFile(items[i])
  {
    hide Valid, Kept, PathwiseDone, Skips;
  }

  lemma PickedDistinct(items: seq<Item>, turns: seq<Turn>, who: seq<nat>, stamps: seq<Time>, at: seq<nat>)
    requires DistinctPaths(items) && Orders(items, turns, who, stamps, at)
    ensures DistinctPaths(Picked(items, who))
  {
    hide Finishes;
    var picked := Picked(items, who);
    forall m, n | 0 <= m < |picked| && 0 <= n < |picked| && KeyedBy(picked[m], picked[n].root, picked[n].place.hash)
      ensures m == n
    {
      assert KeyedBy(items[who[m]], items[who[n]].root, items[who[n]].place.hash);
    }
  }
}
