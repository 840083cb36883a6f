/** What a consumer sees over a whole run of reassembly.  Every statement here is about all
    lists of honest events: any order, loss, duplication, overlap or re-cutting of the
    fragments of one well-formed media. */
module Delivery {
  import opened Media
  import opened PacketList
  import opened Arrivals
  import opened Reassembly

  function ItemOf(c: ReadyCall): Item {
    Item(c.key, MediaObject(c.data, c.flags))
  }

  /** What an in-order consumer keeps: everything but the peeks. */
  function InOrder(calls: seq<ReadyCall>): seq<Item> {
    if calls == [] then []
    else InOrder(calls[..|calls| - 1]) +
         if calls[|calls| - 1].mode == Peek then [] else [ItemOf(calls[|calls| - 1])]
  }

  /** What an out-of-order consumer keeps: everything but the repairs. */
  function OutOfOrder(calls: seq<ReadyCall>): seq<Item> {
    if calls == [] then []
    else OutOfOrder(calls[..|calls| - 1]) +
         if calls[|calls| - 1].mode == Repair then [] else [ItemOf(calls[|calls| - 1])]
  }

  lemma {:induction false} InOrderConcat(a: seq<ReadyCall>, b: seq<ReadyCall>)
    ensures InOrder(a + b) == InOrder(a) + InOrder(b)
  {
    if b == [] {
      assert a + b == a;
    } else {
      assert (a + b)[..|a + b| - 1] == a + b[..|b| - 1];
      InOrderConcat(a, b[..|b| - 1]);
    }
  }

  lemma {:induction false} OutOfOrderConcat(a: seq<ReadyCall>, b: seq<ReadyCall>)
    ensures OutOfOrder(a + b) == OutOfOrder(a) + OutOfOrder(b)
  {
    if b == [] {
      assert a + b == a;
    } else {
      assert (a + b)[..|a + b| - 1] == a + b[..|b| - 1];
      OutOfOrderConcat(a, b[..|b| - 1]);
    }
  }

  lemma {:induction false} FilterCalls(items: seq<Item>, mode: Mode)
    ensures InOrder(CallsFor(items, mode)) == if mode == Peek then [] else items
    ensures OutOfOrder(CallsFor(items, mode)) == if mode == Repair then [] else items
  {
    if items != [] {
      var calls, n := CallsFor(items, mode), |items| - 1;
      assert calls[..n] == CallsFor(items[..n], mode);
      assert ItemOf(calls[n]) == items[n];
      FilterCalls(items[..n], mode);
      assert items == items[..n] + [items[n]];
    }
  }

  lemma OneCall(c: ReadyCall)
    ensures InOrder([c]) == if c.mode == Peek then [] else [ItemOf(c)]
    ensures OutOfOrder([c]) == if c.mode == Repair then [] else [ItemOf(c)]
  {
    assert [c][..0] == [];
  }

  /** An object in sequence and the repairs behind it. */
  lemma DeliverNow(items: seq<Item>, c: nat, d: nat)
    requires c < d <= |items|
    ensures var calls := [CallFor(items[c], InSequence)] + CallsFor(items[c + 1..d], Repair);
            InOrder(calls) == items[c..d] && OutOfOrder(calls) == [items[c]]
  {
    hide InOrder, OutOfOrder, CallsFor;
    var call, more := CallFor(items[c], InSequence), items[c + 1..d];
    OneCall(call);
    InOrderConcat([call], CallsFor(more, Repair));
    OutOfOrderConcat([call], CallsFor(more, Repair));
    FilterCalls(more, Repair);
    assert ItemOf(call) == items[c];
    assert items[c..d] == [items[c]] + more;
  }

  /** On one arrival, the in-order consumer sees the objects the cursor passes, and the
      out-of-order consumer sees the object if this arrival completes it. */
  lemma ArrivalDelivers(m: Groups, es: seq<Event>, f: Fragment)
    requires InMedia(m, f.key)
    ensures Cursor(m, es) <= Cursor(m, es + [Arrival(f)])
    ensures InOrder(ArrivalCalls(m, es, f)) == Items(m)[Cursor(m, es)..Cursor(m, es + [Arrival(f)])]
    ensures OutOfOrder(ArrivalCalls(m, es, f)) ==
            if Rank(m, f.key) < Cursor(m, es) || Arrived(m, es, f.key) || !Arrived(m, es + [Arrival(f)], f.key) then []
            else [Item(f.key, ObjectAt(m, f.key))]
  {
    hide Cursor, Arrived, Items, InOrder, OutOfOrder, Rank, CallsFor, ArrivedAt;
    var es' := es + [Arrival(f)];
    var item := Item(f.key, ObjectAt(m, f.key));
    OneCall(CallFor(item, Peek));
    NoCalls();
    if Rank(m, f.key) == Cursor(m, es) && Arrived(m, es', f.key) {
      CursorRests(m, es);
      ArrivedAtRank(m, es, f.key);
      AdvanceAt(m, es, f);
      ItemsAt(m, f.key);
      DeliverNow(Items(m), Cursor(m, es), Cursor(m, es'));
    } else {
      CursorStays(m, es, Arrival(f));
    }
  }

  lemma NoCalls()
    ensures InOrder([]) == [] && OutOfOrder([]) == []
  {
  }

  lemma StepInOrder(m: Groups, es: seq<Event>, e: Event)
    requires WellFormed(m) && AllHonest(m, es + [e]) && !e.Start?
    ensures Cursor(m, es) <= Cursor(m, es + [e])
    ensures InOrder(Run(es + [e]).1) == InOrder(Run(es).1) + Items(m)[Cursor(m, es)..Cursor(m, es + [e])]
  {
    hide Cursor, Items, Invariant, RunCalls, Run, InOrder, ArrivalCalls, IsSlice;
    RunCallsUnfold(m, es, e);
    RunRefinesReference(m, es + [e]);
    RunRefinesReference(m, es);
    InOrderConcat(RunCalls(m, es), EventCalls(m, es, e));
    NoCalls();
    match e {
      case Arrival(f) => SliceIsInMedia(m, f); ArrivalDelivers(m, es, f);
      case Final(_) => CursorStays(m, es, e);
    }
  }

  lemma SliceIsInMedia(m: Groups, f: Fragment)
    requires IsSlice(m, f)
    ensures InMedia(m, f.key)
  {
  }

  /** In-order safety and liveness in one equation.  Since the last start point, the in-order
      consumer saw exactly the objects of the media from where the cursor was up to the first
      object that is still incomplete: each once, in order, with its own bytes and flags. */
  lemma {:induction false} InOrderDelivery(m: Groups, es: seq<Event>, from: nat)
    requires WellFormed(m) && AllHonest(m, es) && from <= |es| && NoStart(es, from)
    ensures Cursor(m, es[..from]) <= Cursor(m, es)
    ensures InOrder(Run(es).1) == InOrder(Run(es[..from]).1) + Items(m)[Cursor(m, es[..from])..Cursor(m, es)]
    decreases |es|
  {
    hide Cursor, Items, Run, InOrder, Honest;
    if from == |es| {
      assert es[..from] == es;
    } else {
      var prefix, e := es[..|es| - 1], es[|es| - 1];
      assert es == prefix + [e] && prefix[..from] == es[..from];
      InOrderDelivery(m, prefix, from);
      StepInOrder(m, prefix, e);
      Join(Items(m), Cursor(m, es[..from]), Cursor(m, prefix), Cursor(m, es));
    }
  }

  lemma Join(items: seq<Item>, a: nat, b: nat, c: nat)
    requires a <= b <= c <= |items|
    ensures items[a..b] + items[b..c] == items[a..c]
  {
  }

  lemma RunCallsUnfold(m: Groups, es: seq<Event>, e: Event)
    requires AllHonest(m, es + [e])
    ensures AllHonest(m, es) && Honest(m, e)
    ensures RunCalls(m, es + [e]) == RunCalls(m, es) + EventCalls(m, es, e)
  {
    var es' := es + [e];
    assert es'[..|es'| - 1] == es && es'[|es|] == e;
    assert forall i :: 0 <= i < |es| ==> es[i] == es'[i];
  }

  /** With no start point at all: a prefix of the media. */
  lemma PrefixOfTheMedia(m: Groups, es: seq<Event>)
    requires WellFormed(m) && AllHonest(m, es) && NoStart(es, 0)
    ensures InOrder(Run(es).1) == Items(m)[..Cursor(m, es)]
  {
    InOrderDelivery(m, es, 0);
    assert es[..0] == [];
  }

  /** No stuck object, and an exact end: after every run without start points the machine
      waits for the least incomplete object, under either of its two names, and it reports
      the media as finished exactly when the final identifier is known and every object
      arrived, whichever came first. */
  lemma NothingStuck(m: Groups, es: seq<Event>)
    requires WellFormed(m) && AllHonest(m, es) && NoStart(es, 0)
    ensures var s := Run(es).0;
            && IsCursor(m, s.next)
            && (forall k :: InMedia(m, k) && Rank(m, k) < Rank(m, s.next) ==> Arrived(m, es, k))
            && (forall k :: InMedia(m, k) && Rank(m, k) == Rank(m, s.next) ==> !Arrived(m, es, k))
            && (s.finished <==> FinalSeen(es) && forall k :: InMedia(m, k) ==> Arrived(m, es, k))
  {
    RunRefinesReference(m, es);
    CursorIsLeastMissing(m, es);
    if Cursor(m, es) < Count(m) {
      var k := KeyAt(m, Cursor(m, es));
      assert !Arrived(m, es, k);
    } else {
      forall k | InMedia(m, k) ensures Arrived(m, es, k) {
        RankBelowCount(m, k);
      }
    }
  }

  // ----- Out of order -----

  /** What the out-of-order consumer must see on one event. */
  ghost function Completions(m: Groups, es: seq<Event>, e: Event): seq<Item>
    requires Honest(m, e)
  {
    if !e.Arrival? then []
    else
      var k := e.fragment.key;
      if Rank(m, k) < Cursor(m, es) || Arrived(m, es, k) || !Arrived(m, es + [e], k) then []
      else [Item(k, ObjectAt(m, k))]
  }

  lemma StepOutOfOrder(m: Groups, es: seq<Event>, e: Event)
    requires WellFormed(m) && AllHonest(m, es + [e])
    ensures Honest(m, e)
    ensures OutOfOrder(Run(es + [e]).1) == OutOfOrder(Run(es).1) + Completions(m, es, e)
  {
    RunCallsUnfold(m, es, e);
    hide Cursor, Items, Invariant, RunCalls, Run, OutOfOrder, ArrivalCalls, Arrived, CallsFor, Resume, IsCursor;
    RunRefinesReference(m, es + [e]);
    RunRefinesReference(m, es);
    OutOfOrderConcat(RunCalls(m, es), EventCalls(m, es, e));
    NoCalls();
    match e {
      case Arrival(f) => ArrivalDelivers(m, es, f);
      case Start(_) => CursorUnfold(m, es, e); FilterCalls(Items(m)[Resume(m, es, e)..Cursor(m, es + [e])], Repair);
      case Final(_) =>
    }
  }

  ghost predicate Holds(out: seq<Item>, k: Key) {
    exists i :: 0 <= i < |out| && out[i].key == k
  }

  /** Each complete object once, none twice, and never with another's bytes. */
  ghost predicate ExactlyTheArrived(m: Groups, es: seq<Event>, out: seq<Item>) {
    && (forall i, j :: 0 <= i < j < |out| ==> out[i].key != out[j].key)
    && (forall i :: 0 <= i < |out| ==>
          InMedia(m, out[i].key) && out[i].content == ObjectAt(m, out[i].key) && Arrived(m, es, out[i].key))
  }

  lemma AtMostOnceStep(m: Groups, es: seq<Event>, e: Event, out: seq<Item>)
    requires Honest(m, e) && ExactlyTheArrived(m, es, out)
    ensures ExactlyTheArrived(m, es + [e], out + Completions(m, es, e))
  {
    hide Cursor, Arrived;
    forall i | 0 <= i < |out| ensures Arrived(m, es + [e], out[i].key) {
      ArrivedStays(m, es, e, out[i].key);
    }
  }

  /** Out-of-order delivery hands over every object at most once, whatever the events. */
  lemma {:induction false} OutOfOrderAtMostOnce(m: Groups, es: seq<Event>)
    requires WellFormed(m) && AllHonest(m, es)
    ensures ExactlyTheArrived(m, es, OutOfOrder(Run(es).1))
  {
    if es == [] {
      NoCalls();
    } else {
      hide Cursor, Run, OutOfOrder, Arrived, ExactlyTheArrived, Honest;
      var prefix, e := es[..|es| - 1], es[|es| - 1];
      assert es == prefix + [e];
      OutOfOrderAtMostOnce(m, prefix);
      StepOutOfOrder(m, prefix, e);
      AtMostOnceStep(m, prefix, e, OutOfOrder(Run(prefix).1));
    }
  }

  /** One event keeps completeness: what newly arrived is newly delivered. */
  lemma CompletenessStep(m: Groups, es: seq<Event>, e: Event, out: seq<Item>)
    requires WellFormed(m) && AllHonest(m, es) && NoStart(es, 0) && Honest(m, e)
    requires forall k :: InMedia(m, k) && Arrived(m, es, k) ==> Holds(out, k)
    ensures forall k :: InMedia(m, k) && Arrived(m, es + [e], k) ==> Holds(out + Completions(m, es, e), k)
  {
    hide Cursor, Arrived, Holds, Honest, Completions;
    forall k | InMedia(m, k) && Arrived(m, es + [e], k) ensures Holds(out + Completions(m, es, e), k) {
      if !Arrived(m, es, k) {
        NewlyArrived(m, es, e, k);
      }
      HoldsConcat(out, Completions(m, es, e), k);
    }
  }

  /** Without start points it hands over exactly the objects whose bytes all arrived. */
  lemma {:induction false} OutOfOrderExactlyOnce(m: Groups, es: seq<Event>)
    requires WellFormed(m) && AllHonest(m, es) && NoStart(es, 0)
    ensures ExactlyTheArrived(m, es, OutOfOrder(Run(es).1))
    ensures forall k :: InMedia(m, k) && Arrived(m, es, k) ==> Holds(OutOfOrder(Run(es).1), k)
  {
    hide Cursor, Run, OutOfOrder, Arrived, ExactlyTheArrived, Holds, Honest;
    OutOfOrderAtMostOnce(m, es);
    if es == [] {
      NothingArrived(m);
    } else {
      var prefix, e := es[..|es| - 1], es[|es| - 1];
      assert es == prefix + [e];
      OutOfOrderExactlyOnce(m, prefix);
      StepOutOfOrder(m, prefix, e);
      CompletenessStep(m, prefix, e, OutOfOrder(Run(prefix).1));
    }
  }

  lemma NothingArrived(m: Groups)
    ensures forall k :: InMedia(m, k) ==> !Arrived(m, [], k)
    ensures OutOfOrder(Run([]).1) == []
  {
  }

  lemma HoldsConcat(a: seq<Item>, b: seq<Item>, k: Key)
    ensures Holds(a, k) || Holds(b, k) ==> Holds(a + b, k)
  {
    if Holds(a, k) {
      var i :| 0 <= i < |a| && a[i].key == k;
      assert (a + b)[i].key == k;
    }
    if Holds(b, k) {
      var i :| 0 <= i < |b| && b[i].key == k;
      assert (a + b)[|a| + i].key == k;
    }
  }

  lemma NewlyArrived(m: Groups, es: seq<Event>, e: Event, k: Key)
    requires WellFormed(m) && AllHonest(m, es) && NoStart(es, 0) && Honest(m, e)
    requires InMedia(m, k) && Arrived(m, es + [e], k) && !Arrived(m, es, k)
    ensures Holds(Completions(m, es, e), k)
  {
    OnlyItsObject(m, es, e, k);
    CursorIsLeastMissing(m, es);
    assert Completions(m, es, e)[0].key == k;
  }

  // ----- Every repair follows a peek -----

  /** An object that is complete but not yet passed has been peeked at. */
  lemma {:induction false} PeekedBefore(m: Groups, es: seq<Event>, k: Key)
    requires AllHonest(m, es) && InMedia(m, k) && Arrived(m, es, k) && Cursor(m, es) <= Rank(m, k)
    ensures CallFor(Item(k, ObjectAt(m, k)), Peek) in RunCalls(m, es)
  {
    hide Cursor, RunCalls, Arrived, CallsFor, Resume, EventCalls, CallFor;
    if es == [] {
      NothingArrived(m);
    } else {
      var prefix, e := es[..|es| - 1], es[|es| - 1];
      assert es == prefix + [e];
      RunCallsUnfold(m, prefix, e);
      CursorUnfold(m, prefix, e);
      CursorMoves(m, prefix, e);
      if Arrived(m, prefix, k) {
        PeekedBefore(m, prefix, k);
      } else {
        CompletedByPeek(m, prefix, e, k);
      }
    }
  }

  lemma CursorMoves(m: Groups, es: seq<Event>, e: Event)
    ensures Cursor(m, es) <= Cursor(m, es + [e])
  {
    assert (es + [e])[..|es|] == es;
  }

  lemma CompletedByPeek(m: Groups, es: seq<Event>, e: Event, k: Key)
    requires Honest(m, e) && InMedia(m, k) && Arrived(m, es + [e], k) && !Arrived(m, es, k)
    requires Cursor(m, es) <= Cursor(m, es + [e]) <= Rank(m, k)
    ensures CallFor(Item(k, ObjectAt(m, k)), Peek) in EventCalls(m, es, e)
  {
    OnlyItsObject(m, es, e, k);
    if Rank(m, k) == Cursor(m, es) {
      AdvanceAt(m, es, e.fragment);
    }
  }

  ghost predicate RepairsFollowPeeks(calls: seq<ReadyCall>) {
    forall i :: 0 <= i < |calls| && calls[i].mode == Repair ==> calls[i].(mode := Peek) in calls[..i]
  }

  lemma RepairsStep(m: Groups, es: seq<Event>, e: Event)
    requires AllHonest(m, es + [e]) && AllHonest(m, es) && RepairsFollowPeeks(RunCalls(m, es))
    ensures RepairsFollowPeeks(RunCalls(m, es + [e]))
  {
    hide RunCalls, Cursor, EventCalls, RepairsFollowPeeks;
    RunCallsUnfold(m, es, e);
    forall c | c in EventCalls(m, es, e) && c.mode == Repair ensures c.(mode := Peek) in RunCalls(m, es) {
      RepairedWasPeeked(m, es, e, c);
    }
    RepairsAppend(RunCalls(m, es), EventCalls(m, es, e));
  }

  /** No object is ever repaired that the consumer was not shown before. */
  lemma {:induction false} RepairFollowsPeek(m: Groups, es: seq<Event>)
    requires WellFormed(m) && AllHonest(m, es)
    ensures RepairsFollowPeeks(Run(es).1)
  {
    hide Run, Cursor, Invariant, RepairsFollowPeeks, RunCalls, Honest;
    RunRefinesReference(m, es);
    if es == [] {
      NoRepairs(m);
    } else {
      var prefix, e := es[..|es| - 1], es[|es| - 1];
      assert es == prefix + [e];
      RunCallsUnfold(m, prefix, e);
      RepairFollowsPeek(m, prefix);
      RunRefinesReference(m, prefix);
      RepairsStep(m, prefix, e);
    }
  }

  lemma NoRepairs(m: Groups)
    ensures RepairsFollowPeeks(RunCalls(m, []))
  {
  }

  lemma RepairsAppend(a: seq<ReadyCall>, b: seq<ReadyCall>)
    requires RepairsFollowPeeks(a)
    requires forall c :: c in b && c.mode == Repair ==> c.(mode := Peek) in a
    ensures RepairsFollowPeeks(a + b)
  {
    forall i | 0 <= i < |a + b| && (a + b)[i].mode == Repair ensures (a + b)[i].(mode := Peek) in (a + b)[..i] {
      if i < |a| {
        assert (a + b)[..i] == a[..i];
      } else {
        assert (a + b)[i] == b[i - |a|];
        assert (a + b)[..i] == a + b[..i - |a|];
      }
    }
  }

  lemma CallInRange(items: seq<Item>, a: nat, b: nat, c: ReadyCall) returns (r: nat)
    requires a <= b <= |items| && c in CallsFor(items[a..b], Repair)
    ensures a <= r < b && c == CallFor(items[r], Repair)
  {
    var j :| 0 <= j < b - a && c == CallsFor(items[a..b], Repair)[j];
    r := a + j;
  }

  lemma ArrivalRepairs(m: Groups, es: seq<Event>, f: Fragment, c: ReadyCall)
    requires InMedia(m, f.key) && c in ArrivalCalls(m, es, f) && c.mode == Repair
    ensures Rank(m, f.key) == Cursor(m, es) < Cursor(m, es + [Arrival(f)])
    ensures Cursor(m, es + [Arrival(f)]) == Advance(m, es + [Arrival(f)], Cursor(m, es) + 1)
    ensures c in CallsFor(Items(m)[Cursor(m, es) + 1..Cursor(m, es + [Arrival(f)])], Repair)
  {
    hide Items, Cursor, ArrivedAt, Arrived, Rank, CallsFor;
    if Rank(m, f.key) == Cursor(m, es) && Arrived(m, es + [Arrival(f)], f.key) {
      AdvanceAt(m, es, f);
    }
  }

  /** An event repairs objects that are complete and past the one it completes, if any. */
  lemma RepairedRank(m: Groups, es: seq<Event>, e: Event, c: ReadyCall) returns (r: nat)
    requires Honest(m, e) && c in EventCalls(m, es, e) && c.mode == Repair
    ensures Cursor(m, es) <= r < Count(m) && c == CallFor(Items(m)[r], Repair) && ArrivedAt(m, es + [e], r)
    ensures e.Arrival? ==> Rank(m, e.fragment.key) < r
  {
    hide Items, Cursor, Resume, ArrivedAt, Advance, Rank, IsCursor, ArrivalCalls, CallsFor, CallFor;
    var es' := es + [e];
    var first := if e.Arrival? then Cursor(m, es) + 1 else Resume(m, es, e);
    CursorUnfold(m, es, e);
    if e.Arrival? {
      ArrivalRepairs(m, es, e.fragment, c);
    }
    AdvanceRests(m, es', first);
    r := CallInRange(Items(m), first, Cursor(m, es'), c);
  }

  /** The objects that one event repairs were complete, and past the cursor, before it. */
  lemma RepairedWasPeeked(m: Groups, es: seq<Event>, e: Event, c: ReadyCall)
    requires AllHonest(m, es) && Honest(m, e) && c in EventCalls(m, es, e) && c.mode == Repair
    ensures c.(mode := Peek) in RunCalls(m, es)
  {
    hide Items, Cursor, ArrivedAt, Arrived, EventCalls, RunCalls, Rank;
    var r := RepairedRank(m, es, e, c);
    var k := KeyAt(m, r);
    ArrivedAtRank(m, es + [e], k);
    OnlyItsObject(m, es, e, k);
    PeekedBefore(m, es, k);
  }
}
