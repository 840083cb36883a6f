/** What an application that skips ahead does not have to wait for.  As soon as the first object of a
    group is complete it has left every group before that one, and an object that is completed right
    behind the last delivery is delivered by the same event. */
module SkipProgress {
  import opened Media
  import opened Arrivals
  import opened Reassembly
  import opened Delivery
  import opened ObjectConsumer
  import SkipAhead

  /** Something of group g, or of a later one, was delivered. */
  predicate Reached(out: seq<Item>, g: nat) {
    out != [] && g <= out[|out| - 1].key.group
  }

  /** Every group from the start point on whose first object is complete was reached. */
  ghost predicate CaughtUp(m: Groups, es: seq<Event>, start: Key, out: seq<Item>)
    requires IsCursor(m, start)
  {
    forall g: nat :: InMedia(m, Key(g, 0)) && Arrived(m, es, Key(g, 0)) && Rank(m, start) <= Rank(m, Key(g, 0)) ==> Reached(out, g)
  }

  lemma ReachedStays(m: Groups, out: seq<Item>, more: seq<Item>, g: nat)
    requires Orderly(m, out + more) && Reached(out, g)
    ensures Reached(out + more, g)
  {
    hide Orderly;
    var all := out + more;
    assert all[|out| - 1] == out[|out| - 1];
    if more != [] {
      OrderlyIncreases(m, all, |out| - 1, |all| - 1);
    }
  }

  /** The bridge stands behind an object at or past k. */
  lemma StandsPast(m: Groups, es: seq<Event>, rank: nat, b: Bridge, out: seq<Item>, k: Key)
    requires BridgeInvariant(m, es, rank, b, out) && InMedia(m, k) && Rank(m, k) < rank
    requires out == [] ==> rank == Rank(m, b.start)
    requires Rank(m, b.start) <= Rank(m, k)
    ensures Reached(out, k.group)
  {
    hide Touched, Rank, Orderly;
    if out != [] {
      var last := out[|out| - 1].key;
      LastIsInMedia(m, out);
      RankAfter(m, last);
      RankOrders(m, last, k);
      RankOrders(m, k, last);
    }
  }

  lemma LastIsInMedia(m: Groups, out: seq<Item>)
    requires Orderly(m, out) && out != []
    ensures InMedia(m, out[|out| - 1].key)
  {
  }

  /** A peek at the first object of a group takes the bridge there, if it is not past it. */
  lemma PeekReaches(m: Groups, es: seq<Event>, s: State, rank: nat, b: Bridge, out: seq<Item>, k: Key)
    requires BridgeInvariant(m, es, rank, b, out) && InMedia(m, k) && k.id == 0
    ensures Reached(out + ObjectConsumer.Ready(b, s, CallFor(Item(k, ObjectAt(m, k)), Peek)).1, k.group)
  {
    hide Touched, Rank, Orderly, Jump;
    var (_, more) := ObjectConsumer.Ready(b, s, CallFor(Item(k, ObjectAt(m, k)), Peek));
    if Before(k, b.next) {
      assert out + more == out;
    } else {
      assert (out + more)[|out + more| - 1].key == k;
    }
  }

  // ----- Arrivals -----

  /** What an arrival makes the bridge deliver, when it completes an object past the cursor. */
  lemma AheadIsPeek(m: Groups, es: seq<Event>, f: Fragment, s: State, b: Bridge)
    requires InMedia(m, f.key) && Rank(m, f.key) > Cursor(m, es)
    requires !Arrived(m, es, f.key) && Arrived(m, es + [Arrival(f)], f.key)
    ensures Offer(b, s, ArrivalCalls(m, es, f)) == ObjectConsumer.Ready(b, s, CallFor(Item(f.key, ObjectAt(m, f.key)), Peek))
  {
    hide Arrived, Cursor, Offer, ObjectConsumer.Ready, CallFor, Rank;
    var c := CallFor(Item(f.key, ObjectAt(m, f.key)), Peek);
    OfferNone(b, s);
    OfferUnfold(b, s, [], c);
    assert [] + [c] == [c];
    assert [] + ObjectConsumer.Ready(b, s, c).1 == ObjectConsumer.Ready(b, s, c).1;
  }

  lemma ArrivalReaches(m: Groups, es: seq<Event>, f: Fragment, s: State, b: Bridge, out: seq<Item>)
    requires WellFormed(m) && IsSlice(m, f) && RunInvariant(m, es, b, out) && CaughtUp(m, es, b.start, out)
    requires var (b', more) := Offer(b, s, ArrivalCalls(m, es, f));
             RunInvariant(m, es + [Arrival(f)], b', out + more) && b'.start == b.start
    ensures CaughtUp(m, es + [Arrival(f)], b.start, out + Offer(b, s, ArrivalCalls(m, es, f)).1)
  {
    var (b', more) := Offer(b, s, ArrivalCalls(m, es, f));
    var es' := es + [Arrival(f)];
    BothOrderly(m, es, b, out, es', b', out + more);
    hide Arrived, Cursor, Offer, ArrivalCalls, Rank, RunInvariant, BridgeInvariant, Orderly, Reached, Touched, IsSlice;
    forall g: nat | InMedia(m, Key(g, 0)) && Arrived(m, es', Key(g, 0)) && Rank(m, b.start) <= Rank(m, Key(g, 0))
      ensures Reached(out + more, g)
    {
      var k := Key(g, 0);
      if Arrived(m, es, k) {
        ReachedStays(m, out, more, g);
      } else {
        OnlyItsObject(m, es, Arrival(f), k);
        assert k == f.key;
        NewReaches(m, es, f, s, b, out);
      }
    }
  }

  lemma BothOrderly(m: Groups, es: seq<Event>, b: Bridge, out: seq<Item>, es': seq<Event>, b': Bridge, out': seq<Item>)
    requires RunInvariant(m, es, b, out) && RunInvariant(m, es', b', out')
    ensures Orderly(m, out) && Orderly(m, out')
  {
  }

  lemma NewReaches(m: Groups, es: seq<Event>, f: Fragment, s: State, b: Bridge, out: seq<Item>)
    requires WellFormed(m) && InMedia(m, f.key) && f.key.id == 0 && RunInvariant(m, es, b, out)
    requires !Arrived(m, es, f.key) && Arrived(m, es + [Arrival(f)], f.key)
    requires var (b', more) := Offer(b, s, ArrivalCalls(m, es, f));
             RunInvariant(m, es + [Arrival(f)], b', out + more) && b'.start == b.start
    requires IsCursor(m, b.start) && Rank(m, b.start) <= Rank(m, f.key)
    ensures Reached(out + Offer(b, s, ArrivalCalls(m, es, f)).1, f.key.group)
  {
    hide Arrived, Cursor, Offer, ArrivalCalls, Rank, BridgeInvariant, Reached;
    var (b', more) := Offer(b, s, ArrivalCalls(m, es, f));
    var es' := es + [Arrival(f)];
    if Rank(m, f.key) < Cursor(m, es') {
      StandsPast(m, es', Cursor(m, es'), b', out + more, f.key);
    } else {
      NotAtCursor(m, es', f.key);
      if Rank(m, f.key) == Cursor(m, es) {
        PassedAtCursor(m, es, f);
      }
      CursorStays(m, es, Arrival(f));
      AheadIsPeek(m, es, f, s, b);
      PeekReaches(m, es, s, Cursor(m, es), b, out, f.key);
    }
  }

  lemma NotAtCursor(m: Groups, es: seq<Event>, k: Key)
    requires InMedia(m, k) && Arrived(m, es, k)
    ensures Rank(m, k) != Cursor(m, es)
  {
    hide Arrived, Cursor;
    CursorRests(m, es);
    ArrivedAtRank(m, es, k);
  }

  lemma PassedAtCursor(m: Groups, es: seq<Event>, f: Fragment)
    requires InMedia(m, f.key) && Rank(m, f.key) == Cursor(m, es) && Arrived(m, es + [Arrival(f)], f.key)
    ensures Rank(m, f.key) < Cursor(m, es + [Arrival(f)])
  {
    hide Arrived, Cursor, Advance;
    AdvanceAt(m, es, f);
  }

  // ----- Whole runs -----

  lemma OtherReaches(m: Groups, es: seq<Event>, e: Event, b: Bridge, out: seq<Item>, b': Bridge, more: seq<Item>)
    requires !e.Arrival? && RunInvariant(m, es, b, out) && CaughtUp(m, es, b.start, out)
    requires RunInvariant(m, es + [e], b', out + more) && (b'.start == b.start || b.start == Key(0, 0))
    ensures CaughtUp(m, es + [e], b'.start, out + more)
  {
    BothOrderly(m, es, b, out, es + [e], b', out + more);
    RankOfZero(m);
    hide Arrived, Rank, RunInvariant, Orderly, Reached;
    forall g: nat | InMedia(m, Key(g, 0)) && Arrived(m, es + [e], Key(g, 0)) && Rank(m, b'.start) <= Rank(m, Key(g, 0))
      ensures Reached(out + more, g)
    {
      OnlyItsObject(m, es, e, Key(g, 0));
      ReachedStays(m, out, more, g);
    }
  }

  /** One event, as the bridge sees it. */
  lemma StepUnfold(m: Groups, es: seq<Event>, e: Event)
    requires WellFormed(m) && AllHonest(m, es + [e]) && StartsOnce(m, es + [e])
    ensures Honest(m, e)
    ensures var (b, out) := BridgeRun(SkipToGroupAhead, es);
            var (b', more) := Offer(Told(b, e), Run(es + [e]).0, EventCalls(m, es, e));
            && RunInvariant(m, es, b, out) && RunInvariant(m, es + [e], b', out + more)
            && BridgeRun(SkipToGroupAhead, es + [e]) == (b', out + more)
            && b'.start == Told(b, e).start && (e.Start? ==> b.start == Key(0, 0))
  {
    hide Offer, Step, EventCalls, Told, RunInvariant, StartsOnce, Invariant;
    SkipAhead.HonestBefore(m, es, e);
    StartsOncePrefix(m, es, e);
    SkipAheadIsOrderly(m, es);
    SkipAheadIsOrderly(m, es + [e]);
    RunUnfold(m, es, e);
    assert (es + [e])[..|es + [e]| - 1] == es;
    var (b, out) := BridgeRun(SkipToGroupAhead, es);
    OfferKeepsStart(Told(b, e), Run(es + [e]).0, EventCalls(m, es, e));
    FirstStart(m, es, e, b, out);
  }

  lemma {:induction false} OfferKeepsStart(b: Bridge, s: State, calls: seq<ReadyCall>)
    ensures Offer(b, s, calls).0.start == b.start
  {
    hide ObjectConsumer.Ready;
    if calls != [] {
      OfferKeepsStart(b, s, calls[..|calls| - 1]);
      ReadyKeepsStart(Offer(b, s, calls[..|calls| - 1]).0, s, calls[|calls| - 1]);
    }
  }

  lemma FirstStart(m: Groups, es: seq<Event>, e: Event, b: Bridge, out: seq<Item>)
    requires StartsOnce(m, es + [e]) && RunInvariant(m, es, b, out)
    ensures e.Start? ==> b.start == Key(0, 0)
  {
    hide BridgeInvariant, Cursor;
    if e.Start? {
      NoEarlierStart(m, es, e.key);
    }
  }

  /** Over every run: as soon as the first object of a group is complete, from the start point on, the
      application has been handed something of that group or of a later one. */
  lemma {:induction false} NoGroupWaits(m: Groups, es: seq<Event>)
    requires WellFormed(m) && AllHonest(m, es) && StartsOnce(m, es)
    ensures var (b, out) := BridgeRun(SkipToGroupAhead, es); IsCursor(m, b.start) && CaughtUp(m, es, b.start, out)
  {
    if es == [] {
      RankOfZero(m);
      NothingArrived(m);
    } else {
      var (before, e) := (es[..|es| - 1], es[|es| - 1]);
      assert es == before + [e];
      SkipAhead.HonestBefore(m, before, e);
      StartsOncePrefix(m, before, e);
      NoGroupWaits(m, before);
      StepUnfold(m, before, e);
      hide BridgeRun, Offer, CaughtUp, ArrivalCalls, StartCalls, StartsOnce, AllHonest, IsSlice, Run;
      var (b, out) := BridgeRun(SkipToGroupAhead, before);
      var (b', more) := Offer(Told(b, e), Run(es).0, EventCalls(m, before, e));
      StartIsCursor(m, es, b', out + more);
      if e.Arrival? {
        ArrivalReaches(m, before, e.fragment, Run(es).0, b, out);
      } else {
        OtherReaches(m, before, e, b, out, b', more);
      }
    }
  }

  lemma StartIsCursor(m: Groups, es: seq<Event>, b: Bridge, out: seq<Item>)
    requires RunInvariant(m, es, b, out)
    ensures IsCursor(m, b.start)
  {
  }

  // ----- Right behind -----

  lemma {:induction false} OfferStarts(b: Bridge, s: State, c: ReadyCall, calls: seq<ReadyCall>)
    ensures ObjectConsumer.Ready(b, s, c).1 <= Offer(b, s, [c] + calls).1
    decreases |calls|
  {
    hide ObjectConsumer.Ready;
    if calls == [] {
      OfferNone(b, s);
      OfferUnfold(b, s, [], c);
      assert [c] + calls == [] + [c];
    } else {
      var (before, last) := (calls[..|calls| - 1], calls[|calls| - 1]);
      OfferStarts(b, s, c, before);
      OfferUnfold(b, s, [c] + before, last);
      assert [c] + calls == ([c] + before) + [last];
    }
  }

  /** A delivery in sequence of the object that the bridge expects. */
  lemma ExpectedIsFirst(m: Groups, s: State, b: Bridge, k: Key, mode: Mode)
    requires InMedia(m, k) && mode != Peek && b.order == SkipToGroupAhead && !Before(k, b.next)
    ensures ObjectConsumer.Ready(b, s, CallFor(Item(k, ObjectAt(m, k)), mode)).1 == [Item(k, ObjectAt(m, k))]
  {
  }

  /** A peek at the object that the bridge expects, under either name of a boundary. */
  lemma PeekedIsFirst(m: Groups, es: seq<Event>, s: State, b: Bridge, k: Key)
    requires WellFormed(m) && InMedia(m, k) && Faithful(m, es, s) && IsCursor(m, b.next) && b.order == SkipToGroupAhead
    requires b.next != Key(0, 0) && Rank(m, b.next) == Rank(m, k) && Rank(m, s.next) <= Rank(m, b.next) && Arrived(m, es, k)
    ensures ObjectConsumer.Ready(b, s, CallFor(Item(k, ObjectAt(m, k)), Peek)).1 == [Item(k, ObjectAt(m, k))]
  {
    hide Faithful, Rank;
    var item := Item(k, ObjectAt(m, k));
    assert ItemOf(CallFor(item, Peek)) == item;
    AtCursor(m, b.next, k);
    if k != b.next {
      ArrivedSizeKnown(m, es, k);
      LimitKnown(m, es, s, b.next);
      JumpUnfold(s, b.next, k.group);
      assert [] + [item] == [item];
    }
  }

  lemma ArrivedSizeKnown(m: Groups, es: seq<Event>, k: Key)
    requires InMedia(m, k) && k.id == 0 && k.group > 0 && Arrived(m, es, k)
    ensures SizeKnown(m, es, k.group)
  {
    if ObjectAt(m, k).data != [] {
      assert 0 in Span(0, |ObjectAt(m, k).data|);
    }
  }

  /** An object that an arrival completes right behind the last delivery, or where delivery begins,
      is the first thing that this very event delivers. */
  lemma BehindIsDelivered(m: Groups, es: seq<Event>, f: Fragment)
    requires WellFormed(m) && AllHonest(m, es + [Arrival(f)]) && StartsOnce(m, es + [Arrival(f)]) && InMedia(m, f.key)
    requires !Arrived(m, es, f.key) && Arrived(m, es + [Arrival(f)], f.key)
    requires var b := BridgeRun(SkipToGroupAhead, es).0; IsCursor(m, Effective(b)) && Rank(m, f.key) == Rank(m, Effective(b))
    ensures BridgeRun(SkipToGroupAhead, es).1 + [Item(f.key, ObjectAt(m, f.key))] <= BridgeRun(SkipToGroupAhead, es + [Arrival(f)]).1
  {
    var (e, es') := (Arrival(f), es + [Arrival(f)]);
    StepUnfold(m, es, e);
    RunRefinesReference(m, es');
    hide BridgeRun, Offer, ArrivalCalls, StartsOnce, AllHonest, IsSlice, Run, Arrived, Honest;
    var (b, out) := BridgeRun(SkipToGroupAhead, es);
    var s := Run(es').0;
    var item := Item(f.key, ObjectAt(m, f.key));
    FirstDelivered(m, es, f, s, b, out);
    var more := Offer(b, s, ArrivalCalls(m, es, f)).1;
    assert [item] <= more ==> out + [item] <= out + more;
  }

  lemma FirstDelivered(m: Groups, es: seq<Event>, f: Fragment, s: State, b: Bridge, out: seq<Item>)
    requires WellFormed(m) && InMedia(m, f.key) && RunInvariant(m, es, b, out) && Invariant(m, es + [Arrival(f)], s)
    requires !Arrived(m, es, f.key) && Arrived(m, es + [Arrival(f)], f.key)
    requires IsCursor(m, Effective(b)) && Rank(m, f.key) == Rank(m, Effective(b))
    ensures [Item(f.key, ObjectAt(m, f.key))] <= Offer(b, s, ArrivalCalls(m, es, f)).1
  {
    hide Arrived, Cursor, Offer, Rank, Orderly, Touched, CallFor, ObjectConsumer.Ready, Faithful, CallsFor;
    var es' := es + [Arrival(f)];
    AtCursor(m, Effective(b), f.key);
    if Rank(m, f.key) == Cursor(m, es) {
      var c := CallFor(Item(f.key, ObjectAt(m, f.key)), InSequence);
      AdvanceAt(m, es, f);
      OfferStarts(b, s, c, ArrivalCalls(m, es, f)[1..]);
      assert ArrivalCalls(m, es, f) == [c] + ArrivalCalls(m, es, f)[1..];
      ExpectedIsFirst(m, s, b, f.key, InSequence);
    } else {
      CursorStays(m, es, Arrival(f));
      AheadIsPeek(m, es, f, s, b);
      PeekedIsFirst(m, es', s, b, f.key);
    }
  }

  /** A jump ends with the object that it was made for: what was complete behind that object before
      is not delivered with it, and waits for reassembly to get there. */
  lemma JumpStopsThere(m: Groups, s: State, b: Bridge, k: Key)
    requires InMedia(m, k) && b.order == SkipToGroupAhead && k.id == 0 && k.group > b.next.group
    ensures var (b', more) := ObjectConsumer.Ready(b, s, CallFor(Item(k, ObjectAt(m, k)), Peek));
            b'.next == Media.After(k) && more != [] && more[|more| - 1] == Item(k, ObjectAt(m, k))
  {
    hide Jump;
  }
}
