/** What an application that skips ahead gets of a group that is left: over every run, whenever
    something opens a group and the size of the group before it is known, all of that group has been
    handed over, as objects or as placeholders. */
module SkipAhead {
  import opened Media
  import opened Arrivals
  import opened Reassembly
  import opened Delivery
  import opened ObjectConsumer

  /** If b opens a group behind one of known size, a is the last object of that one. */
  ghost predicate ClosedBy(m: Groups, es: seq<Event>, a: Key, b: Key) {
    b.id == 0 && SizeKnown(m, es, b.group) ==> a.group + 1 == b.group && a.id + 1 == |m[a.group]|
  }

  ghost predicate ClosesFrom(m: Groups, es: seq<Event>, out: seq<Item>, from: nat) {
    forall i :: 0 < i < |out| && from <= i ==> ClosedBy(m, es, out[i - 1].key, out[i].key)
  }

  /** What follows right behind next, when something was delivered before. */
  ghost predicate ClosesBehind(m: Groups, es: seq<Event>, next: Key, out: seq<Item>) {
    out != [] && next.id > 0 ==> ClosedBy(m, es, Key(next.group, next.id - 1), out[0].key)
  }

  lemma ClosesAppend(m: Groups, es: seq<Event>, out: seq<Item>, more: seq<Item>, next: Key)
    requires out != [] ==> next == After(out[|out| - 1].key)
    requires ClosesFrom(m, es, more, 0) && ClosesBehind(m, es, next, more)
    ensures ClosesFrom(m, es, out + more, |out|)
  {
    hide ClosedBy;
    var all := out + more;
    forall i | 0 < i < |all| && |out| <= i ensures ClosedBy(m, es, all[i - 1].key, all[i].key) {
      if i > |out| {
        assert all[i - 1] == more[i - 1 - |out|] && all[i] == more[i - |out|];
      }
    }
  }

  // ----- A jump -----

  /** Placeholders for one group, and whatever opens the next one behind them. */
  lemma FillThen(m: Groups, es: seq<Event>, next: Key, limit: nat, rest: seq<Item>)
    requires IsCursor(m, next) && rest != [] && rest[0].key == Key(next.group + 1, 0)
    requires SizeKnown(m, es, next.group + 1) ==> limit == |m[next.group]|
    requires ClosesFrom(m, es, rest, 0) && (next.id == 0 ==> limit > 0)
    ensures ClosesFrom(m, es, Fill(next, limit) + rest, 0) && ClosesBehind(m, es, next, Fill(next, limit) + rest)
  {
    hide SizeKnown;
    var fill := Fill(next, limit);
    var all := fill + rest;
    forall i | 0 < i < |all| ensures ClosedBy(m, es, all[i - 1].key, all[i].key) {
      if i > |fill| {
        assert all[i - 1] == rest[i - 1 - |fill|] && all[i] == rest[i - |fill|];
      }
    }
  }

  lemma LimitIfKnown(m: Groups, es: seq<Event>, s: State, next: Key)
    requires WellFormed(m) && Faithful(m, es, s) && IsCursor(m, next) && Rank(m, s.next) <= Rank(m, next)
    requires next.group + 1 < |m|
    ensures SizeKnown(m, es, next.group + 1) ==> Limit(s, next) == |m[next.group]|
    ensures next.id == 0 ==> Limit(s, next) > 0
  {
    FaithfulSizes(m, es, s, next);
    LimitInGroup(m, s, next);
    if SizeKnown(m, es, next.group + 1) {
      LimitKnown(m, es, s, next);
    }
  }

  lemma NextGroup(m: Groups, next: Key)
    requires WellFormed(m) && IsCursor(m, next) && next.group + 1 < |m|
    ensures IsCursor(m, Key(next.group + 1, 0)) && Rank(m, next) <= Rank(m, Key(next.group + 1, 0))
  {
    assert m[next.group + 1] != [];
    RankOrders(m, next, Key(next.group + 1, 0));
  }

  lemma {:induction false} JumpCloses(m: Groups, es: seq<Event>, s: State, next: Key, item: Item)
    requires WellFormed(m) && Faithful(m, es, s) && IsCursor(m, next) && Rank(m, s.next) <= Rank(m, next)
    requires next.group < item.key.group < |m| && item.key.id == 0
    ensures var all := Jump(s, next, item.key.group) + [item];
            && ClosesFrom(m, es, all, 0) && ClosesBehind(m, es, next, all)
            && (next.id == 0 ==> all[0].key == next)
    decreases item.key.group - next.group
  {
    hide Jump, Fill, Limit, ClosesFrom, ClosesBehind, Faithful, SizeKnown, WellFormed, IsCursor;
    var group := item.key.group;
    var onward := Key(next.group + 1, 0);
    LimitIfKnown(m, es, s, next);
    JumpUnfold(s, next, group);
    var fill := Fill(next, Limit(s, next));
    FillStarts(next, Limit(s, next));
    if onward.group < group {
      NextGroup(m, next);
      JumpCloses(m, es, s, onward, item);
      var rest := Jump(s, onward, group) + [item];
      assert Jump(s, next, group) + [item] == fill + rest;
      FillThen(m, es, next, Limit(s, next), rest);
    } else {
      OneCloses(m, es, item);
      FillThen(m, es, next, Limit(s, next), [item]);
    }
  }

  lemma FillStarts(next: Key, limit: nat)
    ensures next.id == 0 && limit > 0 ==> Fill(next, limit) != [] && Fill(next, limit)[0].key == next
  {
  }

  lemma OneCloses(m: Groups, es: seq<Event>, item: Item)
    ensures ClosesFrom(m, es, [item], 0)
  {
  }

  // ----- One event -----

  /** An object in line that opens a group comes right behind the last of the group before. */
  lemma InLineCloses(m: Groups, es: seq<Event>, b: Bridge, out: seq<Item>, k: Key)
    requires WellFormed(m) && InMedia(m, k) && BridgeInvariant(m, es, Rank(m, k), b, out)
    requires !Before(k, b.next) && out != []
    ensures ClosedBy(m, es, out[|out| - 1].key, k)
  {
    hide Orderly, Touched, SizeKnown;
    AtCursor(m, b.next, k);
  }

  lemma DeliverCloses(m: Groups, es: seq<Event>, s: State, b: Bridge, out: seq<Item>, k: Key, mode: Mode)
    requires WellFormed(m) && InMedia(m, k) && BridgeInvariant(m, es, Rank(m, k), b, out) && mode != Peek
    ensures ClosesFrom(m, es, out + ObjectConsumer.Ready(b, s, CallFor(Item(k, ObjectAt(m, k)), mode)).1, |out|)
  {
    hide ClosedBy, Rank, Orderly, Touched, Jump;
    if !Before(k, b.next) && out != [] {
      InLineCloses(m, es, b, out, k);
    }
  }

  lemma ClosesLonger(m: Groups, es: seq<Event>, out: seq<Item>, more: seq<Item>, last: seq<Item>)
    requires ClosesFrom(m, es, out + more, |out|) && ClosesFrom(m, es, (out + more) + last, |out + more|)
    ensures ClosesFrom(m, es, out + (more + last), |out|)
  {
    hide ClosedBy;
    var all := out + (more + last);
    assert all == (out + more) + last;
    forall i | 0 < i < |all| && |out| <= i ensures ClosedBy(m, es, all[i - 1].key, all[i].key) {
      if i < |out + more| {
        assert all[i - 1] == (out + more)[i - 1] && all[i] == (out + more)[i];
      }
    }
  }

  lemma {:induction false} ManyClose(m: Groups, es: seq<Event>, s: State, b: Bridge, out: seq<Item>, low: nat, calls: seq<ReadyCall>)
    requires WellFormed(m) && CallsFrom(m, low, calls) && BridgeInvariant(m, es, low, b, out)
    requires forall r :: low <= r < low + |calls| ==> ArrivedAt(m, es, r)
    ensures ClosesFrom(m, es, out + Offer(b, s, calls).1, |out|)
    decreases |calls|
  {
    hide BridgeInvariant, CallsFrom, ArrivedAt, Offer, ClosesFrom, ObjectConsumer.Ready, Rank, Items, CallFor;
    OfferNone(b, s);
    if calls == [] {
      NothingMore(m, es, out);
    } else {
      var init, c := calls[..|calls| - 1], calls[|calls| - 1];
      assert calls == init + [c];
      CallsFromSplit(m, low, init, c);
      OfferMany(m, es, s, b, out, low, init);
      ManyClose(m, es, s, b, out, low, init);
      OfferUnfold(b, s, init, c);
      var (b1, more) := Offer(b, s, init);
      var k := KeyAt(m, low + |init|);
      DeliverCloses(m, es, s, b1, out + more, k, c.mode);
      ClosesLonger(m, es, out, more, ObjectConsumer.Ready(b1, s, c).1);
    }
  }

  lemma NothingMore(m: Groups, es: seq<Event>, out: seq<Item>)
    ensures ClosesFrom(m, es, out + [], |out|)
  {
  }

  /** A peek: ignored, accepted in line, or a jump. */
  lemma PeekCloses(m: Groups, es: seq<Event>, s: State, b: Bridge, out: seq<Item>, k: Key)
    requires WellFormed(m) && InMedia(m, k) && Invariant(m, es, s) && BridgeInvariant(m, es, Cursor(m, es), b, out)
    requires Cursor(m, es) < Rank(m, k) && (out == [] ==> Cursor(m, es) == Rank(m, b.start))
    ensures ClosesFrom(m, es, out + ObjectConsumer.Ready(b, s, CallFor(Item(k, ObjectAt(m, k)), Peek)).1, |out|)
  {
    hide Jump, Rank, Orderly, Touched, Cursor, Faithful, ClosesFrom, ClosesBehind;
    var item := Item(k, ObjectAt(m, k));
    assert ItemOf(CallFor(item, Peek)) == item;
    var more := ObjectConsumer.Ready(b, s, CallFor(item, Peek)).1;
    if !Before(k, b.next) && k.group > b.next.group && k.id == 0 {
      AtCursor(m, Effective(b), k);
      JumpCloses(m, es, s, Effective(b), item);
      StartsFresh(m, es, b, more);
      ClosesAppend(m, es, out, more, b.next);
    } else if !Before(k, b.next) && k == b.next {
      OneCloses(m, es, item);
      NotOpening(m, es, b.next, item);
      ClosesAppend(m, es, out, more, b.next);
    } else {
      NothingMore(m, es, out);
    }
  }

  lemma StartsFresh(m: Groups, es: seq<Event>, b: Bridge, more: seq<Item>)
    requires ClosesBehind(m, es, Effective(b), more)
    ensures ClosesBehind(m, es, b.next, more)
  {
  }

  lemma NotOpening(m: Groups, es: seq<Event>, next: Key, item: Item)
    requires item.key == next
    ensures ClosesBehind(m, es, next, [item])
  {
  }

  lemma ArrivalCloses(m: Groups, es: seq<Event>, f: Fragment, s: State, b: Bridge, out: seq<Item>)
    requires WellFormed(m) && InMedia(m, f.key) && Invariant(m, es + [Arrival(f)], s) && RunInvariant(m, es, b, out)
    ensures ClosesFrom(m, es + [Arrival(f)], out + Offer(b, s, ArrivalCalls(m, es, f)).1, |out|)
  {
    hide Items, Offer, ObjectConsumer.Ready, Arrived, Touched, Cursor, Advance, ArrivedAt, Orderly, Faithful, CallsFor, ClosesFrom;
    var es' := es + [Arrival(f)];
    StillTouched(m, es, Arrival(f), Cursor(m, es), b, out);
    OfferNone(b, s);
    NothingMore(m, es', out);
    if Rank(m, f.key) == Cursor(m, es) && Arrived(m, es', f.key) {
      CursorRests(m, es);
      ArrivedAtRank(m, es, f.key);
      ArrivedAtRank(m, es', f.key);
      AdvanceAt(m, es, f);
      AdvanceRests(m, es', Cursor(m, es) + 1);
      ItemsAt(m, f.key);
      InSequenceCalls(m, f.key, Cursor(m, es), Cursor(m, es'));
      ManyClose(m, es', s, b, out, Cursor(m, es), ArrivalCalls(m, es, f));
    } else {
      CursorStays(m, es, Arrival(f));
      if ArrivalCalls(m, es, f) != [] {
        var c := CallFor(Item(f.key, ObjectAt(m, f.key)), Peek);
        OfferUnfold(b, s, [], c);
        assert [] + [c] == [c] && [] + ObjectConsumer.Ready(b, s, c).1 == ObjectConsumer.Ready(b, s, c).1;
        PeekCloses(m, es', s, b, out, f.key);
      }
    }
  }

  lemma StartCloses(m: Groups, es: seq<Event>, k: Key, s: State, b: Bridge, out: seq<Item>)
    requires WellFormed(m) && IsCursor(m, k) && StartsOnce(m, es + [Start(k)]) && RunInvariant(m, es, b, out)
    requires out != [] ==> Rank(m, k) < Rank(m, b.next)
    ensures ClosesFrom(m, es + [Start(k)], out + Offer(b.(start := k), s, StartCalls(m, es, Start(k))).1, |out|)
  {
    hide Items, Offer, ObjectConsumer.Ready, Arrived, Touched, Cursor, Advance, ArrivedAt, Orderly, Faithful, CallsFor, CallFor, ClosesFrom;
    var (e, es') := (Start(k), es + [Start(k)]);
    var (low, high) := (Resume(m, es, e), Cursor(m, es'));
    StillTouched(m, es, e, Cursor(m, es), b, out);
    CursorUnfold(m, es, e);
    AdvanceRests(m, es', low);
    NoEarlierStart(m, es, k);
    RankOfZero(m);
    RepairCalls(m, low, high);
    ManyClose(m, es', s, b.(start := k), out, low, StartCalls(m, es, e));
  }

  lemma StepCloses(m: Groups, es: seq<Event>, e: Event, b: Bridge, out: seq<Item>)
    requires WellFormed(m) && AllHonest(m, es + [e]) && StartsOnce(m, es + [e]) && RunInvariant(m, es, b, out)
    ensures Honest(m, e)
    ensures ClosesFrom(m, es + [e], out + Offer(Told(b, e), Run(es + [e]).0, EventCalls(m, es, e)).1, |out|)
  {
    RunCallsUnfold(m, es, e);
    RunRefinesReference(m, es + [e]);
    hide Cursor, Items, RunCalls, Run, Offer, ArrivalCalls, StartCalls, StartsOnce, BridgeInvariant, IsSlice, Invariant, ClosesFrom;
    var s := Run(es + [e]).0;
    match e {
      case Arrival(f) =>
        SliceIsInMedia(m, f);
        ArrivalCloses(m, es, f, s, b, out);
      case Start(k) =>
        if out != [] {
          DeliveredPastStart(m, es, k, b, out);
        }
        StartCloses(m, es, k, s, b, out);
      case Final(_) =>
        OfferNone(b, s);
        NothingMore(m, es + [e], out);
    }
  }

  lemma HonestBefore(m: Groups, es: seq<Event>, e: Event)
    requires AllHonest(m, es + [e])
    ensures AllHonest(m, es)
  {
    assert forall i :: 0 <= i < |es| ==> (es + [e])[i] == es[i];
  }

  lemma BridgeUnfold(m: Groups, es: seq<Event>, e: Event)
    requires WellFormed(m) && AllHonest(m, es + [e])
    ensures Honest(m, e)
    ensures var (b, out) := BridgeRun(SkipToGroupAhead, es);
            BridgeRun(SkipToGroupAhead, es + [e]).1 == out + Offer(Told(b, e), Run(es + [e]).0, EventCalls(m, es, e)).1
  {
    hide Offer, Step, EventCalls;
    RunUnfold(m, es, e);
    assert (es + [e])[..|es + [e]| - 1] == es;
  }

  /** The n-th event delivers entries from |BridgeRun of the events before| on.  Of those, whatever
      opens a group, be it an object or a placeholder, comes right behind the last object of the
      group before, as soon as some arrival documented the size of that group. */
  lemma KnownGroupsAreClosed(m: Groups, es: seq<Event>, n: nat, i: nat)
    requires WellFormed(m) && AllHonest(m, es) && StartsOnce(m, es) && n < |es|
    requires var (before, now) := (BridgeRun(SkipToGroupAhead, es[..n]).1, BridgeRun(SkipToGroupAhead, es[..n + 1]).1);
             |before| <= i < |now| && i > 0
    ensures var now := BridgeRun(SkipToGroupAhead, es[..n + 1]).1;
            ClosedBy(m, es[..n + 1], now[i - 1].key, now[i].key) && now <= BridgeRun(SkipToGroupAhead, es).1
  {
    hide BridgeRun, ClosedBy, RunInvariant, StartsOnce, AllHonest, Honest, Told, Offer, Run, EventCalls;
    var (before, e) := (es[..n], es[n]);
    assert es[..n + 1] == before + [e];
    Fronts(m, es, n + 1);
    HonestBefore(m, before, e);
    StartsOncePrefix(m, before, e);
    SkipAheadIsOrderly(m, before);
    var (b, out) := BridgeRun(SkipToGroupAhead, before);
    StepCloses(m, before, e, b, out);
    BridgeUnfold(m, before, e);
    BridgeGrows(SkipToGroupAhead, es, n + 1);
  }

  lemma {:induction false} Fronts(m: Groups, es: seq<Event>, n: nat)
    requires AllHonest(m, es) && StartsOnce(m, es) && n <= |es|
    ensures AllHonest(m, es[..n]) && StartsOnce(m, es[..n])
  {
    hide AllHonest, StartsOnce;
    if n < |es| {
      var (before, e) := (es[..|es| - 1], es[|es| - 1]);
      assert es == before + [e];
      HonestBefore(m, before, e);
      StartsOncePrefix(m, before, e);
      Fronts(m, before, n);
      assert before[..n] == es[..n];
    } else {
      assert es[..n] == es;
    }
  }

  lemma {:induction false} BridgeGrows(order: Order, es: seq<Event>, n: nat)
    requires n <= |es|
    ensures BridgeRun(order, es[..n]).1 <= BridgeRun(order, es).1
  {
    if n < |es| {
      hide Offer, Step, Run;
      BridgeGrows(order, es[..|es| - 1], n);
      assert es[..|es| - 1][..n] == es[..n];
    } else {
      assert es[..n] == es;
    }
  }
}
