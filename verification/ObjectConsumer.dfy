/** The bridge between reassembly and the application: which of the ready callbacks become
    deliveries, in each of the three orders an application may ask for. */
module ObjectConsumer {
  import opened Media
  import opened PacketList
  import opened Arrivals
  import opened Reassembly
  import opened Delivery

  datatype Order = OutOfOrderRequired | InOrderRequired | SkipToGroupAhead

  /** The bridge's own fields, and the start point its stream learned. */
  datatype Bridge = Bridge(order: Order, next: Key, start: Key)

  /** A placeholder for a dropped object: no bytes, flags 0xFF. */
  function Placeholder(k: Key): Item {
    Item(k, BLANK)
  }

  /** quicrq_reassembly_get_object_count: zero when the size of the group is not known. */
  function GroupSize(s: State, group: nat): nat {
    var k := Key(group + 1, 0);
    if k in s.objects then s.objects[k].previousSize else 0
  }

  /** Up to which identifier a group that is being left gets placeholders. */
  function Limit(s: State, next: Key): nat {
    var size := GroupSize(s, next.group);
    if size != 0 then size else if next.id == 0 then 1 else next.id
  }

  function Fill(next: Key, limit: nat): (r: seq<Item>)
    ensures |r| == if next.id < limit then limit - next.id else 0
    ensures forall i :: 0 <= i < |r| ==> r[i] == Placeholder(Key(next.group, next.id + i))
  {
    if next.id < limit then seq(limit - next.id, i requires 0 <= i => Placeholder(Key(next.group, next.id + i))) else []
  }

  /** The placeholders for every group from next up to the group jumped to. */
  function Jump(s: State, next: Key, group: nat): seq<Item>
    decreases if next.group < group then group - next.group else 0
  {
    if next.group < group then Fill(next, Limit(s, next)) + Jump(s, Key(next.group + 1, 0), group) else []
  }

  function Deliver(b: Bridge, c: ReadyCall): (Bridge, seq<Item>) {
    (b.(next := After(c.key)), [ItemOf(c)])
  }

  /** Where the bridge would resume: the start point counts until something was delivered. */
  function Effective(b: Bridge): Key {
    if b.next == Key(0, 0) then b.start else b.next
  }

  /** quicrq_media_object_bridge_ready. */
  function Ready(b: Bridge, s: State, c: ReadyCall): (Bridge, seq<Item>) {
    match b.order
    case OutOfOrderRequired => if c.mode != Repair then Deliver(b, c) else (b, [])
    case InOrderRequired => if c.mode != Peek then Deliver(b, c) else (b, [])
    case SkipToGroupAhead =>
      if Before(c.key, b.next) then (b, [])
      else if c.mode == Peek then
        if c.key.group > b.next.group && c.key.id == 0 then
          var (b', last) := Deliver(b, c);
          (b', Jump(s, Effective(b), c.key.group) + last)
        else if c.key == b.next then Deliver(b, c)
        else (b, [])
      else Deliver(b, c)
  }

  /** The callbacks of one event, in turn. */
  function Offer(b: Bridge, s: State, calls: seq<ReadyCall>): (Bridge, seq<Item>) {
    if calls == [] then (b, [])
    else
      var (b1, out) := Offer(b, s, calls[..|calls| - 1]);
      var (b2, more) := Ready(b1, s, calls[|calls| - 1]);
      (b2, out + more)
  }

  /** The start point reaches the stream before it reaches reassembly. */
  function Told(b: Bridge, e: Event): Bridge {
    if e.Start? then b.(start := e.key) else b
  }

  /** The bridge over a whole run: its fields and everything it delivered. */
  ghost function BridgeRun(order: Order, es: seq<Event>): (Bridge, seq<Item>) {
    if es == [] then (Bridge(order, Key(0, 0), Key(0, 0)), [])
    else
      var prefix, e := es[..|es| - 1], es[|es| - 1];
      var (b, out) := BridgeRun(order, prefix);
      var (t, calls, _) := Step(Run(prefix).0, e);
      var (b', more) := Offer(Told(b, e), t, calls);
      (b', out + more)
  }

  // ----- In order and out of order -----

  lemma {:induction false} OfferFilters(b: Bridge, s: State, calls: seq<ReadyCall>)
    ensures Offer(b, s, calls).0.order == b.order
    ensures b.order == InOrderRequired ==> Offer(b, s, calls).1 == InOrder(calls)
    ensures b.order == OutOfOrderRequired ==> Offer(b, s, calls).1 == OutOfOrder(calls)
  {
    if calls != [] {
      OfferFilters(b, s, calls[..|calls| - 1]);
    }
  }

  /** The two simple orders keep exactly the callbacks that the theorems of module Delivery
      speak about. */
  lemma {:induction false} BridgeKeeps(order: Order, es: seq<Event>)
    ensures BridgeRun(order, es).0.order == order
    ensures order == InOrderRequired ==> BridgeRun(order, es).1 == InOrder(Run(es).1)
    ensures order == OutOfOrderRequired ==> BridgeRun(order, es).1 == OutOfOrder(Run(es).1)
  {
    if es == [] {
      NoCalls();
    } else {
      hide InOrder, OutOfOrder, Offer, Step;
      var prefix, e := es[..|es| - 1], es[|es| - 1];
      BridgeKeeps(order, prefix);
      var (t, calls, _) := Step(Run(prefix).0, e);
      OfferFilters(Told(BridgeRun(order, prefix).0, e), t, calls);
      InOrderConcat(Run(prefix).1, calls);
      OutOfOrderConcat(Run(prefix).1, calls);
    }
  }

  /** An in-order application receives a prefix of the media, with no gap and no repetition;
      an out-of-order one receives every completed object exactly once. */
  lemma OrderedApplications(m: Groups, es: seq<Event>)
    requires WellFormed(m) && AllHonest(m, es) && NoStart(es, 0)
    ensures BridgeRun(InOrderRequired, es).1 == Items(m)[..Cursor(m, es)]
    ensures ExactlyTheArrived(m, es, BridgeRun(OutOfOrderRequired, es).1)
    ensures forall k :: InMedia(m, k) && Arrived(m, es, k) ==> Holds(BridgeRun(OutOfOrderRequired, es).1, k)
  {
    BridgeKeeps(InOrderRequired, es);
    BridgeKeeps(OutOfOrderRequired, es);
    PrefixOfTheMedia(m, es);
    OutOfOrderExactlyOnce(m, es);
  }

  // ----- Skip to the group ahead -----

  /** One delivery after another: the next object, or the first of the next group. */
  predicate Follows(a: Key, b: Key) {
    b == After(a) || b == Key(a.group + 1, 0)
  }

  /** Every delivery is an object of the media or a placeholder that stands for one; it follows
      the one before, so identifiers strictly increase and no group is stepped over. */
  ghost predicate Orderly(m: Groups, out: seq<Item>) {
    && (forall i :: 0 <= i < |out| ==>
          InMedia(m, out[i].key) && (out[i].content == ObjectAt(m, out[i].key) || out[i].content == BLANK))
    && (forall i :: 0 < i < |out| ==> Follows(out[i - 1].key, out[i].key))
  }

  lemma {:induction false} OrderlyIncreases(m: Groups, out: seq<Item>, i: nat, j: nat)
    requires Orderly(m, out) && i < j < |out|
    ensures Before(out[i].key, out[j].key)
  {
    if i < j - 1 {
      OrderlyIncreases(m, out, i, j - 1);
    }
    assert Follows(out[j - 1].key, out[j].key);
  }

  lemma OrderlyConcat(m: Groups, a: seq<Item>, b: seq<Item>)
    requires Orderly(m, a) && Orderly(m, b)
    requires a != [] && b != [] ==> Follows(a[|a| - 1].key, b[0].key)
    ensures Orderly(m, a + b)
  {
  }

  /** The sizes that the tree documents are true ones. */
  ghost predicate SizesTrue(m: Groups, s: State, from: Key)
    requires IsCursor(m, from)
  {
    forall k :: k in s.objects && k.id == 0 && k.group > from.group ==>
      InMedia(m, k) && (s.objects[k].previousSize == 0 || s.objects[k].previousSize == |m[k.group - 1]|)
  }

  lemma FillOrderly(m: Groups, next: Key, limit: nat)
    requires next.group < |m| && limit <= |m[next.group]|
    ensures Orderly(m, Fill(next, limit))
  {
    var out := Fill(next, limit);
    forall i | 0 < i < |out| ensures Follows(out[i - 1].key, out[i].key) {
    }
  }

  /** The limit never runs past the group, and past its first object only if some of it was
      delivered or its size is known. */
  lemma LimitInGroup(m: Groups, s: State, next: Key)
    requires WellFormed(m) && IsCursor(m, next) && SizesTrue(m, s, next) && next.group + 1 < |m|
    ensures Limit(s, next) <= |m[next.group]|
    ensures next.id == 0 ==> Limit(s, next) > 0
  {
  }

  /** Placeholders that begin where the bridge stood and end just before a group. */
  ghost predicate Bridges(next: Key, group: nat, out: seq<Item>) {
    && (next.id == 0 ==> out != [])
    && (out != [] ==>
          && (out[0].key == next || (next.id > 0 && out[0].key == Key(next.group + 1, 0)))
          && out[|out| - 1].key.group == group - 1)
    && (out == [] ==> group == next.group + 1)
  }

  lemma BridgesOne(next: Key, limit: nat)
    requires next.id == 0 ==> limit > 0
    ensures Bridges(next, next.group + 1, Fill(next, limit))
  {
  }

  lemma BridgesConcat(m: Groups, next: Key, group: nat, a: seq<Item>, b: seq<Item>)
    requires Orderly(m, a) && Bridges(next, next.group + 1, a)
    requires Orderly(m, b) && Bridges(Key(next.group + 1, 0), group, b)
    ensures Orderly(m, a + b) && Bridges(next, group, a + b)
  {
    OrderlyConcat(m, a, b);
  }

  lemma JumpUnfold(s: State, next: Key, group: nat)
    requires next.group < group
    ensures Jump(s, next, group) == Fill(next, Limit(s, next)) + Jump(s, Key(next.group + 1, 0), group)
    ensures group == next.group + 1 ==> Jump(s, next, group) == Fill(next, Limit(s, next))
  {
  }

  /** The placeholders of a jump are orderly and leave no group out. */
  lemma {:induction false} JumpOrderly(m: Groups, s: State, next: Key, group: nat)
    requires WellFormed(m) && IsCursor(m, next) && SizesTrue(m, s, next) && next.group < group < |m|
    ensures Orderly(m, Jump(s, next, group)) && Bridges(next, group, Jump(s, next, group))
    decreases group - next.group
  {
    hide Jump, Fill, Limit, Orderly, Bridges;
    LimitInGroup(m, s, next);
    FillOrderly(m, next, Limit(s, next));
    BridgesOne(next, Limit(s, next));
    JumpUnfold(s, next, group);
    var onward := Key(next.group + 1, 0);
    if onward.group < group {
      JumpOrderly(m, s, onward, group);
      BridgesConcat(m, next, group, Fill(next, Limit(s, next)), Jump(s, onward, group));
    }
  }

  /** The bridge is never behind reassembly, and stands right after its last delivery, which
      was a real object. */
  ghost predicate BridgeInvariant(m: Groups, es: seq<Event>, rank: nat, b: Bridge, out: seq<Item>) {
    && b.order == SkipToGroupAhead
    && Orderly(m, out)
    && (out == [] <==> b.next == Key(0, 0))
    && (out != [] ==> b.next == After(out[|out| - 1].key) && Touched(es, out[|out| - 1].key))
    && IsCursor(m, b.start) && IsCursor(m, b.next)
    && rank <= Rank(m, Effective(b))
  }

  /** A callback in sequence, or a repair, for the object of that rank. */
  lemma OfferOne(m: Groups, es: seq<Event>, s: State, b: Bridge, out: seq<Item>, k: Key, mode: Mode)
    requires WellFormed(m) && InMedia(m, k) && Touched(es, k) && mode != Peek
    requires BridgeInvariant(m, es, Rank(m, k), b, out)
    ensures var (b', more) := Ready(b, s, CallFor(Item(k, ObjectAt(m, k)), mode));
            BridgeInvariant(m, es, Rank(m, k) + 1, b', out + more)
  {
    hide Touched, Rank;
    RankAfter(m, k);
    AtCursor(m, b.next, k);
    var item := Item(k, ObjectAt(m, k));
    assert ItemOf(CallFor(item, mode)) == item;
    if !Before(k, b.next) {
      OrderlyConcat(m, out, [item]);
    } else {
      assert out + [] == out;
    }
  }

  lemma OneIsOrderly(m: Groups, item: Item)
    requires InMedia(m, item.key) && item.content == ObjectAt(m, item.key)
    ensures Orderly(m, [item])
  {
  }

  /** What was delivered, the placeholders of a jump, and the first object of the group. */
  lemma JumpJoins(m: Groups, next: Key, out: seq<Item>, jump: seq<Item>, item: Item)
    requires Orderly(m, out) && Orderly(m, jump) && Orderly(m, [item])
    requires Bridges(next, item.key.group, jump) && item.key.id == 0 && next.group < item.key.group
    requires out != [] ==> next == After(out[|out| - 1].key)
    ensures Orderly(m, out + (jump + [item]))
  {
    hide Orderly;
    OrderlyConcat(m, jump, [item]);
    assert jump == [] ==> jump + [item] == [item];
    assert jump != [] ==> (jump + [item])[0] == jump[0];
    OrderlyConcat(m, out, jump + [item]);
  }

  /** A peek that opens a later group: a jump, with placeholders for what is passed over. */
  lemma OfferJump(m: Groups, es: seq<Event>, s: State, b: Bridge, out: seq<Item>, rank: nat, k: Key)
    requires WellFormed(m) && InMedia(m, k) && Touched(es, k) && rank < Rank(m, k)
    requires BridgeInvariant(m, es, rank, b, out) && (out == [] ==> rank == Rank(m, b.start))
    requires SizesTrue(m, s, Effective(b)) && !Before(k, b.next) && k.group > b.next.group && k.id == 0
    ensures var (b', more) := Ready(b, s, CallFor(Item(k, ObjectAt(m, k)), Peek));
            BridgeInvariant(m, es, rank, b', out + more)
  {
    hide Touched, Rank, SizesTrue, Orderly, Jump, Bridges;
    RankAfter(m, k);
    AtCursor(m, Effective(b), k);
    var item := Item(k, ObjectAt(m, k));
    assert ItemOf(CallFor(item, Peek)) == item;
    assert k.group > Effective(b).group;
    JumpOrderly(m, s, Effective(b), k.group);
    var jump := Jump(s, Effective(b), k.group);
    OneIsOrderly(m, item);
    JumpJoins(m, Effective(b), out, jump, item);
    var all := out + (jump + [item]);
    assert all[|all| - 1] == item;
  }

  /** A peek at an object past the cursor: ignored, accepted, or a jump. */
  lemma OfferPeek(m: Groups, es: seq<Event>, s: State, b: Bridge, out: seq<Item>, rank: nat, k: Key)
    requires WellFormed(m) && InMedia(m, k) && Touched(es, k) && rank < Rank(m, k)
    requires BridgeInvariant(m, es, rank, b, out) && (out == [] ==> rank == Rank(m, b.start))
    requires SizesTrue(m, s, Effective(b))
    ensures var (b', more) := Ready(b, s, CallFor(Item(k, ObjectAt(m, k)), Peek));
            BridgeInvariant(m, es, rank, b', out + more)
  {
    if !Before(k, b.next) && k.group > b.next.group && k.id == 0 {
      OfferJump(m, es, s, b, out, rank, k);
    } else {
      hide Touched, Rank, SizesTrue, Jump;
      RankAfter(m, k);
      AtCursor(m, Effective(b), k);
      var item := Item(k, ObjectAt(m, k));
      assert ItemOf(CallFor(item, Peek)) == item;
      if Before(k, b.next) || k != b.next {
        assert out + [] == out;
      } else {
        OrderlyConcat(m, out, [item]);
      }
    }
  }

  lemma OfferUnfold(b: Bridge, s: State, calls: seq<ReadyCall>, c: ReadyCall)
    ensures var (b1, out) := Offer(b, s, calls);
            var (b2, more) := Ready(b1, s, c);
            Offer(b, s, calls + [c]) == (b2, out + more)
  {
    assert (calls + [c])[..|calls + [c]| - 1] == calls;
  }

  lemma OfferNone(b: Bridge, s: State)
    ensures Offer(b, s, []) == (b, [])
  {
  }

  lemma ReadyKeepsStart(b: Bridge, s: State, c: ReadyCall)
    ensures Ready(b, s, c).0.start == b.start
  {
  }

  /** The calls deliver or repair the objects of the media from rank low on. */
  ghost predicate CallsFrom(m: Groups, low: nat, calls: seq<ReadyCall>) {
    && low + |calls| <= Count(m)
    && forall j :: 0 <= j < |calls| ==> calls[j].mode != Peek && calls[j] == CallFor(Items(m)[low + j], calls[j].mode)
  }

  lemma CallsFromSplit(m: Groups, low: nat, calls: seq<ReadyCall>, c: ReadyCall)
    requires CallsFrom(m, low, calls + [c])
    ensures CallsFrom(m, low, calls) && low + |calls| < Count(m)
    ensures c.mode != Peek && c == CallFor(Items(m)[low + |calls|], c.mode)
  {
    assert forall j :: 0 <= j < |calls| ==> calls[j] == (calls + [c])[j];
    assert (calls + [c])[|calls|] == c;
  }

  /** One more delivery or repair after those already offered. */
  lemma OfferNext(m: Groups, es: seq<Event>, s: State, b: Bridge, out: seq<Item>, r: nat, calls: seq<ReadyCall>, c: ReadyCall)
    requires WellFormed(m) && r < Count(m) && ArrivedAt(m, es, r)
    requires c.mode != Peek && c == CallFor(Items(m)[r], c.mode)
    requires BridgeInvariant(m, es, r, Offer(b, s, calls).0, out + Offer(b, s, calls).1)
    ensures var (b', more) := Offer(b, s, calls + [c]);
            BridgeInvariant(m, es, r + 1, b', out + more) && b'.start == Offer(b, s, calls).0.start
  {
    hide BridgeInvariant, Items, Offer, Ready, Rank, CallFor;
    OfferUnfold(b, s, calls, c);
    var (b1, more) := Offer(b, s, calls);
    var k := KeyAt(m, r);
    ArrivedAtRank(m, es, k);
    OfferOne(m, es, s, b1, out + more, k, c.mode);
    ReadyKeepsStart(b1, s, c);
    assert out + (more + Ready(b1, s, c).1) == (out + more) + Ready(b1, s, c).1;
  }

  /** The objects that one event delivers in sequence or repairs, offered one by one. */
  lemma {:induction false} OfferMany(m: Groups, es: seq<Event>, s: State, b: Bridge, out: seq<Item>,
                                     low: nat, calls: seq<ReadyCall>)
    requires WellFormed(m) && CallsFrom(m, low, calls)
    requires BridgeInvariant(m, es, low, b, out)
    requires forall r :: low <= r < low + |calls| ==> ArrivedAt(m, es, r)
    ensures var (b', more) := Offer(b, s, calls);
            BridgeInvariant(m, es, low + |calls|, b', out + more) && b'.start == b.start
    decreases |calls|
  {
    hide BridgeInvariant, CallsFrom, ArrivedAt, Offer;
    OfferNone(b, s);
    if calls == [] {
      assert out + [] == out;
    } else {
      var init, c := calls[..|calls| - 1], calls[|calls| - 1];
      assert calls == init + [c];
      CallsFromSplit(m, low, init, c);
      OfferMany(m, es, s, b, out, low, init);
      OfferNext(m, es, s, b, out, low + |init|, init, c);
    }
  }

  /** The stream learns its start point at most once, and its peer sends nothing before it. */
  ghost predicate StartsOnce(m: Groups, es: seq<Event>) {
    && (forall i, j :: 0 <= i < j < |es| && es[i].Start? ==> !es[j].Start?)
    && (forall i, j :: 0 <= i < j < |es| && es[i].Arrival? && es[j].Start? ==>
          StartRank(m, es[j]) <= FragmentRank(m, es[i].fragment))
  }

  ghost function FragmentRank(m: Groups, f: Fragment): nat {
    if InMedia(m, f.key) then Rank(m, f.key) else 0
  }

  ghost predicate RunInvariant(m: Groups, es: seq<Event>, b: Bridge, out: seq<Item>) {
    && BridgeInvariant(m, es, Cursor(m, es), b, out)
    && (out == [] ==> Cursor(m, es) == Rank(m, b.start))
    && (NoStart(es, 0) ==> b.start == Key(0, 0))
  }

  lemma StillTouched(m: Groups, es: seq<Event>, e: Event, rank: nat, b: Bridge, out: seq<Item>)
    requires BridgeInvariant(m, es, rank, b, out)
    ensures BridgeInvariant(m, es + [e], rank, b, out)
  {
    if out != [] {
      OnlyItsObject(m, es, e, out[|out| - 1].key);
    }
  }

  /** Past the cursor the tree documents only true group sizes. */
  lemma FaithfulSizes(m: Groups, es: seq<Event>, s: State, from: Key)
    requires Faithful(m, es, s) && IsCursor(m, from) && Rank(m, s.next) <= Rank(m, from)
    ensures SizesTrue(m, s, from)
  {
    forall k | k in s.objects && k.id == 0 && k.group > from.group
      ensures InMedia(m, k) && (s.objects[k].previousSize == 0 || s.objects[k].previousSize == |m[k.group - 1]|)
    {
      RankOrders(m, from, k);
    }
  }

  /** An arrival's callbacks: nothing, one peek, or a delivery and the repairs behind it. */
  lemma OfferArrival(m: Groups, es: seq<Event>, f: Fragment, s: State, b: Bridge, out: seq<Item>)
    requires WellFormed(m) && InMedia(m, f.key) && Invariant(m, es + [Arrival(f)], s)
    requires BridgeInvariant(m, es, Cursor(m, es), b, out) && (out == [] ==> Cursor(m, es) == Rank(m, b.start))
    ensures var es' := es + [Arrival(f)];
            var (b', more) := Offer(b, s, ArrivalCalls(m, es, f));
            && BridgeInvariant(m, es', Cursor(m, es'), b', out + more) && b'.start == b.start
            && (out + more == [] ==> Cursor(m, es') == Rank(m, b.start))
  {
    hide Items, Offer, Ready, Arrived, Touched, Cursor, Advance, ArrivedAt, Orderly, Faithful, CallsFor;
    var es' := es + [Arrival(f)];
    StillTouched(m, es, Arrival(f), Cursor(m, es), b, out);
    OfferNone(b, s);
    OnlyItsObject(m, es, Arrival(f), f.key);
    if Rank(m, f.key) == Cursor(m, es) && Arrived(m, es', f.key) {
      OfferCompletes(m, es, f, s, b, out);
    } else {
      CursorStays(m, es, Arrival(f));
      assert out + [] == out;
      if ArrivalCalls(m, es, f) != [] {
        OfferAhead(m, es, f, s, b, out);
      }
    }
  }

  /** The object in line is complete: it goes out, with the repairs behind it. */
  lemma OfferCompletes(m: Groups, es: seq<Event>, f: Fragment, s: State, b: Bridge, out: seq<Item>)
    requires WellFormed(m) && InMedia(m, f.key) && Invariant(m, es + [Arrival(f)], s)
    requires BridgeInvariant(m, es + [Arrival(f)], Cursor(m, es), b, out) && (out == [] ==> Cursor(m, es) == Rank(m, b.start))
    requires Rank(m, f.key) == Cursor(m, es) && Arrived(m, es + [Arrival(f)], f.key)
    ensures var es' := es + [Arrival(f)];
            var (b', more) := Offer(b, s, ArrivalCalls(m, es, f));
            && BridgeInvariant(m, es', Cursor(m, es'), b', out + more) && b'.start == b.start
            && (out + more == [] ==> Cursor(m, es') == Rank(m, b.start))
  {
    hide Items, Offer, Ready, Arrived, Touched, Cursor, Advance, ArrivedAt, Orderly, Faithful, CallsFor;
    var es' := es + [Arrival(f)];
    CursorRests(m, es);
    ArrivedAtRank(m, es, f.key);
    ArrivedAtRank(m, es', f.key);
    AdvanceAt(m, es, f);
    AdvanceRests(m, es', Cursor(m, es) + 1);
    ItemsAt(m, f.key);
    InSequenceCalls(m, f.key, Cursor(m, es), Cursor(m, es'));
    OfferMany(m, es', s, b, out, Cursor(m, es), ArrivalCalls(m, es, f));
  }

  /** An object ahead of the cursor is shown. */
  lemma OfferAhead(m: Groups, es: seq<Event>, f: Fragment, s: State, b: Bridge, out: seq<Item>)
    requires WellFormed(m) && InMedia(m, f.key) && Invariant(m, es + [Arrival(f)], s)
    requires BridgeInvariant(m, es + [Arrival(f)], Cursor(m, es), b, out) && (out == [] ==> Cursor(m, es) == Rank(m, b.start))
    requires Cursor(m, es + [Arrival(f)]) == Cursor(m, es) < Rank(m, f.key) && Touched(es + [Arrival(f)], f.key)
    requires ArrivalCalls(m, es, f) == [CallFor(Item(f.key, ObjectAt(m, f.key)), Peek)]
    ensures var (b', more) := Offer(b, s, ArrivalCalls(m, es, f));
            && BridgeInvariant(m, es + [Arrival(f)], Cursor(m, es), b', out + more) && b'.start == b.start
  {
    hide Items, Offer, Ready, Arrived, Touched, Cursor, Orderly, Faithful, BridgeInvariant, ArrivalCalls, Rank;
    var c := CallFor(Item(f.key, ObjectAt(m, f.key)), Peek);
    OfferNone(b, s);
    OfferUnfold(b, s, [], c);
    assert [] + [c] == [c];
    assert [] + Ready(b, s, c).1 == Ready(b, s, c).1;
    EffectiveIsCursor(m, es + [Arrival(f)], Cursor(m, es), b, out);
    FaithfulSizes(m, es + [Arrival(f)], s, Effective(b));
    OfferPeek(m, es + [Arrival(f)], s, b, out, Cursor(m, es), f.key);
    ReadyKeepsStart(b, s, c);
  }

  lemma EffectiveIsCursor(m: Groups, es: seq<Event>, rank: nat, b: Bridge, out: seq<Item>)
    requires BridgeInvariant(m, es, rank, b, out)
    ensures IsCursor(m, Effective(b)) && rank <= Rank(m, Effective(b))
  {
  }

  lemma InSequenceCalls(m: Groups, k: Key, c: nat, d: nat)
    requires InMedia(m, k) && c < d <= Count(m) && Items(m)[c] == Item(k, ObjectAt(m, k))
    ensures var calls := [CallFor(Item(k, ObjectAt(m, k)), InSequence)] + CallsFor(Items(m)[c + 1..d], Repair);
            |calls| == d - c && CallsFrom(m, c, calls)
  {
  }

  /** A start point's callbacks: repairs only. */
  lemma OfferStart(m: Groups, es: seq<Event>, k: Key, s: State, b: Bridge, out: seq<Item>)
    requires WellFormed(m) && IsCursor(m, k) && StartsOnce(m, es + [Start(k)])
    requires RunInvariant(m, es, b, out)
    requires out != [] ==> Rank(m, k) < Rank(m, b.next)
    ensures var es' := es + [Start(k)];
            var (b', more) := Offer(b.(start := k), s, StartCalls(m, es, Start(k)));
            && BridgeInvariant(m, es', Cursor(m, es'), b', out + more) && b'.start == k
            && (out + more == [] ==> Cursor(m, es') == Rank(m, k))
  {
    hide Items, Offer, Ready, Arrived, Touched, Cursor, Advance, ArrivedAt, Orderly, Faithful, CallsFor, CallFor;
    var (e, es') := (Start(k), es + [Start(k)]);
    var (low, high) := (Resume(m, es, e), Cursor(m, es'));
    StillTouched(m, es, e, Cursor(m, es), b, out);
    CursorUnfold(m, es, e);
    AdvanceRests(m, es', low);
    NoEarlierStart(m, es, k);
    RankOfZero(m);
    RepairCalls(m, low, high);
    OfferMany(m, es', s, b.(start := k), out, low, StartCalls(m, es, e));
  }

  lemma RankOfZero(m: Groups)
    ensures IsCursor(m, Key(0, 0)) && Rank(m, Key(0, 0)) == 0
  {
  }

  lemma NoEarlierStart(m: Groups, es: seq<Event>, k: Key)
    requires StartsOnce(m, es + [Start(k)])
    ensures NoStart(es, 0)
  {
    var es' := es + [Start(k)];
    forall i | 0 <= i < |es| ensures !es[i].Start? {
      assert es'[i] == es[i] && es'[|es|].Start?;
    }
  }

  lemma RepairCalls(m: Groups, c: nat, d: nat)
    requires c <= d <= Count(m)
    ensures var calls := CallsFor(Items(m)[c..d], Repair);
            |calls| == d - c && CallsFrom(m, c, calls)
  {
  }

  /** What the bridge delivered last arrived before the start point was known, and so lies
      at or past it. */
  lemma DeliveredPastStart(m: Groups, es: seq<Event>, k: Key, b: Bridge, out: seq<Item>)
    requires IsCursor(m, k) && StartsOnce(m, es + [Start(k)]) && RunInvariant(m, es, b, out) && out != []
    ensures Rank(m, k) < Rank(m, b.next)
  {
    var last, es' := out[|out| - 1].key, es + [Start(k)];
    RankAfter(m, last);
    var i :| 0 <= i < |es| && Touches(es[i], last);
    assert es'[i] == es[i] && es'[|es|] == Start(k);
    assert StartRank(m, es'[|es|]) <= FragmentRank(m, es'[i].fragment);
  }

  lemma StepBridge(m: Groups, es: seq<Event>, e: Event, b: Bridge, out: seq<Item>)
    requires WellFormed(m) && AllHonest(m, es + [e]) && StartsOnce(m, es + [e])
    requires RunInvariant(m, es, b, out)
    ensures Honest(m, e)
    ensures var (b', more) := Offer(Told(b, e), Run(es + [e]).0, EventCalls(m, es, e));
            RunInvariant(m, es + [e], b', out + more)
  {
    RunCallsUnfold(m, es, e);
    RunRefinesReference(m, es + [e]);
    hide Cursor, Items, RunCalls, Run, Offer, ArrivalCalls, StartCalls, StartsOnce, BridgeInvariant, IsSlice, Invariant;
    NoStartUnfold(es, e);
    var s := Run(es + [e]).0;
    RankOfZero(m);
    match e {
      case Arrival(f) =>
        SliceIsInMedia(m, f);
        OfferArrival(m, es, f, s, b, out);
      case Start(k) =>
        if out != [] {
          DeliveredPastStart(m, es, k, b, out);
        }
        OfferStart(m, es, k, s, b, out);
      case Final(_) =>
        CursorStays(m, es, e);
        OfferNone(b, s);
        StillTouched(m, es, e, Cursor(m, es), b, out);
        assert out + [] == out;
    }
  }

  lemma NoStartUnfold(es: seq<Event>, e: Event)
    ensures NoStart(es + [e], 0) <==> NoStart(es, 0) && !e.Start?
  {
    assert forall i :: 0 <= i < |es| ==> (es + [e])[i] == es[i];
    assert (es + [e])[|es|] == e;
  }

  lemma StartsOncePrefix(m: Groups, es: seq<Event>, e: Event)
    requires StartsOnce(m, es + [e])
    ensures StartsOnce(m, es)
  {
    assert forall i :: 0 <= i < |es| ==> (es + [e])[i] == es[i];
  }

  /** An application that skips to the group ahead: on every run it receives objects of the
      media, or placeholders for them, with strictly increasing identifiers and no group left
      out, and it is never behind the in-order cursor. */
  lemma {:induction false} SkipAheadIsOrderly(m: Groups, es: seq<Event>)
    requires WellFormed(m) && AllHonest(m, es) && StartsOnce(m, es)
    ensures RunInvariant(m, es, BridgeRun(SkipToGroupAhead, es).0, BridgeRun(SkipToGroupAhead, es).1)
  {
    if es == [] {
      RankOfZero(m);
    } else {
      var prefix, e := es[..|es| - 1], es[|es| - 1];
      assert es == prefix + [e] && AllHonest(m, prefix);
      StartsOncePrefix(m, prefix, e);
      SkipAheadIsOrderly(m, prefix);
      RunRefinesReference(m, prefix);
      RunRefinesReference(m, es);
      hide RunInvariant, Offer, Cursor, Step, Invariant, StartsOnce;
      RunUnfold(m, prefix, e);
      var (b, out) := BridgeRun(SkipToGroupAhead, prefix);
      StepBridge(m, prefix, e, b, out);
    }
  }

  /** The machine's step makes the callbacks of the reference. */
  lemma RunUnfold(m: Groups, es: seq<Event>, e: Event)
    requires WellFormed(m) && AllHonest(m, es + [e])
    ensures Honest(m, e)
    ensures Step(Run(es).0, e).0 == Run(es + [e]).0 && Step(Run(es).0, e).1 == EventCalls(m, es, e)
  {
    RunCallsUnfold(m, es, e);
    RunRefinesReference(m, es);
    assert (es + [e])[..|es + [e]| - 1] == es;
    match e
    case Arrival(f) => ArrivalStep(m, es, Run(es).0, f);
    case Start(k) => StartStep(m, es, Run(es).0, k);
    case Final(_) => FinalStep(m, es, Run(es).0);
  }

  // ----- Placeholders replace exactly what is jumped over -----

  /** Some arrival documented the size of the group before group g. */
  ghost predicate SizeKnown(m: Groups, es: seq<Event>, g: nat) {
    && 0 < g < |m| && InMedia(m, Key(g, 0)) && Touched(es, Key(g, 0))
    && (ObjectAt(m, Key(g, 0)).data == [] || 0 in Covered(es, Key(g, 0)))
  }

  function PlaceholdersFor(items: seq<Item>): (r: seq<Item>)
    ensures |r| == |items|
  {
    seq(|items|, i requires 0 <= i < |items| => Placeholder(items[i].key))
  }

  lemma LimitKnown(m: Groups, es: seq<Event>, s: State, next: Key)
    requires WellFormed(m) && Faithful(m, es, s) && IsCursor(m, next) && Rank(m, s.next) <= Rank(m, next)
    requires SizeKnown(m, es, next.group + 1)
    ensures Limit(s, next) == |m[next.group]|
  {
    RankOrders(m, next, Key(next.group + 1, 0));
    assert m[next.group] != [];
  }

  lemma FillRest(m: Groups, next: Key)
    requires IsCursor(m, next) && InMedia(m, Key(next.group + 1, 0))
    ensures Rank(m, next) <= Rank(m, Key(next.group + 1, 0)) <= Count(m)
    ensures Fill(next, |m[next.group]|) ==
            PlaceholdersFor(Items(m)[Rank(m, next)..Rank(m, Key(next.group + 1, 0))])
  {
    hide Items;
    RankOrders(m, next, Key(next.group + 1, 0));
    RankBelowCount(m, Key(next.group + 1, 0));
    var out := Fill(next, |m[next.group]|);
    var items := Items(m)[Rank(m, next)..Rank(m, Key(next.group + 1, 0))];
    assert |out| == |items|;
    forall i | 0 <= i < |out| ensures out[i] == PlaceholdersFor(items)[i] {
      ItemsAt(m, Key(next.group, next.id + i));
      assert items[i] == Items(m)[Rank(m, next) + i];
    }
  }

  /** Leaving a group of known size: one placeholder for each of its remaining objects. */
  lemma RestOfGroupReplaced(m: Groups, es: seq<Event>, s: State, next: Key)
    requires WellFormed(m) && Faithful(m, es, s) && IsCursor(m, next) && Rank(m, s.next) <= Rank(m, next)
    requires SizeKnown(m, es, next.group + 1)
    ensures Rank(m, next) <= Rank(m, Key(next.group + 1, 0)) <= Count(m)
    ensures Fill(next, Limit(s, next)) ==
            PlaceholdersFor(Items(m)[Rank(m, next)..Rank(m, Key(next.group + 1, 0))])
  {
    LimitKnown(m, es, s, next);
    FillRest(m, next);
  }

  lemma PlaceholdersJoin(items: seq<Item>, a: nat, b: nat, c: nat)
    requires a <= b <= c <= |items|
    ensures PlaceholdersFor(items[a..b]) + PlaceholdersFor(items[b..c]) == PlaceholdersFor(items[a..c])
  {
    Join(items, a, b, c);
  }

  /** Where all the sizes are known, a jump replaces every object it passes over, and nothing
      else, by exactly one placeholder, in order. */
  lemma {:induction false} JumpReplacesAll(m: Groups, es: seq<Event>, s: State, next: Key, group: nat)
    requires WellFormed(m) && Faithful(m, es, s) && IsCursor(m, next) && Rank(m, s.next) <= Rank(m, next)
    requires next.group < group
    requires forall g :: next.group < g <= group ==> SizeKnown(m, es, g)
    ensures SizeKnown(m, es, group) && Rank(m, next) <= Rank(m, Key(group, 0)) <= Count(m)
    ensures Jump(s, next, group) == PlaceholdersFor(Items(m)[Rank(m, next)..Rank(m, Key(group, 0))])
    decreases group - next.group
  {
    hide Jump, Fill, Limit, Items, PlaceholdersFor, Faithful;
    var onward := Key(next.group + 1, 0);
    assert SizeKnown(m, es, onward.group);
    RestOfGroupReplaced(m, es, s, next);
    JumpUnfold(s, next, group);
    if onward.group < group {
      JumpReplacesAll(m, es, s, onward, group);
      PlaceholdersJoin(Items(m), Rank(m, next), Rank(m, onward), Rank(m, Key(group, 0)));
    }
  }
}
