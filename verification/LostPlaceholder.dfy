/** The smallest run in which a dropped object is never complete: the publisher drops the second
    object of a group, and the packet with the placeholder is lost.  What is sent again for it is not
    what was sent, and whoever gets that waits for ever. */
module LostPlaceholder {
  import opened Media
  import opened Arrivals
  import opened DatagramPublisher
  import opened DatagramTransport
  import opened Replacement
  import opened DroppedObjects
  import W = DatagramWire
  import D = DatagramDelivery
  import DatagramRuns
  import H = AckHorizon
  import A = AckRuns
  import S = AckSafety
  import System = DatagramSystem
  import Reassembly
  import Delivery
  import FragmentCache
  import CacheCursor
  import Reception = DatagramReception

  const MEDIA: Groups := [[MediaObject([9], 0), MediaObject([1, 2], 0)]]
  const K0 := Key(0, 0)
  const K1 := Key(0, 1)
  const FIRST := Fragment(K0, 0, 0, 0, 1, [9])
  const SECOND := Fragment(K1, 0, 0, 0, 2, [1, 2])
  const BOTH := [FIRST, SECOND]

  /** Both objects come in, the first is sent, the second is dropped, and the packet with its
      placeholder is reported as lost. */
  function Steps(limits: H.Limits): seq<System.Step> {
    [System.Arrive(FIRST), System.Arrive(SECOND), System.Offer(false, 1000), System.Offer(true, 1000), System.Lost(1, limits)]
  }

  const SENT0 := Datagram(K0, 0, 0, 0, 1, [9])
  const SENT1 := Datagram(K1, 0, 255, 0, 0, [])
  const RECORD0 := H.Shipment(K0, 0, 0, 0, 1, 1)
  const RECORD1 := H.Shipment(K1, 0, 255, 0, 0, 2)
  const READER1 := Reader(0, 1, true, [SentObject(K0, 0, 1, 1, false, true)], [Pieces([SENT0])])

  // ----- The publisher -----

  lemma FirstOffer()
    ensures Ready(NEW_READER, BOTH) && Poll(NEW_READER, BOTH, K0, false, 1000) == READER1
    ensures NewShipment(BOTH, NEW_READER, READER1) == Some(RECORD0) && W.Added(READER1.log) == [FIRST]
  {
    var r := Reader(0, 0, false, [], [Pieces([])]);
    assert FirstFrom(BOTH, K0, 0) == 0;
    assert Begin(NEW_READER, BOTH, K0) == r;
    var o := SentObject(K0, 0, 1, 0, false, false);
    assert WithEntry([], FIRST) == [o];
    assert [o][0 := SentObject(K0, 0, 1, 1, false, true)] == READER1.objects;
    assert Updated([], FIRST, false, 1, 1) == READER1.objects;
    assert FIRST.data[0..1] == [9] && PieceOf(FIRST, 0, 1) == SENT0;
    assert [] + [SENT0] == [SENT0];
    assert r.log[0 := Pieces([SENT0])] == READER1.log;
    assert Send(r, FIRST, 1000, false) == READER1;
    assert READER1.log[..0] == [];
    assert D.Wire(READER1.log) == [SENT0];
  }

  lemma SecondOffer() returns (r: Reader)
    ensures Ready(READER1, BOTH) && r == Poll(READER1, BOTH, K0, true, 1000)
    ensures NewShipment(BOTH, READER1, r) == Some(RECORD1) && W.Added(r.log) == [PlaceholderOf(K1)]
  {
    hide Updated;
    r := Poll(READER1, BOTH, K0, true, 1000);
    var r1 := Onward(READER1);
    assert Seek(READER1, BOTH, K0) == (r1, true);
    assert PlaceholderFor(SECOND) == SENT1;
    assert r == Send(r1, SECOND, 1000, true);
    assert r.log == [Pieces([SENT0]), Placeheld(SENT1)];
    assert r.log[..1] == READER1.log && READER1.log[..0] == [];
    assert D.Wire(READER1.log) == [SENT0] && D.Wire(r.log) == [SENT0] + [SENT1];
  }

  // ----- The records -----

  const RECORDS := [H.Record(RECORD0, false), H.Record(RECORD1, false)]
  const WORLD1 := S.World(H.State(H.NO_HORIZON, RECORDS[..1], None), [RECORD0], {}, {}, false)
  const WORLD2 := S.World(H.State(H.NO_HORIZON, RECORDS, None), [RECORD0, RECORD1], {}, {}, false)

  lemma FirstRecord()
    ensures S.After(S.NEW_WORLD, S.Send(RECORD0)) == WORLD1
  {
    assert H.Inserted([], H.Record(RECORD0, false)) == [H.Record(RECORD0, false)] == RECORDS[..1];
    assert [] + [RECORD0] == [RECORD0];
  }

  lemma SecondRecord()
    ensures S.After(WORLD1, S.Send(RECORD1)) == WORLD2
  {
    var one := RECORDS[..1];
    assert one == [H.Record(RECORD0, false)] && one[..0] == [];
    assert H.Find(one, K1, 0) == -1 && H.Place(one, K1, 0) == 1;
    assert H.Inserted(one, H.Record(RECORD1, false)) == RECORDS;
    assert [RECORD0] + [RECORD1] == [RECORD0, RECORD1];
  }

  lemma Repeated(limits: H.Limits)
    requires H.Roomy(limits)
    ensures H.HandleLost(WORLD2.state, RECORD1, limits) == (WORLD2.state, [RECORD1], true)
  {
    assert H.Find(RECORDS, K1, 0) == 1;
    H.RepeatUnfold(WORLD2.state, 1, 0, limits);
    assert H.Head(RECORD1, 0) == RECORD1;
  }

  // ----- The run -----

  lemma WireStep(steps: seq<System.Step>, step: System.Step)
    ensures var (n, now) := (System.Run(K0, steps), System.Run(K0, steps + [step]));
            && now == System.After(n, K0, step)
            && W.Wire(K0, steps + [step]) == W.Wire(K0, steps) + W.More(n, W.Wire(K0, steps), step, now)
  {
    hide W.More, System.After;
    assert (steps + [step])[..|steps|] == steps;
  }

  lemma OneArrives(steps: seq<System.Step>, f: Fragment)
    requires System.Run(K0, steps).pub.reader == NEW_READER && W.Wire(K0, steps) == []
    ensures var (n, now) := (System.Run(K0, steps), System.Run(K0, steps + [System.Arrive(f)]));
            now == n.(pub := D.World(n.pub.arrivals + [f], NEW_READER)) && W.Wire(K0, steps + [System.Arrive(f)]) == []
  {
    WireStep(steps, System.Arrive(f));
    hide System.Run, W.Wire, W.More, System.After;
    NothingMore(System.Run(K0, steps), f);
  }

  lemma TwoArrive(f: Fragment, g: Fragment)
    ensures var steps := [System.Arrive(f), System.Arrive(g)];
            System.Run(K0, steps) == System.Node(D.World([f, g], NEW_READER), S.NEW_WORLD) && W.Wire(K0, steps) == []
  {
    NothingYet();
    hide System.Run, W.Wire;
    OneArrives([], f);
    assert [] + [System.Arrive(f)] == [System.Arrive(f)] && [] + [f] == [f];
    OneArrives([System.Arrive(f)], g);
    assert [System.Arrive(f)] + [System.Arrive(g)] == [System.Arrive(f), System.Arrive(g)];
    assert [f] + [g] == [f, g];
  }

  lemma NothingMore(n: System.Node, f: Fragment)
    requires n.pub.reader == NEW_READER
    ensures System.After(n, K0, System.Arrive(f)) == n.(pub := D.World(n.pub.arrivals + [f], NEW_READER))
    ensures forall now :: W.More(n, [], System.Arrive(f), now) == []
  {
  }

  lemma NothingYet()
    ensures System.Run(K0, []) == System.NEW_NODE && W.Wire(K0, []) == []
  {
  }

  lemma Offered(r: Reader)
    requires Ready(READER1, BOTH) && r == Poll(READER1, BOTH, K0, true, 1000)
    requires NewShipment(BOTH, READER1, r) == Some(RECORD1) && W.Added(r.log) == [PlaceholderOf(K1)]
    ensures var steps := [System.Arrive(FIRST), System.Arrive(SECOND), System.Offer(false, 1000), System.Offer(true, 1000)];
            System.Run(K0, steps) == System.Node(D.World(BOTH, r), WORLD2) && W.Wire(K0, steps) == [FIRST, PlaceholderOf(K1)]
  {
    FirstOffer();
    FirstRecord();
    SecondRecord();
    TwoArrive(FIRST, SECOND);
    hide System.Run, W.Wire, Poll, NewShipment, W.Added, S.After;
    var steps := [System.Arrive(FIRST), System.Arrive(SECOND)];
    WireStep(steps, System.Offer(false, 1000));
    WireStep(steps + [System.Offer(false, 1000)], System.Offer(true, 1000));
    assert steps + [System.Offer(false, 1000)] + [System.Offer(true, 1000)] ==
           [System.Arrive(FIRST), System.Arrive(SECOND), System.Offer(false, 1000), System.Offer(true, 1000)];
    assert [] + [FIRST] == [FIRST] && [FIRST] + [PlaceholderOf(K1)] == [FIRST, PlaceholderOf(K1)];
  }

  lemma LossAddsHollow(n: System.Node, limits: H.Limits)
    requires n.acks == WORLD2 && H.Roomy(limits) && Ready(n.pub.reader, n.pub.arrivals)
    ensures var (step, wire) := (System.Lost(1, limits), [FIRST, PlaceholderOf(K1)]);
            && System.After(n, K0, step).pub == n.pub
            && W.More(n, wire, step, System.After(n, K0, step)) == [HollowOf(K1, 2)]
  {
    Repeated(limits);
    hide H.HandleLost;
  }

  /** The placeholder went out with length zero; its repeat announces the length two. */
  lemma RepeatIsHollow(limits: H.Limits)
    requires A.Regular(limits)
    ensures W.Wire(K0, Steps(limits)) == [FIRST, PlaceholderOf(K1), HollowOf(K1, 2)]
    ensures !W.SameHeader(HollowOf(K1, 2), PlaceholderOf(K1))
    ensures System.Run(K0, Steps(limits)).pub.arrivals == BOTH
  {
    var r := SecondOffer();
    Offered(r);
    hide System.Run, System.After, W.Wire, W.More;
    var steps := [System.Arrive(FIRST), System.Arrive(SECOND), System.Offer(false, 1000), System.Offer(true, 1000)];
    WireStep(steps, System.Lost(1, limits));
    LossAddsHollow(System.Run(K0, steps), limits);
    assert steps + [System.Lost(1, limits)] == Steps(limits);
    assert [FIRST, PlaceholderOf(K1)] + [HollowOf(K1, 2)] == [FIRST, PlaceholderOf(K1), HollowOf(K1, 2)];
  }

  // ----- Who gets the repeat -----

  lemma BothAreCut()
    ensures DatagramRuns.Cut(MEDIA, BOTH) && WellFormed(MEDIA)
  {
    assert MEDIA[0][1].data[0..2] == [1, 2] && MEDIA[0][0].data[0..1] == [9];
  }

  /** A consumer that does not get the placeholder itself, but whatever else, as often as it comes,
      is handed the first object at most. */
  lemma ConsumerWaits(limits: H.Limits, es: seq<Event>)
    requires A.Regular(limits) && Reception.FromWire(MEDIA, W.Wire(K0, Steps(limits)), es) && Arrival(PlaceholderOf(K1)) !in es
    ensures var calls := Reassembly.Run(es).1;
            |Delivery.InOrder(calls)| <= 1 && !Delivery.Holds(Delivery.OutOfOrder(calls), K1)
  {
    hide Reassembly.Run, Delivery.InOrder, Delivery.OutOfOrder;
    RepeatIsHollow(limits);
    BothAreCut();
    ComesHere(limits, es);
    DroppedDelivery(MEDIA, {K1}, es);
    assert !PlaceholderFirst(es, K1);
    RankHere();
  }

  lemma RankHere()
    ensures Rank(MEDIA, K1) == 1
  {
  }

  lemma ComesHere(limits: H.Limits, es: seq<Event>)
    requires W.Wire(K0, Steps(limits)) == [FIRST, PlaceholderOf(K1), HollowOf(K1, 2)] && DatagramRuns.Cut(MEDIA, BOTH)
    requires Reception.FromWire(MEDIA, W.Wire(K0, Steps(limits)), es)
    ensures Droppable(MEDIA, {K1}) && AllCome(MEDIA, {K1}, es)
  {
    hide W.Wire;
    forall i | 0 <= i < |es| ensures Comes(MEDIA, {K1}, es[i]) {
      if es[i].Arrival? {
        assert es[i].fragment in [FIRST, PlaceholderOf(K1), HollowOf(K1, 2)];
      }
    }
  }

  /** A relay's cache that got the first object and the repeat does not move past the dropped object
      any more, not even when the placeholder comes after all. */
  lemma RelayWaits()
    ensures var c := CacheCursor.Run([Arrival(FIRST), Arrival(HollowOf(K1, 2))]);
            && c.next == K1 && c.nextOffset == 0
            && FragmentCache.Propose(c, HollowOf(K1, 2)) == c && FragmentCache.Propose(c, PlaceholderOf(K1)) == c
  {
    var es := [Arrival(FIRST), Arrival(HollowOf(K1, 2))];
    var c := FragmentCache.Propose(FragmentCache.EMPTY, FIRST);
    FirstIsCached();
    CacheIsStuck(c, K1, 2);
    hide FragmentCache.Propose;
    assert es[..1] == [Arrival(FIRST)] && [Arrival(FIRST)][..0] == [];
    assert CacheCursor.Run([Arrival(FIRST)]) == CacheCursor.Step(FragmentCache.EMPTY, Arrival(FIRST)) == c;
    assert CacheCursor.Run(es) == CacheCursor.Step(c, Arrival(HollowOf(K1, 2)));
  }

  lemma FirstIsCached()
    ensures var c := FragmentCache.Propose(FragmentCache.EMPTY, FIRST);
            c.tree == [FIRST] && c.first == K0 && c.next == K1 && c.nextOffset == 0
  {
    assert FragmentCache.Inserted([], FIRST) == [FIRST];
    FragmentCache.ProgressUnfold([FIRST], 0, K0, 0);
    FragmentCache.ProgressUnfold([FIRST], 1, K1, 0);
  }
}
