/** What acknowledged datagrams are good for.  A consumer that reassembles them holds every
    acknowledged byte, and in the end every object that was sent; of what was dropped it gets the
    objects whose placeholder came first.  A relay that caches them may not hold every byte: the
    exact condition, and the smallest way to lose bytes for good. */
module DatagramReception {
  import opened Media
  import opened Arrivals
  import H = AckHorizon
  import A = AckRuns
  import S = AckSafety
  import T = DatagramTransport
  import D = DatagramDelivery
  import DatagramRuns
  import System = DatagramSystem
  import Reassembly
  import Delivery
  import FragmentCache
  import CacheCursor
  import DatagramPublisher
  import W = DatagramWire
  import opened Replacement
  import opened DroppedObjects

  /** The fragment that a datagram with data carried. */
  ghost function Carried(m: Groups, d: H.Shipment): Fragment
    requires A.Honest(m, d)
  {
    var o := ObjectAt(m, d.key);
    Fragment(d.key, d.offset, o.flags, if d.key.id == 0 && d.offset == 0 then SizeOfPrevious(m, d.key.group) else 0,
             |o.data|, o.data[d.offset..d.End()])
  }

  lemma CarriedIsSolid(m: Groups, d: H.Shipment)
    requires A.Honest(m, d) && d.length > 0
    ensures IsSolidSlice(m, Carried(m, d)) && |Carried(m, d).data| == d.length
  {
  }

  lemma {:induction false} EventCovers(es: seq<Event>, f: Fragment, p: nat)
    requires Arrival(f) in es && f.offset <= p < f.End()
    ensures p in Covered(es, f.key) && Touched(es, f.key)
  {
    hide Span;
    var before := es[..|es| - 1];
    if es[|es| - 1] == Arrival(f) {
      assert Touches(es[|es| - 1], f.key);
      SpanOf(f.offset, |f.data|, p);
    } else {
      assert es == before + [es[|es| - 1]];
      EventCovers(before, f, p);
      var i :| 0 <= i < |before| && Touches(before[i], f.key);
      assert Touches(es[i], f.key);
    }
  }

  lemma SpanOf(offset: nat, length: nat, p: nat)
    requires offset <= p < offset + length
    ensures p in Span(offset, length)
  {
  }

  // ----- What a consumer receives -----

  /** The objects that the publisher replaced by a placeholder. */
  ghost function DroppedBy(pub: D.World): set<Key> {
    set a | 0 <= a < |pub.reader.log| && a < |pub.arrivals| && pub.reader.log[a].Placeheld? :: pub.arrivals[a].key
  }

  /** What a consumer is fed: fragments that went over the wire, in any order and number, and the
      final point. */
  ghost predicate FromWire(m: Groups, wire: seq<Fragment>, es: seq<Event>) {
    forall i :: 0 <= i < |es| ==> !es[i].Start? && (es[i].Arrival? ==> es[i].fragment in wire) && (es[i].Final? ==> es[i].key == EndOf(m))
  }

  /** Every datagram whose packet was reported as received is among it. */
  ghost predicate Receives(wire: seq<Fragment>, acked: set<nat>, es: seq<Event>) {
    forall i: nat :: i < |wire| && i in acked ==> Arrival(wire[i]) in es
  }

  lemma PlaceheldIsRight(m: Groups, start: Key, pub: D.World, a: nat)
    requires DatagramRuns.Invariant(m, pub.arrivals, start, pub.reader)
    requires a < |pub.reader.log| <= |pub.arrivals| && pub.reader.log[a].Placeheld?
    ensures var k := pub.arrivals[a].key;
            && k.id != 0 && pub.arrivals[a].data != []
            && forall b :: 0 <= b < |pub.reader.log| && b != a && pub.arrivals[b].key == k ==> pub.reader.log[b].Silent?
  {
    hide DatagramRuns.Books, DatagramRuns.Standing;
    assert DatagramRuns.Right(pub.arrivals, pub.arrivals[DatagramPublisher.FirstFrom(pub.arrivals, start, 0)].key, pub.reader, a);
  }

  lemma DroppedAt(m: Groups, start: Key, pub: D.World, k: Key) returns (a: nat)
    requires DatagramRuns.Cut(m, pub.arrivals) && DatagramRuns.Invariant(m, pub.arrivals, start, pub.reader) && k in DroppedBy(pub)
    ensures a < |pub.reader.log| <= |pub.arrivals| && pub.arrivals[a].key == k && pub.reader.log[a].Placeheld?
    ensures InMedia(m, k) && k.id != 0 && ObjectAt(m, k).data != []
    ensures forall b :: 0 <= b < |pub.reader.log| && b != a && pub.arrivals[b].key == k ==> pub.reader.log[b].Silent?
  {
    W.InvariantBounds(m, pub.arrivals, start, pub.reader);
    hide DatagramRuns.Invariant;
    a :| 0 <= a < |pub.reader.log| && a < |pub.arrivals| && pub.reader.log[a].Placeheld? && pub.arrivals[a].key == k;
    assert IsSolidSlice(m, pub.arrivals[a]);
    PlaceheldIsRight(m, start, pub, a);
  }

  /** A fragment on the wire is of a dropped object exactly when it is the placeholder or a repeat of
      it, and otherwise a piece of the media. */
  lemma WireIsOf(m: Groups, start: Key, n: System.Node, wire: seq<Fragment>, i: nat)
    requires W.WireInvariant(m, start, n, wire) && DatagramRuns.Cut(m, n.pub.arrivals) && i < |wire|
    ensures |wire| == |n.acks.sent| && wire[i].key == n.acks.sent[i].key
    ensures var (f, k) := (wire[i], wire[i].key);
            if k in DroppedBy(n.pub) then
              InMedia(m, k) && (f == PlaceholderOf(k) || f == Hollow(m, k)) && n.acks.sent[i].length == 0
            else W.PieceOn(m, n.acks.sent[i], f)
  {
    hide S.Invariant, System.Linked, System.Lowest, W.PieceOn, DatagramRuns.Invariant, DatagramRuns.Cut, PlaceholderOf;
    var (arrivals, log, t) := (n.pub.arrivals, n.pub.reader.log, n.acks.sent[i]);
    var a: nat :| W.CarriedFor(m, arrivals, log, a, t, wire[i]);
    KeysAgree(m, arrivals, log, a, t, wire[i]);
    var k := wire[i].key;
    if k in DroppedBy(n.pub) {
      var b := DroppedAt(m, start, n.pub, k);
      assert a == b;
      PlaceheldIsEmpty(m, start, n.pub, a);
    }
  }

  lemma KeysAgree(m: Groups, arrivals: seq<Fragment>, log: seq<DatagramPublisher.Fate>, a: nat, t: H.Shipment, w: Fragment)
    requires W.CarriedFor(m, arrivals, log, a, t, w)
    ensures w.key == t.key == arrivals[a].key
  {
  }

  lemma PlaceheldIsEmpty(m: Groups, start: Key, pub: D.World, a: nat)
    requires DatagramRuns.Invariant(m, pub.arrivals, start, pub.reader) && a < |pub.reader.log| && pub.reader.log[a].Placeheld?
    ensures a < |pub.arrivals| && T.Shipped(pub.arrivals[a], pub.reader.log[a].placeholder).length == 0
  {
    W.InvariantBounds(m, pub.arrivals, start, pub.reader);
    assert DatagramRuns.Right(pub.arrivals, pub.arrivals[DatagramPublisher.FirstFrom(pub.arrivals, start, 0)].key, pub.reader, a);
  }

  /** So what a consumer is fed is what comes from a publisher that dropped those objects. */
  lemma WireComes(m: Groups, start: Key, n: System.Node, wire: seq<Fragment>, es: seq<Event>)
    requires W.WireInvariant(m, start, n, wire) && DatagramRuns.Cut(m, n.pub.arrivals) && FromWire(m, wire, es)
    ensures Droppable(m, DroppedBy(n.pub)) && AllCome(m, DroppedBy(n.pub), es)
  {
    hide S.Invariant, System.Linked, System.Lowest, DatagramRuns.Invariant, DatagramRuns.Cut, PlaceholderOf, W.AllCarry, DroppedBy;
    var ks := DroppedBy(n.pub);
    forall k | k in ks ensures InMedia(m, k) && k.id != 0 && ObjectAt(m, k).data != [] {
      var a := DroppedAt(m, start, n.pub, k);
    }
    forall i | 0 <= i < |es| ensures Comes(m, ks, es[i]) {
      if es[i].Arrival? {
        var x :| 0 <= x < |wire| && wire[x] == es[i].fragment;
        WireIsOf(m, start, n, wire, x);
      }
    }
  }

  lemma {:induction false} KeptHas(v: Groups, es: seq<Event>, e: Event)
    requires e in es && Honest(v, e)
    ensures e in Kept(v, es)
  {
    hide Honest;
    if es[|es| - 1] != e {
      KeptHas(v, es[..|es| - 1], e);
    }
  }

  lemma PieceIsSeen(m: Groups, v: Groups, ks: set<Key>, f: Fragment)
    requires SameExcept(m, v, ks) && IsSolidSlice(m, f) && f.key !in ks
    ensures Honest(v, Arrival(f)) && InMedia(m, f.key) && InMedia(v, f.key) && ObjectAt(v, f.key) == ObjectAt(m, f.key)
  {
    SliceElsewhere(m, v, ks, f);
    ShapeBasics(m, v);
  }

  /** Every acknowledged byte is among what arrived, and its object was not dropped. */
  lemma AcknowledgedIsCovered(m: Groups, start: Key, n: System.Node, wire: seq<Fragment>, es: seq<Event>, k: Key, p: nat)
    requires W.WireInvariant(m, start, n, wire) && DatagramRuns.Cut(m, n.pub.arrivals)
    requires FromWire(m, wire, es) && Receives(wire, n.acks.acked, es)
    requires A.AckedAt(n.acks.sent, n.acks.acked, k, p)
    ensures var v := Seen(m, DroppedBy(n.pub), es);
            && k !in DroppedBy(n.pub) && InMedia(m, k) && InMedia(v, k) && ObjectAt(v, k) == ObjectAt(m, k)
            && p in Covered(Kept(v, es), k) && Touched(Kept(v, es), k)
  {
    hide W.WireInvariant, DatagramRuns.Cut, Covered, Touched, DroppedBy, Seen, SameExcept, FromWire, Honest;
    var ks := DroppedBy(n.pub);
    SeenObject(m, ks, es);
    var i: nat :| i < |n.acks.sent| && i in n.acks.acked && A.Covers(n.acks.sent[i], k, p);
    WireLength(m, start, n, wire);
    WireIsOf(m, start, n, wire, i);
    PieceIsSeen(m, Seen(m, ks, es), ks, wire[i]);
    KeptHas(Seen(m, ks, es), es, Arrival(wire[i]));
    EventCovers(Kept(Seen(m, ks, es), es), wire[i], p);
  }

  lemma WireLength(m: Groups, start: Key, n: System.Node, wire: seq<Fragment>)
    requires W.WireInvariant(m, start, n, wire)
    ensures |wire| == |n.acks.sent|
  {
  }

  lemma {:induction false} CoveredInside(m: Groups, es: seq<Event>, k: Key)
    requires AllHonest(m, es) && InMedia(m, k)
    ensures forall p :: p in Covered(es, k) ==> p < |ObjectAt(m, k).data|
  {
    if es != [] {
      var before := es[..|es| - 1];
      assert forall i :: 0 <= i < |before| ==> before[i] == es[i];
      CoveredInside(m, before, k);
      assert Honest(m, es[|es| - 1]);
    }
  }

  lemma EntryHolds(m: Groups, es: seq<Event>, s: Reassembly.State, k: Key, p: nat)
    requires Reassembly.Faithful(m, es, s) && InMedia(m, k) && Rank(m, k) >= Rank(m, s.next)
    requires Touched(es, k) && p in Covered(es, k) && p < |ObjectAt(m, k).data|
    ensures k in s.objects && p in s.objects[k].bytes && s.objects[k].bytes[p] == ObjectAt(m, k).data[p]
  {
    assert Reassembly.Agrees(m, es, k, s.objects[k]);
  }

  /** Whatever was dropped besides: a reassembly that was fed the acknowledged datagrams holds every
      acknowledged byte, or has already handed the whole object over. */
  lemma AcknowledgedIsHeld(m: Groups, start: Key, steps: seq<System.Step>, es: seq<Event>, k: Key, p: nat)
    requires System.AllRegular(steps) && DatagramRuns.Cut(m, System.Run(start, steps).pub.arrivals) && WellFormed(m)
    requires FromWire(m, W.Wire(start, steps), es) && Receives(W.Wire(start, steps), System.Run(start, steps).acks.acked, es)
    requires A.AckedAt(System.Run(start, steps).acks.sent, System.Run(start, steps).acks.acked, k, p)
    ensures var (s, calls) := Reassembly.Run(es);
            || Delivery.Holds(Delivery.OutOfOrder(calls), k)
            || (k in s.objects && InMedia(m, k) && p < |ObjectAt(m, k).data| &&
                p in s.objects[k].bytes && s.objects[k].bytes[p] == ObjectAt(m, k).data[p])
  {
    hide System.Run, W.Wire, W.WireInvariant, DatagramRuns.Cut, A.AckedAt, Covered, Touched, Arrived, Receives, FromWire, Honest, Seen, Kept,
      Reassembly.Run, Delivery.OutOfOrder, DroppedBy, Cursor, Droppable, Comes;
    var (n, wire) := (System.Run(start, steps), W.Wire(start, steps));
    W.WireIsCarried(m, start, steps);
    AcknowledgedIsCovered(m, start, n, wire, es, k, p);
    WireComes(m, start, n, wire, es);
    var ks := DroppedBy(n.pub);
    var v := Seen(m, ks, es);
    DroppedDelivery(m, ks, es);
    RunsAlike(m, ks, es, |es|);
    assert es[..|es|] == es;
    CoveredInside(v, Kept(v, es), k);
    Reassembly.RunRefinesReference(v, Kept(v, es));
    Arrivals.CursorIsLeastMissing(v, Kept(v, es));
    var s := Reassembly.Run(es).0;
    if Rank(v, k) >= Rank(v, s.next) {
      EntryHolds(v, Kept(v, es), s, k, p);
    }
  }

  lemma WholeIsArrived(m: Groups, es: seq<Event>, k: Key)
    requires AllHonest(m, es) && InMedia(m, k) && ObjectAt(m, k).data != []
    requires forall p: nat :: p < |ObjectAt(m, k).data| ==> p in Covered(es, k) && Touched(es, k)
    ensures Arrived(m, es, k)
  {
    hide Covered;
    CoveredInside(m, es, k);
    assert 0 < |ObjectAt(m, k).data|;
    assert Covered(es, k) == Span(0, |ObjectAt(m, k).data|);
  }

  /** Position p of object k was sent in a datagram. */
  ghost predicate SentAt(pub: D.World, k: Key, p: nat) {
    exists s :: T.WasSent(pub.arrivals, pub.reader.log, s) && A.Covers(s, k, p)
  }

  lemma SomeShipment(pub: D.World, k: Key, p: nat) returns (s: H.Shipment)
    requires SentAt(pub, k, p)
    ensures T.WasSent(pub.arrivals, pub.reader.log, s) && A.Covers(s, k, p) && s.key == k
  {
    s :| T.WasSent(pub.arrivals, pub.reader.log, s) && A.Covers(s, k, p);
  }

  /** Every byte of object k was sent in a datagram. */
  ghost predicate SentWhole(m: Groups, pub: D.World, k: Key) {
    InMedia(m, k) && ObjectAt(m, k).data != [] && forall p: nat :: p < |ObjectAt(m, k).data| ==> SentAt(pub, k, p)
  }

  lemma SentByteArrives(m: Groups, start: Key, steps: seq<System.Step>, es: seq<Event>, k: Key, p: nat)
    requires System.AllRegular(steps) && DatagramRuns.Cut(m, System.Run(start, steps).pub.arrivals) && WellFormed(m)
    requires FromWire(m, W.Wire(start, steps), es) && Receives(W.Wire(start, steps), System.Run(start, steps).acks.acked, es)
    requires AllMarked(System.Run(start, steps).acks.state.records)
    requires SentAt(System.Run(start, steps).pub, k, p)
    ensures var (ks, v) := (DroppedBy(System.Run(start, steps).pub), Seen(m, DroppedBy(System.Run(start, steps).pub), es));
            && k !in ks && InMedia(m, k) && InMedia(v, k) && ObjectAt(v, k) == ObjectAt(m, k)
            && p in Covered(Kept(v, es), k) && Touched(Kept(v, es), k)
  {
    hide *;
    var (n, wire) := (System.Run(start, steps), W.Wire(start, steps));
    W.WireIsCarried(m, start, steps);
    var s := SomeShipment(n.pub, k, p);
    System.NothingFailsNothingIsForgotten(m, start, steps, s, p);
    NoneUnmarked(n.acks.state.records, k, p);
    AcknowledgedIsCovered(m, start, n, wire, es, k, p);
  }

  lemma SentWholeArrives(m: Groups, start: Key, steps: seq<System.Step>, es: seq<Event>, k: Key)
    requires System.AllRegular(steps) && DatagramRuns.Cut(m, System.Run(start, steps).pub.arrivals) && WellFormed(m)
    requires FromWire(m, W.Wire(start, steps), es) && Receives(W.Wire(start, steps), System.Run(start, steps).acks.acked, es)
    requires AllMarked(System.Run(start, steps).acks.state.records) && SentWhole(m, System.Run(start, steps).pub, k)
    ensures var (ks, v) := (DroppedBy(System.Run(start, steps).pub), Seen(m, DroppedBy(System.Run(start, steps).pub), es));
            k !in ks && InMedia(v, k) && ObjectAt(v, k) == ObjectAt(m, k) && Arrived(v, Kept(v, es), k)
  {
    hide *;
    var pub := System.Run(start, steps).pub;
    SentWholeParts(m, pub, k);
    var v := Seen(m, DroppedBy(pub), es);
    SentWholeAt(m, pub, k, 0);
    SentByteArrives(m, start, steps, es, k, 0);
    forall p: nat | p < |ObjectAt(v, k).data| ensures p in Covered(Kept(v, es), k) && Touched(Kept(v, es), k) {
      SentWholeAt(m, pub, k, p);
      SentByteArrives(m, start, steps, es, k, p);
    }
    WholeIsArrived(v, Kept(v, es), k);
  }

  lemma SentWholeParts(m: Groups, pub: D.World, k: Key)
    requires SentWhole(m, pub, k)
    ensures InMedia(m, k) && |ObjectAt(m, k).data| > 0
  {
    hide SentAt;
  }

  lemma SentWholeAt(m: Groups, pub: D.World, k: Key, p: nat)
    requires SentWhole(m, pub, k) && InMedia(m, k) && p < |ObjectAt(m, k).data|
    ensures SentAt(pub, k, p)
  {
    hide SentAt;
  }

  /** No record is left whose data was not acknowledged. */
  ghost predicate AllMarked(records: seq<H.Record>) {
    forall j :: 0 <= j < |records| && records[j].what.length > 0 ==> records[j].isAcked
  }

  lemma NoneUnmarked(records: seq<H.Record>, k: Key, p: nat)
    requires AllMarked(records)
    ensures !exists j :: 0 <= j < |records| && !records[j].isAcked && A.Covers(records[j].what, k, p)
  {
  }

  /** Nothing is lost on the way, and what is dropped is decided by its placeholder.  When no record
      is left whose data was not acknowledged, a consumer that reassembles what came over the wire,
      all that was acknowledged and whatever else, has been handed exactly objects of the media as
      it sees it: whole and once every object all of whose bytes were sent, whatever was lost,
      repeated and split before; and of the objects that the publisher dropped, as empty ones, those
      whose placeholder came before any repeat of it.  One of which a repeat came first stops
      delivery in order. */
  lemma SentIsDelivered(m: Groups, start: Key, steps: seq<System.Step>, es: seq<Event>)
    requires System.AllRegular(steps) && DatagramRuns.Cut(m, System.Run(start, steps).pub.arrivals) && WellFormed(m)
    requires FromWire(m, W.Wire(start, steps), es) && Receives(W.Wire(start, steps), System.Run(start, steps).acks.acked, es)
    requires AllMarked(System.Run(start, steps).acks.state.records)
    ensures var (pub, calls) := (System.Run(start, steps).pub, Reassembly.Run(es).1);
            var v := Seen(m, DroppedBy(pub), es);
            && Delivery.ExactlyTheArrived(v, Kept(v, es), Delivery.OutOfOrder(calls))
            && Delivery.InOrder(calls) == Items(v)[..Cursor(v, Kept(v, es))]
            && (forall k :: SentWhole(m, pub, k) ==>
                  k !in DroppedBy(pub) && ObjectAt(v, k) == ObjectAt(m, k) && Delivery.Holds(Delivery.OutOfOrder(calls), k))
            && (forall k :: k in DroppedBy(pub) ==>
                  && InMedia(m, k) && (Delivery.Holds(Delivery.OutOfOrder(calls), k) <==> PlaceholderFirst(es, k))
                  && (PlaceholderFirst(es, k) ==> ObjectAt(v, k) == BLANK)
                  && (!PlaceholderFirst(es, k) ==> |Delivery.InOrder(calls)| <= Rank(m, k)))
  {
    hide *;
    var (n, wire) := (System.Run(start, steps), W.Wire(start, steps));
    W.WireIsCarried(m, start, steps);
    WireComes(m, start, n, wire, es);
    var ks := DroppedBy(n.pub);
    DroppedDelivery(m, ks, es);
    SeenObject(m, ks, es);
    var v := Seen(m, ks, es);
    forall k | SentWhole(m, n.pub, k)
      ensures InMedia(v, k) && InMedia(m, k) && k !in ks && ObjectAt(v, k) == ObjectAt(m, k) &&
              Delivery.Holds(Delivery.OutOfOrder(Reassembly.Run(es).1), k)
    {
      SentWholeArrives(m, start, steps, es, k);
      SentWholeParts(m, n.pub, k);
    }
  }

  // ----- A relay that caches what it receives -----

  /** The arrivals of some datagrams, in that order. */
  ghost function ArrivalsOf(m: Groups, ds: seq<H.Shipment>): (es: seq<Event>)
    requires forall i :: 0 <= i < |ds| ==> A.Honest(m, ds[i])
    ensures |es| == |ds| && forall i :: 0 <= i < |ds| ==> es[i] == Arrival(Carried(m, ds[i]))
  {
    seq(|ds|, i requires 0 <= i < |ds| => Arrival(Carried(m, ds[i])))
  }

  /** The missing part of datagram d is a prefix of it. */
  ghost predicate BringsPrefix(es: seq<Event>, d: H.Shipment) {
    forall p, q :: d.offset <= p < q < d.End() && p in Covered(es, d.key) ==> q in Covered(es, d.key)
  }

  /** A relay's cache holds, at every moment, exactly the bytes of the datagrams that came in, if and
      only if the missing part of each of them is a prefix of it. */
  lemma RelayHoldsIff(m: Groups, ds: seq<H.Shipment>)
    requires WellFormed(m) && forall i :: 0 <= i < |ds| ==> A.Honest(m, ds[i]) && ds[i].length > 0
    ensures (forall n: nat :: n <= |ds| ==> CacheCursor.HoldsArrived(ArrivalsOf(m, ds)[..n])) <==>
            (forall i: nat :: i < |ds| ==> BringsPrefix(ArrivalsOf(m, ds)[..i], ds[i]))
  {
    hide CacheCursor.HoldsArrived, IsSolidSlice, CacheCursor.WellCut, Covered, Carried;
    var es := ArrivalsOf(m, ds);
    forall i: nat | i < |ds|
      ensures IsSolidSlice(m, Carried(m, ds[i])) && (CacheCursor.WellCut(es[..i], Carried(m, ds[i])) <==> BringsPrefix(es[..i], ds[i]))
    {
      CarriedIsSolid(m, ds[i]);
      SameCut(m, es[..i], ds[i]);
    }
    SolidIsHonest(m, es);
    CacheCursor.HoldsArrivedIff(m, es);
  }

  lemma SameCut(m: Groups, es: seq<Event>, d: H.Shipment)
    requires A.Honest(m, d) && d.length > 0
    ensures CacheCursor.WellCut(es, Carried(m, d)) <==> BringsPrefix(es, d)
  {
    hide Covered;
    var f := Carried(m, d);
    assert f.key == d.key && f.offset == d.offset && f.End() == d.End();
  }

  lemma SolidIsHonest(m: Groups, es: seq<Event>)
    requires forall i :: 0 <= i < |es| ==> es[i].Arrival? && IsSolidSlice(m, es[i].fragment)
    ensures CacheCursor.Plain(m, es)
  {
  }

  // ----- A loss that was none -----

  const WHOLE := H.Shipment(Key(0, 0), 0, 0, 0, 8, 8)
  const FRONT := H.Shipment(Key(0, 0), 0, 0, 0, 5, 8)
  const BACK := H.Shipment(Key(0, 0), 5, 0, 0, 3, 8)

  ghost predicate Short(limits: H.Limits) {
    limits.longest == 15 && forall d :: limits.header(d) == 10
  }

  lemma ShortIsRegular(limits: H.Limits)
    requires Short(limits)
    ensures A.Regular(limits)
  {
  }

  const ALONE := H.State(H.NO_HORIZON, [H.Record(WHOLE, false)], None)
  const LOST := H.State(H.NO_HORIZON, [H.Record(FRONT, false), H.Record(BACK, false)], None)

  lemma WholeIsRecorded()
    ensures H.Init(H.INITIAL, WHOLE) == (ALONE, H.Created)
  {
    assert H.Inserted([], H.Record(WHOLE, false)) == [H.Record(WHOLE, false)];
  }

  lemma BackIsRecorded()
    ensures H.Find(ALONE.records, WHOLE.key, 0) == 0
    ensures H.Init(ALONE, BACK) == (ALONE.(records := [H.Record(WHOLE, false), H.Record(BACK, false)]), H.Created)
  {
    var one := ALONE.records;
    assert one[..0] == [];
    assert H.Find(one, WHOLE.key, 5) == -1 && H.Place(one, BACK.key, 5) == 1;
    assert H.Inserted(one, H.Record(BACK, false)) == one + [H.Record(BACK, false)] == [H.Record(WHOLE, false), H.Record(BACK, false)];
  }

  lemma WholeIsShortened()
    ensures H.Shortened([H.Record(WHOLE, false), H.Record(BACK, false)], WHOLE, 5) == LOST.records
    ensures H.Find(LOST.records, WHOLE.key, 5) == 1
  {
    var two := [H.Record(WHOLE, false), H.Record(BACK, false)];
    assert two[..1] == ALONE.records && two[..1][..0] == [];
    assert H.Find(two, WHOLE.key, 0) == 0;
    assert two[0 := H.Record(FRONT, false)] == LOST.records;
  }

  /** The datagram is sent, reported as lost, and repeated in two pieces. */
  lemma LossSplits(limits: H.Limits)
    requires Short(limits)
    ensures H.Roomy(limits) && H.HandleLost(ALONE, WHOLE, limits) == (LOST, [FRONT, BACK], true)
  {
    BackIsRecorded();
    WholeIsShortened();
    H.RepeatUnfold(LOST, 1, 3, limits);
    H.RepeatUnfold(ALONE, 0, 8, limits);
    hide H.Init, H.Find, H.Shortened, H.Repeat;
    assert [FRONT] + [BACK] == [FRONT, BACK];
  }

  /** The first piece is acknowledged. */
  lemma FrontIsAcked()
    ensures var s := H.State(H.NO_HORIZON, [H.Record(FRONT, false), H.Record(BACK, false)], None);
            H.HandleAck(s, FRONT) == Some(H.State(H.Horizon(0, 0, 5, false), [H.Record(BACK, false)], Some(Key(0, 0))))
  {
    var two := [H.Record(FRONT, false), H.Record(BACK, false)];
    var s := H.State(H.NO_HORIZON, two, None);
    assert two[..1] == [H.Record(FRONT, false)] && two[..1][..0] == [];
    assert H.Find(two, FRONT.key, 0) == 0;
    var marked := [H.Record(FRONT, true), H.Record(BACK, false)];
    assert two[0 := H.Record(FRONT, true)] == marked;
    assert H.Marked(s, FRONT) == Some(marked);
    var one := [H.Record(BACK, false)];
    assert marked[1..] == one;
    CollapseOnce(s.(records := marked), H.State(H.Horizon(0, 0, 5, false), one, Some(Key(0, 0))));
  }

  /** The horizon takes over one record, and stops. */
  lemma CollapseOnce(s: H.State, now: H.State)
    requires s.records != [] && s.records[0].isAcked && H.JustAfter(s.horizon, s.records[0].what) && H.CollapseOne(s) == now
    requires now.records == [] || !now.records[0].isAcked
    ensures H.Collapse(s) == now
  {
    hide H.JustAfter, H.CollapseOne;
    assert H.Collapse(now) == now;
  }

  /** Then the datagram that was thought to be lost. */
  lemma WholeIsAcked()
    ensures var s := H.State(H.Horizon(0, 0, 5, false), [H.Record(BACK, false)], Some(Key(0, 0)));
            H.HandleAck(s, WHOLE) == Some(H.State(H.Horizon(0, 0, 8, true), [], Some(Key(0, 0))))
  {
    var one := [H.Record(BACK, false)];
    var s := H.State(H.Horizon(0, 0, 5, false), one, Some(Key(0, 0)));
    assert one[..0] == [];
    assert H.Find(one, BACK.key, 5) == 0;
    var last := [H.Record(BACK, true)];
    assert one[0 := H.Record(BACK, true)] == last;
    assert H.Marked(s, WHOLE) == Some(last);
    assert last[1..] == [];
    CollapseOnce(s.(records := last), H.State(H.Horizon(0, 0, 8, true), [], Some(Key(0, 0))));
  }

  /** The cache of a relay that got the first piece. */
  lemma FrontIsCached(m: Groups)
    requires |m| == 1 && |m[0]| == 1 && |m[0][0].data| == 8 && A.Honest(m, FRONT) && A.Honest(m, WHOLE)
    ensures var c := CacheCursor.Run([Arrival(Carried(m, FRONT))]);
            var g := Carried(m, WHOLE);
            && FragmentCache.Tidy(c.tree) && FragmentCache.Compatible(c.tree, g)
            && (forall p: nat :: FragmentCache.Has(c.tree, Key(0, 0), p) <==> p < 5)
            && g.key == Key(0, 0) && g.offset == 0 && |g.data| == 8
  {
    hide FragmentCache.Place, FragmentCache.Tidy, CacheCursor.Exact, Covered, CacheCursor.Run, FragmentCache.Has, FragmentCache.Compatible,
      CacheCursor.WellCut, FragmentCache.MissingIsPrefix;
    var (f, g) := (Carried(m, FRONT), Carried(m, WHOLE));
    CarriedIsSolid(m, FRONT);
    CarriedIsSolid(m, WHOLE);
    var first := [Arrival(f)];
    OneIsFeed(m, f);
    CacheCursor.RunKeepsInvariant(m, first);
    CacheCursor.WelcomeIsCompatible(m, first, CacheCursor.Run(first), g);
    FrontOnly(f);
    SpanIs(0, 5);
  }

  lemma SpanIs(offset: nat, length: nat)
    ensures forall p :: p in Span(offset, length) <==> offset <= p < offset + length
  {
  }

  lemma HonestOnes(m: Groups)
    requires |m| == 1 && |m[0]| == 1 && |m[0][0].data| == 8
    ensures A.Honest(m, WHOLE) && A.Honest(m, FRONT) && A.Honest(m, BACK)
  {
  }

  /** A relay that gets the first piece and then the whole datagram misses the last byte. */
  lemma WholeAfterFront(m: Groups)
    requires |m| == 1 && |m[0]| == 1 && |m[0][0].data| == 8 && A.Honest(m, FRONT) && A.Honest(m, WHOLE)
    ensures !FragmentCache.Has(CacheCursor.Run([Arrival(Carried(m, FRONT)), Arrival(Carried(m, WHOLE))]).tree, Key(0, 0), 7)
  {
    FrontIsCached(m);
    hide FragmentCache.Place, FragmentCache.Tidy, FragmentCache.Has, FragmentCache.Compatible, Carried, FragmentCache.UpToObject, A.Honest;
    var (f, g) := (Carried(m, FRONT), Carried(m, WHOLE));
    var both := [Arrival(f), Arrival(g)];
    var c := CacheCursor.Run([Arrival(f)]);
    assert both[..1] == [Arrival(f)];
    assert CacheCursor.Run(both) == CacheCursor.Step(CacheCursor.Run(both[..1]), Arrival(g));
    hide CacheCursor.Run;
    assert FragmentCache.Has(c.tree, g.key, 0);
    assert FragmentCache.LastMissing(c.tree, g, 7);
    FragmentCache.BehindAtStart(c.tree, g);
    FragmentCache.PlaceLoses(c, g, FragmentCache.UpToObject(c.tree, g.key), 7);
  }

  lemma OneIsFeed(m: Groups, f: Fragment)
    requires IsSolidSlice(m, f)
    ensures CacheCursor.Feed(m, [Arrival(f)])
  {
    assert [Arrival(f)][..0] == [];
  }

  lemma FrontOnly(f: Fragment)
    ensures Covered([Arrival(f)], f.key) == Span(f.offset, |f.data|)
  {
    assert [Arrival(f)][..0] == [];
  }

  const HALF := H.State(H.Horizon(0, 0, 5, false), [H.Record(BACK, false)], Some(Key(0, 0)))
  const DONE := H.State(H.Horizon(0, 0, 8, true), [], Some(Key(0, 0)))

  const SENT := [WHOLE, FRONT, BACK]
  const WORLD1 := S.World(ALONE, [WHOLE], {}, {}, false)
  const WORLD2 := S.World(LOST, SENT, {0}, {}, false)
  const WORLD3 := S.World(HALF, SENT, {0}, {1}, false)
  const WORLD4 := S.World(DONE, SENT, {0}, {0, 1}, false)
  const WORLD5 := S.World(DONE, SENT, {0, 2}, {0, 1}, false)

  lemma StepOne(m: Groups)
    requires A.Honest(m, WHOLE)
    ensures S.Legal(m, S.NEW_WORLD, S.Send(WHOLE)) && S.After(S.NEW_WORLD, S.Send(WHOLE)) == WORLD1
  {
    WholeIsRecorded();
    hide H.Init, A.Honest;
  }

  lemma StepTwo(m: Groups, limits: H.Limits)
    requires Short(limits)
    ensures S.Legal(m, WORLD1, S.Lost(0, limits)) && S.After(WORLD1, S.Lost(0, limits)) == WORLD2
  {
    ShortIsRegular(limits);
    LossSplits(limits);
    hide H.Init, H.HandleLost, H.Roomy, A.Regular, Short;
    assert WORLD1.sent + [FRONT, BACK] == SENT;
  }

  lemma StepThree(m: Groups)
    ensures S.Legal(m, WORLD2, S.Acked(1)) && S.After(WORLD2, S.Acked(1)) == WORLD3
  {
    FrontIsAcked();
    hide H.HandleAck;
  }

  lemma StepFour(m: Groups)
    ensures S.Legal(m, WORLD3, S.Acked(0)) && S.After(WORLD3, S.Acked(0)) == WORLD4
  {
    WholeIsAcked();
    hide H.HandleAck;
  }

  lemma StepFive(m: Groups, limits: H.Limits)
    requires Short(limits)
    ensures S.Legal(m, WORLD4, S.Lost(2, limits)) && S.After(WORLD4, S.Lost(2, limits)) == WORLD5
  {
    ShortIsRegular(limits);
    NothingToRepeat(DONE, limits);
    hide H.HandleLost, H.Roomy, A.Regular, Short;
    assert SENT + [] == SENT;
  }

  /** The run, world by world. */
  lemma SpuriousRun(m: Groups, limits: H.Limits)
    requires Short(limits) && A.Honest(m, WHOLE)
    ensures var steps := [S.Send(WHOLE), S.Lost(0, limits), S.Acked(1), S.Acked(0), S.Lost(2, limits)];
            S.AllLegal(m, steps) && S.Run(steps) == WORLD5
  {
    StepOne(m);
    StepTwo(m, limits);
    StepThree(m);
    StepFour(m);
    StepFive(m, limits);
    RunNone(m);
    hide *;
    var (a, b, c, d, e) := (S.Send(WHOLE), S.Lost(0, limits), S.Acked(1), S.Acked(0), S.Lost(2, limits));
    OneByOne(a, b, c, d, e);
    RunOne(m, [], a, S.NEW_WORLD, WORLD1);
    RunOne(m, [a], b, WORLD1, WORLD2);
    RunOne(m, [a, b], c, WORLD2, WORLD3);
    RunOne(m, [a, b, c], d, WORLD3, WORLD4);
    RunOne(m, [a, b, c, d], e, WORLD4, WORLD5);
  }

  lemma OneByOne(a: S.Step, b: S.Step, c: S.Step, d: S.Step, e: S.Step)
    ensures [] + [a] == [a] && [a] + [b] == [a, b] && [a, b] + [c] == [a, b, c]
    ensures [a, b, c] + [d] == [a, b, c, d] && [a, b, c, d] + [e] == [a, b, c, d, e]
  {
  }

  lemma RunNone(m: Groups)
    ensures S.AllLegal(m, []) && S.Run([]) == S.NEW_WORLD
  {
  }

  /** Why caching is worse than reassembling: a datagram of eight bytes is reported as lost, and
      repeated in two pieces.  The first piece arrives, and after it the datagram itself.  Both are
      acknowledged, every byte counts as received, no record is left, and a loss of the second piece
      repeats nothing; but the relay's cache misses the last byte for good. */
  lemma SpuriousLossLosesBytes(m: Groups, limits: H.Limits)
    requires |m| == 1 && |m[0]| == 1 && |m[0][0].data| == 8 && Short(limits)
    ensures A.Honest(m, FRONT) && A.Honest(m, WHOLE)
    ensures var steps := [S.Send(WHOLE), S.Lost(0, limits), S.Acked(1), S.Acked(0), S.Lost(2, limits)];
            var w := S.Run(steps);
            && S.AllLegal(m, steps) && w.sent == [WHOLE, FRONT, BACK] && w.acked == {0, 1} && w.state.records == []
            && (forall p: nat :: p < 8 ==> A.AckedAt(w.sent, w.acked, Key(0, 0), p))
    ensures !FragmentCache.Has(CacheCursor.Run([Arrival(Carried(m, FRONT)), Arrival(Carried(m, WHOLE))]).tree, Key(0, 0), 7)
  {
    HonestOnes(m);
    SpuriousRun(m, limits);
    WholeAfterFront(m);
    WholeCountsAsReceived();
    hide *;
  }

  lemma WholeCountsAsReceived()
    ensures forall p: nat :: p < 8 ==> A.AckedAt(WORLD5.sent, WORLD5.acked, Key(0, 0), p)
  {
    forall p: nat | p < 8 ensures A.AckedAt(WORLD5.sent, WORLD5.acked, Key(0, 0), p) {
      assert A.Covers(WORLD5.sent[0], Key(0, 0), p);
    }
  }

  lemma NothingToRepeat(s: H.State, limits: H.Limits)
    requires s.records == [] && H.Roomy(limits)
    ensures H.HandleLost(s, BACK, limits) == (s, [], true)
  {
  }

  lemma RunOne(m: Groups, before: seq<S.Step>, step: S.Step, w: S.World, now: S.World)
    requires S.AllLegal(m, before) && S.Run(before) == w && S.Legal(m, w, step) && S.After(w, step) == now
    ensures S.AllLegal(m, before + [step]) && S.Run(before + [step]) == now
  {
    var all := before + [step];
    assert all[..|all| - 1] == before;
  }
}
