/** One node of the datagram transport as a whole: a cache that fills, a publisher that is offered
    datagrams under any congestion verdict, and the acknowledgement records, with reports of
    reception and loss arriving in any order. */
module DatagramSystem {
  import opened Media
  import opened DatagramPublisher
  import opened DatagramRuns
  import opened DatagramTransport
  import D = DatagramDelivery
  import H = AckHorizon
  import A = AckRuns
  import S = AckSafety
  import B = AckBase

  datatype Step =
    | Arrive(fragment: Fragment)
    | Offer(verdict: bool, room: int)
    | Acked(i: nat)
    | Lost(i: nat, limits: H.Limits)

  datatype Node = Node(pub: D.World, acks: S.World)

  const NEW_NODE := Node(D.World([], NEW_READER), S.NEW_WORLD)

  ghost function Noted(acks: S.World, s: Option<H.Shipment>): S.World
  {
    if s.Some? then S.After(acks, S.Send(s.value)) else acks
  }

  ghost function After(n: Node, start: Key, step: Step): Node
    requires Ready(n.pub.reader, n.pub.arrivals)
  {
    match step
    case Arrive(f) => n.(pub := D.After(n.pub, start, D.Arrive(f)))
    case Offer(verdict, room) =>
      var pub := D.After(n.pub, start, D.Offer(verdict, room));
      Node(pub, Noted(n.acks, NewShipment(pub.arrivals, n.pub.reader, pub.reader)))
    case Acked(i) => n.(acks := S.After(n.acks, S.Acked(i)))
    case Lost(i, limits) => if i in n.acks.lost then n else n.(acks := S.After(n.acks, S.Lost(i, limits)))
  }

  /** Every loss is repeated under limits that leave room for a header. */
  ghost predicate AllRegular(steps: seq<Step>) {
    forall i :: 0 <= i < |steps| && steps[i].Lost? ==> A.Regular(steps[i].limits)
  }

  ghost function Run(start: Key, steps: seq<Step>): (n: Node)
    ensures Ready(n.pub.reader, n.pub.arrivals)
  {
    if steps == [] then NEW_NODE else After(Run(start, steps[..|steps| - 1]), start, steps[|steps| - 1])
  }

  // ----- The two sides agree on what was sent -----

  /** What the publisher sent is in the records' history, and the rest of that history repeats parts
      of it. */
  ghost predicate Linked(arrivals: seq<Fragment>, log: seq<Fate>, sent: seq<H.Shipment>) {
    && (forall s :: WasSent(arrivals, log, s) ==> s in sent)
    && forall t :: t in sent ==> exists s :: WasSent(arrivals, log, s) && A.Inside(t, s)
  }

  ghost predicate Lowest(arrivals: seq<Fragment>, start: Key, acks: S.World) {
    acks.sent == [] || (FirstFrom(arrivals, start, 0) < |arrivals| && B.FromLowest(acks, D.FirstSent(arrivals, start)))
  }

  ghost predicate NodeInvariant(m: Groups, start: Key, n: Node) {
    && Invariant(m, n.pub.arrivals, start, n.pub.reader) && S.Invariant(m, n.acks)
    && Linked(n.pub.arrivals, n.pub.reader.log, n.acks.sent)
    && Lowest(n.pub.arrivals, start, n.acks) && (n.acks.sent == [] ==> n.acks.state == H.INITIAL)
  }

  // ----- Arrivals -----

  lemma WasSentGrows(arrivals: seq<Fragment>, f: Fragment, log: seq<Fate>, s: H.Shipment)
    requires |log| <= |arrivals|
    ensures WasSent(arrivals + [f], log, s) <==> WasSent(arrivals, log, s)
  {
    if WasSent(arrivals, log, s) {
      var a: nat :| SentFor(arrivals, log, a, s);
      assert SentFor(arrivals + [f], log, a, s);
    }
    if WasSent(arrivals + [f], log, s) {
      var a: nat :| SentFor(arrivals + [f], log, a, s);
      assert SentFor(arrivals, log, a, s);
    }
  }

  lemma LinkedGrows(arrivals: seq<Fragment>, f: Fragment, log: seq<Fate>, sent: seq<H.Shipment>)
    requires |log| <= |arrivals| && Linked(arrivals, log, sent)
    ensures Linked(arrivals + [f], log, sent)
  {
    hide WasSent, A.Inside;
    forall s ensures WasSent(arrivals + [f], log, s) <==> WasSent(arrivals, log, s) {
      WasSentGrows(arrivals, f, log, s);
    }
    forall t | t in sent ensures exists s :: WasSent(arrivals + [f], log, s) && A.Inside(t, s) {
      var s :| WasSent(arrivals, log, s) && A.Inside(t, s);
      assert WasSent(arrivals + [f], log, s);
    }
  }

  lemma LowestGrows(arrivals: seq<Fragment>, f: Fragment, start: Key, acks: S.World)
    requires Lowest(arrivals, start, acks)
    ensures Lowest(arrivals + [f], start, acks)
  {
    hide B.FromLowest;
    if acks.sent != [] {
      D.FirstFromGrows(arrivals, f, start, 0);
    }
  }

  lemma ArriveKeeps(m: Groups, start: Key, n: Node, f: Fragment)
    requires NodeInvariant(m, start, n)
    ensures NodeInvariant(m, start, After(n, start, Arrive(f)))
  {
    hide Invariant, S.Invariant, Linked, Lowest;
    InvariantIsReady(m, n.pub.arrivals, start, n.pub.reader);
    D.ArriveKeeps(m, n.pub.arrivals, f, start, n.pub.reader);
    LinkedGrows(n.pub.arrivals, f, n.pub.reader.log, n.acks.sent);
    LowestGrows(n.pub.arrivals, f, start, n.acks);
  }

  // ----- Offers -----

  lemma FreshToRecords(arrivals: seq<Fragment>, log: seq<Fate>, sent: seq<H.Shipment>, d: H.Shipment)
    requires Linked(arrivals, log, sent) && forall t :: WasSent(arrivals, log, t) ==> A.Separate(t, d)
    ensures A.Fresh(sent, d)
  {
    hide WasSent, A.Separate, A.Inside;
    forall i | 0 <= i < |sent| ensures A.Separate(sent[i], d) {
      assert sent[i] in sent;
      var s :| WasSent(arrivals, log, s) && A.Inside(sent[i], s);
      A.InsideSeparate(sent[i], s, d);
    }
  }

  lemma LinkedOffer(arrivals: seq<Fragment>, log: seq<Fate>, now: seq<Fate>, sent: seq<H.Shipment>, d: H.Shipment)
    requires Linked(arrivals, log, sent) && WasSent(arrivals, now, d)
    requires forall t :: WasSent(arrivals, log, t) ==> WasSent(arrivals, now, t)
    requires forall t :: WasSent(arrivals, now, t) ==> WasSent(arrivals, log, t) || t == d
    ensures Linked(arrivals, now, sent + [d])
  {
    hide WasSent;
    assert d in sent + [d];
    forall t | t in sent + [d] ensures exists s :: WasSent(arrivals, now, s) && A.Inside(t, s) {
      if t in sent {
        var s :| WasSent(arrivals, log, s) && A.Inside(t, s);
        assert WasSent(arrivals, now, s);
      } else {
        assert A.Inside(d, d);
      }
    }
  }

  lemma NothingSent(arrivals: seq<Fragment>, log: seq<Fate>)
    requires Linked(arrivals, log, [])
    ensures forall s :: !WasSent(arrivals, log, s)
  {
    hide WasSent;
    forall s ensures !WasSent(arrivals, log, s) {
      assert s !in [];
    }
  }

  lemma LinkedSame(arrivals: seq<Fragment>, log: seq<Fate>, now: seq<Fate>, sent: seq<H.Shipment>)
    requires Linked(arrivals, log, sent) && forall t :: WasSent(arrivals, now, t) <==> WasSent(arrivals, log, t)
    ensures Linked(arrivals, now, sent)
  {
    hide WasSent, A.Inside;
    forall t | t in sent ensures exists s :: WasSent(arrivals, now, s) && A.Inside(t, s) {
      var s :| WasSent(arrivals, log, s) && A.Inside(t, s);
      assert WasSent(arrivals, now, s);
    }
  }

  lemma NewStep(m: Groups, start: Key, n: Node, r: Reader)
    requires NodeInvariant(m, start, n) && Invariant(m, n.pub.arrivals, start, r)
    requires Delivers(m, n.pub.arrivals, n.pub.reader, r) && NewShipment(n.pub.arrivals, n.pub.reader, r).Some?
    ensures var s := NewShipment(n.pub.arrivals, n.pub.reader, r).value;
            && S.Legal(m, n.acks, S.Send(s))
            && FirstFrom(n.pub.arrivals, start, 0) < |n.pub.arrivals|
            && B.NotBefore(n.acks, S.Send(s), D.FirstSent(n.pub.arrivals, start))
  {
    hide Invariant, NewShipment, WasSent, S.Invariant, Linked, A.Honest, A.Separate, A.Fresh, Lowest;
    var (arrivals, log) := (n.pub.arrivals, n.pub.reader.log);
    var s := NewShipment(arrivals, n.pub.reader, r).value;
    FreshToRecords(arrivals, log, n.acks.sent, s);
    NewIsNotBelow(m, arrivals, start, n.pub.reader, r);
    if n.acks.sent == [] {
      NothingSent(arrivals, log);
      FirstNewIsLowest(m, arrivals, start, n.pub.reader, r);
    }
  }

  lemma SendLinks(acks: S.World, s: H.Shipment)
    ensures S.After(acks, S.Send(s)).sent == acks.sent + [s]
  {
  }

  lemma LowestIs(arrivals: seq<Fragment>, start: Key, acks: S.World)
    requires Lowest(arrivals, start, acks) && (acks.sent == [] ==> acks.state == H.INITIAL)
    ensures B.FromLowest(acks, D.FirstSent(arrivals, start))
  {
  }

  lemma OfferKeeps(m: Groups, start: Key, n: Node, verdict: bool, room: int)
    requires NodeInvariant(m, start, n) && Cut(m, n.pub.arrivals)
    ensures NodeInvariant(m, start, After(n, start, Offer(verdict, room)))
  {
    hide Invariant, S.Invariant, Linked, Lowest, Poll, NewShipment, Cut, WasSent, S.After, S.Legal, B.NotBefore, B.FromLowest,
      A.Separate, A.Honest;
    var (arrivals, r) := (n.pub.arrivals, n.pub.reader);
    InvariantIsReady(m, arrivals, start, r);
    var r' := Poll(r, arrivals, start, verdict, room);
    PollKeeps(m, arrivals, start, r, verdict, room);
    PollDelivers(m, arrivals, start, r, verdict, room);
    var s := NewShipment(arrivals, r, r');
    if s.Some? {
      NewStep(m, start, n, r');
      S.StepKeeps(m, n.acks, S.Send(s.value));
      SendLinks(n.acks, s.value);
      LinkedOffer(arrivals, r.log, r'.log, n.acks.sent, s.value);
      LowestIs(arrivals, start, n.acks);
      B.StepKeepsLowest(m, n.acks, S.Send(s.value), D.FirstSent(arrivals, start));
      LowestFrom(arrivals, start, S.After(n.acks, S.Send(s.value)));
    } else {
      LinkedSame(arrivals, r.log, r'.log, n.acks.sent);
    }
  }

  lemma LowestFrom(arrivals: seq<Fragment>, start: Key, acks: S.World)
    requires FirstFrom(arrivals, start, 0) < |arrivals| && B.FromLowest(acks, D.FirstSent(arrivals, start))
    ensures Lowest(arrivals, start, acks) && (acks.sent == [] ==> acks.state == H.INITIAL)
  {
  }

  // ----- Reports -----

  /** What was added repeats parts of what was there. */
  ghost predicate Repeats(sent: seq<H.Shipment>, now: seq<H.Shipment>) {
    forall i :: |sent| <= i < |now| ==> exists j :: 0 <= j < |sent| && A.Inside(now[i], sent[j])
  }

  lemma ReportSent(m: Groups, acks: S.World, step: S.Step, k0: Key)
    requires S.Invariant(m, acks) && S.Legal(m, acks, step) && !step.Send? && B.FromLowest(acks, k0)
    ensures var sent := S.After(acks, step).sent;
            acks.sent <= sent && Repeats(acks.sent, sent)
  {
    if step.Lost? {
      B.BasedLost(m, acks.state, acks.sent, acks.lost, acks.acked, step.i, step.limits, k0);
      var sent := S.After(acks, step).sent;
      forall i | |acks.sent| <= i < |sent| ensures A.Inside(sent[i], acks.sent[step.i]) {
        assert sent[i] in H.HandleLost(acks.state, acks.sent[step.i], step.limits).1;
      }
    }
  }

  lemma LinkedMore(arrivals: seq<Fragment>, log: seq<Fate>, sent: seq<H.Shipment>, now: seq<H.Shipment>)
    requires Linked(arrivals, log, sent) && sent <= now
    requires Repeats(sent, now)
    ensures Linked(arrivals, log, now)
  {
    hide WasSent, A.Inside;
    forall t | t in now ensures exists s :: WasSent(arrivals, log, s) && A.Inside(t, s) {
      if t !in sent {
        var i :| 0 <= i < |now| && now[i] == t;
        var j :| 0 <= j < |sent| && A.Inside(now[i], sent[j]);
        assert sent[j] in sent;
        var s :| WasSent(arrivals, log, s) && A.Inside(sent[j], s);
        A.InsideInside(t, sent[j], s);
      }
    }
  }

  lemma ReportKeeps(m: Groups, start: Key, n: Node, step: S.Step)
    requires NodeInvariant(m, start, n) && !step.Send? && S.Legal(m, n.acks, step)
    ensures NodeInvariant(m, start, n.(acks := S.After(n.acks, step)))
  {
    hide Invariant, S.Invariant, Linked, Lowest, S.After, B.FromLowest, A.Inside, Repeats;
    var (arrivals, k0) := (n.pub.arrivals, D.FirstSent(n.pub.arrivals, start));
    S.StepKeeps(m, n.acks, step);
    LowestIs(arrivals, start, n.acks);
    B.StepKeepsLowest(m, n.acks, step, k0);
    ReportSent(m, n.acks, step, k0);
    LinkedMore(arrivals, n.pub.reader.log, n.acks.sent, S.After(n.acks, step).sent);
    SomeSent(arrivals, start, n.acks, step);
    LowestFrom(arrivals, start, S.After(n.acks, step));
  }

  lemma SomeSent(arrivals: seq<Fragment>, start: Key, acks: S.World, step: S.Step)
    requires Lowest(arrivals, start, acks) && !step.Send? && step.i < |acks.sent|
    ensures FirstFrom(arrivals, start, 0) < |arrivals|
  {
  }

  // ----- Whole runs -----

  lemma NewNode(m: Groups, start: Key)
    ensures NodeInvariant(m, start, NEW_NODE)
  {
    S.NewIsSound(m);
  }

  lemma StepKeeps(m: Groups, start: Key, n: Node, step: Step)
    requires NodeInvariant(m, start, n) && Cut(m, n.pub.arrivals) && (step.Lost? ==> A.Regular(step.limits))
    ensures NodeInvariant(m, start, After(n, start, step))
  {
    hide NodeInvariant, D.After, S.After, Cut;
    match step {
      case Arrive(f) => ArriveKeeps(m, start, n, f);
      case Offer(verdict, room) => OfferKeeps(m, start, n, verdict, room);
      case Acked(i) =>
        if i < |n.acks.sent| {
          ReportKeeps(m, start, n, S.Acked(i));
        } else {
          NoReport(n.acks, S.Acked(i));
        }
      case Lost(i, limits) =>
        if i !in n.acks.lost {
          if i < |n.acks.sent| {
            ReportKeeps(m, start, n, S.Lost(i, limits));
          } else {
            NoReport(n.acks, S.Lost(i, limits));
          }
        }
    }
  }

  lemma NoReport(acks: S.World, step: S.Step)
    requires !step.Send? && step.i >= |acks.sent|
    ensures S.After(acks, step) == acks
  {
  }

  lemma ArrivalsOf(start: Key, n: Node, step: Step)
    requires Ready(n.pub.reader, n.pub.arrivals)
    ensures After(n, start, step).pub.arrivals == n.pub.arrivals + if step.Arrive? then [step.fragment] else []
  {
    hide Poll, S.After;
  }

  /** Every run keeps both sides sound and linked. */
  lemma {:induction false} RunKeepsInvariant(m: Groups, start: Key, steps: seq<Step>)
    requires AllRegular(steps) && Cut(m, Run(start, steps).pub.arrivals)
    ensures NodeInvariant(m, start, Run(start, steps))
  {
    hide NodeInvariant, After, Cut;
    if steps == [] {
      NewNode(m, start);
    } else {
      var before, step := Run(start, steps[..|steps| - 1]), steps[|steps| - 1];
      ArrivalsOf(start, before, step);
      if step.Arrive? {
        D.CutBefore(m, before.pub.arrivals, step.fragment);
      } else {
        assert before.pub.arrivals + [] == before.pub.arrivals;
      }
      RunKeepsInvariant(m, start, steps[..|steps| - 1]);
      StepKeeps(m, start, before, step);
    }
  }

  /** The bookkeeping never fails when it is driven by the publisher: no record is ever in the way
      of a new one, no walk runs off the records, every split succeeds.  And no byte that was ever
      sent is forgotten: each was acknowledged, or is in a record that is not marked. */
  lemma NothingFailsNothingIsForgotten(m: Groups, start: Key, steps: seq<Step>, s: H.Shipment, p: nat)
    requires AllRegular(steps) && Cut(m, Run(start, steps).pub.arrivals)
    requires WasSent(Run(start, steps).pub.arrivals, Run(start, steps).pub.reader.log, s) && A.Covers(s, s.key, p)
    ensures var acks := Run(start, steps).acks;
            && !acks.failed
            && (A.AckedAt(acks.sent, acks.acked, s.key, p) ||
                exists j :: 0 <= j < |acks.state.records| && !acks.state.records[j].isAcked && A.Covers(acks.state.records[j].what, s.key, p))
  {
    hide Run, Invariant, WasSent, A.AckedAt, A.Covers, B.FromLowest, Lowest, A.Sound;
    RunKeepsInvariant(m, start, steps);
    var n := Run(start, steps);
    assert s in n.acks.sent;
    var i :| 0 <= i < |n.acks.sent| && n.acks.sent[i] == s;
    LowestIs(n.pub.arrivals, start, n.acks);
    B.NoByteIsForgotten(m, n.acks, D.FirstSent(n.pub.arrivals, start), i, p);
  }
}
