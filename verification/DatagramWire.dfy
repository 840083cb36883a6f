/** What datagrams carry on the wire: those that the publisher sends, and those that are made from
    the records when one was lost.  The header of a repeat comes from the record, its bytes from the
    datagram that was lost.  For the placeholder of a dropped object the record knows the length that
    the object really has, while the header that was sent said zero. */
module DatagramWire {
  import opened Media
  import opened DatagramPublisher
  import opened DatagramRuns
  import opened DatagramTransport
  import opened Replacement
  import opened DroppedObjects
  import D = DatagramDelivery
  import H = AckHorizon
  import A = AckRuns
  import S = AckSafety
  import System = DatagramSystem

  function FragmentOf(d: Datagram): Fragment {
    Fragment(d.key, d.offset, d.flags, d.previousSize, d.objectLength, d.data)
  }

  /** The bytes of a lost datagram from a on. */
  function Part(data: seq<Byte>, a: int, length: nat): seq<Byte> {
    if 0 <= a <= a + length <= |data| then data[a..a + length] else []
  }

  /** The repeat of piece p of a lost datagram that carried w. */
  function RepeatOf(p: H.Shipment, lost: H.Shipment, w: Fragment): Fragment {
    Fragment(p.key, p.offset, p.flags, OnWire(p.key, p.offset, p.previousSize), p.objectLength,
             Part(w.data, p.offset - lost.offset, p.length))
  }

  function RepeatsOf(ps: seq<H.Shipment>, lost: H.Shipment, w: Fragment): (r: seq<Fragment>)
    ensures |r| == |ps| && forall x :: 0 <= x < |ps| ==> r[x] == RepeatOf(ps[x], lost, w)
  {
    seq(|ps|, x requires 0 <= x < |ps| => RepeatOf(ps[x], lost, w))
  }

  /** The datagram that an offer added. */
  function Added(log: seq<Fate>): seq<Fragment> {
    if log == [] then []
    else
      var ds := D.Sent(log[|log| - 1]);
      if ds == [] then [] else [FragmentOf(ds[|ds| - 1])]
  }

  /** What one more step puts on the wire. */
  ghost function More(n: System.Node, wire: seq<Fragment>, step: System.Step, now: System.Node): seq<Fragment> {
    match step
    case Offer(_, _) => if NewShipment(now.pub.arrivals, n.pub.reader, now.pub.reader).Some? then Added(now.pub.reader.log) else []
    case Lost(i, limits) =>
      if i in n.acks.lost || i >= |n.acks.sent| || i >= |wire| || !H.Roomy(limits) then []
      else RepeatsOf(H.HandleLost(n.acks.state, n.acks.sent[i], limits).1, n.acks.sent[i], wire[i])
    case _ => []
  }

  /** Everything that went out in a run, one fragment for each datagram that was sent. */
  ghost function Wire(start: Key, steps: seq<System.Step>): seq<Fragment> {
    if steps == [] then []
    else
      var before := steps[..|steps| - 1];
      Wire(start, before) +
      More(System.Run(start, before), Wire(start, before), steps[|steps| - 1], System.Run(start, steps))
  }

  // ----- What is on the wire -----

  /** A piece of the media, under the label of its record. */
  ghost predicate PieceOn(m: Groups, t: H.Shipment, w: Fragment) {
    && w.key == t.key && w.offset == t.offset && |w.data| == t.length && IsSolidSlice(m, w)
    && w.flags == t.flags && w.objectLength == t.objectLength && w.previousSize == OnWire(t.key, t.offset, t.previousSize)
  }

  /** Fragment w was sent, first or again, for arrival a. */
  ghost predicate CarriedFor(m: Groups, arrivals: seq<Fragment>, log: seq<Fate>, a: nat, t: H.Shipment, w: Fragment) {
    && a < |log| <= |arrivals| && arrivals[a].key == t.key
    && match log[a]
       case Silent => false
       case Pieces(ds) => ds != [] && PieceOn(m, t, w)
       case Placeheld(d) => t == Shipped(arrivals[a], d) && InMedia(m, t.key) && (w == PlaceholderOf(t.key) || w == Hollow(m, t.key))
  }

  ghost predicate Carries(m: Groups, arrivals: seq<Fragment>, log: seq<Fate>, t: H.Shipment, w: Fragment) {
    exists a: nat :: CarriedFor(m, arrivals, log, a, t, w)
  }

  ghost predicate AllCarry(m: Groups, arrivals: seq<Fragment>, log: seq<Fate>, sent: seq<H.Shipment>, wire: seq<Fragment>) {
    |wire| == |sent| && forall i :: 0 <= i < |sent| ==> Carries(m, arrivals, log, sent[i], wire[i])
  }

  // ----- Offers -----

  /** What was sent for an arrival stays, and stays of its kind. */
  ghost predicate Firm(log: seq<Fate>, now: seq<Fate>) {
    && |log| <= |now|
    && forall a :: 0 <= a < |log| ==>
         && (log[a].Placeheld? ==> now[a] == log[a])
         && (log[a].Pieces? && log[a].sent != [] ==> now[a].Pieces? && now[a].sent != [])
  }

  lemma SendIsFirm(r: Reader, f: Fragment, room: int, skip: bool)
    requires r.log != [] && r.log[|r.log| - 1].Pieces? && r.lengthSent <= |f.data|
    requires skip ==> Blank(r.log[|r.log| - 1])
    ensures Firm(r.log, Send(r, f, room, skip).log)
  {
    hide Updated;
  }

  lemma FirmSame(log: seq<Fate>, now: seq<Fate>, last: seq<Fate>)
    requires |log| <= |now| && Firm(now, last) && forall a :: 0 <= a < |log| ==> now[a] == log[a]
    ensures Firm(log, last)
  {
  }

  lemma FirmItself(log: seq<Fate>)
    ensures Firm(log, log)
  {
  }

  lemma PollIsFirm(m: Groups, arrivals: seq<Fragment>, start: Key, r: Reader, verdict: bool, room: int)
    requires Cut(m, arrivals) && Invariant(m, arrivals, start, r)
    ensures Firm(r.log, Poll(r, arrivals, start, verdict, room).log)
  {
    hide *;
    InvariantIsReady(m, arrivals, start, r);
    ChoiceKeepsSent(m, arrivals, start, r);
    PollUnfold(r, arrivals, start, verdict, room);
    var (r1, isNew) := Choice(r, arrivals, start);
    if r1.current >= 0 && !r1.isCurrentSent {
      ReadyBounds(r1, arrivals);
      ReadyToSend(r1, arrivals);
      SendIsFirm(r1, arrivals[r1.current], room, isNew && verdict && MaySkip(arrivals[r1.current]));
    } else {
      FirmItself(r1.log);
    }
    FirmSame(r.log, r1.log, Poll(r, arrivals, start, verdict, room).log);
  }

  lemma ReadyToSend(r: Reader, arrivals: seq<Fragment>)
    requires Ready(r, arrivals) && r.current >= 0 && !r.isCurrentSent
    ensures r.log != [] && |r.log| - 1 == r.current && r.log[|r.log| - 1].Pieces? && r.lengthSent <= |arrivals[r.current].data|
  {
  }

  lemma CarriesStill(m: Groups, arrivals: seq<Fragment>, log: seq<Fate>, now: seq<Fate>, t: H.Shipment, w: Fragment)
    requires Carries(m, arrivals, log, t, w) && Firm(log, now) && |now| <= |arrivals|
    ensures Carries(m, arrivals, now, t, w)
  {
    hide PieceOn, Shipped;
    var a: nat :| CarriedFor(m, arrivals, log, a, t, w);
    assert CarriedFor(m, arrivals, now, a, t, w);
  }

  lemma CarriesMore(m: Groups, arrivals: seq<Fragment>, f: Fragment, log: seq<Fate>, t: H.Shipment, w: Fragment)
    requires Carries(m, arrivals, log, t, w)
    ensures Carries(m, arrivals + [f], log, t, w)
  {
    hide PieceOn, Shipped;
    var a: nat :| CarriedFor(m, arrivals, log, a, t, w);
    assert CarriedFor(m, arrivals + [f], log, a, t, w);
  }

  lemma PieceIsOn(m: Groups, f: Fragment, a: nat, b: nat)
    requires IsSolidSlice(m, f) && a <= b <= |f.data| && (a == b ==> f.data == [])
    ensures PieceOn(m, Shipped(f, PieceOf(f, a, b)), FragmentOf(PieceOf(f, a, b)))
  {
    SliceOfSlice(ObjectAt(m, f.key).data, f.offset, f.End(), a, b);
  }

  lemma PlaceholderIsOn(m: Groups, f: Fragment)
    requires IsSolidSlice(m, f) && MaySkip(f)
    ensures FragmentOf(PlaceholderFor(f)) == PlaceholderOf(f.key)
    ensures Shipped(f, PlaceholderFor(f)) == H.Shipment(f.key, 0, 255, f.previousSize, 0, |ObjectAt(m, f.key).data|)
  {
  }

  /** The last datagram for an arrival is one of its pieces, or a placeholder. */
  lemma LastIsCarried(m: Groups, arrivals: seq<Fragment>, k0: Key, r: Reader, n: nat)
    requires Cut(m, arrivals) && History(arrivals, k0, r) && n < |r.log| && D.Sent(r.log[n]) != []
    ensures var ds := D.Sent(r.log[n]);
            var d := ds[|ds| - 1];
            CarriedFor(m, arrivals, r.log, n, Shipped(arrivals[n], d), FragmentOf(d))
  {
    hide PieceOn, PieceOf, PlaceholderFor, IsSolidSlice;
    var f := arrivals[n];
    assert IsSolidSlice(m, f) && Right(arrivals, k0, r, n);
    SolidInMedia(m, f);
    var ds := D.Sent(r.log[n]);
    var d := ds[|ds| - 1];
    match r.log[n] {
      case Pieces(_) =>
        var b := LastTile(f, ds, if n == r.current && !r.isCurrentSent then r.lengthSent else |f.data|);
        PieceIsOn(m, f, b - |d.data|, b);
      case Placeheld(_) =>
        PlaceholderIsOn(m, f);
    }
  }

  lemma SolidInMedia(m: Groups, f: Fragment)
    requires IsSolidSlice(m, f)
    ensures InMedia(m, f.key)
  {
  }

  lemma LastTile(f: Fragment, ds: seq<Datagram>, n: nat) returns (b: nat)
    requires Tiles(f, ds, n) && ds != []
    ensures var d := ds[|ds| - 1];
            |d.data| <= b <= |f.data| && d == PieceOf(f, b - |d.data|, b) && (d.data == [] ==> f.data == [])
  {
    b := n;
  }

  // ----- Losses -----

  lemma PieceAgain(m: Groups, t: H.Shipment, w: Fragment, ps: seq<H.Shipment>, x: nat)
    requires PieceOn(m, t, w) && A.Partition(t, ps) && x < |ps|
    ensures PieceOn(m, ps[x], RepeatOf(ps[x], t, w))
  {
    A.PieceInside(t, ps, x);
    var p := ps[x];
    var (a, b) := (p.offset - t.offset, p.offset - t.offset + p.length);
    SliceOfSlice(ObjectAt(m, w.key).data, w.offset, w.End(), a, b);
  }

  lemma HollowAgain(m: Groups, arrivals: seq<Fragment>, k0: Key, r: Reader, a: nat, t: H.Shipment, w: Fragment, ps: seq<H.Shipment>)
    requires Cut(m, arrivals) && History(arrivals, k0, r) && a < |r.log| && r.log[a].Placeheld?
    requires CarriedFor(m, arrivals, r.log, a, t, w) && A.Partition(t, ps)
    ensures ps == [t] && RepeatOf(t, t, w) == Hollow(m, t.key)
    ensures t.key.id != 0 && ObjectAt(m, t.key).data != [] && t == H.Shipment(t.key, 0, 255, t.previousSize, 0, |ObjectAt(m, t.key).data|)
  {
    assert Right(arrivals, k0, r, a) && IsSolidSlice(m, arrivals[a]);
    PlaceholderIsOn(m, arrivals[a]);
  }

  /** What is sent again for a lost datagram. */
  lemma RepeatCarries(m: Groups, arrivals: seq<Fragment>, k0: Key, r: Reader, t: H.Shipment, w: Fragment, ps: seq<H.Shipment>, x: nat)
    requires Cut(m, arrivals) && History(arrivals, k0, r) && Carries(m, arrivals, r.log, t, w)
    requires A.Partition(t, ps) && x < |ps|
    ensures Carries(m, arrivals, r.log, ps[x], RepeatOf(ps[x], t, w))
  {
    hide PieceOn, Shipped, Cut, History, RepeatOf, A.Partition;
    var a: nat :| CarriedFor(m, arrivals, r.log, a, t, w);
    A.PieceInside(t, ps, x);
    if r.log[a].Pieces? {
      PieceAgain(m, t, w, ps, x);
    } else {
      HollowAgain(m, arrivals, k0, r, a, t, w, ps);
    }
    assert CarriedFor(m, arrivals, r.log, a, ps[x], RepeatOf(ps[x], t, w));
  }

  // ----- Whole runs -----

  ghost predicate WireInvariant(m: Groups, start: Key, n: System.Node, wire: seq<Fragment>) {
    System.NodeInvariant(m, start, n) && AllCarry(m, n.pub.arrivals, n.pub.reader.log, n.acks.sent, wire)
  }

  lemma ArriveCarries(m: Groups, start: Key, n: System.Node, wire: seq<Fragment>, f: Fragment)
    requires AllCarry(m, n.pub.arrivals, n.pub.reader.log, n.acks.sent, wire) && Ready(n.pub.reader, n.pub.arrivals)
    ensures var now := System.After(n, start, System.Arrive(f));
            AllCarry(m, now.pub.arrivals, now.pub.reader.log, now.acks.sent, wire)
  {
    hide Carries;
    forall i | 0 <= i < |wire| ensures Carries(m, n.pub.arrivals + [f], n.pub.reader.log, n.acks.sent[i], wire[i]) {
      CarriesMore(m, n.pub.arrivals, f, n.pub.reader.log, n.acks.sent[i], wire[i]);
    }
  }

  lemma CarryOneMore(m: Groups, arrivals: seq<Fragment>, log: seq<Fate>, sent: seq<H.Shipment>, wire: seq<Fragment>,
                     ps: seq<H.Shipment>, ws: seq<Fragment>)
    requires AllCarry(m, arrivals, log, sent, wire) && |ps| == |ws|
    requires forall x :: 0 <= x < |ps| ==> Carries(m, arrivals, log, ps[x], ws[x])
    ensures AllCarry(m, arrivals, log, sent + ps, wire + ws)
  {
    hide Carries;
  }

  lemma OfferCarries(m: Groups, start: Key, n: System.Node, wire: seq<Fragment>, step: System.Step)
    requires step.Offer? && WireInvariant(m, start, n, wire) && Cut(m, n.pub.arrivals) && Ready(n.pub.reader, n.pub.arrivals)
    ensures var now := System.After(n, start, step);
            AllCarry(m, now.pub.arrivals, now.pub.reader.log, now.acks.sent, wire + More(n, wire, step, now))
  {
    hide Poll, NewShipment, Invariant, S.Invariant, System.Linked, System.Lowest, Carries, Cut, S.After;
    var (arrivals, r) := (n.pub.arrivals, n.pub.reader);
    var r' := Poll(r, arrivals, start, step.verdict, step.room);
    var now := System.After(n, start, step);
    assert now.pub.arrivals == arrivals && now.pub.reader == r';
    PollIsFirm(m, arrivals, start, r, step.verdict, step.room);
    PollKeeps(m, arrivals, start, r, step.verdict, step.room);
    InvariantBounds(m, arrivals, start, r');
    forall i | 0 <= i < |wire| ensures Carries(m, arrivals, r'.log, n.acks.sent[i], wire[i]) {
      CarriesStill(m, arrivals, r.log, r'.log, n.acks.sent[i], wire[i]);
    }
    assert AllCarry(m, arrivals, r'.log, n.acks.sent, wire);
    var s := NewShipment(arrivals, r, r');
    if s.Some? {
      NewIsCarried(m, arrivals, start, r, r');
      System.SendLinks(n.acks, s.value);
      CarryOneMore(m, arrivals, r'.log, n.acks.sent, wire, [s.value], Added(r'.log));
    } else {
      assert wire + [] == wire;
    }
  }

  lemma InvariantBounds(m: Groups, arrivals: seq<Fragment>, start: Key, r: Reader)
    requires Invariant(m, arrivals, start, r)
    ensures |r.log| <= |arrivals| && (r.log != [] ==> FirstFrom(arrivals, start, 0) < |arrivals|)
    ensures r.log != [] ==> History(arrivals, arrivals[FirstFrom(arrivals, start, 0)].key, r)
  {
  }

  lemma NewIsCarried(m: Groups, arrivals: seq<Fragment>, start: Key, r: Reader, r': Reader)
    requires Cut(m, arrivals) && Invariant(m, arrivals, start, r') && NewShipment(arrivals, r, r').Some?
    ensures |Added(r'.log)| == 1 && Carries(m, arrivals, r'.log, NewShipment(arrivals, r, r').value, Added(r'.log)[0])
  {
    hide Invariant, Cut, Shipped, PieceOn;
    InvariantBounds(m, arrivals, start, r');
    NewIsLast(arrivals, r, r');
    var n := |r'.log| - 1;
    LastIsCarried(m, arrivals, arrivals[FirstFrom(arrivals, start, 0)].key, r', n);
  }

  lemma LostCarries(m: Groups, start: Key, n: System.Node, wire: seq<Fragment>, step: System.Step)
    requires step.Lost? && WireInvariant(m, start, n, wire) && Cut(m, n.pub.arrivals) && Ready(n.pub.reader, n.pub.arrivals)
    requires A.Regular(step.limits)
    ensures var now := System.After(n, start, step);
            AllCarry(m, now.pub.arrivals, now.pub.reader.log, now.acks.sent, wire + More(n, wire, step, now))
  {
    hide Invariant, S.Invariant, System.Linked, System.Lowest, Carries, Cut, H.HandleLost, A.Partition, RepeatOf;
    var (arrivals, r, i) := (n.pub.arrivals, n.pub.reader, step.i);
    assert wire + [] == wire;
    if i !in n.acks.lost && i < |n.acks.sent| {
      var t := n.acks.sent[i];
      var queued := H.HandleLost(n.acks.state, t, step.limits).1;
      S.LossQueues(m, n.acks, i, step.limits);
      SomeLog(m, arrivals, r.log, t, wire[i]);
      InvariantBounds(m, arrivals, start, r);
      if queued != [] {
        forall x | 0 <= x < |queued| ensures Carries(m, arrivals, r.log, queued[x], RepeatOf(queued[x], t, wire[i])) {
          RepeatCarries(m, arrivals, arrivals[FirstFrom(arrivals, start, 0)].key, r, t, wire[i], queued, x);
        }
      }
      CarryOneMore(m, arrivals, r.log, n.acks.sent, wire, queued, RepeatsOf(queued, t, wire[i]));
    }
  }

  lemma SomeLog(m: Groups, arrivals: seq<Fragment>, log: seq<Fate>, t: H.Shipment, w: Fragment)
    requires Carries(m, arrivals, log, t, w)
    ensures log != []
  {
  }

  lemma StepCarries(m: Groups, start: Key, n: System.Node, wire: seq<Fragment>, step: System.Step)
    requires WireInvariant(m, start, n, wire) && Cut(m, n.pub.arrivals) && (step.Lost? ==> A.Regular(step.limits))
    requires Ready(n.pub.reader, n.pub.arrivals)
    ensures var now := System.After(n, start, step);
            AllCarry(m, now.pub.arrivals, now.pub.reader.log, now.acks.sent, wire + More(n, wire, step, now))
  {
    hide System.NodeInvariant, AllCarry, Cut, System.After, More, Ready, A.Regular;
    match step {
      case Arrive(f) =>
        ArriveCarries(m, start, n, wire, f);
        NothingMore(n, wire, step);
      case Offer(_, _) => OfferCarries(m, start, n, wire, step);
      case Acked(i) =>
        AckedCarries(m, start, n, wire, i);
        NothingMore(n, wire, step);
      case Lost(_, _) => LostCarries(m, start, n, wire, step);
    }
  }

  lemma NothingMore(n: System.Node, wire: seq<Fragment>, step: System.Step)
    requires step.Arrive? || step.Acked?
    ensures forall now :: wire + More(n, wire, step, now) == wire
  {
    assert wire + [] == wire;
  }

  lemma AckedCarries(m: Groups, start: Key, n: System.Node, wire: seq<Fragment>, i: nat)
    requires AllCarry(m, n.pub.arrivals, n.pub.reader.log, n.acks.sent, wire) && Ready(n.pub.reader, n.pub.arrivals)
    ensures var now := System.After(n, start, System.Acked(i));
            AllCarry(m, now.pub.arrivals, now.pub.reader.log, now.acks.sent, wire)
  {
    hide AllCarry, H.HandleAck;
  }

  /** In every run, what is on the wire for each datagram that was sent, first or again, is a piece of
      the media under the label of its record; or the object was dropped, and it is the placeholder
      or a repeat of it. */
  lemma {:induction false} WireIsCarried(m: Groups, start: Key, steps: seq<System.Step>)
    requires System.AllRegular(steps) && Cut(m, System.Run(start, steps).pub.arrivals)
    ensures WireInvariant(m, start, System.Run(start, steps), Wire(start, steps))
  {
    hide System.NodeInvariant, System.After, Cut, More, AllCarry;
    System.RunKeepsInvariant(m, start, steps);
    if steps == [] {
      NothingCarried(m);
    } else {
      var (prefix, step) := (steps[..|steps| - 1], steps[|steps| - 1]);
      var before := System.Run(start, prefix);
      System.ArrivalsOf(start, before, step);
      if step.Arrive? {
        D.CutBefore(m, before.pub.arrivals, step.fragment);
      } else {
        assert before.pub.arrivals + [] == before.pub.arrivals;
      }
      WireIsCarried(m, start, prefix);
      StepCarries(m, start, before, Wire(start, prefix), step);
    }
  }

  lemma NothingCarried(m: Groups)
    ensures AllCarry(m, System.NEW_NODE.pub.arrivals, System.NEW_NODE.pub.reader.log, System.NEW_NODE.acks.sent, [])
  {
  }

  // ----- The placeholder goes first -----

  lemma NotPlaceholder(m: Groups, t: H.Shipment, w: Fragment)
    requires PieceOn(m, t, w) || (InMedia(m, t.key) && w == Hollow(m, t.key))
    ensures InMedia(m, w.key) && ObjectAt(m, w.key).data != [] ==> w != PlaceholderOf(w.key)
  {
  }

  /** When a placeholder is added, nothing was sent of its object before. */
  lemma NothingBefore(m: Groups, arrivals: seq<Fragment>, start: Key, r: Reader, r': Reader, t: H.Shipment, w: Fragment)
    requires Cut(m, arrivals) && Invariant(m, arrivals, start, r') && Firm(r.log, r'.log)
    requires NewShipment(arrivals, r, r').Some? && r'.log[|r'.log| - 1].Placeheld? && Carries(m, arrivals, r.log, t, w)
    requires |r.log| == |r'.log| ==> |D.Sent(r.log[|r.log| - 1])| < |D.Sent(r'.log[|r.log| - 1])|
    ensures w.key != arrivals[|r'.log| - 1].key
  {
    hide PieceOn, Shipped, NewShipment, Cut;
    InvariantBounds(m, arrivals, start, r');
    var n := |r'.log| - 1;
    assert Right(arrivals, arrivals[FirstFrom(arrivals, start, 0)].key, r', n);
    var a: nat :| CarriedFor(m, arrivals, r.log, a, t, w);
    CarriedKey(m, arrivals, r.log, a, t, w);
  }

  lemma CarriedKey(m: Groups, arrivals: seq<Fragment>, log: seq<Fate>, a: nat, t: H.Shipment, w: Fragment)
    requires CarriedFor(m, arrivals, log, a, t, w)
    ensures w.key == arrivals[a].key && !log[a].Silent?
  {
  }

  /** An offer that adds a datagram for the current arrival adds it behind what was sent for it. */
  lemma {:induction false} WireOfPrefix(log: seq<Fate>, now: seq<Fate>)
    requires |log| <= |now| && forall a :: 0 <= a < |log| ==> now[a] == log[a]
    ensures |D.Wire(log)| <= |D.Wire(now)|
  {
    if |now| > |log| {
      WireOfPrefix(log, now[..|now| - 1]);
    } else {
      assert log == now;
    }
  }

  lemma OneMoreSent(m: Groups, arrivals: seq<Fragment>, start: Key, r: Reader, verdict: bool, room: int)
    requires Cut(m, arrivals) && Invariant(m, arrivals, start, r)
    ensures var r' := Poll(r, arrivals, start, verdict, room);
            NewShipment(arrivals, r, r').Some? && |r.log| == |r'.log| ==>
              |D.Sent(r.log[|r.log| - 1])| < |D.Sent(r'.log[|r.log| - 1])|
  {
    hide *;
    InvariantIsReady(m, arrivals, start, r);
    ChoiceKeepsSent(m, arrivals, start, r);
    PollUnfold(r, arrivals, start, verdict, room);
    var (r1, isNew) := Choice(r, arrivals, start);
    var r' := Poll(r, arrivals, start, verdict, room);
    SameNews(arrivals, r, r1, r');
    if r1.current >= 0 && !r1.isCurrentSent {
      ReadyBounds(r1, arrivals);
      ReadyToSend(r1, arrivals);
      SendAdds(arrivals, r1, room, isNew && verdict && MaySkip(arrivals[r1.current]));
      if r' == r1 {
        NothingNew(arrivals, r1, r');
      } else {
        NewHasLog(arrivals, r, r');
      }
    } else {
      NothingNew(arrivals, r1, r');
    }
  }

  lemma NewHasLog(arrivals: seq<Fragment>, r: Reader, r': Reader)
    ensures NewShipment(arrivals, r, r').Some? ==> r'.log != []
  {
  }

  lemma OfferGoesFirst(m: Groups, start: Key, n: System.Node, wire: seq<Fragment>, step: System.Step, i: nat)
    requires step.Offer? && WireInvariant(m, start, n, wire) && Cut(m, n.pub.arrivals) && Ready(n.pub.reader, n.pub.arrivals)
    requires i < |wire| && |More(n, wire, step, System.After(n, start, step))| > 0
    ensures var more := More(n, wire, step, System.After(n, start, step));
            |more| == 1 && (InMedia(m, more[0].key) && ObjectAt(m, more[0].key).data != [] && more[0] == PlaceholderOf(more[0].key) ==>
                              wire[i].key != more[0].key)
  {
    hide Poll, NewShipment, Invariant, S.Invariant, System.Linked, System.Lowest, Carries, Cut, S.After, PieceOn, Shipped, PlaceholderOf;
    var (arrivals, r) := (n.pub.arrivals, n.pub.reader);
    var r' := Poll(r, arrivals, start, step.verdict, step.room);
    PollIsFirm(m, arrivals, start, r, step.verdict, step.room);
    PollKeeps(m, arrivals, start, r, step.verdict, step.room);
    OneMoreSent(m, arrivals, start, r, step.verdict, step.room);
    NewIsLast(arrivals, r, r');
    InvariantBounds(m, arrivals, start, r');
    var last := |r'.log| - 1;
    LastIsCarried(m, arrivals, arrivals[FirstFrom(arrivals, start, 0)].key, r', last);
    var ds := D.Sent(r'.log[last]);
    var (t, w) := (Shipped(arrivals[last], ds[|ds| - 1]), FragmentOf(ds[|ds| - 1]));
    CarriedKey(m, arrivals, r'.log, last, t, w);
    if r'.log[last].Placeheld? {
      NothingBefore(m, arrivals, start, r, r', n.acks.sent[i], wire[i]);
    } else {
      NotPlaceholder(m, t, w);
    }
  }

  lemma LostGoesLater(m: Groups, start: Key, n: System.Node, wire: seq<Fragment>, step: System.Step, x: nat)
    requires step.Lost? && WireInvariant(m, start, n, wire) && Cut(m, n.pub.arrivals) && Ready(n.pub.reader, n.pub.arrivals)
    requires A.Regular(step.limits)
    requires x < |More(n, wire, step, System.After(n, start, step))|
    ensures var w := More(n, wire, step, System.After(n, start, step))[x];
            InMedia(m, w.key) && ObjectAt(m, w.key).data != [] ==> w != PlaceholderOf(w.key)
  {
    hide Invariant, S.Invariant, System.Linked, System.Lowest, Cut, H.HandleLost, A.Partition, RepeatOf, PieceOn, Shipped, History,
      PlaceholderOf;
    var (arrivals, r, i) := (n.pub.arrivals, n.pub.reader, step.i);
    var t := n.acks.sent[i];
    var queued := H.HandleLost(n.acks.state, t, step.limits).1;
    S.LossQueues(m, n.acks, i, step.limits);
    SomeLog(m, arrivals, r.log, t, wire[i]);
    InvariantBounds(m, arrivals, start, r);
    var a: nat :| CarriedFor(m, arrivals, r.log, a, t, wire[i]);
    if r.log[a].Pieces? {
      PieceAgain(m, t, wire[i], queued, x);
      NotPlaceholder(m, queued[x], RepeatOf(queued[x], t, wire[i]));
    } else {
      HollowAgain(m, arrivals, arrivals[FirstFrom(arrivals, start, 0)].key, r, a, t, wire[i], queued);
      NotPlaceholder(m, t, RepeatOf(t, t, wire[i]));
    }
  }

  /** Of an object with data that was dropped, the placeholder goes over the wire once, before any
      repeat of it. */
  lemma {:induction false} PlaceholderGoesFirst(m: Groups, start: Key, steps: seq<System.Step>, i: nat, j: nat)
    requires System.AllRegular(steps) && Cut(m, System.Run(start, steps).pub.arrivals) && i < j < |Wire(start, steps)|
    requires var w := Wire(start, steps)[j]; InMedia(m, w.key) && ObjectAt(m, w.key).data != [] && w == PlaceholderOf(w.key)
    ensures Wire(start, steps)[i].key != Wire(start, steps)[j].key
  {
    hide System.After, Cut, More, WireInvariant, PlaceholderOf;
    var (prefix, step) := (steps[..|steps| - 1], steps[|steps| - 1]);
    var (before, wire) := (System.Run(start, prefix), Wire(start, prefix));
    System.ArrivalsOf(start, before, step);
    if step.Arrive? {
      D.CutBefore(m, before.pub.arrivals, step.fragment);
    } else {
      assert before.pub.arrivals + [] == before.pub.arrivals;
    }
    if j < |wire| {
      PlaceholderGoesFirst(m, start, prefix, i, j);
    } else {
      WireIsCarried(m, start, prefix);
      var more := More(before, wire, step, System.After(before, start, step));
      MoreOnly(before, wire, step, System.After(before, start, step));
      assert Wire(start, steps)[j] == more[j - |wire|];
      if step.Lost? {
        LostGoesLater(m, start, before, wire, step, j - |wire|);
      } else {
        SomeSentBefore(m, start, before, wire, step, i);
      }
    }
  }

  lemma MoreOnly(n: System.Node, wire: seq<Fragment>, step: System.Step, now: System.Node)
    ensures More(n, wire, step, now) != [] ==> step.Offer? || step.Lost?
    ensures step.Offer? ==> |More(n, wire, step, now)| <= 1
  {
  }

  lemma SomeSentBefore(m: Groups, start: Key, n: System.Node, wire: seq<Fragment>, step: System.Step, i: nat)
    requires step.Offer? && WireInvariant(m, start, n, wire) && Cut(m, n.pub.arrivals) && Ready(n.pub.reader, n.pub.arrivals)
    requires |More(n, wire, step, System.After(n, start, step))| > 0
    ensures var more := More(n, wire, step, System.After(n, start, step));
            i < |wire| && InMedia(m, more[0].key) && ObjectAt(m, more[0].key).data != [] && more[0] == PlaceholderOf(more[0].key) ==>
              wire[i].key != more[0].key
  {
    hide WireInvariant, Cut, More, PlaceholderOf, System.After;
    if i < |wire| {
      OfferGoesFirst(m, start, n, wire, step, i);
    }
  }

  // ----- The header of a repeat -----

  /** The header of a repeat is the one that was sent, with its own offset. */
  predicate SameHeader(r: Fragment, w: Fragment) {
    && r.key == w.key && r.flags == w.flags && r.objectLength == w.objectLength
    && r.previousSize == if r.offset == w.offset then w.previousSize else 0
  }

  /** The lost datagram was the placeholder of an object that has data. */
  ghost predicate WasPlaceholder(m: Groups, w: Fragment) {
    w.flags == 255 && w.data == [] && w.objectLength == 0 && InMedia(m, w.key) && ObjectAt(m, w.key).data != []
  }

  lemma SameHeaderOfPiece(m: Groups, t: H.Shipment, w: Fragment, ps: seq<H.Shipment>, x: nat)
    requires PieceOn(m, t, w) && A.Partition(t, ps) && x < |ps|
    ensures SameHeader(RepeatOf(ps[x], t, w), w) && !WasPlaceholder(m, w)
  {
    A.PieceInside(t, ps, x);
  }

  /** A repeat carries the header of the datagram that was lost if and only if that was not the
      placeholder of an object that has data; of such an object the repeat announces the length. */
  lemma RepeatHeaderIff(m: Groups, start: Key, steps: seq<System.Step>, i: nat, limits: H.Limits, x: nat)
    requires System.AllRegular(steps) && Cut(m, System.Run(start, steps).pub.arrivals) && A.Regular(limits)
    requires var acks := System.Run(start, steps).acks;
             i < |acks.sent| && i !in acks.lost && x < |H.HandleLost(acks.state, acks.sent[i], limits).1|
    ensures var (acks, wire) := (System.Run(start, steps).acks, Wire(start, steps));
            var p := H.HandleLost(acks.state, acks.sent[i], limits).1[x];
            && |wire| == |acks.sent|
            && (SameHeader(RepeatOf(p, acks.sent[i], wire[i]), wire[i]) <==> !WasPlaceholder(m, wire[i]))
            && (WasPlaceholder(m, wire[i]) ==> RepeatOf(p, acks.sent[i], wire[i]) == Hollow(m, wire[i].key))
  {
    hide Invariant, S.Invariant, System.Linked, System.Lowest, Cut, H.HandleLost, A.Partition, RepeatOf, System.Run, Wire, SameHeader,
      WasPlaceholder, PieceOn, History, Shipped;
    WireIsCarried(m, start, steps);
    var (n, wire) := (System.Run(start, steps), Wire(start, steps));
    var (t, w) := (n.acks.sent[i], wire[i]);
    var queued := H.HandleLost(n.acks.state, t, limits).1;
    S.LossQueues(m, n.acks, i, limits);
    SomeLog(m, n.pub.arrivals, n.pub.reader.log, t, w);
    InvariantBounds(m, n.pub.arrivals, start, n.pub.reader);
    var a: nat :| CarriedFor(m, n.pub.arrivals, n.pub.reader.log, a, t, w);
    if n.pub.reader.log[a].Pieces? {
      SameHeaderOfPiece(m, t, w, queued, x);
    } else {
      HollowAgain(m, n.pub.arrivals, n.pub.arrivals[FirstFrom(n.pub.arrivals, start, 0)].key, n.pub.reader, a, t, w, queued);
      HollowHeader(m, t.key);
    }
  }

  lemma HollowHeader(m: Groups, k: Key)
    requires InMedia(m, k) && ObjectAt(m, k).data != []
    ensures !SameHeader(Hollow(m, k), PlaceholderOf(k)) && WasPlaceholder(m, PlaceholderOf(k))
    ensures SameHeader(Hollow(m, k), Hollow(m, k)) && !WasPlaceholder(m, Hollow(m, k))
    ensures PlaceholderOf(k).key == Hollow(m, k).key == k
  {
  }
}
