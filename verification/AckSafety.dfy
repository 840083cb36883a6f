/** What the acknowledgement horizon guarantees over every interleaving of sending, receiving
    acknowledgements of anything ever sent, losing and repeating. */
module AckSafety {
  import opened Media
  import opened AckHorizon
  import opened AckRuns

  /** A new datagram is sent; the packet of datagram i is reported as received, or as lost.  Every
      loss has its own limits: the queue delay that is written into repeated headers grows. */
  datatype Step = Send(shipment: Shipment) | Acked(i: nat) | Lost(i: nat, limits: Limits)

  /** The state, all datagrams sent so far in order, the reports received, and whether the
      original would have failed: a null link followed, or a record that could not be made. */
  datatype World = World(state: State, sent: seq<Shipment>, lost: set<nat>, acked: set<nat>, failed: bool)

  const NEW_WORLD := World(INITIAL, [], {}, {}, false)

  ghost function After(w: World, step: Step): World {
    match step
    case Send(d) =>
      var (s, outcome) := Init(w.state, d);
      w.(state := s, sent := w.sent + [d], failed := w.failed || outcome == Duplicate)
    case Acked(i) =>
      if i >= |w.sent| then w
      else
        (match HandleAck(w.state, w.sent[i])
         case None => w.(failed := true)
         case Some(s) => w.(state := s, acked := w.acked + {i}))
    case Lost(i, limits) =>
      if i >= |w.sent| || !Roomy(limits) then w
      else
        var (s, queued, ok) := HandleLost(w.state, w.sent[i], limits);
        w.(state := s, sent := w.sent + queued, lost := w.lost + {i}, failed := w.failed || !ok)
  }

  /** What the publisher and the transport do: a new datagram is honest and repeats nothing that
      was sent before; any datagram may be acknowledged at any time, also more than once and
      after it was reported lost; each is reported lost at most once, under limits that leave room
      for a header. */
  ghost predicate Legal(m: Groups, w: World, step: Step) {
    match step
    case Send(d) => Honest(m, d) && Fresh(w.sent, d)
    case Acked(i) => i < |w.sent|
    case Lost(i, limits) => i < |w.sent| && i !in w.lost && Regular(limits)
  }

  ghost function Run(steps: seq<Step>): World {
    if steps == [] then NEW_WORLD else After(Run(steps[..|steps| - 1]), steps[|steps| - 1])
  }

  ghost predicate AllLegal(m: Groups, steps: seq<Step>) {
    steps == [] || (AllLegal(m, steps[..|steps| - 1]) && Legal(m, Run(steps[..|steps| - 1]), steps[|steps| - 1]))
  }

  ghost predicate Invariant(m: Groups, w: World) {
    && !w.failed && Known(w.sent, w.lost) && Known(w.sent, w.acked)
    && Sound(m, w.state, w.sent, w.lost, w.acked)
    && forall i :: 0 <= i < |w.sent| ==> Honest(m, w.sent[i])
  }

  lemma StepKeeps(m: Groups, w: World, step: Step)
    requires Invariant(m, w) && Legal(m, w, step)
    ensures Invariant(m, After(w, step))
  {
    hide Sound, Init, HandleAck, HandleLost, Honest, Fresh;
    match step {
      case Send(d) => SendKeeps(m, w.state, w.sent, w.lost, w.acked, d);
      case Acked(i) => AckKeeps(m, w.state, w.sent, w.lost, w.acked, i);
      case Lost(i, limits) =>
        LoseKeeps(m, w.state, w.sent, w.lost, w.acked, i, limits);
        QueuedHonest(m, w.state, w.sent, w.lost, w.acked, i, limits);
    }
  }

  lemma QueuedHonest(m: Groups, s: State, sent: seq<Shipment>, lost: set<nat>, acked: set<nat>, d: nat, limits: Limits)
    requires Sound(m, s, sent, lost, acked) && d < |sent| && d !in lost && Regular(limits)
    ensures forall p :: p in HandleLost(s, sent[d], limits).1 ==> Honest(m, p)
  {
    var i := Find(s.records, sent[d].key, sent[d].offset);
    FoundIsSame(m, s, sent, lost, acked, d);
    assert Ordered(s.records) && Above(s.horizon, s.records);
    assert i >= 0 ==> Honest(m, s.records[i].what);
    hide Sound, Repeat, Ordered, Above, Spliced, Partition, Honest, Fits, AsRecords, Init;
    if i >= 0 && !s.records[i].isAcked {
      if s.records[i].what.length > 0 || s.records[i].what.flags == 255 {
        RepeatSplits(s, i, limits);
        PiecesHonest(m, s.records[i].what, Repeat(s, i, sent[d].length, limits).1);
      } else {
        RepeatUnfold(s, i, 0, limits);
      }
    }
  }

  lemma PiecesHonest(m: Groups, d: Shipment, ps: seq<Shipment>)
    requires Honest(m, d) && Partition(d, ps)
    ensures forall p :: p in ps ==> Honest(m, p)
  {
    forall p | p in ps ensures Honest(m, p) {
      var x :| 0 <= x < |ps| && ps[x] == p;
      PieceInside(d, ps, x);
    }
  }

  /** In every run the invariant holds; in particular nothing ever fails: a fresh datagram finds
      no record in its place, the walk along acknowledged records never follows a null link, and
      every split makes its record. */
  lemma {:induction false} RunKeepsInvariant(m: Groups, steps: seq<Step>)
    requires AllLegal(m, steps)
    ensures Invariant(m, Run(steps)) && !Run(steps).failed
  {
    hide Sound, Legal, After;
    if steps == [] {
      NewIsSound(m);
    } else {
      RunKeepsInvariant(m, steps[..|steps| - 1]);
      StepKeeps(m, Run(steps[..|steps| - 1]), steps[|steps| - 1]);
    }
  }

  lemma NewIsSound(m: Groups)
    ensures Sound(m, INITIAL, [], {}, {})
  {
  }

  // ----- Horizon safety -----

  /** Everything in the media from the first object ever collapsed up to the horizon was
      acknowledged, and the horizon never passes an empty object. */
  lemma HorizonIsSafe(m: Groups, steps: seq<Step>, k: Key, p: nat)
    requires AllLegal(m, steps) && InMedia(m, k)
    requires var s := Run(steps).state; s.base.Some? && !Before(k, s.base.value) && Below(s.horizon, k, p)
    ensures var w := Run(steps);
            ObjectAt(m, k).data != [] && (p < |ObjectAt(m, k).data| ==> AckedAt(w.sent, w.acked, k, p))
  {
    hide Run, AckedAt;
    RunKeepsInvariant(m, steps);
  }

  /** Records never lie below the horizon, and a record is marked if and only if it holds bytes
      that were acknowledged. */
  lemma RecordsAreExact(m: Groups, steps: seq<Step>, j: nat)
    requires AllLegal(m, steps) && j < |Run(steps).state.records|
    ensures var w := Run(steps);
            var r := w.state.records[j];
            && !Below(w.state.horizon, r.what.key, r.what.offset)
            && (r.isAcked ==> r.what.length > 0)
            && forall p: nat :: Covers(r.what, r.what.key, p) ==> (r.isAcked <==> AckedAt(w.sent, w.acked, r.what.key, p))
  {
    hide Run, AckedAt;
    RunKeepsInvariant(m, steps);
    assert Account(Run(steps).state.records[j], Run(steps).sent, Run(steps).acked);
  }

  /** Nothing is forgotten: every byte ever sent was acknowledged, or is in a record that is not
      marked, or belongs to an object before the first one collapsed. */
  lemma NothingIsForgotten(m: Groups, steps: seq<Step>, i: nat, p: nat)
    requires AllLegal(m, steps)
    requires var w := Run(steps); i < |w.sent| && Covers(w.sent[i], w.sent[i].key, p)
    ensures var w := Run(steps);
            var k := w.sent[i].key;
            || AckedAt(w.sent, w.acked, k, p)
            || (exists j :: 0 <= j < |w.state.records| && !w.state.records[j].isAcked && Covers(w.state.records[j].what, k, p))
            || (w.state.base.Some? && Before(k, w.state.base.value))
  {
    hide Run, AckedAt, Honest;
    RunKeepsInvariant(m, steps);
    var w := Run(steps);
    var d := w.sent[i];
    assert Traced(w.state.horizon, w.state.records, d) && Honest(m, d);
    if Below(w.state.horizon, d.key, p) {
      HonestRange(m, d, p);
    } else {
      var j :| 0 <= j < |w.state.records| && Holds(w.state.records[j].what, d, p);
      assert Account(w.state.records[j], w.sent, w.acked);
    }
  }

  lemma HonestRange(m: Groups, d: Shipment, p: nat)
    requires Honest(m, d) && Covers(d, d.key, p)
    ensures InMedia(m, d.key) && p < |ObjectAt(m, d.key).data|
  {
  }

  /** A loss report that finds no record, or a marked one, concerns data that was acknowledged,
      unless the object comes before the first one collapsed. */
  lemma LossWithoutRecordIsHarmless(m: Groups, steps: seq<Step>, i: nat, p: nat)
    requires AllLegal(m, steps)
    requires var w := Run(steps); i < |w.sent| && i !in w.lost && Covers(w.sent[i], w.sent[i].key, p)
    requires var w := Run(steps);
             var j := Find(w.state.records, w.sent[i].key, w.sent[i].offset);
             j < 0 || w.state.records[j].isAcked
    ensures var w := Run(steps);
            AckedAt(w.sent, w.acked, w.sent[i].key, p) || (w.state.base.Some? && Before(w.sent[i].key, w.state.base.value))
  {
    hide Run, AckedAt, Honest;
    RunKeepsInvariant(m, steps);
    var w := Run(steps);
    var d := w.sent[i];
    FoundIsSame(m, w.state, w.sent, w.lost, w.acked, i);
    var j := Find(w.state.records, d.key, d.offset);
    if j < 0 {
      HonestRange(m, d, p);
    } else {
      assert Account(w.state.records[j], w.sent, w.acked);
    }
  }

  /** What a loss queues are pieces of the very datagram that was lost, under its label. */
  lemma LossQueues(m: Groups, w: World, i: nat, limits: Limits)
    requires Invariant(m, w) && i < |w.sent| && i !in w.lost && Regular(limits)
    ensures var queued := HandleLost(w.state, w.sent[i], limits).1; queued == [] || Partition(w.sent[i], queued)
  {
    FoundIsSame(m, w.state, w.sent, w.lost, w.acked, i);
    assert Ordered(w.state.records) && Above(w.state.horizon, w.state.records);
    hide Sound, Repeat, Ordered, Above, Fits, Spliced, Partition, Honest;
    var j := Find(w.state.records, w.sent[i].key, w.sent[i].offset);
    if j >= 0 && !w.state.records[j].isAcked {
      if w.sent[i].length > 0 || w.sent[i].flags == 255 {
        RepeatSplits(w.state, j, limits);
      } else {
        RepeatUnfold(w.state, j, 0, limits);
      }
    }
  }

  /** A lost datagram is sent again if and only if its record is there and not marked and it either
      carries data or has the flags of a placeholder.  What is sent again are pieces that are
      adjacent, disjoint, together exactly what the record says of the datagram, and short enough to
      be queued, all but the last as long as can be.  An empty object with other flags is not repeated. */
  lemma RepeatedIff(m: Groups, steps: seq<Step>, i: nat, limits: Limits)
    requires AllLegal(m, steps) && Regular(limits)
    requires i < |Run(steps).sent| && i !in Run(steps).lost
    ensures var w := Run(steps);
            var d := w.sent[i];
            var j := Find(w.state.records, d.key, d.offset);
            var queued := HandleLost(w.state, d, limits).1;
            && (queued != [] <==> j >= 0 && !w.state.records[j].isAcked && (d.length > 0 || d.flags == 255))
            && (queued != [] ==> Partition(d, queued) && Fits(limits, queued) && Fills(limits, queued))
  {
    RunKeepsInvariant(m, steps);
    hide Run, Repeat, Fits, Fills, Spliced, Partition;
    var w := Run(steps);
    var d := w.sent[i];
    FoundIsSame(m, w.state, w.sent, w.lost, w.acked, i);
    var j := Find(w.state.records, d.key, d.offset);
    if j >= 0 && !w.state.records[j].isAcked {
      if d.length > 0 || d.flags == 255 {
        RepeatSplits(w.state, j, limits);
        PartitionNotEmpty(w.state.records[j].what, HandleLost(w.state, d, limits).1);
      } else {
        RepeatUnfold(w.state, j, 0, limits);
      }
    }
  }

  /** The smallest datagram that is lost for good: an empty object that is not a placeholder. */
  lemma EmptyLossIsNotRepeated(d: Shipment, limits: Limits)
    requires d == Shipment(Key(0, 0), 0, 0, 0, 0, 0) && Regular(limits)
    ensures var steps := [Send(d), Lost(0, limits)];
            AllLegal([[MediaObject([], 0)]], steps) && Run(steps).sent == [d] && Run(steps).lost == {0} && Run(steps).acked == {}
  {
    var steps := [Send(d), Lost(0, limits)];
    var m := [[MediaObject([], 0)]];
    var first := steps[..1];
    assert first == [Send(d)] && first[..0] == [];
    assert Legal(m, NEW_WORLD, Send(d)) && AllLegal(m, first[..|first| - 1]);
    assert Inserted([], Record(d, false)) == [Record(d, false)];
    var w := Run(first);
    assert w == After(NEW_WORLD, Send(d)) && w.sent == [d] && w.lost == {};
    assert first == steps[..|steps| - 1] && AllLegal(m, first) && Legal(m, w, Lost(0, limits));
    RepeatUnfold(w.state, 0, 0, limits);
  }

  lemma PartitionNotEmpty(d: Shipment, ps: seq<Shipment>)
    requires Partition(d, ps)
    ensures ps != []
  {
  }
}
