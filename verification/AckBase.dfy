/** Where the horizon starts.  When the first datagram belongs to the lowest object that is ever
    sent, that object is the base of the horizon, and no byte is ever forgotten. */
module AckBase {
  import opened Media
  import opened AckHorizon
  import opened AckRuns
  import opened AckSafety

  ghost predicate HasKey(records: seq<Record>, k: Key) {
    exists j :: 0 <= j < |records| && records[j].what.key == k
  }

  ghost predicate AllFrom(records: seq<Record>, k0: Key) {
    forall j :: 0 <= j < |records| ==> !Before(records[j].what.key, k0)
  }

  /** The base is k0, or will be: k0 still has a record. */
  ghost predicate Based(s: State, k0: Key) {
    AllFrom(s.records, k0) && if s.base.Some? then s.base.value == k0 else HasKey(s.records, k0)
  }

  lemma {:induction false} BasedCollapse(s: State, k0: Key)
    requires Ordered(s.records) && Based(s, k0)
    ensures Based(Collapse(s), k0)
    decreases |s.records|
  {
    hide JustAfter, Reached, Then;
    if s.records != [] && s.records[0].isAcked && JustAfter(s.horizon, s.records[0].what) {
      BasedOne(s, k0);
      BasedCollapse(CollapseOne(s), k0);
    }
  }

  lemma BasedOne(s: State, k0: Key)
    requires Ordered(s.records) && Based(s, k0) && s.records != []
    ensures Ordered(CollapseOne(s).records) && Based(CollapseOne(s), k0)
  {
    if s.base.None? {
      var j :| 0 <= j < |s.records| && s.records[j].what.key == k0;
      Order(s.records, 0, j);
    }
  }

  lemma BasedSame(s: State, now: seq<Record>, k0: Key)
    requires Based(s, k0) && SameWhats(s.records, now)
    ensures Based(s.(records := now), k0)
  {
    if s.base.None? {
      var j :| 0 <= j < |s.records| && s.records[j].what.key == k0;
      assert now[j].what.key == k0;
    }
  }

  lemma BasedAck(s: State, d: Shipment, k0: Key)
    requires Ordered(s.records) && Above(s.horizon, s.records) && Traced(s.horizon, s.records, d) && Based(s, k0)
    ensures HandleAck(s, d).Some? && Based(HandleAck(s, d).value, k0)
  {
    MarkedUnfold(s.horizon, s, d);
    hide Marked, ShouldCheck, Based, Above, Traced, Collapse;
    var now := Marked(s, d).value;
    assert SameWhats(s.records, now);
    BasedSame(s, now, k0);
    assert Ordered(now);
    BasedCollapse(s.(records := now), k0);
  }

  lemma BasedInit(s: State, d: Shipment, k0: Key)
    requires !Before(d.key, k0) && ((s == INITIAL && d.key == k0) || Based(s, k0))
    ensures Based(Init(s, d).0, k0)
  {
    var r := Record(d, false);
    InsertedIncludes(s.records, r);
    var now := Inserted(s.records, r);
    forall j | 0 <= j < |now| ensures !Before(now[j].what.key, k0) {
      assert now[j] in now;
    }
    var x :| 0 <= x < |now| && now[x] == r;
    if s.base.None? && s != INITIAL {
      var j :| 0 <= j < |s.records| && s.records[j].what.key == k0;
      assert s.records[j] in now;
    }
  }

  lemma BasedSplit(s: State, i: nat, ps: seq<Shipment>, k0: Key)
    requires i < |s.records| && Partition(s.records[i].what, ps) && Based(s, k0)
    ensures Based(s.(records := Spliced(s.records, i, AsRecords(ps))), k0)
  {
    hide Spliced, Partition;
    var (d, rs) := (s.records[i].what, AsRecords(ps));
    var now := Spliced(s.records, i, rs);
    PartitionNotEmpty(d, ps);
    forall j | 0 <= j < |now| ensures !Before(now[j].what.key, k0) {
      SplicedAt(s.records, i, rs, j);
      if i <= j < i + |ps| {
        PieceInside(d, ps, j - i);
      }
    }
    if s.base.None? {
      var j :| 0 <= j < |s.records| && s.records[j].what.key == k0;
      var x := if j < i then j else if j == i then i else j + |ps| - 1;
      SplicedLength(s.records, i, rs);
      SplicedAt(s.records, i, rs, x);
      if j == i {
        PieceInside(d, ps, 0);
      }
      assert now[x].what.key == k0;
    }
  }

  lemma SplicedLength(records: seq<Record>, i: nat, now: seq<Record>)
    requires i < |records|
    ensures |Spliced(records, i, now)| == |records| - 1 + |now|
  {
  }

  /** A lost record that carries something is split where it stands. */
  lemma BasedRepeat(s: State, i: nat, e: Shipment, limits: Limits, k0: Key)
    requires Ordered(s.records) && Above(s.horizon, s.records) && i < |s.records| && !s.records[i].isAcked
    requires Regular(limits) && (s.records[i].what.length > 0 || s.records[i].what.flags == 255)
    requires Based(s, k0) && s.records[i].what == e
    ensures var (s', queued, ok) := Repeat(s, i, e.length, limits);
            Based(s', k0) && forall p :: p in queued ==> p.key == e.key && Inside(p, e)
  {
    hide Repeat, Ordered, Above, Spliced, Partition, Fits, AsRecords, Init, Based;
    RepeatSplits(s, i, limits);
    var ps := Repeat(s, i, e.length, limits).1;
    BasedSplit(s, i, ps, k0);
    forall p | p in ps ensures p.key == e.key && Inside(p, e) {
      var x :| 0 <= x < |ps| && ps[x] == p;
      PieceInside(s.records[i].what, ps, x);
    }
  }

  lemma BasedLost(m: Groups, s: State, sent: seq<Shipment>, lost: set<nat>, acked: set<nat>, d: nat, limits: Limits, k0: Key)
    requires Sound(m, s, sent, lost, acked) && d < |sent| && d !in lost && Regular(limits) && Based(s, k0)
    ensures Based(HandleLost(s, sent[d], limits).0, k0)
    ensures forall p :: p in HandleLost(s, sent[d], limits).1 ==> p.key == sent[d].key && Inside(p, sent[d])
  {
    var i := Find(s.records, sent[d].key, sent[d].offset);
    FoundIsSame(m, s, sent, lost, acked, d);
    assert Ordered(s.records) && Above(s.horizon, s.records);
    hide Sound, Repeat, Ordered, Above, Spliced, Partition, Fits, AsRecords, Init, Based;
    if i >= 0 && !s.records[i].isAcked {
      if s.records[i].what.length > 0 || s.records[i].what.flags == 255 {
        BasedRepeat(s, i, sent[d], limits, k0);
      } else {
        RepeatUnfold(s, i, 0, limits);
      }
    }
  }

  /** Everything sent so far is of k0 or of a later object, and k0 came first. */
  ghost predicate FromLowest(w: World, k0: Key) {
    && (forall i :: 0 <= i < |w.sent| ==> !Before(w.sent[i].key, k0))
    && if w.sent == [] then w.state == INITIAL else Based(w.state, k0)
  }

  /** A step that sends nothing before k0, and k0 first. */
  ghost predicate NotBefore(w: World, step: Step, k0: Key) {
    step.Send? ==> !Before(step.shipment.key, k0) && (w.sent == [] ==> step.shipment.key == k0)
  }

  lemma StepKeepsLowest(m: Groups, w: World, step: Step, k0: Key)
    requires Invariant(m, w) && Legal(m, w, step) && FromLowest(w, k0) && NotBefore(w, step, k0)
    ensures FromLowest(AckSafety.After(w, step), k0)
  {
    match step {
      case Send(d) => BasedInit(w.state, d, k0);
      case Acked(i) =>
        assert Traced(w.state.horizon, w.state.records, w.sent[i]);
        BasedAck(w.state, w.sent[i], k0);
      case Lost(i, limits) => BasedLost(m, w.state, w.sent, w.lost, w.acked, i, limits, k0);
    }
  }

  /** Then every byte ever sent was acknowledged, or is in a record that is not marked and will be
      sent again when its datagram is lost. */
  lemma NoByteIsForgotten(m: Groups, w: World, k0: Key, i: nat, p: nat)
    requires Invariant(m, w) && FromLowest(w, k0) && i < |w.sent| && Covers(w.sent[i], w.sent[i].key, p)
    ensures var k := w.sent[i].key;
            AckedAt(w.sent, w.acked, k, p) ||
            exists j :: 0 <= j < |w.state.records| && !w.state.records[j].isAcked && Covers(w.state.records[j].what, k, p)
  {
    hide AckedAt, Honest, Based;
    var d := w.sent[i];
    assert Traced(w.state.horizon, w.state.records, d) && Honest(m, d);
    if Below(w.state.horizon, d.key, p) {
      HonestRange(m, d, p);
      BaseIsLowest(w.state, k0);
    } else {
      var j :| 0 <= j < |w.state.records| && Holds(w.state.records[j].what, d, p);
      assert Account(w.state.records[j], w.sent, w.acked);
    }
  }

  lemma BaseIsLowest(s: State, k0: Key)
    requires Based(s, k0)
    ensures s.base.Some? ==> s.base.value == k0
  {
  }
}
