/** Every interleaving of sending, acknowledgement, loss and repetition: what the records and
    the horizon of module AckHorizon mean for the bytes that were sent. */
module AckRuns {
  import opened Media
  import opened AckHorizon

  // ----- Ranges -----

  ghost predicate Covers(d: Shipment, k: Key, p: nat) {
    d.key == k && d.offset <= p < d.End()
  }

  /** What a header says besides the range. */
  ghost predicate SameLabel(d: Shipment, e: Shipment) {
    d.flags == e.flags && d.previousSize == e.previousSize && d.objectLength == e.objectLength
  }

  /** d carries a part of e, under the same label. */
  ghost predicate Inside(d: Shipment, e: Shipment) {
    d.key == e.key && e.offset <= d.offset && d.End() <= e.End() && (d.length == 0 ==> e.length == 0) && SameLabel(d, e)
  }

  ghost predicate Separate(d: Shipment, e: Shipment) {
    d.key == e.key ==> (d.offset < e.offset && d.End() <= e.offset) || (e.offset < d.offset && e.End() <= d.offset)
  }

  /** Sorted, without overlap. */
  ghost predicate Ordered(records: seq<Record>) {
    forall i, j :: 0 <= i < j < |records| ==> Then(records[i].what, records[j].what)
  }

  ghost predicate Then(d: Shipment, e: Shipment) {
    Before(d.key, e.key) || (d.key == e.key && d.offset < e.offset && d.End() <= e.offset)
  }

  lemma {:induction false} FindIs(records: seq<Record>, i: nat)
    requires Ordered(records) && i < |records|
    ensures Find(records, records[i].what.key, records[i].what.offset) == i
  {
  }

  // ----- Marking -----

  /** Record j lies in the range and holds position p of it. */
  ghost predicate Link(d: Shipment, k: Key, from: nat, p: nat, end: nat) {
    d.key == k && from <= d.offset <= p < d.End() <= end
  }

  ghost predicate Linked(records: seq<Record>, k: Key, from: nat, p: nat, end: nat) {
    exists j :: 0 <= j < |records| && Link(records[j].what, k, from, p, end)
  }

  /** The range is tiled by records. */
  ghost predicate Chain(records: seq<Record>, k: Key, from: nat, end: nat) {
    forall p: nat :: from <= p < end ==> Linked(records, k, from, p, end)
  }

  predicate InRange(d: Shipment, k: Key, from: nat, end: nat) {
    d.key == k && from <= d.offset < end
  }

  lemma Order(records: seq<Record>, i: nat, j: nat)
    requires Ordered(records) && i < |records| && j < |records|
    ensures i < j ==> Then(records[i].what, records[j].what)
    ensures j < i ==> Then(records[j].what, records[i].what)
  {
  }

  lemma ChainHead(records: seq<Record>, i: nat, end: nat)
    requires Ordered(records) && i < |records|
    requires var d := records[i].what; d.offset < end && Chain(records, d.key, d.offset, end)
    ensures records[i].what.length > 0 && records[i].what.End() <= end
  {
    var d := records[i].what;
    assert Linked(records, d.key, d.offset, d.offset, end);
    hide Ordered, Chain;
    var j :| 0 <= j < |records| && Link(records[j].what, d.key, d.offset, d.offset, end);
    Order(records, i, j);
  }

  lemma ChainNext(records: seq<Record>, i: nat, end: nat)
    requires Ordered(records) && i < |records|
    requires var d := records[i].what; d.offset < d.End() < end && Chain(records, d.key, d.offset, end)
    ensures i + 1 < |records| && records[i + 1].what.key == records[i].what.key
    ensures records[i + 1].what.offset == records[i].what.End()
  {
    var d := records[i].what;
    assert Linked(records, d.key, d.offset, d.End(), end);
    hide Ordered, Chain;
    var j :| 0 <= j < |records| && Link(records[j].what, d.key, d.offset, d.End(), end);
    Order(records, i, j);
    Order(records, i, i + 1);
    Order(records, i + 1, j);
  }

  lemma ChainTail(records: seq<Record>, i: nat, end: nat)
    requires Ordered(records) && i < |records|
    requires var d := records[i].what; d.length > 0 && Chain(records, d.key, d.offset, end)
    ensures var d := records[i].what; Chain(records, d.key, d.End(), end)
  {
    var d := records[i].what;
    forall p: nat | d.End() <= p < end ensures Linked(records, d.key, d.End(), p, end) {
      assert Linked(records, d.key, d.offset, p, end);
      var x :| 0 <= x < |records| && Link(records[x].what, d.key, d.offset, p, end);
      Order(records, i, x);
      assert Link(records[x].what, d.key, d.End(), p, end);
    }
  }

  lemma RangeStep(records: seq<Record>, i: nat, end: nat, j: nat)
    requires Ordered(records) && i < |records| && j < |records|
    requires records[i].what.length > 0 && records[i].what.End() <= end
    ensures var d := records[i].what;
            InRange(records[j].what, d.key, d.offset, end) <==> j == i || InRange(records[j].what, d.key, d.End(), end)
  {
    Order(records, i, j);
  }

  ghost predicate MarkedIn(records: seq<Record>, now: seq<Record>, k: Key, from: nat, end: nat) {
    && |now| == |records|
    && forall j :: 0 <= j < |records| ==>
         && now[j].what == records[j].what
         && (now[j].isAcked <==> records[j].isAcked || InRange(records[j].what, k, from, end))
  }

  lemma ChainKept(records: seq<Record>, i: nat, k: Key, from: nat, end: nat)
    requires Ordered(records) && i < |records| && Chain(records, k, from, end)
    ensures var now := records[i := Record(records[i].what, true)]; Ordered(now) && Chain(now, k, from, end)
  {
    var now := records[i := Record(records[i].what, true)];
    forall p: nat | from <= p < end ensures Linked(now, k, from, p, end) {
      assert Linked(records, k, from, p, end);
      var j :| 0 <= j < |records| && Link(records[j].what, k, from, p, end);
      assert Link(now[j].what, k, from, p, end);
    }
  }

  /** An acknowledged range that is tiled by records marks exactly those records, and the walk
      along them never runs past the last one. */
  lemma {:induction false} MarkIsExact(records: seq<Record>, i: nat, end: nat)
    requires Ordered(records) && i < |records|
    requires var d := records[i].what; d.offset < end && Chain(records, d.key, d.offset, end)
    ensures var d := records[i].what;
            var marked := Mark(records, i, d.offset, end - d.offset);
            marked.Some? && MarkedIn(records, marked.value, d.key, d.offset, end)
    decreases |records| - i
  {
    hide Chain, Then, InRange, Ordered, Link;
    var d := records[i].what;
    var now := records[i := Record(d, true)];
    ChainHead(records, i, end);
    if d.End() < end {
      ChainNext(records, i, end);
      ChainTail(records, i, end);
      ChainKept(records, i, d.key, d.End(), end);
      MarkIsExact(now, i + 1, end);
    } else {
      NothingAt(end);
    }
    forall j | 0 <= j < |records|
      ensures InRange(records[j].what, d.key, d.offset, end) <==> j == i || InRange(records[j].what, d.key, d.End(), end)
    {
      RangeStep(records, i, end, j);
    }
  }

  lemma NothingAt(end: nat)
    ensures forall d: Shipment, k :: !InRange(d, k, end, end)
  {
  }

  // ----- The invariant -----

  /** d says of its object only what is true of the media.  Placeholders are honest: they are
      empty, and their records carry the length of the object they stand for. */
  ghost predicate Honest(m: Groups, d: Shipment) {
    && InMedia(m, d.key)
    && d.objectLength == |ObjectAt(m, d.key).data| && d.End() <= d.objectLength
    && (d.previousSize > 0 ==> d.key.id == 0 && d.key.group > 0 && d.previousSize == |m[d.key.group - 1]|)
  }

  /** Position p of object k was in a datagram whose packet was reported as received. */
  ghost predicate AckedAt(sent: seq<Shipment>, acked: set<nat>, k: Key, p: nat) {
    exists i: nat :: i < |sent| && i in acked && Covers(sent[i], k, p)
  }

  ghost predicate AllHonest(m: Groups, records: seq<Record>) {
    forall j :: 0 <= j < |records| ==> Honest(m, records[j].what)
  }

  ghost predicate Above(h: Horizon, records: seq<Record>) {
    forall j :: 0 <= j < |records| ==> !Below(h, records[j].what.key, records[j].what.offset)
  }

  /** A record is marked if and only if all, or any, of its bytes were acknowledged.  Empty
      records are never marked. */
  ghost predicate Account(r: Record, sent: seq<Shipment>, acked: set<nat>) {
    && (r.isAcked ==> r.what.length > 0)
    && forall p: nat :: Covers(r.what, r.what.key, p) ==> (r.isAcked <==> AckedAt(sent, acked, r.what.key, p))
  }

  ghost predicate Accounts(records: seq<Record>, sent: seq<Shipment>, acked: set<nat>) {
    forall j :: 0 <= j < |records| ==> Account(records[j], sent, acked)
  }

  ghost predicate Holds(r: Shipment, d: Shipment, p: nat) {
    Inside(r, d) && Covers(r, d.key, p)
  }

  ghost predicate HeldAt(records: seq<Record>, d: Shipment, p: nat) {
    exists j :: 0 <= j < |records| && Holds(records[j].what, d, p)
  }

  /** What a datagram carried is below the horizon, or tiled by records. */
  ghost predicate Traced(h: Horizon, records: seq<Record>, d: Shipment) {
    forall p: nat :: Covers(d, d.key, p) ==> Below(h, d.key, p) || HeldAt(records, d, p)
  }

  ghost predicate AllTraced(h: Horizon, records: seq<Record>, sent: seq<Shipment>) {
    forall i :: 0 <= i < |sent| ==> Traced(h, records, sent[i])
  }

  ghost predicate Owned(r: Shipment, sent: seq<Shipment>) {
    exists i :: 0 <= i < |sent| && Inside(r, sent[i])
  }

  ghost predicate AllOwned(records: seq<Record>, sent: seq<Shipment>) {
    forall j :: 0 <= j < |records| ==> Owned(records[j].what, sent)
  }

  ghost predicate Gone(h: Horizon, d: Shipment) {
    Below(h, d.key, d.offset) && (d.length > 0 ==> Below(h, d.key, d.End() - 1))
  }

  ghost predicate HasRecord(records: seq<Record>, d: Shipment) {
    exists j :: 0 <= j < |records| && records[j].what == d
  }

  /** A datagram not yet reported lost still has its own record, or is below the horizon. */
  ghost predicate Current(h: Horizon, records: seq<Record>, sent: seq<Shipment>, lost: set<nat>) {
    forall i: nat :: i < |sent| && i !in lost ==> Gone(h, sent[i]) || HasRecord(records, sent[i])
  }

  ghost predicate Distinct(sent: seq<Shipment>, lost: set<nat>) {
    forall i: nat, j: nat :: i < j < |sent| && i !in lost && j !in lost ==> Separate(sent[i], sent[j])
  }

  /** The object the horizon is in. */
  function At(h: Horizon): Key
    requires h.group >= 0 && h.id >= 0
  {
    Key(h.group, h.id)
  }

  ghost predicate PassedIsAcked(m: Groups, base: Key, h: Horizon, sent: seq<Shipment>, acked: set<nat>) {
    forall k, p: nat :: InMedia(m, k) && !Before(k, base) && p < |ObjectAt(m, k).data| && Below(h, k, p) ==>
      AckedAt(sent, acked, k, p)
  }

  ghost predicate Placed(m: Groups, base: Key, h: Horizon) {
    && h.group >= 0 && h.id >= 0 && InMedia(m, At(h)) && !Before(At(h), base)
    && (h.isLast <==> h.offset >= |ObjectAt(m, At(h)).data|)
    && forall k :: InMedia(m, k) && !Before(k, base) && !Before(At(h), k) ==> ObjectAt(m, k).data != []
  }

  ghost predicate Safe(m: Groups, s: State, sent: seq<Shipment>, acked: set<nat>) {
    match s.base
    case None => s.horizon == NO_HORIZON
    case Some(base) => Placed(m, base, s.horizon) && PassedIsAcked(m, base, s.horizon, sent, acked)
  }

  ghost predicate Sound(m: Groups, s: State, sent: seq<Shipment>, lost: set<nat>, acked: set<nat>) {
    && Ordered(s.records) && AllHonest(m, s.records) && Above(s.horizon, s.records)
    && Accounts(s.records, sent, acked) && AllTraced(s.horizon, s.records, sent) && AllOwned(s.records, sent)
    && Current(s.horizon, s.records, sent, lost) && Distinct(sent, lost)
    && Safe(m, s, sent, acked)
  }

  // ----- Collapsing -----

  lemma BelowAfter(h: Horizon, d: Shipment, k: Key, p: int)
    requires !Below(h, d.key, d.offset)
    ensures Below(h, k, p) ==> Below(Reached(d), k, p)
  {
  }

  /** Between the horizon and the record just after it there is nothing else. */
  lemma NothingBetween(m: Groups, base: Key, h: Horizon, d: Shipment, k: Key, p: nat)
    requires Placed(m, base, h) && JustAfter(h, d) && Honest(m, d) && !Below(h, d.key, d.offset)
    requires InMedia(m, k) && p < |ObjectAt(m, k).data| && Below(Reached(d), k, p)
    ensures Below(h, k, p) || Covers(d, k, p)
  {
  }

  lemma PlacedNext(m: Groups, s: State)
    requires s.records != [] && JustAfter(s.horizon, s.records[0].what) && Honest(m, s.records[0].what)
    requires !Below(s.horizon, s.records[0].what.key, s.records[0].what.offset) && s.records[0].what.length > 0
    requires s.base.None? ==> s.horizon == NO_HORIZON
    requires s.base.Some? ==> Placed(m, s.base.value, s.horizon)
    ensures var s' := CollapseOne(s); s'.base.Some? && Placed(m, s'.base.value, s'.horizon)
  {
    var d := s.records[0].what;
    if s.base.Some? {
      assert !Before(d.key, At(s.horizon));
    }
  }

  lemma SafeNext(m: Groups, s: State, sent: seq<Shipment>, acked: set<nat>)
    requires s.records != [] && JustAfter(s.horizon, s.records[0].what) && Honest(m, s.records[0].what)
    requires !Below(s.horizon, s.records[0].what.key, s.records[0].what.offset) && s.records[0].isAcked
    requires Account(s.records[0], sent, acked) && Safe(m, s, sent, acked)
    ensures Safe(m, CollapseOne(s), sent, acked)
  {
    var d, s' := s.records[0].what, CollapseOne(s);
    PlacedNext(m, s);
    var base := s'.base.value;
    hide Placed, AckedAt, JustAfter, Honest;
    forall k, p: nat | InMedia(m, k) && !Before(k, base) && p < |ObjectAt(m, k).data| && Below(s'.horizon, k, p)
      ensures AckedAt(sent, acked, k, p)
    {
      if s.base.Some? {
        NothingBetween(m, base, s.horizon, d, k, p);
      } else {
        assert d.key == base && d.offset == 0 by { FromNothing(s, d); }
      }
      assert Covers(d, k, p) ==> AckedAt(sent, acked, k, p);
    }
  }

  lemma FromNothing(s: State, d: Shipment)
    requires s.horizon == NO_HORIZON && JustAfter(s.horizon, d)
    ensures d.offset == 0
  {
  }

  lemma AboveNext(records: seq<Record>)
    requires Ordered(records) && records != []
    ensures Ordered(records[1..]) && Above(Reached(records[0].what), records[1..])
  {
    var rest := records[1..];
    forall j | 0 <= j < |rest| ensures !Below(Reached(records[0].what), rest[j].what.key, rest[j].what.offset) {
      assert Then(records[0].what, records[j + 1].what);
    }
  }

  lemma TracedNext(h: Horizon, records: seq<Record>, d: Shipment)
    requires records != [] && !Below(h, records[0].what.key, records[0].what.offset) && Traced(h, records, d)
    ensures Traced(Reached(records[0].what), records[1..], d)
  {
    var r := records[0].what;
    forall p: nat | Covers(d, d.key, p) ensures Below(Reached(r), d.key, p) || HeldAt(records[1..], d, p) {
      BelowAfter(h, r, d.key, p);
      if HeldAt(records, d, p) {
        var j :| 0 <= j < |records| && Holds(records[j].what, d, p);
        if j > 0 {
          assert Holds(records[1..][j - 1].what, d, p);
        }
      }
    }
  }

  lemma CurrentNext(h: Horizon, records: seq<Record>, d: Shipment)
    requires records != [] && !Below(h, records[0].what.key, records[0].what.offset) && records[0].what.length > 0
    requires Gone(h, d) || HasRecord(records, d)
    ensures Gone(Reached(records[0].what), d) || HasRecord(records[1..], d)
  {
    var r := records[0].what;
    BelowAfter(h, r, d.key, d.offset);
    BelowAfter(h, r, d.key, d.End() - 1);
    if HasRecord(records, d) {
      var j :| 0 <= j < |records| && records[j].what == d;
      if j > 0 {
        assert records[1..][j - 1].what == d;
      }
    }
  }

  lemma CollapseOneKeeps(m: Groups, s: State, sent: seq<Shipment>, lost: set<nat>, acked: set<nat>)
    requires Sound(m, s, sent, lost, acked)
    requires s.records != [] && s.records[0].isAcked && JustAfter(s.horizon, s.records[0].what)
    ensures Sound(m, CollapseOne(s), sent, lost, acked)
  {
    var s' := CollapseOne(s);
    assert Account(s.records[0], sent, acked);
    SafeNext(m, s, sent, acked);
    AboveNext(s.records);
    hide Ordered, Safe, JustAfter, Honest, Account, Traced, Owned, Gone, HasRecord, Distinct, Reached, Below;
    forall i | 0 <= i < |sent| ensures Traced(s'.horizon, s'.records, sent[i]) {
      TracedNext(s.horizon, s.records, sent[i]);
    }
    forall i: nat | i < |sent| && i !in lost ensures Gone(s'.horizon, sent[i]) || HasRecord(s'.records, sent[i]) {
      CurrentNext(s.horizon, s.records, sent[i]);
    }
  }

  lemma {:induction false} CollapseKeeps(m: Groups, s: State, sent: seq<Shipment>, lost: set<nat>, acked: set<nat>)
    requires Sound(m, s, sent, lost, acked)
    ensures Sound(m, Collapse(s), sent, lost, acked)
    decreases |s.records|
  {
    hide Sound, JustAfter;
    if s.records != [] && s.records[0].isAcked && JustAfter(s.horizon, s.records[0].what) {
      CollapseOneKeeps(m, s, sent, lost, acked);
      CollapseKeeps(m, CollapseOne(s), sent, lost, acked);
    }
  }

  // ----- Acknowledgement -----

  lemma InTheRange(h: Horizon, records: seq<Record>, d: Shipment)
    requires Above(h, records) && Traced(h, records, d) && !IsBelow(h, d)
    ensures Chain(records, d.key, AckedFrom(h, d), d.End())
  {
    var start := AckedFrom(h, d);
    forall p: nat | start <= p < d.End() ensures Linked(records, d.key, start, p, d.End()) {
      assert Covers(d, d.key, p) && !Below(h, d.key, p);
      var j :| 0 <= j < |records| && Holds(records[j].what, d, p);
      assert !Below(h, records[j].what.key, records[j].what.offset);
      assert Link(records[j].what, d.key, start, p, d.End());
    }
  }

  /** In a tiled range, a record that starts there lies there, and so does one that touches it. */
  lemma ChainRecord(records: seq<Record>, k: Key, from: nat, end: nat, j: nat, p: nat)
    requires Ordered(records) && Chain(records, k, from, end) && j < |records|
    requires from <= p < end && ((InRange(records[j].what, k, from, end) && p == records[j].what.offset) || Covers(records[j].what, k, p))
    ensures Link(records[j].what, k, from, p, end)
  {
    assert Linked(records, k, from, p, end);
    hide Ordered, Chain;
    var x :| 0 <= x < |records| && Link(records[x].what, k, from, p, end);
    Order(records, x, j);
  }

  /** After the report, a record is marked if and only if it was, or lies in the datagram. */
  lemma MarkedUnfold(h: Horizon, s: State, d: Shipment)
    requires h == s.horizon && Ordered(s.records) && Above(h, s.records) && Traced(h, s.records, d)
    ensures var start := AckedFrom(h, d);
            Marked(s, d).Some? && MarkedIn(s.records, Marked(s, d).value, d.key, start, if IsBelow(h, d) then start else d.End())
  {
    var start := AckedFrom(h, d);
    var i := Find(s.records, d.key, start);
    if !IsBelow(h, d) && d.End() - start > 0 {
      InTheRange(h, s.records, d);
      assert Linked(s.records, d.key, start, start, d.End());
      var j :| 0 <= j < |s.records| && Link(s.records[j].what, d.key, start, start, d.End());
      hide Ordered, Above, Traced, Chain, MarkedIn, IsBelow, AckedFrom;
      assert i >= 0;
      MarkIsExact(s.records, i, d.End());
    }
  }

  lemma AckedMore(sent: seq<Shipment>, acked: set<nat>, i: nat, k: Key, p: nat)
    requires i < |sent|
    ensures AckedAt(sent, acked + {i}, k, p) <==> AckedAt(sent, acked, k, p) || Covers(sent[i], k, p)
  {
    if AckedAt(sent, acked, k, p) {
      var x: nat :| x < |sent| && x in acked && Covers(sent[x], k, p);
      assert x in acked + {i};
    }
    if Covers(sent[i], k, p) {
      assert i in acked + {i};
    }
  }

  lemma AccountMore(h: Horizon, records: seq<Record>, j: nat, r: Record, sent: seq<Shipment>, acked: set<nat>, i: nat)
    requires Ordered(records) && Above(h, records) && i < |sent| && Traced(h, records, sent[i]) && j < |records|
    requires Account(records[j], sent, acked) && r.what == records[j].what
    requires var d := sent[i];
             var start := AckedFrom(h, d);
             r.isAcked <==> records[j].isAcked || InRange(r.what, d.key, start, if IsBelow(h, d) then start else d.End())
    ensures Account(r, sent, acked + {i})
  {
    var d := sent[i];
    var start := AckedFrom(h, d);
    var marked := InRange(r.what, d.key, start, if IsBelow(h, d) then start else d.End());
    assert !Below(h, records[j].what.key, records[j].what.offset);
    if !IsBelow(h, d) {
      InTheRange(h, records, d);
    }
    if marked {
      ChainRecord(records, d.key, start, d.End(), j, r.what.offset);
    }
    forall p: nat | Covers(r.what, r.what.key, p) ensures r.isAcked <==> AckedAt(sent, acked + {i}, r.what.key, p) {
      hide Ordered, Above, Traced, Chain, AckedAt;
      AckedMore(sent, acked, i, r.what.key, p);
      if Covers(d, r.what.key, p) {
        assert p >= start && !IsBelow(h, d);
        ChainRecord(records, d.key, start, d.End(), j, p);
      }
    }
  }

  // ----- What depends on the ranges of the records only -----

  ghost predicate SameWhats(records: seq<Record>, now: seq<Record>) {
    |now| == |records| && forall j :: 0 <= j < |records| ==> now[j].what == records[j].what
  }

  lemma TracedSame(h: Horizon, records: seq<Record>, now: seq<Record>, d: Shipment)
    requires SameWhats(records, now) && Traced(h, records, d)
    ensures Traced(h, now, d)
  {
    forall p: nat | Covers(d, d.key, p) ensures Below(h, d.key, p) || HeldAt(now, d, p) {
      if HeldAt(records, d, p) {
        var j :| 0 <= j < |records| && Holds(records[j].what, d, p);
        assert Holds(now[j].what, d, p);
      }
    }
  }

  lemma HasRecordSame(records: seq<Record>, now: seq<Record>, d: Shipment)
    requires SameWhats(records, now) && HasRecord(records, d)
    ensures HasRecord(now, d)
  {
    var j :| 0 <= j < |records| && records[j].what == d;
    assert now[j].what == d;
  }

  lemma SafeMore(m: Groups, s: State, now: seq<Record>, sent: seq<Shipment>, acked: set<nat>, i: nat)
    requires Safe(m, s, sent, acked) && i < |sent|
    ensures Safe(m, s.(records := now), sent, acked + {i})
  {
    hide Placed;
    if s.base.Some? {
      forall k, p: nat | InMedia(m, k) && !Before(k, s.base.value) && p < |ObjectAt(m, k).data| && Below(s.horizon, k, p)
        ensures AckedAt(sent, acked + {i}, k, p)
      {
        AckedMore(sent, acked, i, k, p);
      }
    }
  }

  lemma MarkedKeeps(m: Groups, s: State, now: seq<Record>, sent: seq<Shipment>, lost: set<nat>, acked: set<nat>, i: nat)
    requires Sound(m, s, sent, lost, acked) && i < |sent|
    requires var d := sent[i];
             var start := AckedFrom(s.horizon, d);
             MarkedIn(s.records, now, d.key, start, if IsBelow(s.horizon, d) then start else d.End())
    ensures Sound(m, s.(records := now), sent, lost, acked + {i})
  {
    SafeMore(m, s, now, sent, acked, i);
    assert SameWhats(s.records, now);
    assert Ordered(now) && AllHonest(m, now) && Above(s.horizon, now) && AllOwned(now, sent) by {
      WhatsKept(m, s.horizon, s.records, now, sent);
    }
    assert Traced(s.horizon, s.records, sent[i]);
    hide Safe, Ordered, AllHonest, Above, AllOwned, Traced, HasRecord, Gone, Account, SameWhats, Honest, InRange, IsBelow, Distinct;
    forall x | 0 <= x < |sent| ensures Traced(s.horizon, now, sent[x]) {
      TracedSame(s.horizon, s.records, now, sent[x]);
    }
    forall j | 0 <= j < |now| ensures Account(now[j], sent, acked + {i}) {
      AccountMore(s.horizon, s.records, j, now[j], sent, acked, i);
    }
    forall x: nat | x < |sent| && x !in lost ensures Gone(s.horizon, sent[x]) || HasRecord(now, sent[x]) {
      if HasRecord(s.records, sent[x]) {
        HasRecordSame(s.records, now, sent[x]);
      }
    }
  }

  lemma WhatsKept(m: Groups, h: Horizon, records: seq<Record>, now: seq<Record>, sent: seq<Shipment>)
    requires SameWhats(records, now) && Ordered(records) && AllHonest(m, records) && Above(h, records) && AllOwned(records, sent)
    ensures Ordered(now) && AllHonest(m, now) && Above(h, now) && AllOwned(now, sent)
  {
    hide Then, Honest, Below, Owned;
  }

  /** An acknowledgement of anything ever sent, late, repeated or after a loss, is handled
      without running off the records, and keeps the invariant. */
  lemma AckKeeps(m: Groups, s: State, sent: seq<Shipment>, lost: set<nat>, acked: set<nat>, i: nat)
    requires Sound(m, s, sent, lost, acked) && i < |sent|
    ensures HandleAck(s, sent[i]).Some? && Sound(m, HandleAck(s, sent[i]).value, sent, lost, acked + {i})
  {
    assert Traced(s.horizon, s.records, sent[i]);
    MarkedUnfold(s.horizon, s, sent[i]);
    hide Sound, Marked, MarkedIn, ShouldCheck, Collapse;
    MarkedKeeps(m, s, Marked(s, sent[i]).value, sent, lost, acked, i);
    CollapseKeeps(m, s.(records := Marked(s, sent[i]).value), sent, lost, acked + {i});
  }

  // ----- Sending -----

  ghost predicate Fresh(sent: seq<Shipment>, d: Shipment) {
    forall i :: 0 <= i < |sent| ==> Separate(sent[i], d)
  }

  lemma OwnedIsSeparate(r: Shipment, sent: seq<Shipment>, d: Shipment)
    requires Owned(r, sent) && Fresh(sent, d)
    ensures Separate(r, d)
  {
  }

  lemma PlaceSplits(records: seq<Record>, d: Shipment)
    requires Ordered(records)
    ensures forall j :: 0 <= j < Place(records, d.key, d.offset) ==> !Precedes(d.key, d.offset, records[j].what)
  {
    var p := Place(records, d.key, d.offset);
    forall j | 0 <= j < p ensures !Precedes(d.key, d.offset, records[j].what) {
      Order(records, j, p - 1);
    }
  }

  lemma InsertedAt(records: seq<Record>, r: Record, j: nat)
    requires j <= |records|
    ensures var (now, p) := (Inserted(records, r), Place(records, r.what.key, r.what.offset));
            |now| == |records| + 1 && now[j] == if j < p then records[j] else if j == p then r else records[j - 1]
  {
  }

  lemma InsertedOrdered(records: seq<Record>, r: Record)
    requires Ordered(records) && forall j :: 0 <= j < |records| ==> Separate(records[j].what, r.what)
    ensures Ordered(Inserted(records, r))
  {
    var p, now := Place(records, r.what.key, r.what.offset), Inserted(records, r);
    PlaceSplits(records, r.what);
    forall i, j | 0 <= i < j < |now| ensures Then(now[i].what, now[j].what) {
      hide Inserted, Then, Precedes, Separate;
      InsertedAt(records, r, i);
      InsertedAt(records, r, j);
      if i == p {
        SeparateThen(records[j - 1].what, r.what);
      } else if j == p {
        SeparateThen(records[i].what, r.what);
      } else {
        Order(records, if i < p then i else i - 1, if j < p then j else j - 1);
      }
    }
  }

  lemma SeparateThen(d: Shipment, e: Shipment)
    requires Separate(d, e)
    ensures if Precedes(e.key, e.offset, d) then Then(e, d) else Then(d, e)
  {
  }

  ghost predicate Known(sent: seq<Shipment>, ids: set<nat>) {
    forall i :: i in ids ==> i < |sent|
  }

  lemma AckedSame(sent: seq<Shipment>, more: seq<Shipment>, acked: set<nat>, k: Key, p: nat)
    requires Known(sent, acked)
    ensures AckedAt(sent + more, acked, k, p) <==> AckedAt(sent, acked, k, p)
  {
    if AckedAt(sent, acked, k, p) {
      var i: nat :| i < |sent| && i in acked && Covers(sent[i], k, p);
      assert (sent + more)[i] == sent[i];
    }
  }

  lemma FreshIsNotAcked(sent: seq<Shipment>, acked: set<nat>, d: Shipment, p: nat)
    requires Fresh(sent, d) && Covers(d, d.key, p)
    ensures !AckedAt(sent, acked, d.key, p)
  {
    forall i: nat | i < |sent| ensures !Covers(sent[i], d.key, p) {
      assert Separate(sent[i], d);
    }
  }

  lemma SafeGrows(m: Groups, s: State, now: seq<Record>, sent: seq<Shipment>, more: seq<Shipment>, acked: set<nat>)
    requires Safe(m, s, sent, acked) && Known(sent, acked)
    ensures Safe(m, s.(records := now), sent + more, acked)
  {
    hide Placed;
    if s.base.Some? {
      forall k, p: nat | InMedia(m, k) && !Before(k, s.base.value) && p < |ObjectAt(m, k).data| && Below(s.horizon, k, p)
        ensures AckedAt(sent + more, acked, k, p)
      {
        AckedSame(sent, more, acked, k, p);
      }
    }
  }

  lemma AccountGrows(r: Record, sent: seq<Shipment>, more: seq<Shipment>, acked: set<nat>)
    requires Account(r, sent, acked) && Known(sent, acked)
    ensures Account(r, sent + more, acked)
  {
    forall p: nat | Covers(r.what, r.what.key, p) ensures r.isAcked <==> AckedAt(sent + more, acked, r.what.key, p) {
      AckedSame(sent, more, acked, r.what.key, p);
    }
  }

  /** Every record of the one list is in the other. */
  ghost predicate Includes(records: seq<Record>, now: seq<Record>) {
    forall j :: 0 <= j < |records| ==> records[j] in now
  }

  lemma TracedGrows(h: Horizon, records: seq<Record>, now: seq<Record>, d: Shipment)
    requires Includes(records, now) && Traced(h, records, d)
    ensures Traced(h, now, d)
  {
    forall p: nat | Covers(d, d.key, p) ensures Below(h, d.key, p) || HeldAt(now, d, p) {
      if HeldAt(records, d, p) {
        var j :| 0 <= j < |records| && Holds(records[j].what, d, p);
        assert records[j] in now;
        var x :| 0 <= x < |now| && now[x] == records[j];
        assert Holds(now[x].what, d, p);
      }
    }
  }

  lemma HasRecordGrows(records: seq<Record>, now: seq<Record>, d: Shipment)
    requires Includes(records, now) && HasRecord(records, d)
    ensures HasRecord(now, d)
  {
    var j :| 0 <= j < |records| && records[j].what == d;
    assert records[j] in now;
    var x :| 0 <= x < |now| && now[x] == records[j];
    assert now[x].what == d;
  }

  lemma OwnedGrows(r: Shipment, sent: seq<Shipment>, more: seq<Shipment>)
    requires Owned(r, sent)
    ensures Owned(r, sent + more)
  {
    var i :| 0 <= i < |sent| && Inside(r, sent[i]);
    assert (sent + more)[i] == sent[i];
  }

  lemma DistinctGrows(sent: seq<Shipment>, d: Shipment, lost: set<nat>)
    requires Distinct(sent, lost) && Fresh(sent, d)
    ensures Distinct(sent + [d], lost)
  {
    hide Separate;
  }

  lemma InsertedIncludes(records: seq<Record>, r: Record)
    ensures Includes(records, Inserted(records, r)) && r in Inserted(records, r)
    ensures forall x :: x in Inserted(records, r) ==> x == r || x in records
  {
    var p, now := Place(records, r.what.key, r.what.offset), Inserted(records, r);
    forall j | 0 <= j < |records| ensures records[j] in now {
      InsertedAt(records, r, if j < p then j else j + 1);
    }
    InsertedAt(records, r, p);
  }

  lemma NewTraced(h: Horizon, records: seq<Record>, r: Record)
    requires r in records
    ensures Traced(h, records, r.what) && HasRecord(records, r.what)
  {
    var j :| 0 <= j < |records| && records[j] == r;
    assert records[j].what == r.what;
    forall p: nat | Covers(r.what, r.what.key, p) ensures HeldAt(records, r.what, p) {
      assert Holds(records[j].what, r.what, p);
    }
  }

  lemma NewAccount(d: Shipment, sent: seq<Shipment>, acked: set<nat>)
    requires Fresh(sent, d) && Known(sent, acked)
    ensures Account(Record(d, false), sent + [d], acked)
  {
    forall p: nat | Covers(d, d.key, p) ensures !AckedAt(sent + [d], acked, d.key, p) {
      AckedSame(sent, [d], acked, d.key, p);
      FreshIsNotAcked(sent, acked, d, p);
    }
  }

  /** A record that is new, and right. */
  ghost predicate Proper(m: Groups, h: Horizon, r: Record, sent: seq<Shipment>, acked: set<nat>) {
    Honest(m, r.what) && !Below(h, r.what.key, r.what.offset) && Account(r, sent, acked) && Owned(r.what, sent)
  }

  /** Records that were there, and proper ones, are right together. */
  lemma ProperRecords(m: Groups, h: Horizon, records: seq<Record>, now: seq<Record>,
                      sent: seq<Shipment>, more: seq<Shipment>, acked: set<nat>)
    requires AllHonest(m, records) && Above(h, records) && Accounts(records, sent, acked) && AllOwned(records, sent)
    requires Known(sent, acked) && forall r :: r in now ==> r in records || Proper(m, h, r, sent + more, acked)
    ensures AllHonest(m, now) && Above(h, now) && Accounts(now, sent + more, acked) && AllOwned(now, sent + more)
  {
    hide Account, Honest, Owned, Known, Below;
    forall j | 0 <= j < |now| ensures Proper(m, h, now[j], sent + more, acked) {
      assert now[j] in now;
      if now[j] in records {
        var x :| 0 <= x < |records| && records[x] == now[j];
        AccountGrows(records[x], sent, more, acked);
        OwnedGrows(records[x].what, sent, more);
      }
    }
  }

  lemma TracesGrow(h: Horizon, records: seq<Record>, now: seq<Record>, sent: seq<Shipment>, lost: set<nat>, d: Shipment)
    requires AllTraced(h, records, sent) && Current(h, records, sent, lost) && Includes(records, now)
    requires Traced(h, now, d) && HasRecord(now, d)
    ensures AllTraced(h, now, sent + [d]) && Current(h, now, sent + [d], lost)
  {
    hide Traced, HasRecord, Includes, Gone;
    var sent' := sent + [d];
    forall i | 0 <= i < |sent'| ensures Traced(h, now, sent'[i]) {
      if i < |sent| {
        TracedGrows(h, records, now, sent[i]);
      }
    }
    forall i: nat | i < |sent'| && i !in lost ensures Gone(h, sent'[i]) || HasRecord(now, sent'[i]) {
      if i < |sent| && HasRecord(records, sent[i]) {
        HasRecordGrows(records, now, sent[i]);
      }
    }
  }

  lemma CreatedKeeps(m: Groups, s: State, sent: seq<Shipment>, lost: set<nat>, acked: set<nat>, d: Shipment)
    requires Sound(m, s, sent, lost, acked) && Known(sent, acked) && Honest(m, d) && Fresh(sent, d)
    requires !Below(s.horizon, d.key, d.offset)
    ensures Sound(m, s.(records := Inserted(s.records, Record(d, false))), sent + [d], lost, acked)
  {
    hide Safe, Ordered, AllHonest, Above, Accounts, AllTraced, Current, Honest, Distinct, Inserted, Fresh, Includes,
      Separate, Below, Known, Account, Traced, HasRecord, Owned;
    var r := Record(d, false);
    var now := Inserted(s.records, r);
    forall j | 0 <= j < |s.records| ensures Separate(s.records[j].what, d) {
      OwnedIsSeparate(s.records[j].what, sent, d);
    }
    InsertedOrdered(s.records, r);
    InsertedIncludes(s.records, r);
    SafeGrows(m, s, now, sent, [d], acked);
    DistinctGrows(sent, d, lost);
    NewTraced(s.horizon, now, r);
    NewAccount(d, sent, acked);
    NewOwned(sent, d);
    ProperRecords(m, s.horizon, s.records, now, sent, [d], acked);
    TracesGrow(s.horizon, s.records, now, sent, lost, d);
  }

  lemma NewOwned(sent: seq<Shipment>, d: Shipment)
    ensures Owned(d, sent + [d])
  {
    assert Inside(d, (sent + [d])[|sent|]);
  }

  /** A fresh datagram below the horizon belongs to an object below the one the horizon is in. */
  lemma FreshBelow(m: Groups, s: State, sent: seq<Shipment>, acked: set<nat>, d: Shipment)
    requires Safe(m, s, sent, acked) && Honest(m, d) && Fresh(sent, d) && Below(s.horizon, d.key, d.offset)
    ensures Gone(s.horizon, d) && forall p: nat :: Covers(d, d.key, p) ==> Below(s.horizon, d.key, p)
  {
    hide Fresh, AckedAt;
    if d.length > 0 && d.key == At(s.horizon) {
      assert AckedAt(sent, acked, d.key, d.offset);
      FreshIsNotAcked(sent, acked, d, d.offset);
    }
  }

  lemma ForgottenKeeps(m: Groups, s: State, sent: seq<Shipment>, lost: set<nat>, acked: set<nat>, d: Shipment)
    requires Sound(m, s, sent, lost, acked) && Known(sent, acked) && Honest(m, d) && Fresh(sent, d)
    requires Below(s.horizon, d.key, d.offset)
    ensures Sound(m, s, sent + [d], lost, acked)
  {
    var sent' := sent + [d];
    SafeGrows(m, s, s.records, sent, [d], acked);
    DistinctGrows(sent, d, lost);
    FreshBelow(m, s, sent, acked, d);
    assert Traced(s.horizon, s.records, d);
    hide Safe, Ordered, Traced, HasRecord, Account, Honest, Distinct, Fresh, Separate, Below, Owned, Gone, Known;
    forall j | 0 <= j < |s.records| ensures Account(s.records[j], sent', acked) && Owned(s.records[j].what, sent') {
      AccountGrows(s.records[j], sent, [d], acked);
      OwnedGrows(s.records[j].what, sent, [d]);
    }
  }

  /** A fresh datagram never finds a record in its place. */
  lemma SendKeeps(m: Groups, s: State, sent: seq<Shipment>, lost: set<nat>, acked: set<nat>, d: Shipment)
    requires Sound(m, s, sent, lost, acked) && Known(sent, acked) && Honest(m, d) && Fresh(sent, d)
    ensures Init(s, d).1 != Duplicate && Sound(m, Init(s, d).0, sent + [d], lost, acked)
  {
    if Below(s.horizon, d.key, d.offset) {
      ForgottenKeeps(m, s, sent, lost, acked, d);
    } else {
      var i := Find(s.records, d.key, d.offset);
      if i >= 0 {
        assert Owned(s.records[i].what, sent);
        OwnedIsSeparate(s.records[i].what, sent, d);
      }
      CreatedKeeps(m, s, sent, lost, acked, d);
    }
  }

  // ----- Splitting -----

  /** The pieces are adjacent, disjoint, and together exactly d. */
  predicate Partition(d: Shipment, ps: seq<Shipment>)
    decreases |ps|
  {
    if |ps| <= 1 then ps == [d]
    else
      0 < ps[0].length < d.length && ps[0] == Head(d, ps[0].length) && Partition(Tail(d, ps[0].length), ps[1..])
  }

  function AsRecords(ps: seq<Shipment>): (r: seq<Record>)
    ensures |r| == |ps| && forall i :: 0 <= i < |ps| ==> r[i] == Record(ps[i], false)
  {
    seq(|ps|, i requires 0 <= i < |ps| => Record(ps[i], false))
  }

  /** The records with number i replaced by others. */
  function Spliced(records: seq<Record>, i: nat, now: seq<Record>): seq<Record>
    requires i < |records|
  {
    records[..i] + now + records[i + 1..]
  }

  lemma SplitOnce(s: State, i: nat, n: nat)
    requires Ordered(s.records) && Above(s.horizon, s.records) && i < |s.records|
    requires var r := s.records[i]; !r.isAcked && 0 < n < r.what.length
    ensures var d := s.records[i].what;
            var (s1, outcome) := Init(s, Tail(d, n));
            var now := Spliced(s.records, i, [Record(Head(d, n), false), Record(Tail(d, n), false)]);
            outcome == Created && s1 == s.(records := s1.records) && Shortened(s1.records, d, n) == now
  {
    var d := s.records[i].what;
    var rest := Tail(d, n);
    assert !Below(s.horizon, d.key, d.offset);
    forall j | 0 <= j < |s.records| ensures Precedes(rest.key, rest.offset, s.records[j].what) <==> j > i {
      Order(s.records, i, j);
    }
    forall j | 0 <= j < |s.records| ensures s.records[j].what.key != rest.key || s.records[j].what.offset != rest.offset {
      Order(s.records, i, j);
    }
    var p := Place(s.records, rest.key, rest.offset);
    assert p == i + 1;
    var s1 := Inserted(s.records, Record(rest, false));
    assert s1 == s.records[..i + 1] + [Record(rest, false)] + s.records[i + 1..];
    forall j | 0 <= j < |s1| && j != i ensures s1[j].what.key != d.key || s1[j].what.offset != d.offset {
      if j != i + 1 {
        Order(s.records, i, if j < i then j else j - 1);
      }
    }
    FindOnly(s1, i);
  }

  lemma FindOnly(records: seq<Record>, i: nat)
    requires i < |records|
    requires forall j :: 0 <= j < |records| && j != i ==>
               records[j].what.key != records[i].what.key || records[j].what.offset != records[i].what.offset
    ensures Find(records, records[i].what.key, records[i].what.offset) == i
  {
  }

  lemma SplicedAt(records: seq<Record>, i: nat, now: seq<Record>, j: nat)
    requires i < |records| && j < |Spliced(records, i, now)|
    ensures |Spliced(records, i, now)| == |records| - 1 + |now|
    ensures Spliced(records, i, now)[j] ==
            if j < i then records[j] else if j < i + |now| then now[j - i] else records[j - |now| + 1]
  {
  }

  /** Two adjacent halves in the place of a record keep the order. */
  lemma HalvesOrdered(h: Horizon, records: seq<Record>, i: nat, n: nat)
    requires Ordered(records) && Above(h, records) && i < |records| && 0 < n < records[i].what.length
    ensures var d := records[i].what;
            var now := Spliced(records, i, [Record(Head(d, n), false), Record(Tail(d, n), false)]);
            Ordered(now) && Above(h, now)
  {
    var d := records[i].what;
    var halves := [Record(Head(d, n), false), Record(Tail(d, n), false)];
    var now := Spliced(records, i, halves);
    SplicedAt(records, i, halves, 0);
    assert !Below(h, d.key, d.offset);
    forall x | 0 <= x < |now| ensures !Below(h, now[x].what.key, now[x].what.offset) {
      hide Spliced;
      SplicedAt(records, i, halves, x);
    }
    forall x, y | 0 <= x < y < |now| ensures Then(now[x].what, now[y].what) {
      hide Spliced, Ordered, Above;
      SplicedAt(records, i, halves, x);
      SplicedAt(records, i, halves, y);
      var (x', y') := (Came(x, i), Came(y, i));
      Order(records, x', y');
    }
  }

  /** Where record x of a list came from, when record i was split in two. */
  function Came(x: nat, i: nat): nat {
    if x <= i then x else x - 1
  }

  lemma SplicedTwice(records: seq<Record>, i: nat, a: Record, b: Record, now: seq<Record>)
    requires i < |records|
    ensures var two := Spliced(records, i, [a, b]);
            |two| == |records| + 1 && two[i + 1] == b && Spliced(two, i + 1, now) == Spliced(records, i, [a] + now)
  {
  }

  ghost predicate Fits(limits: Limits, ps: seq<Shipment>) {
    forall x :: 0 <= x < |ps| ==> limits.header(ps[x]) + ps[x].length <= limits.longest
  }

  /** Every piece but the last takes all the room there is. */
  ghost predicate Fills(limits: Limits, ps: seq<Shipment>) {
    forall x :: 0 <= x < |ps| - 1 ==> limits.header(ps[x]) + ps[x].length == limits.longest
  }

  /** Only the length of a shipment may differ for its header to have the same size. */
  ghost predicate Regular(limits: Limits) {
    Roomy(limits) && forall d, n :: limits.header(Head(d, n)) == limits.header(d)
  }

  /** A head that takes all the room, before pieces of the rest. */
  lemma PiecesMore(d: Shipment, n: nat, queued: seq<Shipment>, limits: Limits)
    requires 0 < n < d.length && Regular(limits) && limits.header(d) + n == limits.longest
    requires Partition(Tail(d, n), queued) && Fits(limits, queued) && Fills(limits, queued)
    ensures var all := [Head(d, n)] + queued; Partition(d, all) && Fits(limits, all) && Fills(limits, all)
    ensures AsRecords([Head(d, n)] + queued) == [Record(Head(d, n), false)] + AsRecords(queued)
  {
    var all := [Head(d, n)] + queued;
    assert all[1..] == queued;
    forall x | 0 <= x < |all| - 1 ensures limits.header(all[x]) + all[x].length == limits.longest {
      assert x > 0 ==> all[x] == queued[x - 1];
    }
  }

  /** Repeating a lost record: the pieces are adjacent, disjoint, and together exactly the
      record; each fits with its header into the longest datagram that can be queued, and all but
      the last fill it; and they take the place of the record. */
  lemma {:induction false} RepeatSplits(s: State, i: nat, limits: Limits)
    requires Ordered(s.records) && Above(s.horizon, s.records) && i < |s.records| && !s.records[i].isAcked
    requires Regular(limits) && (s.records[i].what.length > 0 || s.records[i].what.flags == 255)
    ensures var d := s.records[i].what;
            var (s', queued, ok) := Repeat(s, i, d.length, limits);
            && ok && Partition(d, queued) && Fits(limits, queued) && Fills(limits, queued)
            && s' == s.(records := Spliced(s.records, i, AsRecords(queued)))
    decreases s.records[i].what.length
  {
    hide Repeat, Ordered, Above, Spliced, Init, Shortened;
    var d := s.records[i].what;
    var n := Portion(limits, d, d.length);
    RepeatUnfold(s, i, d.length, limits);
    if n == d.length {
      assert Head(d, n) == d;
      assert AsRecords([d]) == [s.records[i]];
      SplicedSame(s.records, i);
    } else {
      var (a, b) := (Record(Head(d, n), false), Record(Tail(d, n), false));
      SplitOnce(s, i, n);
      HalvesOrdered(s.horizon, s.records, i, n);
      var s2 := s.(records := Spliced(s.records, i, [a, b]));
      SplicedTwice(s.records, i, a, b, []);
      FindIs(s2.records, i + 1);
      RepeatSplits(s2, i + 1, limits);
      var queued := Repeat(s2, i + 1, d.length - n, limits).1;
      SplicedTwice(s.records, i, a, b, AsRecords(queued));
      hide Partition, Fits, Fills, AsRecords;
      PiecesMore(d, n, queued, limits);
    }
  }

  lemma SplicedSame(records: seq<Record>, i: nat)
    requires i < |records|
    ensures Spliced(records, i, [records[i]]) == records
  {
  }

  // ----- Loss -----

  lemma {:induction false} PieceInside(d: Shipment, ps: seq<Shipment>, x: nat)
    requires Partition(d, ps) && x < |ps|
    ensures Inside(ps[x], d) && ps[x] == Shipment(d.key, ps[x].offset, d.flags, d.previousSize, ps[x].length, d.objectLength)
    decreases |ps|
  {
    if |ps| > 1 && x > 0 {
      PieceInside(Tail(d, ps[0].length), ps[1..], x - 1);
    }
  }

  lemma {:induction false} PieceHolds(d: Shipment, ps: seq<Shipment>, p: nat) returns (x: nat)
    requires Partition(d, ps) && Covers(d, d.key, p)
    ensures x < |ps| && Covers(ps[x], d.key, p)
    decreases |ps|
  {
    if |ps| <= 1 || p < ps[0].End() {
      x := 0;
    } else {
      var y := PieceHolds(Tail(d, ps[0].length), ps[1..], p);
      x := y + 1;
    }
  }

  lemma {:induction false} PiecesSeparate(d: Shipment, ps: seq<Shipment>, x: nat, y: nat)
    requires Partition(d, ps) && x < y < |ps|
    ensures Then(ps[x], ps[y])
    decreases |ps|
  {
    if x > 0 {
      PiecesSeparate(Tail(d, ps[0].length), ps[1..], x - 1, y - 1);
    } else {
      PieceInside(Tail(d, ps[0].length), ps[1..], y - 1);
    }
  }

  lemma InsideSeparate(p: Shipment, d: Shipment, e: Shipment)
    requires Inside(p, d) && Separate(d, e)
    ensures Separate(p, e)
  {
  }

  lemma InsideThen(p: Shipment, d: Shipment, e: Shipment)
    requires Inside(p, d)
    ensures Then(d, e) ==> Then(p, e)
    ensures Then(e, d) ==> Then(e, p)
  {
  }

  lemma InsideInside(p: Shipment, d: Shipment, e: Shipment)
    requires Inside(p, d) && Inside(d, e)
    ensures Inside(p, e)
  {
  }

  lemma PiecesOrdered(records: seq<Record>, i: nat, ps: seq<Shipment>)
    requires Ordered(records) && i < |records| && Partition(records[i].what, ps)
    ensures Ordered(Spliced(records, i, AsRecords(ps)))
  {
    var (d, rs) := (records[i].what, AsRecords(ps));
    var now := Spliced(records, i, rs);
    forall x, y | 0 <= x < y < |now| ensures Then(now[x].what, now[y].what) {
      hide Spliced, Ordered, Partition, Then, Inside;
      SplicedAt(records, i, rs, x);
      SplicedAt(records, i, rs, y);
      if i <= x < i + |ps| {
        PieceInside(d, ps, x - i);
        if y < i + |ps| {
          PiecesSeparate(d, ps, x - i, y - i);
        } else {
          Order(records, i, y - |ps| + 1);
          InsideThen(ps[x - i], d, now[y].what);
        }
      } else if i <= y < i + |ps| {
        PieceInside(d, ps, y - i);
        Order(records, x, i);
        InsideThen(ps[y - i], d, now[x].what);
      } else {
        Order(records, if x < i then x else x - |ps| + 1, if y < i then y else y - |ps| + 1);
      }
    }
  }

  lemma PieceAccount(r: Record, p: Shipment, sent: seq<Shipment>, acked: set<nat>)
    requires Account(r, sent, acked) && !r.isAcked && Inside(p, r.what)
    ensures Account(Record(p, false), sent, acked)
  {
    forall x: nat | Covers(p, p.key, x) ensures !AckedAt(sent, acked, p.key, x) {
      assert Covers(r.what, r.what.key, x);
    }
  }

  lemma PieceProper(m: Groups, h: Horizon, records: seq<Record>, i: nat, ps: seq<Shipment>, x: nat,
                    sent: seq<Shipment>, acked: set<nat>)
    requires AllHonest(m, records) && Above(h, records) && Accounts(records, sent, acked) && Known(sent, acked)
    requires i < |records| && !records[i].isAcked && Partition(records[i].what, ps) && x < |ps|
    ensures Proper(m, h, Record(ps[x], false), sent + ps, acked)
  {
    var d := records[i].what;
    PieceInside(d, ps, x);
    assert Honest(m, d) && !Below(h, d.key, d.offset) && Account(records[i], sent, acked);
    assert Inside(ps[x], (sent + ps)[|sent| + x]);
    hide Partition, AllHonest, Above, Accounts, AckedAt, Account;
    PieceAccount(records[i], ps[x], sent, acked);
    AccountGrows(Record(ps[x], false), sent, ps, acked);
  }

  lemma SplicedMembers(records: seq<Record>, i: nat, ps: seq<Shipment>)
    requires i < |records|
    ensures var now := Spliced(records, i, AsRecords(ps));
            && (forall j :: 0 <= j < |records| && j != i ==> records[j] in now)
            && (forall x :: 0 <= x < |ps| ==> Record(ps[x], false) in now)
            && (forall r :: r in now ==> r in records || exists x :: 0 <= x < |ps| && r == Record(ps[x], false))
  {
    var (rs, now) := (AsRecords(ps), Spliced(records, i, AsRecords(ps)));
    forall j | 0 <= j < |records| && j != i ensures records[j] in now {
      SplicedAt(records, i, rs, if j < i then j else j + |ps| - 1);
    }
    forall x | 0 <= x < |ps| ensures Record(ps[x], false) in now {
      SplicedAt(records, i, rs, i + x);
      assert rs[x] == Record(ps[x], false);
    }
  }

  lemma TracedSplit(h: Horizon, records: seq<Record>, i: nat, ps: seq<Shipment>, d: Shipment)
    requires i < |records| && Partition(records[i].what, ps) && Traced(h, records, d)
    ensures Traced(h, Spliced(records, i, AsRecords(ps)), d)
  {
    var now := Spliced(records, i, AsRecords(ps));
    SplicedMembers(records, i, ps);
    forall p: nat | Covers(d, d.key, p) ensures Below(h, d.key, p) || HeldAt(now, d, p) {
      if HeldAt(records, d, p) {
        var j :| 0 <= j < |records| && Holds(records[j].what, d, p);
        if j != i {
          HeldByMember(now, records[j], d, p);
        } else {
          var x := PieceHolds(records[i].what, ps, p);
          PieceInside(records[i].what, ps, x);
          InsideInside(ps[x], records[i].what, d);
          HeldByMember(now, Record(ps[x], false), d, p);
        }
      }
    }
  }

  lemma HeldByMember(records: seq<Record>, r: Record, d: Shipment, p: nat)
    requires r in records && Holds(r.what, d, p)
    ensures HeldAt(records, d, p)
  {
    var j :| 0 <= j < |records| && records[j] == r;
    assert Holds(records[j].what, d, p);
  }

  lemma TracesSplit(h: Horizon, records: seq<Record>, i: nat, ps: seq<Shipment>, sent: seq<Shipment>)
    requires i < |records| && Partition(records[i].what, ps) && AllTraced(h, records, sent)
    ensures AllTraced(h, Spliced(records, i, AsRecords(ps)), sent + ps)
  {
    var now := Spliced(records, i, AsRecords(ps));
    SplicedMembers(records, i, ps);
    forall x | 0 <= x < |sent + ps| ensures Traced(h, now, (sent + ps)[x]) {
      if x < |sent| {
        TracedSplit(h, records, i, ps, sent[x]);
      } else {
        NewTraced(h, now, Record(ps[x - |sent|], false));
      }
    }
  }

  lemma CurrentSplit(h: Horizon, records: seq<Record>, i: nat, ps: seq<Shipment>, sent: seq<Shipment>, lost: set<nat>, d: nat)
    requires i < |records| && d < |sent| && d !in lost && records[i].what == sent[d]
    requires Current(h, records, sent, lost) && Distinct(sent, lost)
    ensures Current(h, Spliced(records, i, AsRecords(ps)), sent + ps, lost + {d})
  {
    var (now, sent') := (Spliced(records, i, AsRecords(ps)), sent + ps);
    SplicedMembers(records, i, ps);
    hide Spliced, Gone, Separate;
    forall x: nat | x < |sent'| && x !in lost + {d} ensures Gone(h, sent'[x]) || HasRecord(now, sent'[x]) {
      if x >= |sent| {
        NewTraced(h, now, Record(ps[x - |sent|], false));
      } else if HasRecord(records, sent[x]) {
        var j :| 0 <= j < |records| && records[j].what == sent[x];
        assert x < d ==> Separate(sent[x], sent[d]);
        assert d < x ==> Separate(sent[d], sent[x]);
        assert j != i by { NotSame(records[j].what, sent[x], sent[d]); }
        HasRecordMember(now, records[j], sent[x]);
      }
    }
  }

  lemma NotSame(r: Shipment, d: Shipment, e: Shipment)
    requires Separate(d, e) || Separate(e, d)
    requires r == d
    ensures r != e
  {
  }

  lemma HasRecordMember(records: seq<Record>, r: Record, d: Shipment)
    requires r in records && r.what == d
    ensures HasRecord(records, d)
  {
    var j :| 0 <= j < |records| && records[j] == r;
    assert records[j].what == d;
  }

  lemma DistinctSplit(sent: seq<Shipment>, lost: set<nat>, d: nat, ps: seq<Shipment>, e: Shipment)
    requires d < |sent| && d !in lost && Distinct(sent, lost) && Partition(e, ps) && e == sent[d]
    ensures Distinct(sent + ps, lost + {d})
  {
    var sent' := sent + ps;
    forall x: nat, y: nat | x < y < |sent'| && x !in lost + {d} && y !in lost + {d} ensures Separate(sent'[x], sent'[y]) {
      if y >= |sent| {
        PieceInside(e, ps, y - |sent|);
        if x >= |sent| {
          PiecesSeparate(e, ps, x - |sent|, y - |sent|);
        } else {
          assert x < d ==> Separate(sent[x], sent[d]);
          assert d < x ==> Separate(sent[d], sent[x]);
        }
      }
    }
  }

  lemma SplitKeeps(m: Groups, s: State, sent: seq<Shipment>, lost: set<nat>, acked: set<nat>, i: nat, ps: seq<Shipment>, d: nat)
    requires Sound(m, s, sent, lost, acked) && Known(sent, acked) && i < |s.records| && !s.records[i].isAcked
    requires Partition(s.records[i].what, ps) && d < |sent| && d !in lost && s.records[i].what == sent[d]
    ensures Sound(m, s.(records := Spliced(s.records, i, AsRecords(ps))), sent + ps, lost + {d}, acked)
  {
    hide Safe, Ordered, AllHonest, Above, Accounts, AllTraced, AllOwned, Current, Distinct, Spliced, Partition, Known,
      Proper;
    var now := Spliced(s.records, i, AsRecords(ps));
    PiecesOrdered(s.records, i, ps);
    SplicedMembers(s.records, i, ps);
    forall x | 0 <= x < |ps| ensures Proper(m, s.horizon, Record(ps[x], false), sent + ps, acked) {
      PieceProper(m, s.horizon, s.records, i, ps, x, sent, acked);
    }
    ProperRecords(m, s.horizon, s.records, now, sent, ps, acked);
    TracesSplit(s.horizon, s.records, i, ps, sent);
    CurrentSplit(s.horizon, s.records, i, ps, sent, lost, d);
    DistinctSplit(sent, lost, d, ps, s.records[i].what);
    SafeGrows(m, s, now, sent, ps, acked);
  }

  lemma LostMore(m: Groups, s: State, sent: seq<Shipment>, lost: set<nat>, acked: set<nat>, d: nat)
    requires Sound(m, s, sent, lost, acked)
    ensures Sound(m, s, sent, lost + {d}, acked)
  {
    hide Safe, Ordered, AllHonest, Above, Accounts, AllTraced, AllOwned, Gone, HasRecord, Separate;
  }

  /** The record that a loss report finds is of the datagram that was lost, label and all. */
  lemma FoundIsSame(m: Groups, s: State, sent: seq<Shipment>, lost: set<nat>, acked: set<nat>, d: nat)
    requires Sound(m, s, sent, lost, acked) && d < |sent| && d !in lost
    ensures var i := Find(s.records, sent[d].key, sent[d].offset);
            if i >= 0 then s.records[i].what == sent[d]
            else Gone(s.horizon, sent[d])
  {
    var i := Find(s.records, sent[d].key, sent[d].offset);
    if i >= 0 {
      assert !Below(s.horizon, s.records[i].what.key, s.records[i].what.offset);
    }
    if HasRecord(s.records, sent[d]) {
      var j :| 0 <= j < |s.records| && s.records[j].what == sent[d];
      FindIs(s.records, j);
    }
  }

  /** A loss report for a datagram not yet reported lost: the split always succeeds. */
  lemma LoseKeeps(m: Groups, s: State, sent: seq<Shipment>, lost: set<nat>, acked: set<nat>, d: nat, limits: Limits)
    requires Sound(m, s, sent, lost, acked) && Known(sent, acked) && d < |sent| && d !in lost && Regular(limits)
    ensures var (s', queued, ok) := HandleLost(s, sent[d], limits);
            ok && Sound(m, s', sent + queued, lost + {d}, acked)
  {
    var i := Find(s.records, sent[d].key, sent[d].offset);
    FoundIsSame(m, s, sent, lost, acked, d);
    assert Ordered(s.records) && Above(s.horizon, s.records);
    hide Sound, Repeat, Ordered, Above, Spliced, Partition, Known;
    LostMore(m, s, sent, lost, acked, d);
    assert sent + [] == sent;
    if i >= 0 && !s.records[i].isAcked {
      if s.records[i].what.length > 0 || s.records[i].what.flags == 255 {
        RepeatSplits(s, i, limits);
        SplitKeeps(m, s, sent, lost, acked, i, Repeat(s, i, sent[d].length, limits).1, d);
      } else {
        RepeatUnfold(s, i, 0, limits);
      }
    }
  }
}
