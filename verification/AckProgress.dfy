/** When records are let go.  Inside a group the horizon takes over every acknowledged record that
    comes next, at once: a front part of group zero that is acknowledged in whatever order leaves no
    record behind.  From one group to the next it goes only together with an acknowledgement at its
    own object, and it never leaves its start when nothing of group zero is sent. */
module AckProgress {
  import opened Media
  import opened AckHorizon
  import opened AckRuns
  import opened AckSafety

  /** d begins where the horizon stands in its object, or at the front of the next object of the
      group behind an object that is done. */
  predicate Meets(h: Horizon, d: Shipment) {
    || (d.key.group == h.group && d.key.id == h.id && d.offset == h.offset)
    || (d.key.group == h.group && d.key.id == h.id + 1 && d.offset == 0 && h.isLast)
  }

  /** d begins the group after that of the horizon, whose last object is done.  The horizon at its
      start stands at the end of a group before group zero. */
  predicate Opens(h: Horizon, d: Shipment) {
    d.key.group == h.group + 1 && d.offset == 0 && d.previousSize == h.id + 1 && h.isLast
  }

  /** The acknowledgement of d reaches the horizon, or the front of the object behind it. */
  predicate AtHorizon(h: Horizon, d: Shipment) {
    || h.group < 0
    || (d.key.group == h.group && d.key.id == h.id && d.offset <= h.offset <= d.End())
    || (d.key.group == h.group && d.key.id == h.id + 1 && d.offset == 0 && h.isLast)
  }

  // ----- One acknowledgement -----

  lemma {:induction false} CollapseStops(s: State)
    ensures var t := Collapse(s);
            t.records != [] && t.records[0].isAcked ==> !Meets(t.horizon, t.records[0].what) && !Opens(t.horizon, t.records[0].what)
    decreases |s.records|
  {
    if s.records != [] && s.records[0].isAcked && JustAfter(s.horizon, s.records[0].what) {
      CollapseStops(CollapseOne(s));
    }
  }

  /** After an acknowledgement at the horizon the first record is not acknowledged, or does not come
      next: neither in the object of the horizon, nor as the next object, nor as the next group. */
  lemma AckClears(s: State, d: Shipment)
    requires s.horizon.group >= -1 && AtHorizon(s.horizon, d) && HandleAck(s, d).Some?
    ensures var t := HandleAck(s, d).value;
            t.records != [] && t.records[0].isAcked ==> !Meets(t.horizon, t.records[0].what) && !Opens(t.horizon, t.records[0].what)
  {
    hide Collapse, Mark, Find;
    if s.horizon.group == -1 || ShouldCheck(s.horizon, d) {
      CollapseStops(s.(records := Marked(s, d).value));
    }
  }

  // ----- Over runs -----

  /** The first record is not acknowledged, or does not come next, but for the front of a group. */
  ghost predicate Settled(s: State) {
    s.records != [] && s.records[0].isAcked ==>
      !Meets(s.horizon, s.records[0].what) && (s.horizon.group < 0 ==> !Opens(s.horizon, s.records[0].what))
  }

  /** The horizon is at the end of something that was sent. */
  ghost predicate EndsASend(h: Horizon, sent: seq<Shipment>) {
    exists i :: 0 <= i < |sent| && EndsIn(h, sent[i])
  }

  predicate IsEndOf(h: Horizon, d: Shipment) {
    d.key.group == h.group && d.key.id == h.id && d.End() == h.offset
  }

  ghost predicate IsEndOfOne(h: Horizon, sent: seq<Shipment>) {
    exists i :: 0 <= i < |sent| && IsEndOf(h, sent[i])
  }

  predicate EndsIn(h: Horizon, d: Shipment) {
    d.key.group == h.group && d.key.id == h.id && d.offset < h.offset <= d.End()
  }

  ghost predicate Grounded(s: State, sent: seq<Shipment>) {
    if s.base.None? then s.horizon == NO_HORIZON
    else s.base.value.group == 0 && HasSent(sent, s.base.value) && EndsASend(s.horizon, sent)
  }

  ghost predicate HasSent(sent: seq<Shipment>, k: Key) {
    exists i :: 0 <= i < |sent| && sent[i].key == k
  }

  lemma EndsMore(h: Horizon, sent: seq<Shipment>, more: seq<Shipment>)
    requires EndsASend(h, sent)
    ensures EndsASend(h, sent + more)
  {
    var i :| 0 <= i < |sent| && EndsIn(h, sent[i]);
    assert (sent + more)[i] == sent[i];
  }

  lemma GroundedMore(s: State, now: seq<Record>, sent: seq<Shipment>, more: seq<Shipment>)
    requires Grounded(s, sent)
    ensures Grounded(s.(records := now), sent + more)
  {
    if s.base.Some? {
      EndsMore(s.horizon, sent, more);
      var i :| 0 <= i < |sent| && sent[i].key == s.base.value;
      assert (sent + more)[i] == sent[i];
    }
  }

  lemma GroundedOne(s: State, sent: seq<Shipment>)
    requires Grounded(s, sent) && s.records != [] && JustAfter(s.horizon, s.records[0].what)
    requires s.records[0].what.length > 0 && Owned(s.records[0].what, sent)
    ensures Grounded(CollapseOne(s), sent)
  {
    var i :| 0 <= i < |sent| && Inside(s.records[0].what, sent[i]);
    assert EndsIn(CollapseOne(s).horizon, sent[i]) && sent[i].key == s.records[0].what.key;
  }

  lemma {:induction false} GroundedCollapse(m: Groups, s: State, sent: seq<Shipment>, lost: set<nat>, acked: set<nat>)
    requires Sound(m, s, sent, lost, acked) && Grounded(s, sent)
    ensures Grounded(Collapse(s), sent)
    decreases |s.records|
  {
    if s.records != [] && s.records[0].isAcked && JustAfter(s.horizon, s.records[0].what) {
      assert Account(s.records[0], sent, acked) && Owned(s.records[0].what, sent);
      hide Sound, JustAfter, Owned, Account;
      GroundedOne(s, sent);
      CollapseOneKeeps(m, s, sent, lost, acked);
      GroundedCollapse(m, CollapseOne(s), sent, lost, acked);
    }
  }

  /** A report that does not reach the horizon marks nothing that comes next. */
  lemma MarkedBeyond(h: Horizon, records: seq<Record>, now: seq<Record>, d: Shipment)
    requires records != [] && !ShouldCheck(h, d) && (h.group == -1 || h.group >= 0)
    requires MarkedIn(records, now, d.key, AckedFrom(h, d), if IsBelow(h, d) then AckedFrom(h, d) else d.End())
    requires now[0].isAcked && !records[0].isAcked
    ensures h.group >= 0 && !Meets(h, now[0].what)
  {
  }

  lemma AckSettles(m: Groups, s: State, sent: seq<Shipment>, lost: set<nat>, acked: set<nat>, i: nat)
    requires Sound(m, s, sent, lost, acked) && i < |sent| && Settled(s) && Grounded(s, sent)
    ensures HandleAck(s, sent[i]).Some? && Settled(HandleAck(s, sent[i]).value) && Grounded(HandleAck(s, sent[i]).value, sent)
  {
    var d := sent[i];
    assert Traced(s.horizon, s.records, d);
    assert s.horizon.group == -1 || s.horizon.group >= 0;
    MarkedUnfold(s.horizon, s, d);
    var now := Marked(s, d).value;
    MarkedKeeps(m, s, now, sent, lost, acked, i);
    assert sent + [] == sent;
    GroundedMore(s, now, sent, []);
    hide Sound, Marked, Grounded, Meets, Opens, IsBelow, AckedFrom, Traced, Collapse;
    if ShouldCheck(s.horizon, d) {
      CollapseStops(s.(records := now));
      GroundedCollapse(m, s.(records := now), sent, lost, acked + {i});
    } else if now != [] && now[0].isAcked && !s.records[0].isAcked {
      MarkedBeyond(s.horizon, s.records, now, d);
    }
  }

  lemma SendSettles(s: State, d: Shipment)
    requires Settled(s)
    ensures Settled(Init(s, d).0)
  {
    hide Meets, Opens;
    InsertedAt(s.records, Record(d, false), 0);
  }

  lemma SplitSettles(s: State, i: nat, ps: seq<Shipment>)
    requires Settled(s) && i < |s.records| && !s.records[i].isAcked && ps != []
    ensures Settled(s.(records := Spliced(s.records, i, AsRecords(ps))))
  {
    hide Meets, Opens;
    SplicedAt(s.records, i, AsRecords(ps), 0);
  }

  lemma LossSettles(m: Groups, w: World, i: nat, limits: Limits)
    requires Invariant(m, w) && i < |w.sent| && i !in w.lost && Regular(limits) && Settled(w.state)
    ensures Settled(HandleLost(w.state, w.sent[i], limits).0)
    ensures var t := HandleLost(w.state, w.sent[i], limits).0; t == w.state.(records := t.records)
  {
    FoundIsSame(m, w.state, w.sent, w.lost, w.acked, i);
    assert Ordered(w.state.records) && Above(w.state.horizon, w.state.records);
    hide Sound, Repeat, Ordered, Above, Fits, Spliced, Partition, Honest, Settled;
    var j := Find(w.state.records, w.sent[i].key, w.sent[i].offset);
    if j >= 0 && !w.state.records[j].isAcked {
      if w.sent[i].length > 0 || w.sent[i].flags == 255 {
        RepeatSplits(w.state, j, limits);
        var ps := Repeat(w.state, j, w.sent[i].length, limits).1;
        PartitionNotEmpty(w.sent[i], ps);
        SplitSettles(w.state, j, ps);
      } else {
        RepeatUnfold(w.state, j, 0, limits);
      }
    }
  }

  lemma InitKeepsHorizon(s: State, d: Shipment)
    ensures Init(s, d).0 == s.(records := Init(s, d).0.records)
  {
  }

  lemma StepSettles(m: Groups, w: World, step: Step)
    requires Invariant(m, w) && Legal(m, w, step) && Settled(w.state) && Grounded(w.state, w.sent)
    ensures Settled(AckSafety.After(w, step).state) && Grounded(AckSafety.After(w, step).state, AckSafety.After(w, step).sent)
  {
    hide Sound, Init, HandleAck, HandleLost, Honest, Fresh, Settled, Grounded;
    match step {
      case Send(d) =>
        SendSettles(w.state, d);
        InitKeepsHorizon(w.state, d);
        GroundedMore(w.state, Init(w.state, d).0.records, w.sent, [d]);
      case Acked(i) => AckSettles(m, w.state, w.sent, w.lost, w.acked, i);
      case Lost(i, limits) =>
        LossSettles(m, w, i, limits);
        var (t, queued, _) := HandleLost(w.state, w.sent[i], limits);
        GroundedMore(w.state, t.records, w.sent, queued);
    }
  }

  /** Over every run: an acknowledged first record never comes next, unless it begins a group; and
      the horizon has left its start only with an object of group zero. */
  lemma {:induction false} RunSettles(m: Groups, steps: seq<Step>)
    requires AllLegal(m, steps)
    ensures Settled(Run(steps).state) && Grounded(Run(steps).state, Run(steps).sent)
  {
    hide Legal, AckSafety.After, Settled, Grounded, Invariant;
    if steps == [] {
      NewIsSettled();
    } else {
      RunKeepsInvariant(m, steps[..|steps| - 1]);
      RunSettles(m, steps[..|steps| - 1]);
      StepSettles(m, Run(steps[..|steps| - 1]), steps[|steps| - 1]);
    }
  }

  lemma NewIsSettled()
    ensures Settled(NEW_WORLD.state) && Grounded(NEW_WORLD.state, NEW_WORLD.sent)
  {
  }

  // ----- A front part of group zero -----

  ghost predicate SentAt(sent: seq<Shipment>, k: Key, p: nat) {
    exists i :: 0 <= i < |sent| && Covers(sent[i], k, p)
  }

  predicate Earlier(k: Key, p: nat, l: Key, q: nat) {
    Before(k, l) || (k == l && p < q)
  }

  /** What was sent is of group zero, none of it is empty, and neither an empty object nor a byte that
      was not sent lies before any of it. */
  ghost predicate FrontOfGroupZero(m: Groups, sent: seq<Shipment>) {
    && (forall i :: 0 <= i < |sent| ==> sent[i].key.group == 0 && sent[i].length > 0)
    && (forall i, k :: 0 <= i < |sent| && InMedia(m, k) && Before(k, sent[i].key) ==> ObjectAt(m, k).data != [])
    && forall i, k, p: nat :: 0 <= i < |sent| && InMedia(m, k) && p < |ObjectAt(m, k).data| && Earlier(k, p, sent[i].key, sent[i].offset) ==>
         SentAt(sent, k, p)
  }

  ghost predicate AllAcked(sent: seq<Shipment>, acked: set<nat>) {
    forall k, p: nat :: SentAt(sent, k, p) ==> AckedAt(sent, acked, k, p)
  }

  /** The first record begins at the first position past the horizon that was sent. */
  lemma FirstBegins(m: Groups, s: State, sent: seq<Shipment>, lost: set<nat>, acked: set<nat>, t: Key, o: nat)
    requires Sound(m, s, sent, lost, acked) && s.records != [] && SentAt(sent, t, o) && !Below(s.horizon, t, o)
    requires var r := s.records[0].what; r.length > 0 && (Before(t, r.key) || (t == r.key && o <= r.offset))
    ensures s.records[0].what.key == t && s.records[0].what.offset == o
  {
    var r := s.records[0].what;
    var i :| 0 <= i < |sent| && Covers(sent[i], t, o);
    assert Traced(s.horizon, s.records, sent[i]);
    var j :| 0 <= j < |s.records| && Holds(s.records[j].what, sent[i], o);
    Order(s.records, 0, j);
  }

  /** A position of group zero before the end of the first record was sent. */
  lemma SentBefore(m: Groups, sent: seq<Shipment>, r: Shipment, t: Key, o: nat)
    requires FrontOfGroupZero(m, sent) && Owned(r, sent) && InMedia(m, t) && o < |ObjectAt(m, t).data|
    requires Before(t, r.key) || (t == r.key && o <= r.offset < r.End())
    ensures SentAt(sent, t, o)
  {
    var i :| 0 <= i < |sent| && Inside(r, sent[i]);
    if !Earlier(t, o, sent[i].key, sent[i].offset) {
      assert Covers(sent[i], t, o);
    }
  }

  /** Where the horizon waits. */
  function Awaited(h: Horizon): (Key, nat)
    requires h.group >= -1 && h.id >= -1 && (h.group >= 0 ==> h.id >= 0 && h.offset >= 0)
  {
    if h.group < 0 then (Key(0, 0), 0) else if h.isLast then (Key(h.group, h.id + 1), 0) else (Key(h.group, h.id), h.offset)
  }

  lemma FirstMeets(m: Groups, s: State, sent: seq<Shipment>, lost: set<nat>, acked: set<nat>)
    requires Sound(m, s, sent, lost, acked) && Grounded(s, sent) && FrontOfGroupZero(m, sent) && s.records != []
    ensures Meets(s.horizon, s.records[0].what) || (s.horizon.group < 0 && Opens(s.horizon, s.records[0].what))
  {
    var (h, r) := (s.horizon, s.records[0].what);
    assert Owned(r, sent) && Honest(m, r) && !Below(h, r.key, r.offset);
    var i :| 0 <= i < |sent| && Inside(r, sent[i]);
    assert r.key.group == 0 && r.length > 0;
    if s.base.Some? {
      var x :| 0 <= x < |sent| && EndsIn(h, sent[x]);
    }
    var (t, o) := Awaited(h);
    AwaitedIsSound(m, s, sent, acked, r, sent[i]);
    SentBefore(m, sent, r, t, o);
    FirstBegins(m, s, sent, lost, acked, t, o);
  }

  lemma AwaitedIsSound(m: Groups, s: State, sent: seq<Shipment>, acked: set<nat>, r: Shipment, d: Shipment)
    requires Safe(m, s, sent, acked) && Grounded(s, sent) && FrontOfGroupZero(m, sent) && d in sent && Inside(r, d)
    requires Honest(m, r) && !Below(s.horizon, r.key, r.offset) && r.key.group == 0 && r.length > 0
    ensures var h := s.horizon;
            && ((h.group == -1 && h.id == -1) || (h.group == 0 && h.id >= 0 && h.offset >= 0))
            && var (t, o) := Awaited(h);
               && InMedia(m, t) && o < |ObjectAt(m, t).data| && !Below(h, t, o)
               && (Before(t, r.key) || (t == r.key && o <= r.offset))
  {
    var h := s.horizon;
    var i :| 0 <= i < |sent| && sent[i] == d;
    if s.base.Some? {
      var x :| 0 <= x < |sent| && EndsIn(h, sent[x]);
    }
  }

  /** Over every run of sending, acknowledging in any order, losing, repeating and splitting: when
      what was sent is a front part of group zero and all of it was acknowledged, no record is left,
      and the horizon is the end of all that was sent. */
  lemma AckedFrontIsForgotten(m: Groups, steps: seq<Step>)
    requires AllLegal(m, steps) && Run(steps).sent != []
    requires FrontOfGroupZero(m, Run(steps).sent) && AllAcked(Run(steps).sent, Run(steps).acked)
    ensures var (h, sent) := (Run(steps).state.horizon, Run(steps).sent);
            && Run(steps).state.records == []
            && IsEndOfOne(h, sent)
            && forall i :: 0 <= i < |sent| ==> Below(h, sent[i].key, sent[i].End() - 1)
  {
    hide Run, Invariant, Settled, Grounded, FrontOfGroupZero, AllAcked, AllLegal, Below;
    RunKeepsInvariant(m, steps);
    RunSettles(m, steps);
    var w := Run(steps);
    NoneIsLeft(m, w);
    SentIsBelow(m, w);
    EndIsReached(w.state.horizon, w.state, w.sent);
  }

  lemma NoneIsLeft(m: Groups, w: World)
    requires Invariant(m, w) && Settled(w.state) && Grounded(w.state, w.sent)
    requires FrontOfGroupZero(m, w.sent) && AllAcked(w.sent, w.acked)
    ensures w.state.records == []
  {
    if w.state.records != [] {
      FirstIsAcked(m, w);
      hide Sound, Grounded, FrontOfGroupZero, Meets, Opens;
      FirstMeets(m, w.state, w.sent, w.lost, w.acked);
    }
  }

  lemma FirstIsAcked(m: Groups, w: World)
    requires Invariant(m, w) && w.state.records != [] && FrontOfGroupZero(m, w.sent) && AllAcked(w.sent, w.acked)
    ensures w.state.records[0].isAcked
  {
    hide AckedAt;
    var r := w.state.records[0];
    assert Owned(r.what, w.sent) && Account(r, w.sent, w.acked);
    var i :| 0 <= i < |w.sent| && Inside(r.what, w.sent[i]);
    assert w.sent[i].length > 0 && Covers(w.sent[i], r.what.key, r.what.offset);
    assert SentAt(w.sent, r.what.key, r.what.offset) && Covers(r.what, r.what.key, r.what.offset);
  }

  lemma SentIsBelow(m: Groups, w: World)
    requires Invariant(m, w) && w.state.records == [] && FrontOfGroupZero(m, w.sent)
    ensures forall i :: 0 <= i < |w.sent| ==> Below(w.state.horizon, w.sent[i].key, w.sent[i].End() - 1)
  {
    forall i | 0 <= i < |w.sent| ensures Below(w.state.horizon, w.sent[i].key, w.sent[i].End() - 1) {
      assert Traced(w.state.horizon, w.state.records, w.sent[i]);
      assert Covers(w.sent[i], w.sent[i].key, w.sent[i].End() - 1);
    }
  }

  lemma EndIsReached(h: Horizon, s: State, sent: seq<Shipment>)
    requires Grounded(s, sent) && h == s.horizon && sent != []
    requires forall i :: 0 <= i < |sent| ==> Below(h, sent[i].key, sent[i].End() - 1)
    ensures IsEndOfOne(h, sent)
  {
    assert Below(h, sent[0].key, sent[0].End() - 1);
    var i :| 0 <= i < |sent| && EndsIn(h, sent[i]);
    assert Below(h, sent[i].key, sent[i].End() - 1);
    assert IsEndOf(h, sent[i]);
  }

  // ----- From one group to the next -----

  lemma {:induction false} CollapseAdvances(s: State)
    ensures Collapse(s).horizon.group >= s.horizon.group
    decreases |s.records|
  {
    if s.records != [] && s.records[0].isAcked && JustAfter(s.horizon, s.records[0].what) {
      CollapseAdvances(CollapseOne(s));
    }
  }

  /** When the record that begins the next group is acknowledged and waits, an acknowledgement takes
      the horizon there if and only if it is of the very object whose end the horizon stands at, and
      reaches it once more.  No acknowledgement of a later datagram does. */
  lemma GroupIsLeftIff(m: Groups, steps: seq<Step>, i: nat)
    requires AllLegal(m, steps) && i < |Run(steps).sent|
    requires var s := Run(steps).state; s.records != [] && s.records[0].isAcked && s.horizon.group >= 0 && Opens(s.horizon, s.records[0].what)
    ensures var (s, d) := (Run(steps).state, Run(steps).sent[i]);
            && HandleAck(s, d).Some?
            && (HandleAck(s, d).value.horizon != s.horizon <==>
                d.key.group == s.horizon.group && d.key.id == s.horizon.id && d.offset <= s.horizon.offset <= d.End())
  {
    RunKeepsInvariant(m, steps);
    var w := Run(steps);
    var (s, d) := (w.state, w.sent[i]);
    hide Run;
    assert Traced(s.horizon, s.records, d) && Honest(m, d) && Honest(m, s.records[0].what);
    MarkedUnfold(s.horizon, s, d);
    var now := Marked(s, d).value;
    assert now[0] == s.records[0];
    hide Sound, Marked, MarkedIn, Traced;
    NotTheNext(m, s.horizon, s.records[0].what, d);
    if ShouldCheck(s.horizon, d) {
      var t := s.(records := now);
      assert Collapse(t) == Collapse(CollapseOne(t));
      CollapseAdvances(CollapseOne(t));
    }
  }

  /** At the end of a group there is no next object of the group. */
  lemma NotTheNext(m: Groups, h: Horizon, r: Shipment, d: Shipment)
    requires Honest(m, r) && Honest(m, d) && h.group >= 0 && Opens(h, r) && h.id >= 0
    ensures !(d.key.group == h.group && d.key.id == h.id + 1)
  {
  }

  /** Of a media that begins behind group zero nothing is ever let go: every byte that was sent stays
      in a record, acknowledged or not. */
  lemma LaterGroupsStay(m: Groups, steps: seq<Step>, i: nat, p: nat)
    requires AllLegal(m, steps) && i < |Run(steps).sent| && forall j :: 0 <= j < |Run(steps).sent| ==> Run(steps).sent[j].key.group > 0
    requires Covers(Run(steps).sent[i], Run(steps).sent[i].key, p)
    ensures var (s, d) := (Run(steps).state, Run(steps).sent[i]);
            s.horizon == NO_HORIZON && exists j :: 0 <= j < |s.records| && Covers(s.records[j].what, d.key, p)
  {
    RunKeepsInvariant(m, steps);
    RunSettles(m, steps);
    var (s, d) := (Run(steps).state, Run(steps).sent[i]);
    hide Run;
    assert Traced(s.horizon, s.records, d);
    var j :| 0 <= j < |s.records| && Holds(s.records[j].what, d, p);
  }

  // ----- The smallest run that stops at a group -----

  const LAST := Shipment(Key(0, 0), 0, 0, 0, 1, 1)
  const FIRST := Shipment(Key(1, 0), 0, 0, 1, 1, 1)
  const BOTH_SENT := World(State(NO_HORIZON, [Record(LAST, false), Record(FIRST, false)], None), [LAST, FIRST], {}, {}, false)
  const LAST_ACKED := State(Horizon(0, 0, 1, true), [Record(FIRST, false)], Some(Key(0, 0)))
  const FIRST_WAITS := State(Horizon(0, 0, 1, true), [Record(FIRST, true)], Some(Key(0, 0)))

  lemma BothAreSent()
    ensures AckSafety.After(AckSafety.After(NEW_WORLD, Send(LAST)), Send(FIRST)) == BOTH_SENT
  {
    var one := [Record(LAST, false)];
    assert Inserted([], Record(LAST, false)) == one && [] + [LAST] == [LAST];
    assert one[..0] == [];
    assert Place(one, FIRST.key, 0) == 1 && Find(one, FIRST.key, 0) == -1;
    assert Inserted(one, Record(FIRST, false)) == one + [Record(FIRST, false)] == BOTH_SENT.state.records;
    assert [LAST] + [FIRST] == [LAST, FIRST];
  }

  lemma FirstOfTwo(a: Shipment, b: Shipment)
    requires a.key != b.key && a.length > 0
    ensures var two := [Record(a, false), Record(b, false)];
            && Find(two, a.key, a.offset) == 0
            && Mark(two, 0, a.offset, a.length) == Some([Record(a, true), Record(b, false)])
  {
    var two := [Record(a, false), Record(b, false)];
    assert two[..1] == [Record(a, false)] && two[..1][..0] == [];
    assert two[0 := Record(a, true)] == [Record(a, true), Record(b, false)];
  }

  lemma LastIsAcked()
    ensures HandleAck(BOTH_SENT.state, LAST) == Some(LAST_ACKED)
  {
    FirstOfTwo(LAST, FIRST);
    hide Find, Mark, Collapse;
    var marked := [Record(LAST, true), Record(FIRST, false)];
    assert marked[1..] == [Record(FIRST, false)];
    CollapseOnce(BOTH_SENT.state.(records := marked), LAST_ACKED);
  }

  lemma CollapseOnce(s: State, now: State)
    requires s.records != [] && s.records[0].isAcked && JustAfter(s.horizon, s.records[0].what) && CollapseOne(s) == now
    requires now.records == [] || !now.records[0].isAcked
    ensures Collapse(s) == now
  {
    hide JustAfter, CollapseOne;
    assert Collapse(now) == now;
  }

  lemma FirstIsMarked()
    ensures HandleAck(LAST_ACKED, FIRST) == Some(FIRST_WAITS)
  {
    var one := LAST_ACKED.records;
    assert one[..0] == [] && Find(one, FIRST.key, 0) == 0;
    assert one[0 := Record(FIRST, true)] == FIRST_WAITS.records;
    assert Marked(LAST_ACKED, FIRST) == Some(FIRST_WAITS.records);
  }

  /** In order: the record of the second group is acknowledged, comes next, and stays. */
  lemma GroupEndHolds()
    ensures AckSafety.After(AckSafety.After(NEW_WORLD, Send(LAST)), Send(FIRST)) == BOTH_SENT
    ensures HandleAck(BOTH_SENT.state, LAST) == Some(LAST_ACKED) && HandleAck(LAST_ACKED, FIRST) == Some(FIRST_WAITS)
    ensures FIRST_WAITS.records[0].isAcked && Opens(FIRST_WAITS.horizon, FIRST_WAITS.records[0].what)
  {
    BothAreSent();
    LastIsAcked();
    FirstIsMarked();
    hide HandleAck, AckSafety.After;
  }
}
