/** The reassembly context as a state machine over the meanings of its objects: which
    fragments complete which object, when the consumer is called back, and how the next
    expected identifier moves across group boundaries. */
module Reassembly {
  import opened Media
  import opened PacketList
  import opened Arrivals

  datatype Mode = InSequence | Peek | Repair

  /** One invocation of the ready callback. */
  datatype ReadyCall = ReadyCall(key: Key, flags: Byte, data: seq<Byte>, mode: Mode)

  datatype State = State(objects: map<Key, ObjectState>, next: Key, final: Key, finished: bool)

  const INITIAL := State(map[], Key(0, 0), Key(0, 0), false)

  /** A new entry for an object, as the first fragment describes it. */
  function Fresh(f: Fragment): ObjectState {
    ObjectState(f.objectLength, f.flags, 0, false, map[], None)
  }

  /** Whether the object is the first of the next group, all objects before it being passed. */
  predicate OpensNextGroup(s: State, k: Key, o: ObjectState) {
    k.group == s.next.group + 1 && k.id == 0 && o.previousSize <= s.next.id
  }

  /** The object that update_start_point would submit next, if it is ready. */
  function NextInLine(s: State): Option<Key> {
    var ahead := Key(s.next.group + 1, 0);
    if s.next in s.objects then
      if s.objects[s.next].reassembled.Some? then Some(s.next) else None
    else if ahead in s.objects && s.objects[ahead].reassembled.Some? && s.objects[ahead].previousSize == s.next.id then
      Some(ahead)
    else None
  }

  /** Submit an object as repaired and forget it. */
  function Pass(s: State, k: Key): State {
    s.(objects := s.objects - {k}, next := After(k))
  }

  function RepairCall(k: Key, o: ObjectState): ReadyCall
    requires o.reassembled.Some?
  {
    ReadyCall(k, o.flags, o.reassembled.value, Repair)
  }

  function Put(s: State, k: Key, o: ObjectState): State {
    s.(objects := s.objects[k := o])
  }

  /** The loop of quicrq_reassembly_update_start_point. */
  function Drain(s: State): (State, seq<ReadyCall>)
    decreases |s.objects|
  {
    match NextInLine(s)
    case None => (s, [])
    case Some(k) =>
      var (t, calls) := Drain(Pass(s, k));
      (t, [RepairCall(k, s.objects[k])] + calls)
  }

  function MarkFinished(s: State): State {
    if s.final != Key(0, 0) && s.next.group >= s.final.group && s.next.id >= s.final.id
    then s.(finished := true) else s
  }

  function UpdateStartPoint(s: State): (State, seq<ReadyCall>) {
    var (t, calls) := Drain(s);
    (MarkFinished(t), calls)
  }

  lemma PassPut(s: State, k: Key, o: ObjectState)
    ensures Pass(Put(s, k, o), k) == Pass(s, k)
  {
  }

  lemma PutSame(s: State, k: Key)
    requires k in s.objects
    ensures Put(s, k, s.objects[k]) == s
  {
  }

  /** The state in which the object of a fragment has an entry. */
  function Found(s: State, f: Fragment): State {
    if f.key in s.objects then s else Put(s, f.key, Fresh(f))
  }

  lemma PutFound(s: State, f: Fragment, o: ObjectState)
    ensures Put(Found(s, f), f.key, o) == Put(s, f.key, o)
    ensures f.key in Found(s, f).objects
    ensures Found(s, f).objects[f.key] == if f.key in s.objects then s.objects[f.key] else Fresh(f)
  {
  }

  /** An object that opens the next group moves the expected identifier to itself. */
  function Open(s: State, k: Key): State
    requires k in s.objects
  {
    if OpensNextGroup(s, k, s.objects[k]) then s.(next := k) else s
  }

  /** What quicrq_reassembly_input does once all bytes of an object are there. */
  ghost function Completed(s: State, f: Fragment): (State, seq<ReadyCall>, bool)
    requires f.key in s.objects
  {
    var o := s.objects[f.key];
    var s := Open(s, f.key);
    if o.reassembled.Some? then (s, [], true)
    else if !IsContent(o.bytes, o.length) then (s, [], false)
    else
      var content := Content(o.bytes, o.length);
      if s.next == f.key then
        var (t, calls) := UpdateStartPoint(Pass(s, f.key));
        (t, [ReadyCall(f.key, f.flags, content, InSequence)] + calls, true)
      else
        (Put(s, f.key, o.(reassembled := Some(content))),
         [ReadyCall(f.key, f.flags, content, Peek)], true)
  }

  /** Completed, case by case. */
  lemma CompletedCases(s: State, f: Fragment)
    requires f.key in s.objects
    ensures var (t, o) := (Open(s, f.key), s.objects[f.key]);
            && (o.reassembled.Some? ==> Completed(s, f) == (t, [], true))
            && (o.reassembled.None? && !IsContent(o.bytes, o.length) ==> Completed(s, f) == (t, [], false))
            && (o.reassembled.None? && IsContent(o.bytes, o.length) ==>
                  var content := Content(o.bytes, o.length);
                  if t.next == f.key then
                    Completed(s, f) == (UpdateStartPoint(Pass(t, f.key)).0,
                                        [ReadyCall(f.key, f.flags, content, InSequence)] + UpdateStartPoint(Pass(t, f.key)).1, true)
                  else
                    Completed(s, f) == (Put(t, f.key, o.(reassembled := Some(content))),
                                        [ReadyCall(f.key, f.flags, content, Peek)], true))
    ensures f.key in Open(s, f.key).objects && Open(s, f.key).objects[f.key] == s.objects[f.key]
  {
  }

  /** quicrq_reassembly_input: the new state, the callbacks made, and success. */
  ghost function Input(s: State, f: Fragment): (State, seq<ReadyCall>, bool) {
    if Before(f.key, s.next) then (s, [], true)
    else
      var o := Noted(if f.key in s.objects then s.objects[f.key] else Fresh(f), f);
      if !Acceptable(o, f) then (Put(s, f.key, o), [], false)
      else
        var o := o.(bytes := Merge(o.bytes, f.offset, f.data));
        var s := Put(s, f.key, o);
        if Ready(o) then Completed(s, f) else (s, [], true)
  }

  function LearnStartPoint(s: State, start: Key): (State, seq<ReadyCall>) {
    if Before(s.next, start) then UpdateStartPoint(s.(next := start)) else (s, [])
  }

  function LearnFinal(s: State, final: Key): (State, bool) {
    var ok := s.final == Key(0, 0) || s.final == final;
    var s := if s.final == Key(0, 0) then s.(final := final) else s;
    (if ok && !Before(s.next, final) then s.(finished := true) else s, ok)
  }

  // ----- Runs -----

  ghost function Step(s: State, e: Event): (State, seq<ReadyCall>, bool) {
    match e
    case Arrival(f) => Input(s, f)
    case Start(k) => var (t, calls) := LearnStartPoint(s, k); (t, calls, true)
    case Final(k) => var (t, ok) := LearnFinal(s, k); (t, [], ok)
  }

  /** The state after a list of events and all the callbacks made on the way. */
  ghost function Run(es: seq<Event>): (State, seq<ReadyCall>) {
    if es == [] then (INITIAL, [])
    else
      var (s, calls) := Run(es[..|es| - 1]);
      var (t, more, _) := Step(s, es[|es| - 1]);
      (t, calls + more)
  }

  // ----- The invariant that ties the machine to the reference -----

  ghost function BytesOf(o: MediaObject, positions: set<nat>): map<nat, Byte> {
    map p | p in positions && p < |o.data| :: o.data[p]
  }

  /** The entry for object k says exactly what the arrivals said. */
  ghost predicate Agrees(m: Groups, es: seq<Event>, k: Key, o: ObjectState) {
    && InMedia(m, k)
    && var c := ObjectAt(m, k);
       var covered := Covered(es, k);
       && (forall p :: p in covered ==> p < |c.data|)
       && o.length == |c.data| && o.flags == c.flags
       && o.bytes == BytesOf(c, covered)
       && (o.previousSize != 0 ==> k.id == 0 && o.previousSize == SizeOfPrevious(m, k.group))
       && (k.id == 0 && (c.data == [] || 0 in covered) ==> o.previousSize == SizeOfPrevious(m, k.group))
       && (c.data == [] || |c.data| - 1 in covered ==> o.isLast)
  }

  ghost predicate Matches(m: Groups, es: seq<Event>, k: Key, o: ObjectState) {
    Agrees(m, es, k, o) && o.reassembled == if Arrived(m, es, k) then Some(ObjectAt(m, k).data) else None
  }

  /** The objects at or past the next expected one are those the events mention. */
  ghost predicate Faithful(m: Groups, es: seq<Event>, s: State) {
    && IsCursor(m, s.next)
    && (forall k :: k in s.objects ==> InMedia(m, k))
    && (forall k :: k in s.objects && Rank(m, k) >= Rank(m, s.next) ==> Touched(es, k) && Matches(m, es, k, s.objects[k]))
    && (forall k :: InMedia(m, k) && Touched(es, k) && Rank(m, k) >= Rank(m, s.next) ==> k in s.objects)
  }

  ghost predicate Invariant(m: Groups, es: seq<Event>, s: State) {
    && Faithful(m, es, s)
    && Rank(m, s.next) == Cursor(m, es)
    && s.final == (if FinalSeen(es) then EndOf(m) else Key(0, 0))
    && (s.finished <==> FinalSeen(es) && Cursor(m, es) == Count(m))
  }

  function CallFor(i: Item, mode: Mode): ReadyCall {
    ReadyCall(i.key, i.content.flags, i.content.data, mode)
  }

  ghost function CallsFor(items: seq<Item>, mode: Mode): (r: seq<ReadyCall>)
    ensures |r| == |items|
  {
    seq(|items|, i requires 0 <= i < |items| => CallFor(items[i], mode))
  }

  // ----- Draining -----

  /** An entry that has its content documents where its group begins. */
  lemma ArrivedHasHead(m: Groups, es: seq<Event>, k: Key, o: ObjectState)
    requires Agrees(m, es, k, o) && Arrived(m, es, k)
    ensures k.id == 0 ==> o.previousSize == SizeOfPrevious(m, k.group)
  {
    if ObjectAt(m, k).data != [] {
      assert 0 in Span(0, |ObjectAt(m, k).data|);
    }
  }

  /** next_in_line finds the object at the cursor, under either of its names. */
  lemma NextInLineIsCursor(m: Groups, es: seq<Event>, s: State)
    requires WellFormed(m) && Faithful(m, es, s)
    ensures IsCursor(m, s.next) && Rank(m, s.next) <= Count(m)
    ensures match NextInLine(s)
            case None => Rank(m, s.next) == Count(m) || !ArrivedAt(m, es, Rank(m, s.next))
            case Some(k) => InMedia(m, k) && Rank(m, k) == Rank(m, s.next) && Arrived(m, es, k)
  {
    RankBelowCount(m, s.next);
    Boundary(m, s.next);
    var ahead := Key(s.next.group + 1, 0);
    if s.next in s.objects {
      ArrivedAtRank(m, es, s.next);
    } else if InMedia(m, s.next) {
      ArrivedAtRank(m, es, s.next);
      if ahead in s.objects {
        RankOrders(m, s.next, ahead);
        if s.objects[ahead].reassembled.Some? {
          ArrivedHasHead(m, es, ahead, s.objects[ahead]);
        }
      }
    } else if s.next == EndOf(m) {
      RankOfEnd(m);
    } else {
      ArrivedAtRank(m, es, ahead);
      if ahead in s.objects && s.objects[ahead].reassembled.Some? {
        ArrivedHasHead(m, es, ahead, s.objects[ahead]);
      }
    }
  }

  /** Passing the object at the cursor keeps the machine faithful. */
  lemma PassKeepsFaithful(m: Groups, es: seq<Event>, s: State, k: Key)
    requires Faithful(m, es, s) && InMedia(m, k) && Rank(m, k) == Rank(m, s.next)
    ensures Faithful(m, es, Pass(s, k)) && Rank(m, Pass(s, k).next) == Rank(m, k) + 1
  {
    RankAfter(m, k);
    forall k' | InMedia(m, k') && Rank(m, k') >= Rank(m, k) + 1 ensures k' != k {
    }
  }

  /** The entry at the cursor holds the object of the media that has that rank. */
  lemma NextInLineIsItem(m: Groups, es: seq<Event>, s: State, k: Key)
    requires WellFormed(m) && Faithful(m, es, s) && NextInLine(s) == Some(k)
    ensures InMedia(m, k) && Rank(m, k) == Rank(m, s.next) < Count(m) && ArrivedAt(m, es, Rank(m, k))
    ensures RepairCall(k, s.objects[k]) == CallFor(Items(m)[Rank(m, k)], Repair)
  {
    NextInLineIsCursor(m, es, s);
    ItemsAt(m, k);
    ArrivedAtRank(m, es, k);
    assert Matches(m, es, k, s.objects[k]);
  }

  lemma DropSize(objects: map<Key, ObjectState>, k: Key)
    requires k in objects
    ensures |objects - {k}| < |objects|
  {
    assert (objects - {k}).Keys + {k} == objects.Keys;
  }

  lemma CallsForFirst(items: seq<Item>, i: nat, j: nat, mode: Mode)
    requires i < j <= |items|
    ensures CallsFor(items[i..j], mode) ==
            [CallFor(items[i], mode)] + CallsFor(items[i + 1..j], mode)
  {
  }

  lemma DrainStep(s: State, k: Key)
    requires NextInLine(s) == Some(k)
    ensures k in s.objects && s.objects[k].reassembled.Some?
    ensures Drain(s) == (Drain(Pass(s, k)).0, [RepairCall(k, s.objects[k])] + Drain(Pass(s, k)).1)
    ensures |Pass(s, k).objects| < |s.objects|
    ensures Pass(s, k).final == s.final && Pass(s, k).finished == s.finished
  {
    DropSize(s.objects, k);
  }

  lemma DrainStop(s: State)
    requires NextInLine(s) == None
    ensures Drain(s) == (s, [])
  {
  }

  /** update_start_point submits, in order and once, exactly the objects that are complete
      from the cursor up to the first that is not. */
  lemma {:induction false} DrainAdvances(m: Groups, es: seq<Event>, s: State)
    requires WellFormed(m) && Faithful(m, es, s)
    ensures IsCursor(m, s.next) && Rank(m, s.next) <= Count(m)
    ensures var t := Drain(s).0;
            && Faithful(m, es, t) && IsCursor(m, t.next)
            && Rank(m, t.next) == Advance(m, es, Rank(m, s.next))
            && t.final == s.final && t.finished == s.finished
    ensures Drain(s).1 == CallsFor(Items(m)[Rank(m, s.next)..Rank(m, Drain(s).0.next)], Repair)
    decreases |s.objects|
  {
    hide *;
    NextInLineIsCursor(m, es, s);
    var i := Rank(m, s.next);
    AdvanceStep(m, es, i);
    match NextInLine(s) {
      case None =>
        DrainStop(s);
        assert CallsFor(Items(m)[i..i], Repair) == [];
      case Some(k) =>
        DrainStep(s, k);
        NextInLineIsItem(m, es, s, k);
        PassKeepsFaithful(m, es, s, k);
        DrainAdvances(m, es, Pass(s, k));
        CallsForFirst(Items(m), i, Rank(m, Drain(s).0.next), Repair);
    }
  }

  // ----- One more event -----

  /** The entry an arrival works on, with the fragment's bytes in it. */
  function Extended(s: State, f: Fragment): ObjectState {
    var o := Noted(if f.key in s.objects then s.objects[f.key] else Fresh(f), f);
    o.(bytes := Merge(o.bytes, f.offset, f.data))
  }

  lemma SliceMerges(m: Groups, f: Fragment, covered: set<nat>)
    requires IsSlice(m, f) && forall p :: p in covered ==> p < |ObjectAt(m, f.key).data|
    ensures Merge(BytesOf(ObjectAt(m, f.key), covered), f.offset, f.data) ==
            BytesOf(ObjectAt(m, f.key), covered + Span(f.offset, |f.data|))
  {
  }

  /** A slice is accepted, and its bytes are merged where the reference says they belong. */
  lemma ArrivalAgrees(m: Groups, es: seq<Event>, s: State, f: Fragment)
    requires Faithful(m, es, s) && IsSlice(m, f) && Rank(m, f.key) >= Rank(m, s.next)
    ensures Acceptable(Extended(s, f), f)
    ensures Agrees(m, es + [Arrival(f)], f.key, Extended(s, f))
    ensures Extended(s, f).reassembled == if Arrived(m, es, f.key) then Some(ObjectAt(m, f.key).data) else None
  {
    OnlyItsObject(m, es, Arrival(f), f.key);
    if f.key in s.objects {
      SliceMerges(m, f, Covered(es, f.key));
    } else {
      UntouchedIsUncovered(es, f.key);
      assert BytesOf(ObjectAt(m, f.key), {}) == map[];
      SliceMerges(m, f, {});
      assert {} + Span(f.offset, |f.data|) == Span(f.offset, |f.data|);
    }
  }

  /** The byte count and the mark of the last byte together detect completion exactly. */
  lemma ReadyIsArrived(m: Groups, es: seq<Event>, k: Key, o: ObjectState)
    requires Agrees(m, es, k, o) && Touched(es, k)
    ensures Ready(o) <==> Arrived(m, es, k)
    ensures Arrived(m, es, k) ==> IsContent(o.bytes, o.length) && Content(o.bytes, o.length) == ObjectAt(m, k).data
  {
    var c, covered := ObjectAt(m, k), Covered(es, k);
    assert o.bytes.Keys == covered;
    assert |o.bytes| == |covered|;
    FullSpan(covered, |c.data|);
    if Arrived(m, es, k) && c.data != [] {
      assert |c.data| - 1 in Span(0, |c.data|);
    }
  }

  lemma OpensNextGroupAtBoundary(m: Groups, es: seq<Event>, s: State, k: Key, o: ObjectState)
    requires WellFormed(m) && IsCursor(m, s.next) && Agrees(m, es, k, o) && Arrived(m, es, k)
    requires Rank(m, k) >= Rank(m, s.next)
    ensures OpensNextGroup(s, k, o) <==> k != s.next && Rank(m, k) == Rank(m, s.next)
  {
    ArrivedHasHead(m, es, k, o);
    AtCursor(m, s.next, k);
  }

  lemma MatchesElsewhere(m: Groups, es: seq<Event>, e: Event, k: Key, o: ObjectState)
    requires Matches(m, es, k, o) && !Touches(e, k)
    ensures Matches(m, es + [e], k, o)
  {
    OnlyItsObject(m, es, e, k);
  }

  lemma IgnoredKeepsFaithful(m: Groups, es: seq<Event>, s: State, e: Event)
    requires Faithful(m, es, s)
    requires e.Arrival? ==> InMedia(m, e.fragment.key) && Rank(m, e.fragment.key) < Rank(m, s.next)
    ensures Faithful(m, es + [e], s)
  {
    hide Matches, Touched, Rank;
    forall k | k in s.objects && Rank(m, k) >= Rank(m, s.next)
      ensures Touched(es + [e], k) && Matches(m, es + [e], k, s.objects[k])
    {
      OnlyItsObject(m, es, e, k);
      MatchesElsewhere(m, es, e, k, s.objects[k]);
    }
    forall k | InMedia(m, k) && Touched(es + [e], k) && Rank(m, k) >= Rank(m, s.next) ensures k in s.objects {
      OnlyItsObject(m, es, e, k);
    }
  }

  /** Storing what an arrival says of its object keeps the machine faithful. */
  lemma PutKeepsFaithful(m: Groups, es: seq<Event>, s: State, f: Fragment, o: ObjectState)
    requires Faithful(m, es, s)
    requires InMedia(m, f.key) && Matches(m, es + [Arrival(f)], f.key, o)
    ensures Faithful(m, es + [Arrival(f)], Put(s, f.key, o))
  {
    hide Matches, Touched, Rank;
    var e, t := Arrival(f), Put(s, f.key, o);
    forall k | k in t.objects && Rank(m, k) >= Rank(m, s.next)
      ensures Touched(es + [e], k) && Matches(m, es + [e], k, t.objects[k])
    {
      OnlyItsObject(m, es, e, k);
      if k != f.key {
        MatchesElsewhere(m, es, e, k, s.objects[k]);
      }
    }
    forall k | InMedia(m, k) && Touched(es + [e], k) && Rank(m, k) >= Rank(m, s.next) ensures k in t.objects {
      OnlyItsObject(m, es, e, k);
    }
  }

  // ----- What one arrival does -----

  /** The callbacks an arrival must make: none unless it completes its object; then, at the
      cursor, the object and every complete one after it; past the cursor, a peek. */
  ghost function ArrivalCalls(m: Groups, es: seq<Event>, f: Fragment): seq<ReadyCall>
    requires InMedia(m, f.key)
  {
    var es', r, c := es + [Arrival(f)], Rank(m, f.key), Cursor(m, es);
    var item := Item(f.key, ObjectAt(m, f.key));
    if r < c || Arrived(m, es, f.key) || !Arrived(m, es', f.key) then []
    else if c < r then [CallFor(item, Peek)]
    else
      AdvanceAt(m, es, f);
      [CallFor(item, InSequence)] + CallsFor(Items(m)[c + 1..Cursor(m, es')], Repair)
  }

  lemma MarkedExactly(m: Groups, s: State)
    requires WellFormed(m) && m != [] && IsCursor(m, s.next)
    requires s.final == EndOf(m) || s.final == Key(0, 0)
    ensures var t := MarkFinished(s);
            && t == s.(finished := t.finished)
            && (t.finished <==> s.finished || (s.final == EndOf(m) && Rank(m, s.next) == Count(m)))
  {
    RankCount(m, s.next);
    assert m[|m| - 1] != [];
  }

  /** Input as a choice among what it can do with a fragment of an object not yet passed. */
  lemma InputUnfold(s: State, f: Fragment)
    requires !Before(f.key, s.next) && Acceptable(Extended(s, f), f)
    ensures var o := Extended(s, f);
            Input(s, f) == if Ready(o) then Completed(Put(s, f.key, o), f) else (Put(s, f.key, o), [], true)
  {
  }

  ghost predicate Core(m: Groups, es: seq<Event>, s: State) {
    Faithful(m, es, s) && Rank(m, s.next) == Cursor(m, es)
  }

  lemma LateArrival(m: Groups, es: seq<Event>, s: State, f: Fragment)
    requires WellFormed(m) && Core(m, es, s) && IsSlice(m, f) && Rank(m, f.key) < Cursor(m, es)
    ensures Input(s, f) == (s, [], true) && Core(m, es + [Arrival(f)], s)
    ensures ArrivalCalls(m, es, f) == [] && Cursor(m, es + [Arrival(f)]) == Cursor(m, es)
  {
    AtCursor(m, s.next, f.key);
    IgnoredKeepsFaithful(m, es, s, Arrival(f));
    CursorStays(m, es, Arrival(f));
  }

  lemma PartialArrival(m: Groups, es: seq<Event>, s: State, f: Fragment)
    requires WellFormed(m) && Core(m, es, s) && IsSlice(m, f) && Rank(m, f.key) >= Cursor(m, es)
    requires !Arrived(m, es + [Arrival(f)], f.key)
    ensures Input(s, f) == (Put(s, f.key, Extended(s, f)), [], true)
    ensures Core(m, es + [Arrival(f)], Put(s, f.key, Extended(s, f)))
    ensures ArrivalCalls(m, es, f) == [] && Cursor(m, es + [Arrival(f)]) == Cursor(m, es)
  {
    hide Covered, Extended, Agrees, Ready, Completed, Cursor;
    var es', o := es + [Arrival(f)], Extended(s, f);
    AtCursor(m, s.next, f.key);
    OnlyItsObject(m, es, Arrival(f), f.key);
    ArrivalAgrees(m, es, s, f);
    if Arrived(m, es, f.key) {
      ArrivalsAccumulate(m, es, f);
    }
    ReadyIsArrived(m, es', f.key, o);
    InputUnfold(s, f);
    PutKeepsFaithful(m, es, s, f, o);
    CursorStays(m, es, Arrival(f));
  }

  /** Completed as a choice between delivering now and peeking. */
  lemma CompletedUnfold(s: State, f: Fragment, content: seq<Byte>)
    requires f.key in s.objects && s.objects[f.key].reassembled == None
    requires IsContent(s.objects[f.key].bytes, s.objects[f.key].length)
    requires content == Content(s.objects[f.key].bytes, s.objects[f.key].length)
    ensures s.next == f.key || OpensNextGroup(s, f.key, s.objects[f.key]) ==>
              Completed(s, f) == (MarkFinished(Drain(Pass(s, f.key)).0),
                                  [ReadyCall(f.key, f.flags, content, InSequence)] + Drain(Pass(s, f.key)).1, true)
    ensures s.next != f.key && !OpensNextGroup(s, f.key, s.objects[f.key]) ==>
              Completed(s, f) == (Put(s, f.key, s.objects[f.key].(reassembled := Some(content))),
                                  [ReadyCall(f.key, f.flags, content, Peek)], true)
  {
    assert Pass(s.(next := f.key), f.key) == Pass(s, f.key);
  }

  lemma AgreesShape(m: Groups, es: seq<Event>, k: Key, o: ObjectState)
    requires Agrees(m, es, k, o)
    ensures InMedia(m, k) && o.length == |ObjectAt(m, k).data| && o.flags == ObjectAt(m, k).flags
    ensures Arrived(m, es, k) ==> Matches(m, es, k, o.(reassembled := Some(ObjectAt(m, k).data)))
  {
  }

  /** What the code does with the arrival that completes an object not yet passed. */
  lemma CompletingArrival(m: Groups, es: seq<Event>, s: State, f: Fragment)
    requires WellFormed(m) && Core(m, es, s) && IsSlice(m, f) && Rank(m, f.key) >= Cursor(m, es)
    requires !Arrived(m, es, f.key) && Arrived(m, es + [Arrival(f)], f.key)
    ensures var o := Extended(s, f).(reassembled := Some(ObjectAt(m, f.key).data));
            var t := Put(s, f.key, o);
            && Faithful(m, es + [Arrival(f)], t)
            && Input(s, f) ==
               if Rank(m, f.key) == Cursor(m, es) then
                 (MarkFinished(Drain(Pass(t, f.key)).0),
                  [CallFor(Item(f.key, ObjectAt(m, f.key)), InSequence)] + Drain(Pass(t, f.key)).1, true)
               else (t, [CallFor(Item(f.key, ObjectAt(m, f.key)), Peek)], true)
  {
    hide Covered, Extended, Agrees, Ready, Cursor, Arrived, OpensNextGroup, IsContent, Content, Completed, Drain, Input, Rank, Faithful;
    FaithfulCursor(m, es, s);
    var es', o := es + [Arrival(f)], Extended(s, f);
    var s' := Put(s, f.key, o);
    AtCursor(m, s.next, f.key);
    OnlyItsObject(m, es, Arrival(f), f.key);
    ArrivalAgrees(m, es, s, f);
    ReadyIsArrived(m, es', f.key, o);
    AgreesShape(m, es', f.key, o);
    InputUnfold(s, f);
    OpensNextGroupAtBoundary(m, es', s', f.key, o);
    CompletedUnfold(s', f, ObjectAt(m, f.key).data);
    var o' := o.(reassembled := Some(ObjectAt(m, f.key).data));
    PutKeepsFaithful(m, es, s, f, o');
    assert Put(s', f.key, o') == Put(s, f.key, o');
    assert Pass(Put(s, f.key, o'), f.key) == Pass(s', f.key);
  }

  /** The last missing byte of an object past the cursor. */
  lemma PeekArrival(m: Groups, es: seq<Event>, s: State, f: Fragment)
    requires WellFormed(m) && Core(m, es, s) && IsSlice(m, f) && Rank(m, f.key) > Cursor(m, es)
    requires !Arrived(m, es, f.key) && Arrived(m, es + [Arrival(f)], f.key)
    ensures var (t, calls, ok) := Input(s, f);
            && Core(m, es + [Arrival(f)], t) && calls == ArrivalCalls(m, es, f) && ok
            && t.final == s.final && t.finished == s.finished
    ensures Cursor(m, es + [Arrival(f)]) == Cursor(m, es)
  {
    hide Extended, Cursor, Arrived, Drain, Input, Faithful;
    FaithfulCursor(m, es, s);
    CompletingArrival(m, es, s, f);
    CursorStays(m, es, Arrival(f));
  }

  /** The last missing byte of the object at the cursor. */
  lemma InSequenceArrival(m: Groups, es: seq<Event>, s: State, f: Fragment)
    requires WellFormed(m) && Core(m, es, s) && IsSlice(m, f) && Rank(m, f.key) == Cursor(m, es)
    requires Arrived(m, es + [Arrival(f)], f.key)
    requires s.final == EndOf(m) || s.final == Key(0, 0)
    ensures var (t, calls, ok) := Input(s, f);
            && Core(m, es + [Arrival(f)], t) && calls == ArrivalCalls(m, es, f) && ok
            && t.final == s.final
            && (t.finished <==> s.finished || (s.final == EndOf(m) && Cursor(m, es + [Arrival(f)]) == Count(m)))
  {
    hide Extended, Cursor, Arrived, Drain, Input, Items, Faithful, Rank, MarkFinished, CallsFor;
    var es' := es + [Arrival(f)];
    CursorRests(m, es);
    ArrivedAtRank(m, es, f.key);
    FaithfulCursor(m, es, s);
    CompletingArrival(m, es, s, f);
    var t := Put(s, f.key, Extended(s, f).(reassembled := Some(ObjectAt(m, f.key).data)));
    PassKeepsFaithful(m, es', t, f.key);
    DrainAdvances(m, es', Pass(t, f.key));
    AdvanceAt(m, es, f);
    MarkedExactly(m, Drain(Pass(t, f.key)).0);
    FaithfulIgnoresFinished(m, es', Drain(Pass(t, f.key)).0, true);
  }

  lemma FaithfulIgnoresFinished(m: Groups, es: seq<Event>, s: State, b: bool)
    requires Faithful(m, es, s)
    ensures Faithful(m, es, s.(finished := b))
  {
  }

  lemma FaithfulCursor(m: Groups, es: seq<Event>, s: State)
    requires Faithful(m, es, s)
    ensures IsCursor(m, s.next)
  {
  }

  /** A duplicate of an object that was already peeked at. */
  lemma RepeatedArrival(m: Groups, es: seq<Event>, s: State, f: Fragment)
    requires WellFormed(m) && Core(m, es, s) && IsSlice(m, f) && Rank(m, f.key) >= Cursor(m, es)
    requires Arrived(m, es, f.key)
    ensures Input(s, f) == (Put(s, f.key, Extended(s, f)), [], true)
    ensures Core(m, es + [Arrival(f)], Put(s, f.key, Extended(s, f)))
    ensures ArrivalCalls(m, es, f) == [] && Cursor(m, es + [Arrival(f)]) == Cursor(m, es)
  {
    hide Covered, Extended, Agrees, Ready, Cursor, Arrived, OpensNextGroup;
    var es', o := es + [Arrival(f)], Extended(s, f);
    CursorRests(m, es);
    ArrivedAtRank(m, es, f.key);
    AtCursor(m, s.next, f.key);
    OnlyItsObject(m, es, Arrival(f), f.key);
    ArrivalsAccumulate(m, es, f);
    ArrivalAgrees(m, es, s, f);
    ReadyIsArrived(m, es', f.key, o);
    OpensNextGroupAtBoundary(m, es', s, f.key, o);
    InputUnfold(s, f);
    PutKeepsFaithful(m, es, s, f, o);
    CursorStays(m, es, Arrival(f));
    assert !OpensNextGroup(Put(s, f.key, o), f.key, o) by {
      OpensNextGroupAtBoundary(m, es', Put(s, f.key, o), f.key, o);
    }
  }

  lemma ArrivalStep(m: Groups, es: seq<Event>, s: State, f: Fragment)
    requires WellFormed(m) && Invariant(m, es, s) && IsSlice(m, f)
    ensures var (t, calls, ok) := Input(s, f);
            Invariant(m, es + [Arrival(f)], t) && calls == ArrivalCalls(m, es, f) && ok
  {
    hide Cursor, Arrived, Input, Faithful, Rank, Extended, ArrivalCalls, FinalSeen, Count;
    FinalSeenUnfold(es, Arrival(f));
    FaithfulCursor(m, es, s);
    if Rank(m, f.key) < Cursor(m, es) {
      LateArrival(m, es, s, f);
    } else if !Arrived(m, es + [Arrival(f)], f.key) {
      PartialArrival(m, es, s, f);
    } else if Arrived(m, es, f.key) {
      RepeatedArrival(m, es, s, f);
    } else if Rank(m, f.key) == Cursor(m, es) {
      CursorRests(m, es);
      RankBelowCount(m, f.key);
      InSequenceArrival(m, es, s, f);
    } else {
      PeekArrival(m, es, s, f);
    }
  }

  // ----- What the other events do -----

  lemma CursorOrder(m: Groups, a: Key, b: Key)
    requires IsCursor(m, a) && IsCursor(m, b) && Before(a, b)
    ensures Rank(m, a) <= Rank(m, b) && m != []
  {
    if a.group < b.group {
      GroupStartMonotone(m, a.group, b.group);
    }
  }

  /** The callbacks of a start point: the complete objects from there on. */
  ghost function StartCalls(m: Groups, es: seq<Event>, e: Event): seq<ReadyCall> {
    CursorUnfold(m, es, e);
    CallsFor(Items(m)[Resume(m, es, e)..Cursor(m, es + [e])], Repair)
  }

  lemma JumpKeepsFaithful(m: Groups, es: seq<Event>, s: State, k: Key)
    requires Faithful(m, es, s) && IsCursor(m, k) && Rank(m, s.next) <= Rank(m, k)
    ensures Faithful(m, es, s.(next := k))
  {
  }

  lemma StartStep(m: Groups, es: seq<Event>, s: State, k: Key)
    requires WellFormed(m) && Invariant(m, es, s) && IsCursor(m, k)
    ensures var (t, calls) := LearnStartPoint(s, k);
            Invariant(m, es + [Start(k)], t) && calls == StartCalls(m, es, Start(k))
  {
    hide Cursor, Arrived, Faithful, Rank, FinalSeen, Count, Drain, MarkFinished, Items;
    var e := Start(k);
    FinalSeenUnfold(es, e);
    FaithfulCursor(m, es, s);
    CursorUnfold(m, es, e);
    IgnoredKeepsFaithful(m, es, s, e);
    if Before(s.next, k) {
      CursorOrder(m, s.next, k);
      JumpKeepsFaithful(m, es + [e], s, k);
      DrainAdvances(m, es + [e], s.(next := k));
      var t := Drain(s.(next := k)).0;
      MarkedExactly(m, t);
      FaithfulIgnoresFinished(m, es + [e], t, true);
    } else {
      if k != s.next {
        CursorOrder(m, k, s.next);
      }
      StartNowhere(m, es, e);
      assert CallsFor(Items(m)[Cursor(m, es)..Cursor(m, es)], Repair) == [];
    }
  }

  lemma FinalStep(m: Groups, es: seq<Event>, s: State)
    requires WellFormed(m) && Invariant(m, es, s)
    ensures var (t, ok) := LearnFinal(s, EndOf(m)); Invariant(m, es + [Final(EndOf(m))], t) && ok
  {
    hide Cursor, Faithful, Rank, FinalSeen, Count;
    var e := Final(EndOf(m));
    FinalSeenUnfold(es, e);
    FaithfulCursor(m, es, s);
    IgnoredKeepsFaithful(m, es, s, e);
    CursorStays(m, es, e);
    RankCount(m, s.next);
    var t := LearnFinal(s, EndOf(m)).0;
    FaithfulFields(m, es + [e], s, t);
    NotBeforeEnd(m, s.next);
  }

  lemma FaithfulFields(m: Groups, es: seq<Event>, s: State, t: State)
    requires Faithful(m, es, s) && t.objects == s.objects && t.next == s.next
    ensures Faithful(m, es, t)
  {
  }

  lemma NotBeforeEnd(m: Groups, c: Key)
    requires IsCursor(m, c)
    ensures Before(c, EndOf(m)) <==> c != EndOf(m)
  {
  }

  // ----- Whole runs -----

  /** The callbacks the reference asks for on one event. */
  ghost function EventCalls(m: Groups, es: seq<Event>, e: Event): seq<ReadyCall>
    requires Honest(m, e)
  {
    match e
    case Arrival(f) => ArrivalCalls(m, es, f)
    case Start(_) => StartCalls(m, es, e)
    case Final(_) => []
  }

  ghost function RunCalls(m: Groups, es: seq<Event>): seq<ReadyCall>
    requires AllHonest(m, es)
  {
    if es == [] then []
    else RunCalls(m, es[..|es| - 1]) + EventCalls(m, es[..|es| - 1], es[|es| - 1])
  }

  /** The state machine refines the reference: on every run of honest events, whatever is
      lost, duplicated, reordered or cut differently, its cursor, its end-of-media mark and
      its callbacks are those that the union of the arrivals determines. */
  lemma {:induction false} RunRefinesReference(m: Groups, es: seq<Event>)
    requires WellFormed(m) && AllHonest(m, es)
    ensures Invariant(m, es, Run(es).0) && Run(es).1 == RunCalls(m, es)
  {
    if es == [] {
      InitialInvariant(m);
    } else {
      var n := |es| - 1;
      var (prefix, e) := (es[..n], es[n]);
      assert es == prefix + [e] && AllHonest(m, prefix) && Honest(m, e);
      RunRefinesReference(m, prefix);
      hide Invariant, Cursor, Count, Rank, Items, Input, LearnStartPoint, LearnFinal, ArrivalCalls, StartCalls;
      match e
      case Arrival(f) => ArrivalStep(m, prefix, Run(prefix).0, f);
      case Start(k) => StartStep(m, prefix, Run(prefix).0, k);
      case Final(_) => FinalStep(m, prefix, Run(prefix).0);
    }
  }

  lemma InitialInvariant(m: Groups)
    ensures Invariant(m, [], INITIAL)
  {
  }
}
