/** What reassembly guarantees whatever arrives: fragments that contradict each other, that overlap with
    other bytes, that name objects which do not exist, start points and ends at will.  Nothing here
    requires the events to be true of any media. */
module AnyInput {
  import opened Media
  import opened PacketList
  import opened Arrivals
  import opened Reassembly
  import opened Delivery

  // ----- What is said of one entry -----

  predicate Carries(e: Event, k: Key, p: nat, b: Byte) {
    e.Arrival? && e.fragment.key == k && e.fragment.offset <= p < e.fragment.End() && e.fragment.data[p - e.fragment.offset] == b
  }

  /** Some arrival had that byte at that place. */
  ghost predicate Carried(es: seq<Event>, k: Key, p: nat, b: Byte) {
    exists i :: 0 <= i < |es| && Carries(es[i], k, p, b)
  }

  /** The bytes of an entry lie inside its length, arrived there, and are those of the content, if the
      object is complete; the last byte does not come unnoticed. */
  ghost predicate Sound(es: seq<Event>, k: Key, o: ObjectState) {
    && (o.length > 0 && o.length - 1 in o.bytes ==> o.isLast)
    && (forall p :: p in o.bytes ==> p < o.length && Carried(es, k, p, o.bytes[p]))
    && (o.reassembled.Some? ==> IsContent(o.bytes, o.length) && o.reassembled.value == Content(o.bytes, o.length))
  }

  ghost predicate AllSound(es: seq<Event>, s: State) {
    forall k :: k in s.objects ==> Sound(es, k, s.objects[k])
  }

  lemma CarriedLater(es: seq<Event>, e: Event, k: Key, p: nat, b: Byte)
    requires Carried(es, k, p, b) || Carries(e, k, p, b)
    ensures Carried(es + [e], k, p, b)
  {
    if Carried(es, k, p, b) {
      var i :| 0 <= i < |es| && Carries(es[i], k, p, b);
      assert Carries((es + [e])[i], k, p, b);
    } else {
      assert Carries((es + [e])[|es|], k, p, b);
    }
  }

  lemma SoundLater(es: seq<Event>, e: Event, k: Key, o: ObjectState)
    requires Sound(es, k, o)
    ensures Sound(es + [e], k, o)
  {
    hide Carried, Carries;
    forall p | p in o.bytes ensures Carried(es + [e], k, p, o.bytes[p]) {
      CarriedLater(es, e, k, p, o.bytes[p]);
    }
  }

  // ----- Which fragments are refused -----

  /** The entry of a fragment's object, or the one that it makes. */
  function Entry(s: State, f: Fragment): ObjectState {
    if f.key in s.objects then s.objects[f.key] else Fresh(f)
  }

  /** The fragment reaches past the length known for its object, or it ends before it and names
      another length. */
  predicate Contradicts(length: nat, f: Fragment) {
    f.End() > length || (f.End() < length && f.objectLength != length)
  }

  /** The bytes of an entry once a fragment entered: bytes that are there already win. */
  lemma MergedAt(o: ObjectState, f: Fragment, p: nat)
    ensures var bytes := Merge(o.bytes, f.offset, f.data);
            && (p in bytes <==> p in o.bytes || f.offset <= p < f.End())
            && (p in bytes ==> bytes[p] == if p in o.bytes then o.bytes[p] else f.data[p - f.offset])
  {
  }

  /** An entry whose bytes lie inside its length is complete as soon as it has that many. */
  lemma FullIsContent(o: ObjectState)
    requires (forall p :: p in o.bytes ==> p < o.length) && |o.bytes| >= o.length
    ensures IsContent(o.bytes, o.length)
  {
    SpanSize(0, o.length);
    assert o.bytes.Keys <= Span(0, o.length);
    SubsetFull(o.bytes.Keys, Span(0, o.length));
    assert |o.bytes.Keys| == |o.bytes|;
  }

  lemma SubsetFull(a: set<nat>, b: set<nat>)
    requires a <= b
    ensures |a| >= |b| ==> a == b
  {
    assert b == a + (b - a);
  }

  /** The entry once the fragment was examined. */
  function Taken(s: State, f: Fragment): ObjectState {
    var o := Noted(Entry(s, f), f);
    if Contradicts(o.length, f) then o else o.(bytes := Merge(o.bytes, f.offset, f.data))
  }

  lemma TakenIsSound(es: seq<Event>, s: State, f: Fragment)
    requires AllSound(es, s)
    ensures Sound(es + [Arrival(f)], f.key, Taken(s, f))
    ensures Taken(s, f).reassembled == Entry(s, f).reassembled
    ensures Taken(s, f).length == Entry(s, f).length && Taken(s, f).flags == Entry(s, f).flags
  {
    hide Carried;
    var (o, t, e) := (Entry(s, f), Taken(s, f), Arrival(f));
    assert Sound(es, f.key, o);
    SoundLater(es, e, f.key, o);
    forall p | p in t.bytes ensures p < t.length && Carried(es + [e], f.key, p, t.bytes[p]) {
      MergedAt(Noted(o, f), f, p);
      if p !in o.bytes {
        CarriedLater(es, e, f.key, p, t.bytes[p]);
      }
    }
    if o.reassembled.Some? && !Contradicts(o.length, f) {
      MergeRedundant(Noted(o, f).bytes, f.offset, f.data);
    }
  }

  /** The state after an arrival that was not ignored, before anything is handed over. */
  function After1(s: State, f: Fragment): State {
    Put(s, f.key, Taken(s, f))
  }

  /** Input, case by case. */
  lemma InputCases(s: State, f: Fragment)
    ensures Input(s, f) ==
            if Before(f.key, s.next) then (s, [], true)
            else if Contradicts(Entry(s, f).length, f) then (After1(s, f), [], false)
            else if Ready(Taken(s, f)) then Completed(After1(s, f), f)
            else (After1(s, f), [], true)
    ensures Contradicts(Entry(s, f).length, f) ==> Taken(s, f).bytes == Entry(s, f).bytes
  {
    hide Merge, Completed, Ready;
  }

  lemma CompletedSucceeds(es: seq<Event>, s: State, f: Fragment)
    requires AllSound(es, s) && Ready(Taken(s, f))
    ensures Completed(After1(s, f), f).2
  {
    TakenIsSound(es, s, f);
    hide Completed, Taken, Carried, UpdateStartPoint;
    FullIsContent(Taken(s, f));
    CompletedCases(After1(s, f), f);
  }

  /** One arrival: what is before the next expected object is ignored; what contradicts the known
      length is refused, and no byte of it is kept; all else is taken. */
  lemma ArrivalIsRefusedIff(es: seq<Event>, s: State, f: Fragment)
    requires AllSound(es, s)
    ensures var (t, calls, ok) := Input(s, f);
            && (ok <==> Before(f.key, s.next) || !Contradicts(Entry(s, f).length, f))
            && (Before(f.key, s.next) ==> t == s && calls == [])
            && (!ok ==> t == After1(s, f) && calls == [] && Taken(s, f).bytes == Entry(s, f).bytes)
            && (!Before(f.key, s.next) && ok ==>
                  if Ready(Taken(s, f)) then (t, calls, ok) == Completed(After1(s, f), f)
                  else t == After1(s, f) && calls == [])
  {
    InputCases(s, f);
    if Ready(Taken(s, f)) {
      CompletedSucceeds(es, s, f);
    }
    hide *;
  }

  // ----- What every run keeps -----

  /** What a call hands over was carried by the events, byte for byte. */
  ghost predicate IsCarried(es: seq<Event>, c: ReadyCall) {
    forall p :: 0 <= p < |c.data| ==> Carried(es, c.key, p, c.data[p])
  }

  ghost predicate AllCarried(es: seq<Event>, calls: seq<ReadyCall>) {
    forall i :: 0 <= i < |calls| ==> IsCarried(es, calls[i])
  }

  /** The items rise, and all lie before that key. */
  ghost predicate Rising(items: seq<Item>, high: Key) {
    && (forall i, j :: 0 <= i < j < |items| ==> Before(items[i].key, items[j].key))
    && (forall i :: 0 <= i < |items| ==> Before(items[i].key, high))
  }

  /** No object is there twice, and each was passed or is still held complete. */
  ghost predicate OnceEach(s: State, items: seq<Item>) {
    && (forall i, j :: 0 <= i < j < |items| ==> items[i].key != items[j].key)
    && (forall i :: 0 <= i < |items| ==> IsKnown(s, items[i].key))
  }

  predicate IsKnown(s: State, k: Key) {
    Before(k, s.next) || (k in s.objects && s.objects[k].reassembled.Some?)
  }

  ghost predicate Peeked(calls: seq<ReadyCall>, k: Key, data: seq<Byte>) {
    exists i :: 0 <= i < |calls| && calls[i].key == k && calls[i].data == data && calls[i].mode == Peek
  }

  /** What is held complete was shown, and so was what is repaired. */
  ghost predicate AllPeeked(s: State, calls: seq<ReadyCall>) {
    && (forall k :: k in s.objects && s.objects[k].reassembled.Some? ==> Peeked(calls, k, s.objects[k].reassembled.value))
    && (forall i :: 0 <= i < |calls| && calls[i].mode == Repair ==> Peeked(calls[..i], calls[i].key, calls[i].data))
  }

  ghost predicate Invariant(es: seq<Event>, s: State, calls: seq<ReadyCall>) {
    && AllSound(es, s) && AllCarried(es, calls)
    && Rising(InOrder(calls), s.next) && OnceEach(s, OutOfOrder(calls)) && AllPeeked(s, calls)
  }

  /** The same complete objects are held, and the next expected object is no earlier. */
  ghost predicate MovesOn(s: State, t: State) {
    && !Before(t.next, s.next)
    && (forall k :: k in s.objects && s.objects[k].reassembled.Some? ==>
          Before(k, t.next) || (k in t.objects && t.objects[k].reassembled == s.objects[k].reassembled))
    && (forall k :: k in t.objects && t.objects[k].reassembled.Some? ==>
          k in s.objects && s.objects[k].reassembled == t.objects[k].reassembled)
  }

  lemma QuietStep(es: seq<Event>, s: State, t: State, calls: seq<ReadyCall>)
    requires Invariant(es, s, calls) && MovesOn(s, t) && AllSound(es, t)
    ensures Invariant(es, t, calls)
  {
    hide Sound, InOrder, OutOfOrder, Peeked, IsCarried;
    assert OnceEach(t, OutOfOrder(calls)) by {
      forall i | 0 <= i < |OutOfOrder(calls)| ensures IsKnown(t, OutOfOrder(calls)[i].key) {
        assert IsKnown(s, OutOfOrder(calls)[i].key);
      }
    }
  }

  lemma PeekedLater(calls: seq<ReadyCall>, c: ReadyCall, k: Key, data: seq<Byte>)
    requires Peeked(calls, k, data) || (c.key == k && c.data == data && c.mode == Peek)
    ensures Peeked(calls + [c], k, data)
  {
    if Peeked(calls, k, data) {
      var i :| 0 <= i < |calls| && calls[i].key == k && calls[i].data == data && calls[i].mode == Peek;
      assert (calls + [c])[i] == calls[i];
    } else {
      assert (calls + [c])[|calls|] == c;
    }
  }

  /** The state in which one more call leaves what is held. */
  lemma PeekedAll(s: State, t: State, calls: seq<ReadyCall>, c: ReadyCall)
    requires AllPeeked(s, calls)
    requires forall k :: k in t.objects && t.objects[k].reassembled.Some? ==>
               || (k in s.objects && s.objects[k].reassembled == t.objects[k].reassembled)
               || (k == c.key && c.mode == Peek && t.objects[k].reassembled == Some(c.data))
    requires c.mode == Repair ==> Peeked(calls, c.key, c.data)
    ensures AllPeeked(t, calls + [c])
  {
    hide Peeked;
    var more := calls + [c];
    forall k | k in t.objects && t.objects[k].reassembled.Some? ensures Peeked(more, k, t.objects[k].reassembled.value) {
      PeekedLater(calls, c, k, t.objects[k].reassembled.value);
    }
    forall i | 0 <= i < |more| && more[i].mode == Repair ensures Peeked(more[..i], more[i].key, more[i].data) {
      assert more[..i] == calls[..i];
      assert i == |calls| ==> more[..i] == calls;
    }
  }

  lemma CarriedAll(es: seq<Event>, calls: seq<ReadyCall>, c: ReadyCall)
    requires AllCarried(es, calls) && IsCarried(es, c)
    ensures AllCarried(es, calls + [c])
  {
    hide IsCarried;
  }

  lemma OneMoreCall(calls: seq<ReadyCall>, c: ReadyCall)
    ensures InOrder(calls + [c]) == InOrder(calls) + if c.mode == Peek then [] else [ItemOf(c)]
    ensures OutOfOrder(calls + [c]) == OutOfOrder(calls) + if c.mode == Repair then [] else [ItemOf(c)]
  {
    InOrderConcat(calls, [c]);
    OutOfOrderConcat(calls, [c]);
    OneCall(c);
  }

  /** The object handed over is not before the next expected one, and the next one lies behind it. */
  lemma PassStep(es: seq<Event>, s: State, k: Key, calls: seq<ReadyCall>, c: ReadyCall)
    requires Invariant(es, s, calls) && c.key == k && c.mode != Peek && IsCarried(es, c)
    requires !Before(k, s.next) && k in s.objects
    requires if c.mode == Repair then s.objects[k].reassembled == Some(c.data) else s.objects[k].reassembled.None?
    ensures Invariant(es, Pass(s, k), calls + [c])
  {
    hide Sound, InOrder, OutOfOrder, Peeked, IsCarried;
    var t := Pass(s, k);
    OneMoreCall(calls, c);
    CarriedAll(es, calls, c);
    PeekedAll(s, t, calls, c);
    var seen := OutOfOrder(calls);
    forall i | 0 <= i < |seen| ensures IsKnown(t, seen[i].key) && (c.mode != Repair ==> seen[i].key != k) {
      assert IsKnown(s, seen[i].key);
    }
  }

  lemma PeekStep(es: seq<Event>, s: State, k: Key, calls: seq<ReadyCall>, c: ReadyCall, o: ObjectState)
    requires Invariant(es, s, calls) && c.key == k && c.mode == Peek && IsCarried(es, c)
    requires !Before(k, s.next) && k in s.objects && s.objects[k].reassembled.None?
    requires o.reassembled == Some(c.data) && Sound(es, k, o)
    ensures Invariant(es, Put(s, k, o), calls + [c])
  {
    hide Sound, InOrder, OutOfOrder, Peeked, IsCarried;
    var t := Put(s, k, o);
    OneMoreCall(calls, c);
    CarriedAll(es, calls, c);
    PeekedAll(s, t, calls, c);
    assert Rising(InOrder(calls) + [], t.next);
    var seen := OutOfOrder(calls);
    forall i | 0 <= i < |seen| ensures IsKnown(t, seen[i].key) && seen[i].key != k {
      assert IsKnown(s, seen[i].key);
    }
  }

  lemma ContentIsCarried(es: seq<Event>, c: ReadyCall, o: ObjectState)
    requires Sound(es, c.key, o) && IsContent(o.bytes, o.length) && c.data == Content(o.bytes, o.length)
    ensures IsCarried(es, c)
  {
    hide Carried;
    forall p | 0 <= p < |c.data| ensures Carried(es, c.key, p, c.data[p]) {
      assert p in o.bytes;
    }
  }

  lemma NextInLineIsHeld(es: seq<Event>, s: State, k: Key)
    requires AllSound(es, s) && NextInLine(s) == Some(k)
    ensures k in s.objects && s.objects[k].reassembled.Some? && !Before(k, s.next)
    ensures IsCarried(es, RepairCall(k, s.objects[k]))
  {
    hide Sound, IsCarried;
    assert Sound(es, k, s.objects[k]);
    SoundIsCarried(es, k, s.objects[k]);
  }

  lemma SoundIsCarried(es: seq<Event>, k: Key, o: ObjectState)
    requires Sound(es, k, o) && o.reassembled.Some?
    ensures IsCarried(es, RepairCall(k, o))
  {
    ContentIsCarried(es, RepairCall(k, o), o);
  }

  lemma {:induction false} DrainKeeps(es: seq<Event>, s: State, calls: seq<ReadyCall>)
    requires Invariant(es, s, calls)
    ensures Invariant(es, UpdateStartPoint(s).0, calls + UpdateStartPoint(s).1)
    decreases |s.objects|
  {
    hide Sound, Drain, AllCarried, AllPeeked, OnceEach, Rising, NextInLine, IsCarried;
    match NextInLine(s) {
      case None =>
        DrainStop(s);
        assert calls + [] == calls;
        QuietStep(es, s, MarkFinished(s), calls);
      case Some(k) =>
        DrainStep(s, k);
        NextInLineIsHeld(es, s, k);
        var c := RepairCall(k, s.objects[k]);
        PassStep(es, s, k, calls, c);
        DrainKeeps(es, Pass(s, k), calls + [c]);
        var (t, more) := Drain(Pass(s, k));
        assert calls + [c] + more == calls + ([c] + more);
    }
  }

  // ----- Every event keeps it -----

  lemma EventsGrow(es: seq<Event>, e: Event, s: State, calls: seq<ReadyCall>)
    requires Invariant(es, s, calls)
    ensures Invariant(es + [e], s, calls)
  {
    hide Sound, Carried, InOrder, OutOfOrder, Peeked;
    forall k | k in s.objects ensures Sound(es + [e], k, s.objects[k]) {
      SoundLater(es, e, k, s.objects[k]);
    }
    forall i, p | 0 <= i < |calls| && 0 <= p < |calls[i].data| ensures Carried(es + [e], calls[i].key, p, calls[i].data[p]) {
      assert IsCarried(es, calls[i]);
      CarriedLater(es, e, calls[i].key, p, calls[i].data[p]);
    }
  }

  /** A fragment is taken into its entry. */
  lemma TakenKeeps(es: seq<Event>, s: State, f: Fragment, calls: seq<ReadyCall>)
    requires Invariant(es, s, calls)
    ensures Invariant(es + [Arrival(f)], After1(s, f), calls)
  {
    hide Sound, AllCarried, AllPeeked, OnceEach, Rising, Taken;
    var e := Arrival(f);
    TakenIsSound(es, s, f);
    EventsGrow(es, e, s, calls);
    forall k | k in After1(s, f).objects ensures Sound(es + [e], k, After1(s, f).objects[k]) {
    }
    QuietStep(es + [e], s, After1(s, f), calls);
  }

  /** An object whose bytes are all there is handed over, unless it was before. */
  lemma CompletedKeeps(es: seq<Event>, s: State, f: Fragment, calls: seq<ReadyCall>)
    requires Invariant(es, s, calls) && !Before(f.key, s.next) && f.key in s.objects && Ready(s.objects[f.key])
    ensures var (t, more, ok) := Completed(s, f); ok && Invariant(es, t, calls + more)
  {
    hide AllCarried, AllPeeked, OnceEach, Rising, Carried, UpdateStartPoint, Completed, IsCarried;
    var (o, u) := (s.objects[f.key], Open(s, f.key));
    assert Sound(es, f.key, o);
    FullIsContent(o);
    CompletedCases(s, f);
    QuietStep(es, s, u, calls);
    var content := Content(o.bytes, o.length);
    if o.reassembled.Some? {
      assert calls + [] == calls;
    } else if u.next == f.key {
      var c := ReadyCall(f.key, f.flags, content, InSequence);
      ContentIsCarried(es, c, o);
      PassStep(es, u, f.key, calls, c);
      DrainKeeps(es, Pass(u, f.key), calls + [c]);
      var more := UpdateStartPoint(Pass(u, f.key)).1;
      assert calls + [c] + more == calls + ([c] + more);
    } else {
      var c := ReadyCall(f.key, f.flags, content, Peek);
      ContentIsCarried(es, c, o);
      PeekStep(es, u, f.key, calls, c, o.(reassembled := Some(content)));
    }
  }

  lemma ArrivalKeeps(es: seq<Event>, s: State, f: Fragment, calls: seq<ReadyCall>)
    requires Invariant(es, s, calls)
    ensures var (t, more, _) := Input(s, f); Invariant(es + [Arrival(f)], t, calls + more)
  {
    ArrivalIsRefusedIff(es, s, f);
    assert calls + [] == calls;
    hide Invariant, Completed, Input, Taken, Contradicts;
    if Before(f.key, s.next) {
      EventsGrow(es, Arrival(f), s, calls);
    } else {
      TakenKeeps(es, s, f, calls);
      if Input(s, f).2 && Ready(Taken(s, f)) {
        CompletedKeeps(es + [Arrival(f)], After1(s, f), f, calls);
      }
    }
  }

  lemma StartKeeps(es: seq<Event>, s: State, k: Key, calls: seq<ReadyCall>)
    requires Invariant(es, s, calls)
    ensures var (t, more) := LearnStartPoint(s, k); Invariant(es + [Start(k)], t, calls + more)
  {
    hide Sound, AllCarried, AllPeeked, OnceEach, Rising, UpdateStartPoint;
    EventsGrow(es, Start(k), s, calls);
    if Before(s.next, k) {
      QuietStep(es + [Start(k)], s, s.(next := k), calls);
      DrainKeeps(es + [Start(k)], s.(next := k), calls);
    } else {
      assert calls + [] == calls;
    }
  }

  lemma FinalKeeps(es: seq<Event>, s: State, k: Key, calls: seq<ReadyCall>)
    requires Invariant(es, s, calls)
    ensures Invariant(es + [Final(k)], LearnFinal(s, k).0, calls)
  {
    hide Sound, AllCarried, AllPeeked, OnceEach, Rising;
    EventsGrow(es, Final(k), s, calls);
    QuietStep(es + [Final(k)], s, LearnFinal(s, k).0, calls);
  }

  lemma StepKeeps(es: seq<Event>, s: State, e: Event, calls: seq<ReadyCall>)
    requires Invariant(es, s, calls)
    ensures Invariant(es + [e], Step(s, e).0, calls + Step(s, e).1)
  {
    hide Invariant, Input, LearnStartPoint, LearnFinal;
    assert calls + [] == calls;
    match e {
      case Arrival(f) => ArrivalKeeps(es, s, f, calls);
      case Start(k) => StartKeeps(es, s, k, calls);
      case Final(k) => FinalKeeps(es, s, k, calls);
    }
  }

  lemma NothingYet()
    ensures Invariant([], Run([]).0, Run([]).1)
  {
    NoCalls();
  }

  lemma {:induction false} RunKeepsInvariant(es: seq<Event>)
    ensures Invariant(es, Run(es).0, Run(es).1)
  {
    hide Invariant, Step;
    if es == [] {
      NothingYet();
    } else {
      var (before, e) := (es[..|es| - 1], es[|es| - 1]);
      RunKeepsInvariant(before);
      assert es == before + [e];
      StepKeeps(before, Run(before).0, e, Run(before).1);
    }
  }

  // ----- What consumers can rely on -----

  /** Whatever arrives: every byte that is handed over was carried to that place of that object; what
      is handed over in order rises; out of order, no object comes twice; and what is repaired was
      shown before with the same bytes. */
  lemma WhateverArrives(es: seq<Event>)
    ensures var calls := Run(es).1;
            forall i, p :: 0 <= i < |calls| && 0 <= p < |calls[i].data| ==> Carried(es, calls[i].key, p, calls[i].data[p])
    ensures var out := InOrder(Run(es).1); forall i, j :: 0 <= i < j < |out| ==> Before(out[i].key, out[j].key)
    ensures var out := OutOfOrder(Run(es).1); forall i, j :: 0 <= i < j < |out| ==> out[i].key != out[j].key
    ensures var calls := Run(es).1;
            forall i :: 0 <= i < |calls| && calls[i].mode == Repair ==>
              exists j :: 0 <= j < i && calls[j].mode == Peek && calls[j].key == calls[i].key && calls[j].data == calls[i].data
  {
    RunKeepsInvariant(es);
    hide Run, InOrder, OutOfOrder, Carried, Sound;
    var calls := Run(es).1;
    forall i, p | 0 <= i < |calls| && 0 <= p < |calls[i].data| ensures Carried(es, calls[i].key, p, calls[i].data[p]) {
      assert IsCarried(es, calls[i]);
    }
    forall i | 0 <= i < |calls| && calls[i].mode == Repair
      ensures exists j :: 0 <= j < i && calls[j].mode == Peek && calls[j].key == calls[i].key && calls[j].data == calls[i].data {
      var j :| 0 <= j < |calls[..i]| && calls[..i][j].key == calls[i].key && calls[..i][j].data == calls[i].data && calls[..i][j].mode == Peek;
      assert calls[..i][j] == calls[j];
    }
  }

  /** The length that the first fragment of an object announced, while the object is awaited. */
  function KnownLength(s: State, f: Fragment): nat {
    Entry(s, f).length
  }

  /** Input fails exactly on a fragment, of an object still awaited, that contradicts the length known
      for the object: it reaches past it, or it ends before it and names another.  Then nothing is
      handed over, no byte enters, and the next expected object stays. */
  lemma RefusedIff(es: seq<Event>, f: Fragment)
    ensures var s := Run(es).0;
            var (t, calls, ok) := Step(s, Arrival(f));
            var length := KnownLength(s, f);
            && (!ok <==> !Before(f.key, s.next) && (f.End() > length || (f.End() < length && f.objectLength != length)))
            && (!ok ==> calls == [] && t.next == s.next && t.final == s.final && t.finished == s.finished)
            && (!ok ==> f.key in t.objects && t.objects[f.key].bytes == if f.key in s.objects then s.objects[f.key].bytes else map[])
            && (!ok ==> forall k :: k != f.key ==> (k in t.objects <==> k in s.objects) && (k in s.objects ==> t.objects[k] == s.objects[k]))
  {
    RunKeepsInvariant(es);
    ArrivalIsRefusedIff(es, Run(es).0, f);
    hide Run, Input, Completed;
  }

  /** The byte at a place of the object, once a fragment that is not refused was taken: what is there
      already wins. */
  ghost function ByteAt(s: State, f: Fragment, p: nat): Option<Byte> {
    if f.key in s.objects && p in s.objects[f.key].bytes then Some(s.objects[f.key].bytes[p])
    else if f.offset <= p < f.End() then Some(f.data[p - f.offset])
    else None
  }

  /** Every byte of the object is there. */
  ghost predicate IsFilled(s: State, f: Fragment) {
    forall p :: 0 <= p < KnownLength(s, f) ==> ByteAt(s, f, p).Some?
  }

  /** Whether the object is handed over in sequence: it is the next expected one, or the first of the
      next group, when the size of the group in between is documented and nothing of it is missing. */
  predicate ComesNext(s: State, f: Fragment) {
    var o := Noted(Entry(s, f), f);
    f.key == s.next || (f.key == Key(s.next.group + 1, 0) && o.previousSize <= s.next.id)
  }

  lemma TakenAt(s: State, f: Fragment)
    requires !Contradicts(KnownLength(s, f), f)
    ensures forall p :: (p in Taken(s, f).bytes <==> ByteAt(s, f, p).Some?) &&
                        (p in Taken(s, f).bytes ==> ByteAt(s, f, p) == Some(Taken(s, f).bytes[p]))
    ensures Taken(s, f).length == KnownLength(s, f) && (KnownLength(s, f) == 0 ==> Taken(s, f).isLast)
  {
    hide Merge;
    var o := Taken(s, f);
    forall p ensures (p in o.bytes <==> ByteAt(s, f, p).Some?) && (p in o.bytes ==> ByteAt(s, f, p) == Some(o.bytes[p])) {
      MergedAt(Noted(Entry(s, f), f), f, p);
    }
  }

  /** An entry is ready when it has every position, and only then. */
  lemma ReadyIff(es: seq<Event>, k: Key, o: ObjectState)
    requires Sound(es, k, o) && (o.length == 0 ==> o.isLast)
    ensures Ready(o) <==> forall p :: 0 <= p < o.length ==> p in o.bytes
    ensures Ready(o) ==> IsContent(o.bytes, o.length)
  {
    hide Carried;
    if Ready(o) {
      FullIsContent(o);
    }
    if forall p :: 0 <= p < o.length ==> p in o.bytes {
      SpanSize(0, o.length);
      assert Span(0, o.length) <= o.bytes.Keys;
      SubsetSize(Span(0, o.length), o.bytes.Keys);
      assert |o.bytes.Keys| == |o.bytes|;
    }
  }

  lemma FilledIsReady(es: seq<Event>, s: State, f: Fragment)
    requires AllSound(es, s) && !Contradicts(KnownLength(s, f), f)
    ensures Ready(Taken(s, f)) <==> IsFilled(s, f)
    ensures Ready(Taken(s, f)) ==> IsContent(Taken(s, f).bytes, KnownLength(s, f))
    ensures forall p :: (p in Taken(s, f).bytes <==> ByteAt(s, f, p).Some?) &&
                        (p in Taken(s, f).bytes ==> ByteAt(s, f, p) == Some(Taken(s, f).bytes[p]))
  {
    TakenIsSound(es, s, f);
    TakenAt(s, f);
    ReadyIff(es + [Arrival(f)], f.key, Taken(s, f));
    hide Ready, Taken, Contradicts, Sound, IsContent, ByteAt;
  }

  lemma SubsetSize(a: set<nat>, b: set<nat>)
    requires a <= b
    ensures |a| <= |b|
  {
    assert b == a + (b - a);
  }

  /** An arrival hands something over exactly when it fills the last gap of an object that was not
      complete: first that object, with the bytes that came first at each place, in sequence exactly
      when it comes next, and ahead of sequence otherwise; and then only repairs. */
  lemma HandedOverIff(es: seq<Event>, f: Fragment)
    ensures var s := Run(es).0;
            var (t, calls, ok) := Step(s, Arrival(f));
            && (calls != [] <==> ok && !Before(f.key, s.next) && Entry(s, f).reassembled.None? && IsFilled(s, f))
            && (calls != [] ==>
                  && calls[0].key == f.key && calls[0].flags == f.flags && |calls[0].data| == KnownLength(s, f)
                  && (forall p :: 0 <= p < |calls[0].data| ==> ByteAt(s, f, p) == Some(calls[0].data[p]))
                  && calls[0].mode == (if ComesNext(s, f) then InSequence else Peek)
                  && (forall i :: 1 <= i < |calls| ==> calls[i].mode == Repair))
  {
    RunKeepsInvariant(es);
    var s := Run(es).0;
    ArrivalIsRefusedIff(es, s, f);
    hide Run, Input, Completed, IsFilled, Ready;
    if !Before(f.key, s.next) && !Contradicts(KnownLength(s, f), f) {
      FilledIsReady(es, s, f);
      TakenIsSound(es, s, f);
      hide Taken, Contradicts, Entry, ByteAt, ComesNext, After1, IsContent;
      if Ready(Taken(s, f)) {
        HandedOver(s, f);
        ContentIsBytes(Taken(s, f));
      }
    }
  }

  lemma ContentIsBytes(o: ObjectState)
    requires IsContent(o.bytes, o.length)
    ensures var data := Content(o.bytes, o.length);
            |data| == o.length && forall p :: 0 <= p < |data| ==> p in o.bytes && data[p] == o.bytes[p]
  {
  }

  /** The same of an object all of whose bytes are there. */
  lemma HandedOver(s: State, f: Fragment)
    requires !Before(f.key, s.next) && Ready(Taken(s, f)) && IsContent(Taken(s, f).bytes, Taken(s, f).length)
    ensures var (t, calls, ok) := Completed(After1(s, f), f);
            var o := Taken(s, f);
            && (calls != [] <==> o.reassembled.None?)
            && (calls != [] ==>
                  && calls[0] == ReadyCall(f.key, f.flags, Content(o.bytes, o.length), if ComesNext(s, f) then InSequence else Peek)
                  && (forall i :: 1 <= i < |calls| ==> calls[i].mode == Repair))
  {
    hide Merge, Drain;
    CompletedCases(After1(s, f), f);
    OnlyRepairs(Pass(Open(After1(s, f), f.key), f.key));
  }

  lemma {:induction false} OnlyRepairs(s: State)
    ensures forall i :: 0 <= i < |UpdateStartPoint(s).1| ==> UpdateStartPoint(s).1[i].mode == Repair
    decreases |s.objects|
  {
    hide Drain, NextInLine;
    match NextInLine(s) {
      case None => DrainStop(s);
      case Some(k) =>
        DrainStep(s, k);
        OnlyRepairs(Pass(s, k));
        var (first, more) := (RepairCall(k, s.objects[k]), UpdateStartPoint(Pass(s, k)).1);
        forall i | 0 <= i < |[first] + more| ensures ([first] + more)[i].mode == Repair {
          assert i > 0 ==> ([first] + more)[i] == more[i - 1];
        }
    }
  }

  /** Where delivery goes on at point p: the object at p, or, when there is none, the first of the next
      group, if p is documented as the end of the group. */
  predicate GoesOn(objects: map<Key, ObjectState>, p: Key, k: Key) {
    && k in objects && objects[k].reassembled.Some?
    && (k == p || (p !in objects && k == Key(p.group + 1, 0) && objects[k].previousSize == p.id))
  }

  /** The place behind the first n calls. */
  function PlaceAt(next: Key, calls: seq<ReadyCall>, n: nat): Key
    requires n <= |calls|
  {
    if n == 0 then next else After(calls[n - 1].key)
  }

  ghost predicate AllGoOn(objects: map<Key, ObjectState>, next: Key, calls: seq<ReadyCall>) {
    forall i :: 0 <= i < |calls| ==> GoesOn(objects, PlaceAt(next, calls, i), calls[i].key)
  }

  ghost predicate NothingGoesOn(t: State) {
    forall k :: !GoesOn(t.objects, t.next, k)
  }

  /** Each repair goes on where the one before ended, and where the last one ended nothing goes on. */
  ghost predicate IsChain(objects: map<Key, ObjectState>, next: Key, calls: seq<ReadyCall>, t: State) {
    AllGoOn(objects, next, calls) && t.next == PlaceAt(next, calls, |calls|) && NothingGoesOn(t)
  }

  lemma GoesOnLater(objects: map<Key, ObjectState>, gone: Key, p: Key, k: Key)
    requires GoesOn(objects - {gone}, p, k) && Before(gone, p)
    ensures GoesOn(objects, p, k) && Before(gone, k)
  {
  }

  /** Behind object k, the places and the calls do not come back to it. */
  lemma {:induction false} ChainIsBehind(objects: map<Key, ObjectState>, k: Key, calls: seq<ReadyCall>, i: nat)
    requires i < |calls| && AllGoOn(objects - {k}, After(k), calls)
    ensures Before(k, PlaceAt(After(k), calls, i)) && Before(k, calls[i].key)
    ensures GoesOn(objects, PlaceAt(After(k), calls, i), calls[i].key)
  {
    hide GoesOn;
    if i > 0 {
      ChainIsBehind(objects, k, calls, i - 1);
    }
    GoesOnLater(objects, k, PlaceAt(After(k), calls, i), calls[i].key);
  }

  lemma FirstGoesOn(s: State, k: Key)
    requires NextInLine(s) == Some(k)
    ensures GoesOn(s.objects, s.next, k)
  {
  }

  lemma PlaceShifts(next: Key, first: ReadyCall, calls: seq<ReadyCall>, i: nat)
    requires i <= |calls|
    ensures PlaceAt(next, [first] + calls, i + 1) == PlaceAt(After(first.key), calls, i)
  {
  }

  lemma LinksMore(objects: map<Key, ObjectState>, next: Key, first: ReadyCall, calls: seq<ReadyCall>)
    requires GoesOn(objects, next, first.key) && AllGoOn(objects - {first.key}, After(first.key), calls)
    ensures AllGoOn(objects, next, [first] + calls)
  {
    hide GoesOn, PlaceAt;
    var all := [first] + calls;
    FirstPlace(next, all);
    forall i | 0 <= i < |all| ensures GoesOn(objects, PlaceAt(next, all, i), all[i].key) {
      if i > 0 {
        PlaceShifts(next, first, calls, i - 1);
        ChainIsBehind(objects, first.key, calls, i - 1);
      }
    }
  }

  lemma FirstPlace(next: Key, calls: seq<ReadyCall>)
    ensures PlaceAt(next, calls, 0) == next
  {
  }

  lemma ChainMore(s: State, k: Key, first: ReadyCall, calls: seq<ReadyCall>, t: State)
    requires NextInLine(s) == Some(k) && first.key == k
    requires IsChain(s.objects - {k}, After(k), calls, t)
    ensures IsChain(s.objects, s.next, [first] + calls, t)
  {
    hide GoesOn, PlaceAt, NextInLine, AllGoOn, NothingGoesOn;
    FirstGoesOn(s, k);
    LinksMore(s.objects, s.next, first, calls);
    PlaceShifts(s.next, first, calls, |calls|);
  }

  lemma {:induction false} DrainIsChain(s: State)
    ensures IsChain(s.objects, s.next, UpdateStartPoint(s).1, UpdateStartPoint(s).0)
    decreases |s.objects|
  {
    match NextInLine(s) {
      case None => DrainStop(s);
      case Some(k) =>
        DrainStep(s, k);
        DrainIsChain(Pass(s, k));
        hide Drain, IsChain;
        ChainMore(s, k, RepairCall(k, s.objects[k]), UpdateStartPoint(Pass(s, k)).1, UpdateStartPoint(s).0);
    }
  }

  /** Whatever arrived before: an arrival that is handed over in sequence, and a start point that moves
      delivery, are followed by the repair of all that goes on from there, and of nothing else. */
  lemma RepairsGoOn(es: seq<Event>, e: Event)
    requires var s := Run(es).0;
             if e.Start? then Before(s.next, e.key) else e.Arrival? && Step(s, e).1 != [] && Step(s, e).1[0].mode == InSequence
    ensures var s := Run(es).0;
            var (t, calls, _) := Step(s, e);
            if e.Start? then IsChain(s.objects, e.key, calls, t)
            else IsChain(s.objects - {e.fragment.key}, After(e.fragment.key), calls[1..], t)
  {
    var s := Run(es).0;
    if e.Start? {
      DrainIsChain(s.(next := e.key));
    } else {
      var f := e.fragment;
      RunKeepsInvariant(es);
      ArrivalIsRefusedIff(es, s, f);
      hide Run, Input, Completed, Taken, IsChain;
      CompletedGoesOn(s, f);
    }
  }

  lemma CompletedGoesOn(s: State, f: Fragment)
    requires var (t, calls, ok) := Completed(After1(s, f), f); calls != [] && calls[0].mode == InSequence
    ensures var (t, calls, ok) := Completed(After1(s, f), f);
            IsChain(s.objects - {f.key}, After(f.key), calls[1..], t)
  {
    hide Merge, IsChain, UpdateStartPoint, Taken, Completed;
    CompletedCases(After1(s, f), f);
    var u := Pass(Open(After1(s, f), f.key), f.key);
    assert u.objects == s.objects - {f.key};
    DrainIsChain(u);
    var (first, more) := (Completed(After1(s, f), f).1[0], UpdateStartPoint(u).1);
    assert ([first] + more)[1..] == more;
  }

  /** The first final point that is not (0, 0), or (0, 0). */
  function FirstFinal(es: seq<Event>): Key {
    if es == [] then Key(0, 0)
    else
      var (before, e) := (FirstFinal(es[..|es| - 1]), es[|es| - 1]);
      if before == Key(0, 0) && e.Final? then e.key else before
  }

  lemma DrainKeepsFinal(s: State)
    ensures UpdateStartPoint(s).0.final == s.final
    decreases |s.objects|
  {
    match NextInLine(s) {
      case None => DrainStop(s);
      case Some(k) =>
        DrainStep(s, k);
        DrainKeepsFinal(Pass(s, k));
    }
  }

  lemma InputKeepsFinal(s: State, f: Fragment)
    ensures Input(s, f).0.final == s.final
  {
    hide Drain, UpdateStartPoint, Merge, Completed, Ready;
    if !Before(f.key, s.next) {
      var o := Noted(Entry(s, f), f);
      if Acceptable(o, f) {
        CompletedKeepsFinal(Put(s, f.key, o.(bytes := Merge(o.bytes, f.offset, f.data))), f);
      }
    }
  }

  lemma CompletedKeepsFinal(s: State, f: Fragment)
    requires f.key in s.objects
    ensures Completed(s, f).0.final == s.final
  {
    hide UpdateStartPoint, Completed, Content, IsContent;
    CompletedCases(s, f);
    DrainKeepsFinal(Pass(Open(s, f.key), f.key));
  }

  lemma StepKeepsFinal(s: State, e: Event)
    ensures Step(s, e).0.final == if s.final == Key(0, 0) && e.Final? then e.key else s.final
  {
    hide Drain, UpdateStartPoint, Input;
    match e {
      case Arrival(f) => InputKeepsFinal(s, f);
      case Start(k) => DrainKeepsFinal(s.(next := k));
      case Final(k) =>
    }
  }

  /** The end of the media is learned once; another end is refused, and changes nothing. */
  lemma {:induction false} FinalIsLearnedOnce(es: seq<Event>, k: Key)
    ensures Run(es).0.final == FirstFinal(es)
    ensures Step(Run(es).0, Final(k)).2 <==> FirstFinal(es) == Key(0, 0) || FirstFinal(es) == k
    ensures !Step(Run(es).0, Final(k)).2 ==> Step(Run(es).0, Final(k)).0 == Run(es).0
  {
    if es != [] {
      hide Input, LearnStartPoint;
      FinalIsLearnedOnce(es[..|es| - 1], k);
      StepKeepsFinal(Run(es[..|es| - 1]).0, es[|es| - 1]);
    }
  }

  /** The end is known, and delivery has come to its group and its number: each is compared by itself. */
  predicate ReachesEnd(s: State) {
    (s.final.group > 0 || s.final.id > 0) && s.next.group >= s.final.group && s.next.id >= s.final.id
  }

  lemma {:induction false} DrainMarks(s: State)
    ensures var t := UpdateStartPoint(s).0; t.finished <==> s.finished || ReachesEnd(t)
    decreases |s.objects|
  {
    match NextInLine(s) {
      case None => DrainStop(s);
      case Some(k) =>
        DrainStep(s, k);
        DrainMarks(Pass(s, k));
    }
  }

  lemma CompletedMarks(s: State, f: Fragment)
    requires f.key in s.objects
    ensures var (t, calls, ok) := Completed(s, f);
            t.finished <==> s.finished || (calls != [] && calls[0].mode == InSequence && ReachesEnd(t))
  {
    hide UpdateStartPoint, Completed, Content, IsContent, ReachesEnd;
    CompletedCases(s, f);
    DrainMarks(Pass(Open(s, f.key), f.key));
  }

  /** Whatever arrived before: reassembly becomes finished exactly when the final identifier comes and
      delivery is there or past it, or when delivery moves on, by an object in sequence or a start
      point, and then has come to the group and to the number of the end, each by itself. */
  lemma FinishedIff(es: seq<Event>, e: Event)
    ensures var s := Run(es).0;
            var (t, calls, ok) := Step(s, e);
            t.finished <==>
              || s.finished
              || (e.Final? && ok && (s.next.group > e.key.group || (s.next.group == e.key.group && s.next.id >= e.key.id)))
              || (e.Start? && Before(s.next, e.key) && ReachesEnd(t))
              || (e.Arrival? && calls != [] && calls[0].mode == InSequence && ReachesEnd(t))
  {
    var s := Run(es).0;
    hide Run, Drain, ReachesEnd;
    match e {
      case Arrival(f) => InputMarks(s, f);
      case Start(k) => DrainMarks(s.(next := k));
      case Final(k) =>
    }
  }

  lemma InputMarks(s: State, f: Fragment)
    ensures var (t, calls, ok) := Input(s, f);
            t.finished <==> s.finished || (calls != [] && calls[0].mode == InSequence && ReachesEnd(t))
  {
    hide Drain, UpdateStartPoint, Merge, Completed, Ready, ReachesEnd;
    if !Before(f.key, s.next) {
      var o := Noted(Entry(s, f), f);
      if Acceptable(o, f) {
        CompletedMarks(Put(s, f.key, o.(bytes := Merge(o.bytes, f.offset, f.data))), f);
      }
    }
  }
}
