/** How much one offer to the datagram publisher puts out, what a verdict to drop an object comes to,
    and how short the list of objects is kept. */
module DatagramProgress {
  import opened Media
  import opened DatagramPublisher
  import opened DatagramRuns
  import D = DatagramDelivery
  import T = DatagramTransport

  // ----- One offer -----

  /** The fragment that an offer is about, once the publisher has settled on it. */
  lemma Settles(m: Groups, arrivals: seq<Fragment>, start: Key, r: Reader)
    requires Cut(m, arrivals) && Invariant(m, arrivals, start, r)
    ensures var (r1, isNew) := Choice(r, arrivals, start);
            && r.current <= r1.current && Ready(r1, arrivals)
            && (r1.current >= 0 ==> r1.current < |arrivals| && |r1.log| == r1.current + 1)
            && (r1.current >= 0 && !r1.isCurrentSent ==> r1.log[r1.current].Pieces? && r1.lengthSent <= |arrivals[r1.current].data|)
            && (r1.current == r.current >= 0 ==> r1 == r && !isNew)
            && (r1.current > r.current && !r1.isCurrentSent ==> r1.lengthSent == 0 && r1.log[r1.current] == Pieces([]))
            && (isNew ==> r.current >= 0 && r.isCurrentSent && !r1.isCurrentSent)
  {
    hide Seek, Begin, Judge, Cut, Books, History;
    PollUnfold(r, arrivals, start, false, 0);
    if r.current >= 0 {
      SeekSettles(arrivals, start, r);
    } else {
      BeginSettles(arrivals, start, r);
    }
  }

  lemma BeginSettles(arrivals: seq<Fragment>, start: Key, r: Reader)
    requires r == NEW_READER
    ensures var r1 := Begin(r, arrivals, start);
            && (r1.current >= 0 ==> r1.lengthSent == 0 && |r1.log| == r1.current + 1 && r1.log[r1.current] == Pieces([]))
            && r1.current >= -1
  {
  }

  lemma {:induction false} SeekSettles(arrivals: seq<Fragment>, start: Key, r: Reader)
    requires Ready(r, arrivals) && r.current >= 0
    ensures var (r1, isNew) := Seek(r, arrivals, start);
            && r.current <= r1.current
            && (r1.current == r.current ==> r1 == r && !isNew)
            && (r1.current > r.current && !r1.isCurrentSent ==>
                  r1.lengthSent == 0 && |r1.log| == r1.current + 1 && r1.log[r1.current] == Pieces([]))
            && (isNew ==> r.isCurrentSent && !r1.isCurrentSent)
    decreases |arrivals| - r.current
  {
    hide Seek, Judge;
    SeekUnfold(r, arrivals, start);
    if r.isCurrentSent && r.current + 1 < |arrivals| && Judge(r.objects, arrivals[r.current + 1].key, start).Skipped? {
      SeekSettles(arrivals, start, PassOver(Onward(r)));
    }
  }

  /** How many datagrams were sent of the fragment at index i. */
  function PiecesSent(r: Reader, i: nat): nat {
    if i < |r.log| && r.log[i].Pieces? then |r.log[i].sent| else 0
  }

  /** A datagram with a piece of a fragment takes all that is left of the fragment, or all the room;
      and nothing goes out only when there is no room for anything. */
  lemma PieceIsFull(m: Groups, arrivals: seq<Fragment>, start: Key, r: Reader, verdict: bool, room: int)
    requires Cut(m, arrivals) && Invariant(m, arrivals, start, r)
    requires var r' := Poll(r, arrivals, start, verdict, room); r'.current >= 0 && r'.log[r'.current].Pieces?
    ensures var r' := Poll(r, arrivals, start, verdict, room);
            var (f, ds, n) := (arrivals[r'.current], r'.log[r'.current].sent, PiecesSent(r, r'.current));
            if |ds| == n then
              r'.isCurrentSent || room < 0 || (room == 0 && f.data != [])
            else
              && |ds| == n + 1 && room >= 0
              && (ds[n].offset + |ds[n].data| == f.End() || |ds[n].data| == room)
  {
    NothingAhead(m, arrivals, start, r);
    InvariantIsReady(m, arrivals, start, r);
    Settles(m, arrivals, start, r);
    T.ChoiceKeepsSent(m, arrivals, start, r);
    PollUnfold(r, arrivals, start, verdict, room);
    hide Cut, Books, History, Choice, Invariant, Updated, Poll, Seek, Send, D.Wire, D.Sent, Sound;
    var (r1, isNew) := Choice(r, arrivals, start);
    if r.current >= 0 {
      SeekEnds(arrivals, start, r);
    }
    if r1.current >= 0 && !r1.isCurrentSent {
      SoundHistory(m, arrivals, arrivals[FirstFrom(arrivals, start, 0)].key, r1);
      D.UnderwayRoom(arrivals, arrivals[FirstFrom(arrivals, start, 0)].key, r1);
      SendIsFull(arrivals, r1, room, isNew && verdict && MaySkip(arrivals[r1.current]));
    }
  }

  lemma SoundHistory(m: Groups, arrivals: seq<Fragment>, k0: Key, r: Reader)
    requires Sound(m, arrivals, k0, r)
    ensures History(arrivals, k0, r)
  {
  }

  lemma SendIsFull(arrivals: seq<Fragment>, r: Reader, room: int, skip: bool)
    requires Ready(r, arrivals) && r.current >= 0 && !r.isCurrentSent
    requires arrivals[r.current].data == [] || r.lengthSent < |arrivals[r.current].data|
    ensures var (f, n) := (arrivals[r.current], |r.log[r.current].sent|);
            var r' := Send(r, f, room, skip);
            && r'.current == r.current && |r'.log| == |r.log|
            && (r'.log[r.current].Pieces? ==>
                  var ds := r'.log[r.current].sent;
                  if |ds| == n then room < 0 || (room == 0 && f.data != [])
                  else |ds| == n + 1 && room >= 0 && (ds[n].offset + |ds[n].data| == f.End() || |ds[n].data| == room))
  {
    hide Updated;
  }

  lemma NothingAhead(m: Groups, arrivals: seq<Fragment>, start: Key, r: Reader)
    requires Invariant(m, arrivals, start, r)
    ensures |r.log| == r.current + 1
  {
  }

  // ----- The list names only what was sent -----

  ghost predicate Earned(arrivals: seq<Fragment>, log: seq<Fate>, objects: seq<SentObject>) {
    forall i :: 0 <= i < |objects| ==> EmittedFor(arrivals, log, objects[i].key)
  }

  lemma EmittedStays(arrivals: seq<Fragment>, log: seq<Fate>, now: seq<Fate>, k: Key)
    requires EmittedFor(arrivals, log, k) && |log| <= |now| <= |arrivals|
    requires forall a :: 0 <= a < |log| && Emitted(log[a]) ==> Emitted(now[a])
    ensures EmittedFor(arrivals, now, k)
  {
    var a :| 0 <= a < |log| <= |arrivals| && arrivals[a].key == k && Emitted(log[a]);
    assert Emitted(now[a]);
  }

  lemma {:induction false} PruneIsTail(objects: seq<SentObject>) returns (n: nat)
    ensures n <= |objects| && Prune(objects) == objects[n..]
  {
    if |objects| >= 2 && objects[0].isSent && InSequence(objects[0], objects[1]) {
      n := PruneIsTail(objects[1..]);
      n := n + 1;
    } else {
      n := 0;
    }
  }

  /** An update names no other object than the one that was sent. */
  lemma UpdateNames(objects: seq<SentObject>, f: Fragment, skip: bool, nextOffset: nat, copied: nat, i: nat)
    requires i < |Updated(objects, f, skip, nextOffset, copied)|
    ensures var k := Updated(objects, f, skip, nextOffset, copied)[i].key;
            k == f.key || exists j :: 0 <= j < |objects| && objects[j].key == k
  {
    hide Prune, Finishes;
    UpdatedUnfold(objects, f, skip, nextOffset, copied);
    var with := WithEntry(objects, f);
    var x := DatagramPublisher.Find(with, f.key);
    var now := with[x := Noted(with[x], f, skip, nextOffset, copied)];
    NotedKey(with[x], f, skip, nextOffset, copied);
    hide Noted, Updated;
    var n := PruneIsTail(now);
    var p := Place(objects, f.key);
    forall y | 0 <= y < |now| ensures now[y].key == f.key || exists j :: 0 <= j < |objects| && objects[j].key == now[y].key {
      if DatagramPublisher.Find(objects, f.key) >= 0 {
        assert now[y].key == objects[y].key;
      } else if y != p {
        assert with[y] == objects[if y < p then y else y - 1];
      }
    }
  }

  lemma SendEarns(arrivals: seq<Fragment>, r: Reader, room: int, skip: bool)
    requires Ready(r, arrivals) && r.current >= 0 && !r.isCurrentSent && Earned(arrivals, r.log, r.objects)
    ensures var r' := Send(r, arrivals[r.current], room, skip); Earned(arrivals, r'.log, r'.objects)
  {
    hide Updated;
    var (f, r') := (arrivals[r.current], Send(r, arrivals[r.current], room, skip));
    if r' != r {
      assert Emitted(r'.log[r.current]) && |r'.log| == |r.log| <= |arrivals|;
      forall i | 0 <= i < |r'.objects| ensures EmittedFor(arrivals, r'.log, r'.objects[i].key) {
        var copied := r'.lengthSent - r.lengthSent;
        UpdateNames(r.objects, f, skip, (if skip then 0 else f.offset + r.lengthSent) + copied, copied, i);
        if r'.objects[i].key != f.key {
          var j :| 0 <= j < |r.objects| && r.objects[j].key == r'.objects[i].key;
          EmittedStays(arrivals, r.log, r'.log, r.objects[j].key);
        }
      }
    }
  }

  lemma {:induction false} SeekEarns(arrivals: seq<Fragment>, start: Key, r: Reader)
    requires Ready(r, arrivals) && r.current >= 0 && Earned(arrivals, r.log, r.objects)
    ensures var r1 := Seek(r, arrivals, start).0; |r1.log| <= |arrivals| ==> Earned(arrivals, r1.log, r1.objects)
    decreases |arrivals| - r.current
  {
    hide Seek, Judge, EmittedFor;
    SeekUnfold(r, arrivals, start);
    if r.isCurrentSent && r.current + 1 < |arrivals| {
      forall i | 0 <= i < |r.objects| ensures EmittedFor(arrivals, Onward(r).log, r.objects[i].key) && EmittedFor(arrivals, PassOver(Onward(r)).log, r.objects[i].key) {
        EmittedStays(arrivals, r.log, Onward(r).log, r.objects[i].key);
        EmittedStays(arrivals, r.log, PassOver(Onward(r)).log, r.objects[i].key);
      }
      if Judge(r.objects, arrivals[r.current + 1].key, start).Skipped? {
        SeekEarns(arrivals, start, PassOver(Onward(r)));
      }
    }
  }

  lemma PollEarns(m: Groups, arrivals: seq<Fragment>, start: Key, r: Reader, verdict: bool, room: int)
    requires Cut(m, arrivals) && Invariant(m, arrivals, start, r) && Earned(arrivals, r.log, r.objects)
    ensures var r' := Poll(r, arrivals, start, verdict, room); Earned(arrivals, r'.log, r'.objects)
  {
    NothingAhead(m, arrivals, start, r);
    InvariantIsReady(m, arrivals, start, r);
    hide Cut, Books, History, Invariant, Choice, Poll, Seek, Send, EmittedFor;
    Settles(m, arrivals, start, r);
    PollUnfold(r, arrivals, start, verdict, room);
    var (r1, isNew) := Choice(r, arrivals, start);
    if r.current >= 0 {
      SeekEarns(arrivals, start, r);
    }
    if r1.current >= 0 && !r1.isCurrentSent {
      SendEarns(arrivals, r1, room, isNew && verdict && MaySkip(arrivals[r1.current]));
    }
  }

  lemma InvariantIsReady(m: Groups, arrivals: seq<Fragment>, start: Key, r: Reader)
    requires Invariant(m, arrivals, start, r)
    ensures Ready(r, arrivals) && (r.current < 0 ==> r == NEW_READER)
  {
  }

  lemma {:induction false} RunEarns(m: Groups, start: Key, steps: seq<D.Step>)
    requires Cut(m, D.Run(start, steps).arrivals)
    ensures var w := D.Run(start, steps); Earned(w.arrivals, w.reader.log, w.reader.objects)
  {
    hide Cut, Poll, EmittedFor;
    if steps != [] {
      var (before, step) := (steps[..|steps| - 1], steps[|steps| - 1]);
      var w := D.Run(start, before);
      match step {
        case Arrive(f) =>
          D.CutBefore(m, w.arrivals, f);
          RunEarns(m, start, before);
          forall i | 0 <= i < |w.reader.objects| ensures EmittedFor(w.arrivals + [f], w.reader.log, w.reader.objects[i].key) {
            D.NamesGrow(w.arrivals, f, w.reader.log, w.reader.objects[i].key);
          }
        case Offer(verdict, room) =>
          RunEarns(m, start, before);
          D.RunKeepsInvariant(m, start, before);
          PollEarns(m, w.arrivals, start, w.reader, verdict, room);
      }
    }
  }

  // ----- The list remembers how large groups are -----

  /** An entry says how large the previous group is, if any datagram of its object was sent for a fragment
      that says so. */
  ghost predicate Tells(arrivals: seq<Fragment>, log: seq<Fate>, o: SentObject) {
    forall a :: 0 <= a < |log| <= |arrivals| && arrivals[a].key == o.key && Emitted(log[a]) && arrivals[a].previousSize > 0 ==> o.previousSize > 0
  }

  ghost predicate AllTell(arrivals: seq<Fragment>, log: seq<Fate>, objects: seq<SentObject>) {
    forall i :: 0 <= i < |objects| ==> Tells(arrivals, log, objects[i])
  }

  lemma NotedTells(arrivals: seq<Fragment>, log: seq<Fate>, o: SentObject, c: nat, fate: Fate, skip: bool, nextOffset: nat, copied: nat)
    requires c < |log| <= |arrivals| && o.key == arrivals[c].key && Tells(arrivals, log, o)
    ensures Tells(arrivals, log[c := fate], Noted(o, arrivals[c], skip, nextOffset, copied))
  {
    hide Emitted;
    var now := Noted(o, arrivals[c], skip, nextOffset, copied);
    forall a | 0 <= a < |log| && arrivals[a].key == o.key && Emitted(log[c := fate][a]) && arrivals[a].previousSize > 0 ensures now.previousSize > 0 {
      if a != c {
        assert Emitted(log[a]);
      }
    }
  }

  lemma OtherTells(arrivals: seq<Fragment>, log: seq<Fate>, o: SentObject, c: nat, fate: Fate)
    requires c < |log| <= |arrivals| && o.key != arrivals[c].key && Tells(arrivals, log, o)
    ensures Tells(arrivals, log[c := fate], o)
  {
    hide Emitted;
  }

  /** A new entry has nothing to tell yet. */
  lemma NewTells(m: Groups, arrivals: seq<Fragment>, k0: Key, r: Reader, o: SentObject)
    requires Sound(m, arrivals, k0, r) && !r.isCurrentSent && o.key == arrivals[r.current].key && Find(r.objects, o.key) < 0
    ensures Tells(arrivals, r.log, o)
  {
    hide History, Done, SentOf;
    Unrecorded(m, arrivals, r.log, k0, r.objects, o.key);
  }

  /** The list with an entry for the current fragment. */
  lemma WithEntryTells(m: Groups, arrivals: seq<Fragment>, k0: Key, r: Reader)
    requires Sound(m, arrivals, k0, r) && !r.isCurrentSent && AllTell(arrivals, r.log, r.objects) && 0 <= r.current < |arrivals|
    ensures AllTell(arrivals, r.log, WithEntry(r.objects, arrivals[r.current]))
  {
    hide Sound, Tells, Place;
    var f := arrivals[r.current];
    var now := WithEntry(r.objects, f);
    if Find(r.objects, f.key) < 0 {
      NewTells(m, arrivals, k0, r, SentObject(f.key, 0, f.objectLength, 0, false, false));
      var p := Place(r.objects, f.key);
      forall i | 0 <= i < |now| ensures Tells(arrivals, r.log, now[i]) {
        if i != p {
          assert now[i] == r.objects[if i < p then i else i - 1];
        }
      }
    }
  }

  lemma UpdatedTells(m: Groups, arrivals: seq<Fragment>, k0: Key, r: Reader, fate: Fate, skip: bool, nextOffset: nat, copied: nat)
    requires Sound(m, arrivals, k0, r) && !r.isCurrentSent && AllTell(arrivals, r.log, r.objects)
    requires 0 <= r.current < |r.log| <= |arrivals|
    ensures AllTell(arrivals, r.log[r.current := fate], Updated(r.objects, arrivals[r.current], skip, nextOffset, copied))
  {
    WithEntryTells(m, arrivals, k0, r);
    UpdatedUnfold(r.objects, arrivals[r.current], skip, nextOffset, copied);
    WithEntrySorted(m, arrivals, k0, r);
    hide Sound, Tells, Updated, Prune, WithEntry, Noted, Finishes;
    var (f, with) := (arrivals[r.current], WithEntry(r.objects, arrivals[r.current]));
    var x := Find(with, f.key);
    var now := with[x := Noted(with[x], f, skip, nextOffset, copied)];
    NotedTells(arrivals, r.log, with[x], r.current, fate, skip, nextOffset, copied);
    forall i | 0 <= i < |now| ensures Tells(arrivals, r.log[r.current := fate], now[i]) {
      if i != x {
        OtherTells(arrivals, r.log, with[i], r.current, fate);
      }
    }
    var n := PruneIsTail(now);
  }

  /** No two entries of the list have the same key. */
  lemma WithEntrySorted(m: Groups, arrivals: seq<Fragment>, k0: Key, r: Reader)
    requires Sound(m, arrivals, k0, r) && r.current < |arrivals|
    ensures var with := WithEntry(r.objects, arrivals[r.current]);
            forall i, j :: 0 <= i < j < |with| ==> with[i].key != with[j].key
  {
    var f := arrivals[r.current];
    PlaceAt(r.objects, f.key);
  }

  lemma SendTells(m: Groups, arrivals: seq<Fragment>, k0: Key, r: Reader, room: int, skip: bool)
    requires Sound(m, arrivals, k0, r) && !r.isCurrentSent && AllTell(arrivals, r.log, r.objects) && |r.log| == r.current + 1 <= |arrivals|
    requires Ready(r, arrivals) && r.current >= 0
    ensures var r' := Send(r, arrivals[r.current], room, skip); AllTell(arrivals, r'.log, r'.objects)
  {
    hide Updated, Sound, AllTell;
    var (f, r') := (arrivals[r.current], Send(r, arrivals[r.current], room, skip));
    if r' != r {
      var copied := r'.lengthSent - r.lengthSent;
      UpdatedTells(m, arrivals, k0, r, r'.log[r.current], skip, (if skip then 0 else f.offset + r.lengthSent) + copied, copied);
    }
  }

  lemma {:induction false} SeekTells(arrivals: seq<Fragment>, start: Key, r: Reader)
    requires Ready(r, arrivals) && r.current >= 0 && AllTell(arrivals, r.log, r.objects)
    ensures var r1 := Seek(r, arrivals, start).0; AllTell(arrivals, r1.log, r1.objects)
    decreases |arrivals| - r.current
  {
    hide Seek, Judge;
    SeekUnfold(r, arrivals, start);
    if r.isCurrentSent && r.current + 1 < |arrivals| {
      QuietTells(arrivals, r, Onward(r));
      QuietTells(arrivals, r, PassOver(Onward(r)));
      if Judge(r.objects, arrivals[r.current + 1].key, start).Skipped? {
        SeekTells(arrivals, start, PassOver(Onward(r)));
      }
    }
  }

  lemma QuietTells(arrivals: seq<Fragment>, r: Reader, r': Reader)
    requires AllTell(arrivals, r.log, r.objects) && r'.objects == r.objects && |r'.log| == |r.log| + 1 <= |arrivals|
    requires r'.log[..|r.log|] == r.log && !Emitted(r'.log[|r.log|])
    ensures AllTell(arrivals, r'.log, r'.objects)
  {
    forall i | 0 <= i < |r'.objects| ensures Tells(arrivals, r'.log, r'.objects[i]) {
      assert Tells(arrivals, r.log, r.objects[i]);
      forall a | 0 <= a < |r'.log| && arrivals[a].key == r'.objects[i].key && Emitted(r'.log[a]) && arrivals[a].previousSize > 0
        ensures r'.objects[i].previousSize > 0 {
        assert r'.log[..|r.log|][a] == r.log[a];
      }
    }
  }

  lemma PollTells(m: Groups, arrivals: seq<Fragment>, start: Key, r: Reader, verdict: bool, room: int)
    requires Cut(m, arrivals) && Invariant(m, arrivals, start, r) && AllTell(arrivals, r.log, r.objects)
    ensures var r' := Poll(r, arrivals, start, verdict, room); AllTell(arrivals, r'.log, r'.objects)
  {
    NothingAhead(m, arrivals, start, r);
    InvariantIsReady(m, arrivals, start, r);
    Settles(m, arrivals, start, r);
    T.ChoiceKeepsSent(m, arrivals, start, r);
    PollUnfold(r, arrivals, start, verdict, room);
    hide Cut, Books, History, Choice, Invariant, Poll, Seek, Send, D.Wire, D.Sent, Sound, Tells;
    var (r1, isNew) := Choice(r, arrivals, start);
    if r.current >= 0 {
      SeekTells(arrivals, start, r);
    }
    if r1.current >= 0 && !r1.isCurrentSent {
      SendTells(m, arrivals, arrivals[FirstFrom(arrivals, start, 0)].key, r1, room, isNew && verdict && MaySkip(arrivals[r1.current]));
    }
  }

  lemma ArriveTells(arrivals: seq<Fragment>, f: Fragment, r: Reader)
    requires AllTell(arrivals, r.log, r.objects) && |r.log| <= |arrivals|
    ensures AllTell(arrivals + [f], r.log, r.objects)
  {
    forall i | 0 <= i < |r.objects| ensures Tells(arrivals + [f], r.log, r.objects[i]) {
      assert Tells(arrivals, r.log, r.objects[i]);
    }
  }

  lemma {:induction false} RunTells(m: Groups, start: Key, steps: seq<D.Step>)
    requires Cut(m, D.Run(start, steps).arrivals)
    ensures var w := D.Run(start, steps); AllTell(w.arrivals, w.reader.log, w.reader.objects) && |w.reader.log| <= |w.arrivals|
  {
    hide Cut, Poll, AllTell;
    if steps != [] {
      var (before, step) := (steps[..|steps| - 1], steps[|steps| - 1]);
      var w := D.Run(start, before);
      match step {
        case Arrive(f) =>
          D.CutBefore(m, w.arrivals, f);
          RunTells(m, start, before);
          ArriveTells(w.arrivals, f, w.reader);
        case Offer(verdict, room) =>
          RunTells(m, start, before);
          D.RunKeepsInvariant(m, start, before);
          PollTells(m, w.arrivals, start, w.reader, verdict, room);
      }
    } else {
      NothingToTell();
    }
  }

  lemma NothingToTell()
    ensures AllTell([], NEW_READER.log, NEW_READER.objects)
  {
  }

  /** Over every run: as soon as a datagram was sent for a fragment that says how large the group before
      its object is, the entry of the object, as long as there is one, says it as well, and says it
      right; that is what lets the list be pruned across the ends of groups. */
  lemma SizesAreRemembered(m: Groups, start: Key, steps: seq<D.Step>, i: nat, a: nat)
    requires Cut(m, D.Run(start, steps).arrivals)
    requires var w := D.Run(start, steps);
             && i < |w.reader.objects| && a < |w.reader.log| <= |w.arrivals|
             && w.arrivals[a].key == w.reader.objects[i].key && Emitted(w.reader.log[a]) && w.arrivals[a].previousSize > 0
    ensures var (o, g) := (D.Run(start, steps).reader.objects[i], D.Run(start, steps).reader.objects[i].key.group);
            o.key.id == 0 && 0 < g <= |m| && o.previousSize == |m[g - 1]|
  {
    hide Cut, D.Run, Poll, History, LowWater, AllRecorded, Done, SentOf, Dropped;
    RunTells(m, start, steps);
    D.RunKeepsInvariant(m, start, steps);
    var w := D.Run(start, steps);
    assert Tells(w.arrivals, w.reader.log, w.reader.objects[i]);
    assert True(m, w.arrivals, w.reader.log, w.arrivals[FirstFrom(w.arrivals, start, 0)].key, w.reader.objects[i]);
  }

  // ----- A verdict to drop an object -----

  lemma NewIffFirst(m: Groups, arrivals: seq<Fragment>, start: Key, k0: Key, r: Reader)
    requires Sound(m, arrivals, k0, r) && r.isCurrentSent && r.current + 1 < |arrivals| && Earned(arrivals, r.log, r.objects)
    requires !Judge(r.objects, arrivals[r.current + 1].key, start).Skipped?
    ensures Judge(r.objects, arrivals[r.current + 1].key, start).New? <==> FirstOf(arrivals, r.current + 1)
  {
    var (i, k) := (Find(r.objects, arrivals[r.current + 1].key), arrivals[r.current + 1].key);
    if i >= 0 {
      assert EmittedFor(arrivals, r.log, k);
    } else {
      TakenIsRight(m, arrivals, start, k0, r);
      NewIsFirst(m, arrivals, k0, r);
    }
  }

  lemma {:induction false} SeekNewIffFirst(m: Groups, arrivals: seq<Fragment>, start: Key, k0: Key, r: Reader)
    requires Cut(m, arrivals) && Sound(m, arrivals, k0, r) && !Before(k0, start) && Earned(arrivals, r.log, r.objects)
    ensures var (r1, isNew) := Seek(r, arrivals, start);
            0 <= r1.current < |arrivals| && (r.isCurrentSent && !r1.isCurrentSent ==> (isNew <==> FirstOf(arrivals, r1.current)))
    decreases |arrivals| - r.current
  {
    hide History, Books, Judge, Cut, Before, FirstOf, Standing, Seek, EmittedFor, Sound;
    Parts(m, arrivals, k0, r);
    SeekUnfold(r, arrivals, start);
    if r.isCurrentSent && r.current + 1 < |arrivals| {
      var over := PassOver(Onward(r));
      if Judge(r.objects, arrivals[r.current + 1].key, start).Skipped? {
        PassOverKeeps(m, arrivals, start, k0, r);
        forall i | 0 <= i < |r.objects| ensures EmittedFor(arrivals, over.log, r.objects[i].key) {
          EmittedStays(arrivals, r.log, over.log, r.objects[i].key);
        }
        SeekNewIffFirst(m, arrivals, start, k0, over);
      } else {
        NewIffFirst(m, arrivals, start, k0, r);
      }
    }
  }

  /** Over every run: an offer with room for a header that moves on to a fragment replaces the object
      by a placeholder if and only if the verdict says so and the fragment is the first to come of its
      object, has data, and the object does not open a group. */
  lemma VerdictIsObeyed(m: Groups, start: Key, steps: seq<D.Step>, verdict: bool, room: nat)
    requires Cut(m, D.Run(start, steps).arrivals)
    requires var (w, w') := (D.Run(start, steps), D.Run(start, steps + [D.Offer(verdict, room)]));
             w.reader.current >= 0 && w.reader.isCurrentSent && w'.reader.current > w.reader.current && w'.reader.current < |w'.reader.log| && !w'.reader.log[w'.reader.current].Silent?
    ensures var (w, r') := (D.Run(start, steps), D.Run(start, steps + [D.Offer(verdict, room)]).reader);
            && r'.current < |w.arrivals|
            && var f := w.arrivals[r'.current];
               r'.log[r'.current].Placeheld? <==> verdict && f.key.id != 0 && f.data != [] && FirstOf(w.arrivals, r'.current)
  {
    D.RunUnfold(start, steps, D.Offer(verdict, room));
    D.RunKeepsInvariant(m, start, steps);
    RunEarns(m, start, steps);
    hide D.Run, Cut, Earned;
    var w := D.Run(start, steps);
    PollObeys(m, w.arrivals, start, w.reader, verdict, room);
  }

  lemma PollObeys(m: Groups, arrivals: seq<Fragment>, start: Key, r: Reader, verdict: bool, room: nat)
    requires Cut(m, arrivals) && Invariant(m, arrivals, start, r) && Earned(arrivals, r.log, r.objects)
    requires r.current >= 0 && r.isCurrentSent
    ensures var r' := Poll(r, arrivals, start, verdict, room);
            r'.current > r.current && r'.current < |r'.log| && !r'.log[r'.current].Silent? ==>
              && r'.current < |arrivals|
              && var f := arrivals[r'.current];
                 r'.log[r'.current].Placeheld? <==> verdict && f.key.id != 0 && f.data != [] && FirstOf(arrivals, r'.current)
  {
    hide Cut, Books, History, Choice, Updated, Poll, Earned, Seek, FirstOf;
    Settles(m, arrivals, start, r);
    PollUnfold(r, arrivals, start, verdict, room);
    var i := FirstFrom(arrivals, start, 0);
    SoundIsInvariant(m, arrivals, start, r);
    SeekNewIffFirst(m, arrivals, start, arrivals[i].key, r);
    SeekEnds(arrivals, start, r);
  }

  /** A search that settles on nothing has passed everything over. */
  lemma {:induction false} SeekEnds(arrivals: seq<Fragment>, start: Key, r: Reader)
    requires Ready(r, arrivals) && r.current >= 0
    ensures var r1 := Seek(r, arrivals, start).0;
            r1.isCurrentSent && r1.current > r.current ==> |r1.log| == r1.current + 1 && r1.log[r1.current].Silent?
    decreases |arrivals| - r.current
  {
    hide Seek, Judge;
    SeekUnfold(r, arrivals, start);
    if r.isCurrentSent && r.current + 1 < |arrivals| && Judge(r.objects, arrivals[r.current + 1].key, start).Skipped? {
      SeekEnds(arrivals, start, PassOver(Onward(r)));
      SeekSettles(arrivals, start, PassOver(Onward(r)));
    }
  }

  // ----- How short the list is -----

  /** The list does not begin with an object that is done and is followed by the object right behind. */
  predicate IsPruned(objects: seq<SentObject>) {
    |objects| >= 2 && objects[0].isSent ==>
      var (a, b) := (objects[0].key, objects[1].key);
      && b != Media.After(a)
      && !(b == Key(a.group + 1, 0) && objects[1].previousSize == a.id + 1)
  }

  lemma {:induction false} PruneEnds(objects: seq<SentObject>)
    ensures IsPruned(Prune(objects))
  {
    if |objects| >= 2 && objects[0].isSent && InSequence(objects[0], objects[1]) {
      PruneEnds(objects[1..]);
    }
  }

  /** What the list counts of object k. */
  function Counted(objects: seq<SentObject>, k: Key): nat {
    var i := DatagramPublisher.Find(objects, k);
    if i >= 0 then objects[i].bytesSent else 0
  }

  /** Whenever the bytes that are counted for an object come to its length, the list is cut down as far
      as it goes. */
  lemma FinishedIsPruned(objects: seq<SentObject>, f: Fragment, skip: bool, nextOffset: nat, copied: nat)
    requires forall i :: 0 <= i < |objects| && objects[i].key == f.key ==> objects[i].length == f.objectLength
    requires Counted(objects, f.key) + copied >= f.objectLength
    ensures IsPruned(Updated(objects, f, skip, nextOffset, copied))
  {
    hide IsPruned, Prune;
    UpdatedUnfold(objects, f, skip, nextOffset, copied);
    var with := WithEntry(objects, f);
    var i := DatagramPublisher.Find(with, f.key);
    EntryOf(objects, f, i);
    hide WithEntry, Noted, Updated;
    PruneEnds(with[i := Noted(with[i], f, skip, nextOffset, copied)]);
  }

  lemma EntryOf(objects: seq<SentObject>, f: Fragment, i: nat)
    requires i < |WithEntry(objects, f)| && i == DatagramPublisher.Find(WithEntry(objects, f), f.key)
    ensures var (o, x) := (WithEntry(objects, f)[i], DatagramPublisher.Find(objects, f.key));
            if x >= 0 then o == objects[x] else o == SentObject(f.key, 0, f.objectLength, 0, false, false)
  {
    if DatagramPublisher.Find(objects, f.key) < 0 {
      NewEntryIndex(objects, f, Place(objects, f.key), i);
    }
  }
}
