/** The datagram publisher and the acknowledgement records together: what the publisher sends is
    what the records ask for, so that the promises of both hold over every interleaving of
    arrivals, offers, acknowledgements and losses. */
module DatagramTransport {
  import opened Media
  import opened DatagramPublisher
  import opened DatagramRuns
  import D = DatagramDelivery
  import opened AckHorizon
  import A = AckRuns
  import S = AckSafety

  // ----- Datagrams as the records see them -----

  /** What quicrq_datagram_ack_init is given for a datagram of fragment f: the header of the
      datagram, but the sizes that the fragment documents. */
  function Shipped(f: Fragment, d: Datagram): Shipment {
    Shipment(f.key, d.offset, d.flags, f.previousSize, |d.data|, f.objectLength)
  }

  /** s was sent for fragment a. */
  ghost predicate SentFor(arrivals: seq<Fragment>, log: seq<Fate>, a: nat, s: Shipment) {
    && a < |log| <= |arrivals|
    && exists x :: 0 <= x < |D.Sent(log[a])| && s == Shipped(arrivals[a], D.Sent(log[a])[x])
  }

  ghost predicate WasSent(arrivals: seq<Fragment>, log: seq<Fate>, s: Shipment) {
    exists a: nat :: SentFor(arrivals, log, a, s)
  }

  /** The datagram that the last offer sent, if it sent any. */
  function NewShipment(arrivals: seq<Fragment>, before: Reader, now: Reader): Option<Shipment> {
    if |D.Wire(now.log)| <= |D.Wire(before.log)| || now.log == [] || |now.log| > |arrivals| then None
    else
      var ds := D.Sent(now.log[|now.log| - 1]);
      if ds == [] then None else Some(Shipped(arrivals[|now.log| - 1], ds[|ds| - 1]))
  }

  // ----- Pieces lie inside their fragment -----

  function Range(f: Fragment): Shipment {
    Shipment(f.key, f.offset, f.flags, f.previousSize, |f.data|, f.objectLength)
  }

  lemma {:induction false} PieceInside(f: Fragment, ds: seq<Datagram>, n: nat, x: nat)
    requires Tiles(f, ds, n) && x < |ds|
    ensures A.Inside(Shipped(f, ds[x]), Range(f)) && Shipped(f, ds[x]).End() <= f.offset + n
    ensures Shipped(f, ds[x]).length > 0 || f.data == []
  {
    var d := ds[|ds| - 1];
    if x < |ds| - 1 {
      PieceInside(f, ds[..|ds| - 1], n - |d.data|, x);
    }
  }

  lemma RangesSeparate(f: Fragment, g: Fragment)
    requires Separate(f, g)
    ensures A.Separate(Range(f), Range(g))
  {
  }

  lemma BothInside(s: Shipment, t: Shipment, f: Fragment, g: Fragment)
    requires A.Inside(s, Range(f)) && A.Inside(t, Range(g)) && Separate(f, g)
    ensures A.Separate(s, t) && A.Separate(t, s)
  {
    RangesSeparate(f, g);
    A.InsideSeparate(s, Range(f), Range(g));
  }

  lemma SentInside(m: Groups, arrivals: seq<Fragment>, k0: Key, r: Reader, a: nat, s: Shipment)
    requires History(arrivals, k0, r) && SentFor(arrivals, r.log, a, s) && r.log[a].Pieces?
    ensures A.Inside(s, Range(arrivals[a]))
  {
    assert Right(arrivals, k0, r, a);
    var ds := r.log[a].sent;
    var x :| 0 <= x < |ds| && s == Shipped(arrivals[a], ds[x]);
    PieceInside(arrivals[a], ds, if a == r.current && !r.isCurrentSent then r.lengthSent else |arrivals[a].data|, x);
  }

  /** What comes next for the current fragment repeats nothing that was sent before. */
  lemma NextPieceIsFresh(m: Groups, arrivals: seq<Fragment>, k0: Key, r: Reader, n: nat, a: nat, t: Shipment)
    requires Cut(m, arrivals) && Sound(m, arrivals, k0, r) && !r.isCurrentSent && SentFor(arrivals, r.log, a, t)
    requires r.lengthSent + n <= |arrivals[r.current].data| && (n > 0 || arrivals[r.current].data == [])
    ensures var f := arrivals[r.current];
            A.Separate(t, Shipped(f, PieceOf(f, r.lengthSent, r.lengthSent + n)))
  {
    var f := arrivals[r.current];
    var s := Shipped(f, PieceOf(f, r.lengthSent, r.lengthSent + n));
    assert Right(arrivals, k0, r, r.current) && Right(arrivals, k0, r, a);
    if a == r.current {
      var ds := r.log[a].sent;
      var x :| 0 <= x < |ds| && t == Shipped(f, ds[x]);
      PieceInside(f, ds, r.lengthSent, x);
    } else if r.log[a].Pieces? {
      SentInside(m, arrivals, k0, r, a, t);
      assert A.Inside(s, Range(f));
      assert Separate(arrivals[a], f);
      BothInside(t, s, arrivals[a], f);
    }
  }

  /** A placeholder for an object of which nothing was sent repeats nothing. */
  lemma PlaceholderIsFresh(arrivals: seq<Fragment>, r: Reader, a: nat, t: Shipment)
    requires 0 <= r.current < |arrivals| && |r.log| == r.current + 1 && SentFor(arrivals, r.log, a, t)
    requires FirstOf(arrivals, r.current) && Blank(r.log[r.current])
    ensures t.key != arrivals[r.current].key
  {
  }

  // ----- One offer -----

  lemma SentStays(arrivals: seq<Fragment>, log: seq<Fate>, now: seq<Fate>, s: Shipment)
    requires |log| <= |now| <= |arrivals| && WasSent(arrivals, log, s)
    requires forall a :: 0 <= a < |log| ==> D.Sent(log[a]) <= D.Sent(now[a])
    ensures WasSent(arrivals, now, s)
  {
    var a: nat :| SentFor(arrivals, log, a, s);
    var x :| 0 <= x < |D.Sent(log[a])| && s == Shipped(arrivals[a], D.Sent(log[a])[x]);
    assert D.Sent(now[a])[x] == D.Sent(log[a])[x];
    assert SentFor(arrivals, now, a, s);
  }

  /** Choosing a fragment sends nothing: the log only gains entries that carry no datagram. */
  lemma {:induction false} SeekAppends(r: Reader, arrivals: seq<Fragment>, start: Key)
    requires r.current >= 0 && r.log != []
    ensures var log := Seek(r, arrivals, start).0.log;
            |r.log| <= |log| && log[..|r.log|] == r.log && forall a :: |r.log| <= a < |log| ==> D.Sent(log[a]) == []
    decreases |arrivals| - r.current
  {
    hide Judge, Seek;
    SeekUnfold(r, arrivals, start);
    if r.isCurrentSent && r.current + 1 < |arrivals| {
      if Judge(r.objects, arrivals[r.current + 1].key, start).Skipped? {
        var next := PassOver(Onward(r));
        assert next.log == r.log + [Silent];
        SeekAppends(next, arrivals, start);
        var log := Seek(next, arrivals, start).0.log;
        assert log[..|r.log|] == log[..|next.log|][..|r.log|];
        assert log[|r.log|] == log[..|next.log|][|r.log|];
      }
    }
  }

  /** What a call of Send adds to the log. */
  lemma SendAdds(arrivals: seq<Fragment>, r: Reader, room: int, skip: bool)
    requires Ready(r, arrivals) && r.current >= 0 && !r.isCurrentSent && (skip ==> Blank(r.log[r.current]))
    ensures var (f, r') := (arrivals[r.current], Send(r, arrivals[r.current], room, skip));
            var n := r'.lengthSent - r.lengthSent;
            r' == r ||
            (&& n >= 0 && r.lengthSent + n <= |f.data| && (!skip ==> n > 0 || f.data == [])
             && r'.log == r.log[r.current := r'.log[r.current]]
             && D.Sent(r'.log[r.current]) ==
                D.Sent(r.log[r.current]) + [if skip then PlaceholderFor(f) else PieceOf(f, r.lengthSent, r.lengthSent + n)])
  {
    hide Updated;
  }

  lemma WireCount(log: seq<Fate>, fate: Fate)
    requires log != []
    ensures |D.Wire(log[|log| - 1 := fate])| == |D.Wire(log)| - |D.Sent(log[|log| - 1])| + |D.Sent(fate)|
  {
    D.WireOfLast(log, fate);
    D.WireOfLast(log, log[|log| - 1]);
    assert log[|log| - 1 := log[|log| - 1]] == log;
  }

  /** The reader once it has chosen a fragment: everything sent before is still on record. */
  lemma ChoiceKeepsSent(m: Groups, arrivals: seq<Fragment>, start: Key, r: Reader)
    requires Cut(m, arrivals) && Invariant(m, arrivals, start, r)
    ensures var (r1, isNew) := Choice(r, arrivals, start);
            && Ready(r1, arrivals) && D.Wire(r1.log) == D.Wire(r.log) && |r.log| <= |r1.log| <= |arrivals|
            && (forall a :: 0 <= a < |r.log| ==> D.Sent(r.log[a]) <= D.Sent(r1.log[a]))
            && (forall a :: |r.log| <= a < |r1.log| ==> D.Sent(r1.log[a]) == [])
            && (forall a :: 0 <= a < |r.log| ==> r1.log[a] == r.log[a])
            && (r1.current >= 0 ==>
                  && FirstFrom(arrivals, start, 0) < |arrivals|
                  && Sound(m, arrivals, arrivals[FirstFrom(arrivals, start, 0)].key, r1)
                  && (isNew ==> !r1.isCurrentSent && FirstOf(arrivals, r1.current) && Blank(r1.log[r1.current])))
  {
    hide Cut, History, Books, Standing, Seek, Begin, D.Wire, FirstOf;
    PollUnfold(r, arrivals, start, false, 0);
    BeginKeeps(m, arrivals, start);
    if r.current < 0 {
      D.BeginIsQuiet(arrivals, start);
      BeginSendsNothing(arrivals, start);
    } else {
      SoundIsInvariant(m, arrivals, start, r);
      SeekKeeps(m, arrivals, start, arrivals[FirstFrom(arrivals, start, 0)].key, r);
      D.SeekIsQuiet(r, arrivals, start);
      SeekAppends(r, arrivals, start);
      var log := Seek(r, arrivals, start).0.log;
      forall a | 0 <= a < |r.log| ensures log[a] == r.log[a] {
        assert log[a] == log[..|r.log|][a];
      }
    }
  }

  lemma BeginSendsNothing(arrivals: seq<Fragment>, start: Key)
    ensures forall a :: 0 <= a < |Begin(NEW_READER, arrivals, start).log| ==> D.Sent(Begin(NEW_READER, arrivals, start).log[a]) == []
  {
  }

  lemma SentBefore(arrivals: seq<Fragment>, log: seq<Fate>, now: seq<Fate>, t: Shipment)
    requires |log| <= |now| <= |arrivals| && WasSent(arrivals, now, t)
    requires forall a :: 0 <= a < |log| ==> now[a] == log[a]
    requires forall a :: |log| <= a < |now| ==> D.Sent(now[a]) == []
    ensures WasSent(arrivals, log, t)
  {
    var a: nat :| SentFor(arrivals, now, a, t);
    assert SentFor(arrivals, log, a, t);
  }

  /** The new shipment is honest and fresh, and is on record afterwards like all others. */
  ghost predicate Delivers(m: Groups, arrivals: seq<Fragment>, before: Reader, now: Reader) {
    && (forall t :: WasSent(arrivals, before.log, t) ==> WasSent(arrivals, now.log, t))
    && var s := NewShipment(arrivals, before, now);
       && (forall t :: WasSent(arrivals, now.log, t) ==> WasSent(arrivals, before.log, t) || s == Some(t))
       && (s.Some? ==>
             && A.Honest(m, s.value) && WasSent(arrivals, now.log, s.value)
             && forall t :: WasSent(arrivals, before.log, t) ==> A.Separate(t, s.value))
  }

  lemma FreshAgainstAll(m: Groups, arrivals: seq<Fragment>, k0: Key, r: Reader, skip: bool, n: nat, d: Datagram, t: Shipment)
    requires Cut(m, arrivals) && Sound(m, arrivals, k0, r) && !r.isCurrentSent && WasSent(arrivals, r.log, t)
    requires skip ==> FirstOf(arrivals, r.current) && Blank(r.log[r.current])
    requires var f := arrivals[r.current];
             if skip then d == PlaceholderFor(f)
             else r.lengthSent + n <= |f.data| && (n > 0 || f.data == []) && d == PieceOf(f, r.lengthSent, r.lengthSent + n)
    ensures A.Separate(t, Shipped(arrivals[r.current], d))
  {
    hide Cut, Books, History, PieceOf;
    var f := arrivals[r.current];
    var a: nat :| SentFor(arrivals, r.log, a, t);
    if skip {
      PlaceholderIsFresh(arrivals, r, a, t);
    } else {
      NextPieceIsFresh(m, arrivals, k0, r, n, a, t);
    }
  }

  /** A datagram that was added at the end of the log is the new shipment. */
  lemma AddedIsNew(arrivals: seq<Fragment>, r: Reader, r': Reader, d: Datagram)
    requires 0 <= r.current < |arrivals| && |r.log| == |r'.log| == r.current + 1
    requires r'.log == r.log[r.current := r'.log[r.current]]
    requires D.Sent(r'.log[r.current]) == D.Sent(r.log[r.current]) + [d]
    ensures NewShipment(arrivals, r, r') == Some(Shipped(arrivals[r.current], d))
    ensures WasSent(arrivals, r'.log, Shipped(arrivals[r.current], d))
    ensures forall t :: WasSent(arrivals, r.log, t) ==> WasSent(arrivals, r'.log, t)
    ensures forall t :: WasSent(arrivals, r'.log, t) ==> WasSent(arrivals, r.log, t) || t == Shipped(arrivals[r.current], d)
  {
    hide D.Wire, D.Sent, Shipped;
    WireCount(r.log, r'.log[r.current]);
    var ds := D.Sent(r'.log[r.current]);
    assert ds[|ds| - 1] == d;
    assert SentFor(arrivals, r'.log, r.current, Shipped(arrivals[r.current], d));
    forall t | WasSent(arrivals, r.log, t) ensures WasSent(arrivals, r'.log, t) {
      SentStays(arrivals, r.log, r'.log, t);
    }
    forall t | WasSent(arrivals, r'.log, t) && t != Shipped(arrivals[r.current], d) ensures WasSent(arrivals, r.log, t) {
      OtherThanNew(arrivals, r, r', d, t);
    }
  }

  lemma OtherThanNew(arrivals: seq<Fragment>, r: Reader, r': Reader, d: Datagram, t: Shipment)
    requires 0 <= r.current < |arrivals| && |r.log| == |r'.log| == r.current + 1
    requires r'.log == r.log[r.current := r'.log[r.current]]
    requires D.Sent(r'.log[r.current]) == D.Sent(r.log[r.current]) + [d]
    requires WasSent(arrivals, r'.log, t) && t != Shipped(arrivals[r.current], d)
    ensures WasSent(arrivals, r.log, t)
  {
    hide D.Sent, Shipped;
    var a: nat :| SentFor(arrivals, r'.log, a, t);
    var x :| 0 <= x < |D.Sent(r'.log[a])| && t == Shipped(arrivals[a], D.Sent(r'.log[a])[x]);
    assert D.Sent(r.log[a])[x] == D.Sent(r'.log[a])[x];
    assert SentFor(arrivals, r.log, a, t);
  }

  lemma SendDelivers(m: Groups, arrivals: seq<Fragment>, k0: Key, r: Reader, room: int, skip: bool)
    requires Cut(m, arrivals) && Sound(m, arrivals, k0, r) && !r.isCurrentSent
    requires skip ==> FirstOf(arrivals, r.current) && Blank(r.log[r.current])
    ensures Delivers(m, arrivals, r, Send(r, arrivals[r.current], room, skip))
  {
    hide *;
    SoundParts(m, arrivals, k0, r);
    var f := arrivals[r.current];
    SendAdds(arrivals, r, room, skip);
    var r' := Send(r, f, room, skip);
    if r' != r {
      var n := r'.lengthSent - r.lengthSent;
      var d := if skip then PlaceholderFor(f) else PieceOf(f, r.lengthSent, r.lengthSent + n);
      AddedIsNew(arrivals, r, r', d);
      DatagramFits(m, f, skip, r.lengthSent, n, d);
      forall t | WasSent(arrivals, r.log, t) ensures A.Separate(t, Shipped(f, d)) {
        FreshAgainstAll(m, arrivals, k0, r, skip, n, d, t);
      }
      DeliversOne(m, arrivals, r, r', Shipped(f, d));
    } else {
      NothingNew(arrivals, r, r');
      DeliversNone(m, arrivals, r);
    }
  }

  lemma SoundParts(m: Groups, arrivals: seq<Fragment>, k0: Key, r: Reader)
    requires Cut(m, arrivals) && Sound(m, arrivals, k0, r)
    ensures Ready(r, arrivals) && 0 <= r.current < |arrivals| && |r.log| == r.current + 1
    ensures !r.isCurrentSent ==> r.log[r.current].Pieces? && r.lengthSent <= |arrivals[r.current].data|
    ensures IsSolidSlice(m, arrivals[r.current])
  {
  }

  lemma DeliversOne(m: Groups, arrivals: seq<Fragment>, r: Reader, r': Reader, s: Shipment)
    requires NewShipment(arrivals, r, r') == Some(s) && A.Honest(m, s) && WasSent(arrivals, r'.log, s)
    requires forall t :: WasSent(arrivals, r.log, t) ==> WasSent(arrivals, r'.log, t) && A.Separate(t, s)
    requires forall t :: WasSent(arrivals, r'.log, t) ==> WasSent(arrivals, r.log, t) || t == s
    ensures Delivers(m, arrivals, r, r')
  {
    hide WasSent, NewShipment, A.Separate, A.Honest;
  }

  lemma DeliversNone(m: Groups, arrivals: seq<Fragment>, r: Reader)
    ensures Delivers(m, arrivals, r, r)
  {
    NothingNew(arrivals, r, r);
    hide WasSent, NewShipment;
  }

  lemma NothingNew(arrivals: seq<Fragment>, r: Reader, r': Reader)
    requires D.Wire(r'.log) == D.Wire(r.log)
    ensures NewShipment(arrivals, r, r').None?
  {
  }

  lemma DatagramFits(m: Groups, f: Fragment, skip: bool, from: nat, n: int, d: Datagram)
    requires IsSolidSlice(m, f) && n >= 0 && from + n <= |f.data|
    requires d == if skip then PlaceholderFor(f) else PieceOf(f, from, from + n)
    ensures A.Honest(m, Shipped(f, d))
  {
  }

  /** Every offer to the publisher is a legal step for the records. */
  lemma PollDelivers(m: Groups, arrivals: seq<Fragment>, start: Key, r: Reader, verdict: bool, room: int)
    requires Cut(m, arrivals) && Invariant(m, arrivals, start, r)
    ensures Delivers(m, arrivals, r, Poll(r, arrivals, start, verdict, room))
  {
    hide *;
    InvariantIsReady(m, arrivals, start, r);
    ChoiceKeepsSent(m, arrivals, start, r);
    PollUnfold(r, arrivals, start, verdict, room);
    var (r1, isNew) := Choice(r, arrivals, start);
    var r2 := Poll(r, arrivals, start, verdict, room);
    SameSent(arrivals, r, r1);
    if r1.current >= 0 && !r1.isCurrentSent {
      ReadyBounds(r1, arrivals);
      SendDelivers(m, arrivals, arrivals[FirstFrom(arrivals, start, 0)].key, r1, room, isNew && verdict && MaySkip(arrivals[r1.current]));
      SameNews(arrivals, r, r1, r2);
    } else {
      NothingNew(arrivals, r, r2);
    }
    DeliversAlike(m, arrivals, r, r1, r2);
  }

  lemma ReadyBounds(r: Reader, arrivals: seq<Fragment>)
    requires Ready(r, arrivals)
    ensures r.current < |arrivals|
  {
  }

  lemma InvariantIsReady(m: Groups, arrivals: seq<Fragment>, start: Key, r: Reader)
    requires Invariant(m, arrivals, start, r)
    ensures Ready(r, arrivals)
  {
  }

  lemma SameSent(arrivals: seq<Fragment>, r: Reader, r1: Reader)
    requires |r.log| <= |r1.log| <= |arrivals|
    requires forall a :: 0 <= a < |r.log| ==> r1.log[a] == r.log[a]
    requires forall a :: |r.log| <= a < |r1.log| ==> D.Sent(r1.log[a]) == []
    ensures forall t :: WasSent(arrivals, r.log, t) <==> WasSent(arrivals, r1.log, t)
  {
    hide D.Sent, WasSent;
    forall t ensures WasSent(arrivals, r.log, t) <==> WasSent(arrivals, r1.log, t) {
      if WasSent(arrivals, r.log, t) {
        SentStays(arrivals, r.log, r1.log, t);
      }
      if WasSent(arrivals, r1.log, t) {
        SentBefore(arrivals, r.log, r1.log, t);
      }
    }
  }

  lemma DeliversAlike(m: Groups, arrivals: seq<Fragment>, r: Reader, r1: Reader, r2: Reader)
    requires forall t :: WasSent(arrivals, r.log, t) <==> WasSent(arrivals, r1.log, t)
    requires (r2 == r1 && NewShipment(arrivals, r, r2).None?) ||
             (Delivers(m, arrivals, r1, r2) && NewShipment(arrivals, r, r2) == NewShipment(arrivals, r1, r2))
    ensures Delivers(m, arrivals, r, r2)
  {
    hide WasSent, NewShipment, A.Separate, A.Honest;
  }

  lemma SameNews(arrivals: seq<Fragment>, r: Reader, r1: Reader, r2: Reader)
    requires D.Wire(r.log) == D.Wire(r1.log)
    ensures NewShipment(arrivals, r, r2) == NewShipment(arrivals, r1, r2)
  {
  }

  // ----- The lowest object -----

  lemma NewIsLast(arrivals: seq<Fragment>, r: Reader, r': Reader)
    requires NewShipment(arrivals, r, r').Some?
    ensures var n := |r'.log| - 1; 0 <= n < |arrivals| && D.Sent(r'.log[n]) != [] && NewShipment(arrivals, r, r').value.key == arrivals[n].key
  {
  }

  /** Nothing is sent of an object before the first one. */
  lemma NewIsNotBelow(m: Groups, arrivals: seq<Fragment>, start: Key, r: Reader, r': Reader)
    requires Invariant(m, arrivals, start, r') && NewShipment(arrivals, r, r').Some?
    ensures r'.current >= 0 && FirstFrom(arrivals, start, 0) < |arrivals|
    ensures !Before(NewShipment(arrivals, r, r').value.key, D.FirstSent(arrivals, start))
  {
    hide Books, Standing, NewShipment, D.Sent;
    NewIsLast(arrivals, r, r');
    assert Right(arrivals, arrivals[FirstFrom(arrivals, start, 0)].key, r', r'.current);
    SilentSendsNothing();
  }

  lemma SilentSendsNothing()
    ensures D.Sent(Silent) == []
  {
  }

  /** Of an arrival that the reader is past, something was sent, or a placeholder for its object. */
  lemma PassedIsSent(arrivals: seq<Fragment>, k0: Key, r: Reader, i: nat) returns (t: Shipment)
    requires Ready(r, arrivals) && History(arrivals, k0, r) && D.PassedBy(r, i) && !Before(arrivals[i].key, k0)
    ensures WasSent(arrivals, r.log, t) && t.key == arrivals[i].key
  {
    assert Right(arrivals, k0, r, i);
    var a := i;
    if r.log[i].Silent? {
      a :| 0 <= a < |r.log| <= |arrivals| && arrivals[a].key == arrivals[i].key && r.log[a].Placeheld?;
    }
    t := Shipped(arrivals[a], D.Sent(r.log[a])[0]);
    assert SentFor(arrivals, r.log, a, t);
  }

  /** The very first datagram is of the first object. */
  lemma FirstNewIsLowest(m: Groups, arrivals: seq<Fragment>, start: Key, r: Reader, r': Reader)
    requires Invariant(m, arrivals, start, r') && Delivers(m, arrivals, r, r') && NewShipment(arrivals, r, r').Some?
    requires forall t :: !WasSent(arrivals, r.log, t)
    ensures NewShipment(arrivals, r, r').value.key == D.FirstSent(arrivals, start)
  {
    NewIsNotBelow(m, arrivals, start, r, r');
    NewIsLast(arrivals, r, r');
    hide Books, Standing, NewShipment, D.Sent, Right;
    var i := FirstFrom(arrivals, start, 0);
    if i < r'.current {
      var t := PassedIsSent(arrivals, arrivals[i].key, r', i);
    }
  }
}
