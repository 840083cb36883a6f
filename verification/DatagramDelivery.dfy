/** The promises of the datagram publisher, over every interleaving of arrivals into the cache
    and polls by the transport. */
module DatagramDelivery {
  import opened Media
  import opened DatagramPublisher
  import opened DatagramRuns
  import Arrivals
  import CacheCursor
  import FragmentCache

  /** The cache gains a fragment, or the transport offers a datagram: room is what the header
      leaves of it, and the verdict is whatever congestion control says. */
  datatype Step = Arrive(fragment: Fragment) | Offer(verdict: bool, room: int)

  datatype World = World(arrivals: seq<Fragment>, reader: Reader)

  function After(w: World, start: Key, step: Step): (w': World)
    requires Ready(w.reader, w.arrivals)
    ensures Ready(w'.reader, w'.arrivals)
  {
    match step
    case Arrive(f) => World(w.arrivals + [f], w.reader)
    case Offer(verdict, room) => World(w.arrivals, Poll(w.reader, w.arrivals, start, verdict, room))
  }

  function Run(start: Key, steps: seq<Step>): (w: World)
    ensures Ready(w.reader, w.arrivals)
  {
    if steps == [] then World([], NEW_READER) else After(Run(start, steps[..|steps| - 1]), start, steps[|steps| - 1])
  }

  /** The first object ever sent: that of the first arrival at or past the start. */
  function FirstSent(arrivals: seq<Fragment>, start: Key): Key {
    var i := FirstFrom(arrivals, start, 0);
    if i < |arrivals| then arrivals[i].key else start
  }

  // ----- The invariant holds of every run -----

  lemma {:induction false} FirstFromGrows(arrivals: seq<Fragment>, f: Fragment, start: Key, i: nat)
    requires i <= |arrivals| && FirstFrom(arrivals, start, i) < |arrivals|
    ensures FirstFrom(arrivals + [f], start, i) == FirstFrom(arrivals, start, i)
    decreases |arrivals| - i
  {
    if i < |arrivals| && Before(arrivals[i].key, start) {
      FirstFromGrows(arrivals, f, start, i + 1);
    }
  }

  lemma {:induction false} SentOfGrows(arrivals: seq<Fragment>, f: Fragment, log: seq<Fate>, k: Key)
    requires |log| <= |arrivals|
    ensures SentOf(arrivals + [f], log, k) == SentOf(arrivals, log, k)
  {
    if log != [] {
      SentOfGrows(arrivals, f, log[..|log| - 1], k);
    }
  }

  lemma NamesGrow(arrivals: seq<Fragment>, f: Fragment, log: seq<Fate>, k: Key)
    requires |log| <= |arrivals|
    ensures EmittedFor(arrivals + [f], log, k) <==> EmittedFor(arrivals, log, k)
    ensures Dropped(arrivals + [f], log, k) <==> Dropped(arrivals, log, k)
  {
    var now := arrivals + [f];
    if EmittedFor(arrivals, log, k) {
      var i :| 0 <= i < |log| <= |arrivals| && arrivals[i].key == k && Emitted(log[i]);
      assert now[i].key == k;
    }
    if Dropped(arrivals, log, k) {
      var i :| 0 <= i < |log| <= |arrivals| && arrivals[i].key == k && log[i].Placeheld?;
      assert now[i].key == k;
    }
  }

  lemma HistoryGrows(arrivals: seq<Fragment>, f: Fragment, k0: Key, r: Reader)
    requires History(arrivals, k0, r)
    ensures History(arrivals + [f], k0, r)
  {
    hide Dropped, Whole, Underway, Before;
    forall i | 0 <= i < |r.log| ensures Right(arrivals + [f], k0, r, i) {
      assert Right(arrivals, k0, r, i);
      NamesGrow(arrivals, f, r.log, arrivals[i].key);
    }
  }

  lemma BooksGrow(m: Groups, arrivals: seq<Fragment>, f: Fragment, log: seq<Fate>, k0: Key, objects: seq<SentObject>)
    requires |log| <= |arrivals| && Books(m, arrivals, log, k0, objects)
    ensures Books(m, arrivals + [f], log, k0, objects)
  {
    hide SentOf, EmittedFor, Dropped, Recorded, Before, InMedia;
    forall i | 0 <= i < |objects| ensures True(m, arrivals + [f], log, k0, objects[i]) {
      SentOfGrows(arrivals, f, log, objects[i].key);
      NamesGrow(arrivals, f, log, objects[i].key);
    }
    forall k | InMedia(m, k) && objects != [] && !Before(k, k0) && Before(k, objects[0].key)
      ensures Done(m, arrivals + [f], log, k)
    {
      SentOfGrows(arrivals, f, log, k);
      NamesGrow(arrivals, f, log, k);
    }
  }

  lemma ArriveKeeps(m: Groups, arrivals: seq<Fragment>, f: Fragment, start: Key, r: Reader)
    requires Invariant(m, arrivals, start, r)
    ensures Invariant(m, arrivals + [f], start, r)
  {
    hide History, Books, FirstFrom;
    if r.current >= 0 {
      var k0 := arrivals[FirstFrom(arrivals, start, 0)].key;
      FirstFromGrows(arrivals, f, start, 0);
      HistoryGrows(arrivals, f, k0, r);
      BooksGrow(m, arrivals, f, r.log, k0, r.objects);
    }
  }

  lemma CutBefore(m: Groups, arrivals: seq<Fragment>, f: Fragment)
    requires Cut(m, arrivals + [f])
    ensures Cut(m, arrivals)
  {
    var all := arrivals + [f];
    forall i | 0 <= i < |arrivals| ensures IsSolidSlice(m, arrivals[i]) {
      assert all[i] == arrivals[i];
    }
    forall i, j | 0 <= i < j < |arrivals| ensures Separate(arrivals[i], arrivals[j]) {
      assert all[i] == arrivals[i] && all[j] == arrivals[j];
    }
  }

  /** The invariant of module DatagramRuns holds after every run, whatever arrives and whatever
      congestion control says. */
  lemma {:induction false} RunKeepsInvariant(m: Groups, start: Key, steps: seq<Step>)
    requires Cut(m, Run(start, steps).arrivals)
    ensures Invariant(m, Run(start, steps).arrivals, start, Run(start, steps).reader)
  {
    hide Cut, History, Books, Standing, Poll;
    if steps != [] {
      var before, step := steps[..|steps| - 1], steps[|steps| - 1];
      var w := Run(start, before);
      match step {
        case Arrive(f) =>
          CutBefore(m, w.arrivals, f);
          RunKeepsInvariant(m, start, before);
          ArriveKeeps(m, w.arrivals, f, start, w.reader);
        case Offer(verdict, room) =>
          RunKeepsInvariant(m, start, before);
          PollKeeps(m, w.arrivals, start, w.reader, verdict, room);
      }
    }
  }

  // ----- Exactly once, all or nothing -----

  /** The reader is done with arrival i. */
  predicate PassedBy(r: Reader, i: nat) {
    i < r.current || (i == r.current && r.isCurrentSent)
  }

  /** The fragment was sent whole, once, as consecutive pieces in order. */
  ghost predicate SentWhole(w: World, i: nat)
    requires i < |w.reader.log| && |w.reader.log| <= |w.arrivals|
  {
    var fate := w.reader.log[i];
    fate.Pieces? && Whole(w.arrivals[i], fate.sent) && Joined(fate.sent) == w.arrivals[i].data
  }

  /** One placeholder stands for the whole object of arrival i, and no byte of it was sent. */
  ghost predicate Replaced(w: World, i: nat, j: nat)
    requires i < |w.reader.log| && |w.reader.log| <= |w.arrivals|
  {
    var k := w.arrivals[i].key;
    && j < |w.reader.log| && w.arrivals[j].key == k && w.reader.log[j] == Placeheld(PlaceholderFor(w.arrivals[j]))
    && (forall x :: 0 <= x < |w.reader.log| && x != j && w.arrivals[x].key == k ==> w.reader.log[x] == Silent)
  }

  /** Every fragment the reader is done with was sent whole, or its object was replaced by
      exactly one placeholder, if and only if the object does not come before the first one
      sent.  Otherwise nothing was ever sent of it. */
  lemma SentOnceOrReplaced(m: Groups, start: Key, steps: seq<Step>, i: nat)
    requires Cut(m, Run(start, steps).arrivals) && PassedBy(Run(start, steps).reader, i)
    ensures var w := Run(start, steps);
            var early := Before(w.arrivals[i].key, FirstSent(w.arrivals, start));
            && (SentWhole(w, i) || (exists j: nat :: Replaced(w, i, j)) <==> !early)
            && (early ==> w.reader.log[i] == Silent)
            && !(SentWhole(w, i) && exists j: nat :: Replaced(w, i, j))
  {
    hide Run, Books, Cut, Before, PlaceholderFor;
    RunKeepsInvariant(m, start, steps);
    var w := Run(start, steps);
    var k0 := FirstSent(w.arrivals, start);
    var k := w.arrivals[i].key;
    assert Right(w.arrivals, k0, w.reader, i);
    forall j: nat ensures Before(k, k0) ==> !Replaced(w, i, j) {
      assert j < |w.reader.log| ==> Right(w.arrivals, k0, w.reader, j);
    }
    if w.reader.log[i].Pieces? {
      TilesJoin(w.arrivals[i], w.reader.log[i].sent, |w.arrivals[i].data|);
    } else if !Before(k, k0) {
      var j := PlaceholderOf(w, k0, i);
      assert Replaced(w, i, j);
    }
  }

  lemma PlaceholderOf(w: World, k0: Key, i: nat) returns (j: nat)
    requires History(w.arrivals, k0, w.reader) && i < |w.reader.log|
    requires w.reader.log[i].Silent? || w.reader.log[i].Placeheld?
    requires !Before(w.arrivals[i].key, k0)
    ensures Replaced(w, i, j)
  {
    hide Before, Whole, Underway, PlaceholderFor;
    assert Right(w.arrivals, k0, w.reader, i);
    var k := w.arrivals[i].key;
    if w.reader.log[i].Placeheld? {
      j := i;
    } else {
      j :| 0 <= j < |w.reader.log| <= |w.arrivals| && w.arrivals[j].key == k && w.reader.log[j].Placeheld?;
    }
    assert Right(w.arrivals, k0, w.reader, j);
  }

  /** A late object below the first one sent is never sent: (0, 1) arrives and is sent, then
      (0, 0) arrives, and is taken for something already sent. */
  lemma LateFirstObjectIsNeverSent(a: Fragment, b: Fragment)
    requires a.key == Key(0, 1) && b.key == Key(0, 0) && |a.data| == |b.data| == 1
    ensures var offer := Offer(false, 1000);
            var w := Run(Key(0, 0), [Arrive(a), offer, Arrive(b), offer]);
            w.arrivals == [a, b] && PassedBy(w.reader, 1) && w.reader.log[1] == Silent
  {
    hide Run, Before, Updated, Poll, Begin, Seek, Send, Choice;
    var start, offer := Key(0, 0), Offer(false, 1000);
    assert Run(start, []) == World([], NEW_READER) by { RunOfNothing(start); }
    RunUnfold(start, [], Arrive(a));
    RunUnfold(start, [Arrive(a)], offer);
    RunUnfold(start, [Arrive(a), offer], Arrive(b));
    RunUnfold(start, [Arrive(a), offer, Arrive(b)], offer);
    assert [Arrive(a), offer, Arrive(b)] + [offer] == [Arrive(a), offer, Arrive(b), offer];
    assert [Arrive(a), offer] + [Arrive(b)] == [Arrive(a), offer, Arrive(b)];
    assert [Arrive(a)] + [offer] == [Arrive(a), offer] && [] + [Arrive(a)] == [Arrive(a)];
    var w1 := Run(start, [Arrive(a)]);
    assert w1 == World([a], NEW_READER);
    LateStart(a, b);
    var r1 := Poll(w1.reader, [a], start, false, 1000);
  }

  lemma LateStart(a: Fragment, b: Fragment)
    requires a.key == Key(0, 1) && b.key == Key(0, 0) && |a.data| == |b.data| == 1
    ensures var r1 := Poll(NEW_READER, [a], Key(0, 0), false, 1000);
            var r2 := Poll(r1, [a, b], Key(0, 0), false, 1000);
            PassedBy(r2, 1) && r2.log[1] == Silent
  {
    var start := Key(0, 0);
    var r := Begin(NEW_READER, [a], start);
    assert r == Reader(0, 0, false, [], [Pieces([])]);
    var r1 := Send(r, a, 1000, false);
    assert |r1.objects| == 1 && r1.objects[0].key == a.key;
    assert Seek(r1, [a, b], start) == (PassOver(Onward(r1)), false);
  }

  lemma RunOfNothing(start: Key)
    ensures Run(start, []) == World([], NEW_READER)
  {
  }

  lemma RunUnfold(start: Key, steps: seq<Step>, step: Step)
    ensures Run(start, steps + [step]) == After(Run(start, steps), start, step)
  {
    assert (steps + [step])[..|steps|] == steps;
  }

  // ----- Nothing but slices of the media, in order of arrival -----

  function AsFragment(d: Datagram): Fragment {
    Fragment(d.key, d.offset, d.flags, d.previousSize, d.objectLength, d.data)
  }

  lemma PieceIsSlice(m: Groups, f: Fragment, a: nat, b: nat)
    requires IsSolidSlice(m, f) && a <= b <= |f.data| && (a == b ==> f.data == [])
    ensures IsSolidSlice(m, AsFragment(PieceOf(f, a, b)))
  {
    SliceOfSlice(ObjectAt(m, f.key).data, f.offset, f.End(), a, b);
  }

  lemma {:induction false} TilesAreSlices(m: Groups, f: Fragment, ds: seq<Datagram>, n: nat, i: nat)
    requires IsSolidSlice(m, f) && Tiles(f, ds, n) && i < |ds|
    ensures IsSolidSlice(m, AsFragment(ds[i]))
  {
    hide IsSolidSlice, PieceOf, AsFragment;
    var d := ds[|ds| - 1];
    if i < |ds| - 1 {
      TilesAreSlices(m, f, ds[..|ds| - 1], n - |d.data|, i);
    } else {
      PieceIsSlice(m, f, n - |d.data|, n);
    }
  }

  /** Every datagram that carries data is a slice of the media, with a true header: a receiver
      needs no trust in how the cache or the transport cut it. */
  lemma DatagramsAreSlices(m: Groups, start: Key, steps: seq<Step>, i: nat, j: nat)
    requires Cut(m, Run(start, steps).arrivals)
    requires var log := Run(start, steps).reader.log; i < |log| && log[i].Pieces? && j < |log[i].sent|
    ensures IsSolidSlice(m, AsFragment(Run(start, steps).reader.log[i].sent[j]))
    ensures !Before(Run(start, steps).reader.log[i].sent[j].key, start)
  {
    hide Run, Books, IsSolidSlice, AsFragment;
    RunKeepsInvariant(m, start, steps);
    var w := Run(start, steps);
    var k0 := FirstSent(w.arrivals, start);
    assert Right(w.arrivals, k0, w.reader, i) && IsSolidSlice(m, w.arrivals[i]);
    var (f, ds) := (w.arrivals[i], w.reader.log[i].sent);
    var n := if i == w.reader.current && !w.reader.isCurrentSent then w.reader.lengthSent else |f.data|;
    TilesAreSlices(m, f, ds, n, j);
    TilesKey(f, ds, n, j);
  }

  lemma {:induction false} TilesKey(f: Fragment, ds: seq<Datagram>, n: nat, i: nat)
    requires Tiles(f, ds, n) && i < |ds|
    ensures ds[i].key == f.key
  {
    if i < |ds| - 1 {
      TilesKey(f, ds[..|ds| - 1], n - |ds[|ds| - 1].data|, i);
    }
  }

  function Sent(fate: Fate): seq<Datagram> {
    match fate
    case Pieces(ds) => ds
    case Placeheld(d) => [d]
    case Silent => []
  }

  /** All the datagrams, in the order of the fragments they came from. */
  function Wire(log: seq<Fate>): seq<Datagram> {
    if log == [] then [] else Wire(log[..|log| - 1]) + Sent(log[|log| - 1])
  }

  lemma WireUnfold(log: seq<Fate>, fate: Fate)
    ensures Wire(log + [fate]) == Wire(log) + Sent(fate)
  {
    assert (log + [fate])[..|log|] == log;
  }

  lemma {:induction false} WireOfSilence(n: nat)
    ensures Wire(Silence(n)) == []
  {
    if n > 0 {
      WireOfSilence(n - 1);
      assert Silence(n)[..n - 1] == Silence(n - 1);
    }
  }

  lemma WireOfLast(log: seq<Fate>, fate: Fate)
    requires log != []
    ensures Wire(log[|log| - 1 := fate]) == Wire(log[..|log| - 1]) + Sent(fate)
  {
    assert log[|log| - 1 := fate] == log[..|log| - 1] + [fate];
    WireUnfold(log[..|log| - 1], fate);
  }

  lemma {:induction false} SeekIsQuiet(r: Reader, arrivals: seq<Fragment>, start: Key)
    requires r.current >= 0 && r.log != []
    ensures Wire(Seek(r, arrivals, start).0.log) == Wire(r.log)
    decreases |arrivals| - r.current
  {
    hide Wire, Judge, Seek;
    SeekUnfold(r, arrivals, start);
    if r.isCurrentSent && r.current + 1 < |arrivals| {
      var r' := Onward(r);
      WireUnfold(r.log, Pieces([]));
      if Judge(r.objects, arrivals[r'.current].key, start).Skipped? {
        WireOfLast(r'.log, Silent);
        assert r'.log[..|r'.log| - 1] == r.log;
        SeekIsQuiet(PassOver(r'), arrivals, start);
      }
    }
  }

  /** d was appended to a list, or nothing was. */
  ghost predicate AtMostOneMore(before: seq<Datagram>, now: seq<Datagram>) {
    |now| <= |before| + 1 && before <= now
  }

  lemma SendIsOne(r: Reader, f: Fragment, room: int, skip: bool)
    requires r.log != [] && r.log[|r.log| - 1].Pieces? && r.lengthSent <= |f.data|
    requires skip ==> Blank(r.log[|r.log| - 1])
    ensures AtMostOneMore(Wire(r.log), Wire(Send(r, f, room, skip).log))
  {
    hide Updated, Wire;
    var r', n := Send(r, f, room, skip), |r.log| - 1;
    WireOfLast(r.log, r.log[n]);
    assert r.log[n := r.log[n]] == r.log;
    if r' != r {
      WireOfLast(r.log, r'.log[n]);
    }
  }

  /** The log is the wire, cut by fragment: a poll puts at most one datagram after the others,
      and takes none back.  Fragments are thus sent in their order of arrival. */
  lemma OneDatagramAtATime(m: Groups, start: Key, steps: seq<Step>, step: Step)
    requires Cut(m, Run(start, steps + [step]).arrivals)
    ensures AtMostOneMore(Wire(Run(start, steps).reader.log), Wire(Run(start, steps + [step]).reader.log))
  {
    hide Run, Wire, Cut, History, Books, Standing, Poll, Seek, Begin, Send;
    var w := Run(start, steps);
    RunUnfold(start, steps, step);
    if step.Offer? {
      var (arrivals, r) := (w.arrivals, w.reader);
      RunKeepsInvariant(m, start, steps);
      PollUnfold(r, arrivals, start, step.verdict, step.room);
      var (r1, isNew) := Choice(r, arrivals, start);
      if r.current < 0 {
        BeginIsQuiet(arrivals, start);
      } else {
        SoundIsInvariant(m, arrivals, start, r);
        BeginKeeps(m, arrivals, start);
        SeekKeeps(m, arrivals, start, arrivals[FirstFrom(arrivals, start, 0)].key, r);
        SeekIsQuiet(r, arrivals, start);
      }
      if r1.current >= 0 && !r1.isCurrentSent {
        SendIsOne(r1, arrivals[r1.current], step.room, isNew && step.verdict && MaySkip(arrivals[r1.current]));
      }
    }
  }

  lemma BeginIsQuiet(arrivals: seq<Fragment>, start: Key)
    ensures Wire(Begin(NEW_READER, arrivals, start).log) == Wire(NEW_READER.log) == []
  {
    var i := FirstFrom(arrivals, start, 0);
    WireOfSilence(i);
    WireUnfold(Silence(i), Pieces([]));
  }

  // ----- The low-water mark -----

  /** Below the first entry of its list, a reader has sent all there is, from the first object
      it ever sent. */
  lemma LowWaterMarkIsSound(m: Groups, start: Key, steps: seq<Step>, k: Key)
    requires Cut(m, Run(start, steps).arrivals) && InMedia(m, k)
    requires var w := Run(start, steps);
             && w.reader.objects != [] && Before(k, w.reader.objects[0].key)
             && !Before(k, FirstSent(w.arrivals, start))
    ensures var w := Run(start, steps); Done(m, w.arrivals, w.reader.log, k)
  {
    hide Run, History, Done, True, AllRecorded, Sorted;
    RunKeepsInvariant(m, start, steps);
  }

  /** The group below which quicrq_fragment_cache_media_purge_to_gob deletes: no reader with a
      non-empty list still has its first entry below it. */
  function KeptGroup(next: Key, readers: seq<Reader>): nat {
    if readers == [] then next.group
    else
      var kept, objects := KeptGroup(next, readers[..|readers| - 1]), readers[|readers| - 1].objects;
      if objects != [] && objects[0].key.group < kept then objects[0].key.group else kept
  }

  lemma {:induction false} KeptIsLeast(next: Key, readers: seq<Reader>, i: nat)
    requires i < |readers| && readers[i].objects != []
    ensures KeptGroup(next, readers) <= readers[i].objects[0].key.group
  {
    if i < |readers| - 1 {
      KeptIsLeast(next, readers[..|readers| - 1], i);
    }
  }

  /** Some reader's list begins in that group. */
  ghost predicate BeginsIn(readers: seq<Reader>, group: nat) {
    exists i :: 0 <= i < |readers| && readers[i].objects != [] && readers[i].objects[0].key.group == group
  }

  /** The kept group is that of the cache, or that of some reader's first entry: no less is deleted
      than these ask for. */
  lemma {:induction false} KeptIsAttained(next: Key, readers: seq<Reader>)
    ensures KeptGroup(next, readers) <= next.group
    ensures KeptGroup(next, readers) == next.group || BeginsIn(readers, KeptGroup(next, readers))
  {
    if readers != [] {
      var before := readers[..|readers| - 1];
      KeptIsAttained(next, before);
      var kept := KeptGroup(next, readers);
      if kept == KeptGroup(next, before) && BeginsIn(before, kept) {
        var i :| 0 <= i < |before| && before[i].objects != [] && before[i].objects[0].key.group == kept;
        assert readers[i] == before[i];
      }
    }
  }

  /** A purge never deletes a fragment that a reader with a non-empty list still has to send:
      such a reader has passed the fragment, or will never send its object. */
  lemma PurgeTakesOnlyWhatWasSent(m: Groups, start: Key, steps: seq<Step>, next: Key, readers: seq<Reader>, r: nat, i: nat)
    requires Cut(m, Run(start, steps).arrivals)
    requires r < |readers| && readers[r] == Run(start, steps).reader && readers[r].objects != []
    requires i < |Run(start, steps).arrivals|
    requires Run(start, steps).arrivals[i].key.group < KeptGroup(next, readers)
    ensures var w := Run(start, steps);
            PassedBy(w.reader, i) || Before(w.arrivals[i].key, FirstSent(w.arrivals, start))
  {
    hide Run, Books, Done, Tight, KeptGroup;
    var w := Run(start, steps);
    var (k0, k) := (FirstSent(w.arrivals, start), w.arrivals[i].key);
    RunKeepsInvariant(m, start, steps);
    KeptIsLeast(next, readers, r);
    assert IsSolidSlice(m, w.arrivals[i]);
    if !Before(k, k0) {
      LowWaterMarkIsSound(m, start, steps, k);
      HistoryIsTight(w.arrivals, k0, w.reader);
      if i >= |w.reader.log| {
        NothingLeft(m, w.arrivals, w.reader.log, k, i);
      }
    }
  }

  lemma {:induction false} WithoutKeeps(fs: seq<Fragment>, gone: Fragment, f: Fragment)
    requires f in fs && f != gone
    ensures f in FragmentCache.Without(fs, gone)
  {
    if fs[0] != gone && fs[0] != f {
      WithoutKeeps(fs[1..], gone, f);
    }
  }

  lemma {:induction false} DropBeforeKeeps(tree: seq<Fragment>, arrivals: seq<Fragment>, k: Key, f: Fragment)
    requires f in arrivals && !Before(f.key, k)
    ensures f in FragmentCache.DropBefore(tree, arrivals, k).1
    decreases |tree|
  {
    if tree != [] && Before(tree[0].key, k) {
      WithoutKeeps(arrivals, tree[0], f);
      DropBeforeKeeps(tree[1..], FragmentCache.Without(arrivals, tree[0]), k, f);
    }
  }

  /** So a purge of the cache leaves in place everything that a reader with a non-empty list
      still has to send. */
  lemma PurgeLeavesTheUnsent(m: Groups, start: Key, steps: seq<Step>, next: Key, readers: seq<Reader>, r: nat,
                             tree: seq<Fragment>, i: nat)
    requires Cut(m, Run(start, steps).arrivals)
    requires r < |readers| && readers[r] == Run(start, steps).reader && readers[r].objects != []
    requires i < |Run(start, steps).arrivals| && !PassedBy(readers[r], i)
    requires var w := Run(start, steps); !Before(w.arrivals[i].key, FirstSent(w.arrivals, start))
    ensures var arrivals := Run(start, steps).arrivals;
            arrivals[i] in FragmentCache.DropBefore(tree, arrivals, Key(KeptGroup(next, readers), 0)).1
  {
    hide Run, Cut, KeptGroup;
    var arrivals, kept := Run(start, steps).arrivals, KeptGroup(next, readers);
    if arrivals[i].key.group < kept {
      PurgeTakesOnlyWhatWasSent(m, start, steps, next, readers, r, i);
    } else {
      DropBeforeKeeps(tree, arrivals, Key(kept, 0), arrivals[i]);
    }
  }

  // ----- The reader drains -----

  /** What lies beyond the current fragment: each fragment counts one more than its bytes. */
  function Ahead(arrivals: seq<Fragment>, i: nat): nat
    requires i <= |arrivals|
    decreases |arrivals| - i
  {
    if i == |arrivals| then 0 else |arrivals[i].data| + 1 + Ahead(arrivals, i + 1)
  }

  function Backlog(arrivals: seq<Fragment>, r: Reader): nat
    requires Ready(r, arrivals)
  {
    Ahead(arrivals, r.current + 1) +
    if r.current >= 0 && !r.isCurrentSent then |arrivals[r.current].data| - r.lengthSent + 1 else 0
  }

  predicate AtRest(arrivals: seq<Fragment>, start: Key, r: Reader) {
    if r.current < 0 then FirstFrom(arrivals, start, 0) == |arrivals|
    else r.current == |arrivals| - 1 && r.isCurrentSent
  }

  lemma {:induction false} AheadFalls(arrivals: seq<Fragment>, i: nat, j: nat)
    requires i <= j <= |arrivals|
    ensures Ahead(arrivals, j) <= Ahead(arrivals, i)
  {
    if i < j {
      AheadFalls(arrivals, i, j - 1);
    }
  }

  lemma {:induction false} SeekBacklog(r: Reader, arrivals: seq<Fragment>, start: Key)
    requires Ready(r, arrivals) && r.current >= 0 && Ready(Seek(r, arrivals, start).0, arrivals)
    ensures Backlog(arrivals, Seek(r, arrivals, start).0) <= Backlog(arrivals, r)
    decreases |arrivals| - r.current
  {
    hide Judge, Seek;
    SeekUnfold(r, arrivals, start);
    if r.isCurrentSent && r.current + 1 < |arrivals| && Judge(r.objects, arrivals[r.current + 1].key, start).Skipped? {
      SeekBacklog(PassOver(Onward(r)), arrivals, start);
    }
  }

  lemma SendBacklog(r: Reader, arrivals: seq<Fragment>, room: int, skip: bool)
    requires Ready(r, arrivals) && r.current >= 0 && !r.isCurrentSent && room > 0
    requires Ready(Send(r, arrivals[r.current], room, skip), arrivals)
    requires arrivals[r.current].data == [] || r.lengthSent < |arrivals[r.current].data|
    ensures Backlog(arrivals, Send(r, arrivals[r.current], room, skip)) < Backlog(arrivals, r)
  {
    hide Updated, Ahead;
  }

  /** Every offer with room for a byte brings the reader closer to the end. */
  lemma OfferMoves(m: Groups, arrivals: seq<Fragment>, start: Key, r: Reader, verdict: bool, room: int)
    requires Cut(m, arrivals) && Invariant(m, arrivals, start, r) && room > 0
    ensures var r' := Poll(r, arrivals, start, verdict, room);
            AtRest(arrivals, start, r') || Backlog(arrivals, r') < Backlog(arrivals, r)
  {
    hide Books, Poll, Seek, Begin, Send, Ready, Cut, Choice, Before, Ahead;
    PollUnfold(r, arrivals, start, verdict, room);
    BeginKeeps(m, arrivals, start);
    var (r1, isNew) := Choice(r, arrivals, start);
    if r.current >= 0 {
      SoundIsInvariant(m, arrivals, start, r);
      SeekKeeps(m, arrivals, start, arrivals[FirstFrom(arrivals, start, 0)].key, r);
      SeekBacklog(r, arrivals, start);
    } else {
      BeginBacklog(arrivals, start, r);
    }
    if r1.current >= 0 && !r1.isCurrentSent {
      UnderwayRoom(arrivals, arrivals[FirstFrom(arrivals, start, 0)].key, r1);
      SendBacklog(r1, arrivals, room, isNew && verdict && MaySkip(arrivals[r1.current]));
    }
  }

  lemma BeginBacklog(arrivals: seq<Fragment>, start: Key, r: Reader)
    requires r == NEW_READER && Ready(r, arrivals) && Ready(Begin(r, arrivals, start), arrivals)
    ensures var r1 := Begin(r, arrivals, start);
            Backlog(arrivals, r1) <= Backlog(arrivals, r) && (r1.current >= 0 ==> !r1.isCurrentSent)
  {
    var i := FirstFrom(arrivals, start, 0);
    AheadFalls(arrivals, 0, i);
  }

  lemma UnderwayRoom(arrivals: seq<Fragment>, k0: Key, r: Reader)
    requires Ready(r, arrivals) && r.current >= 0 && !r.isCurrentSent && History(arrivals, k0, r)
    ensures arrivals[r.current].data == [] || r.lengthSent < |arrivals[r.current].data|
  {
    assert Right(arrivals, k0, r, r.current);
  }

  ghost predicate Roomy(steps: seq<Step>) {
    forall i :: 0 <= i < |steps| ==> steps[i].Offer? && steps[i].room > 0
  }

  /** As many offers as there is backlog, each with room for a byte, bring the reader to rest,
      and it has then done with every fragment there is. */
  lemma {:induction false} OffersDrain(m: Groups, start: Key, steps: seq<Step>, offers: seq<Step>)
    requires Cut(m, Run(start, steps).arrivals) && Roomy(offers)
    ensures var (w, w') := (Run(start, steps), Run(start, steps + offers));
            && w'.arrivals == w.arrivals
            && (AtRest(w'.arrivals, start, w'.reader) ||
                Backlog(w'.arrivals, w'.reader) + |offers| <= Backlog(w.arrivals, w.reader))
    decreases |offers|
  {
    hide Run, Cut, Poll, FirstFrom, AtRest, Backlog, Ready, Invariant;
    if offers == [] {
      assert steps + offers == steps;
    } else {
      var before, offer := offers[..|offers| - 1], offers[|offers| - 1];
      assert steps + offers == (steps + before) + [offer];
      OffersDrain(m, start, steps, before);
      RunUnfold(start, steps + before, offer);
      RunKeepsInvariant(m, start, steps + before);
      var w := Run(start, steps + before);
      OfferMoves(m, w.arrivals, start, w.reader, offer.verdict, offer.room);
      if AtRest(w.arrivals, start, w.reader) {
        RestStays(w.arrivals, start, w.reader, offer.verdict, offer.room);
      }
    }
  }

  lemma RestStays(arrivals: seq<Fragment>, start: Key, r: Reader, verdict: bool, room: int)
    requires Ready(r, arrivals) && AtRest(arrivals, start, r)
    ensures AtRest(arrivals, start, Poll(r, arrivals, start, verdict, room))
  {
    PollUnfold(r, arrivals, start, verdict, room);
  }

  lemma EverythingIsPassed(m: Groups, start: Key, steps: seq<Step>, offers: seq<Step>, i: nat)
    requires Cut(m, Run(start, steps).arrivals) && Roomy(offers)
    requires var w := Run(start, steps);
             |offers| > Backlog(w.arrivals, w.reader) && i < |w.arrivals| && !Before(w.arrivals[i].key, start)
    ensures PassedBy(Run(start, steps + offers).reader, i)
  {
    hide Run, Cut, Backlog, Ready;
    OffersDrain(m, start, steps, offers);
  }

  // ----- The cache offers what the reader needs -----

  /** Whatever was fed to the cache, its arrivals are pieces of the media and do not overlap. */
  lemma CachedArrivalsAreCut(m: Groups, es: seq<Arrivals.Event>)
    requires WellFormed(m) && CacheCursor.Feed(m, es)
    ensures Cut(m, CacheCursor.Run(es).arrivals)
  {
    hide CacheCursor.Run, CacheCursor.Feed, CacheCursor.Exact, CacheCursor.HasCovered, CacheCursor.HasTouched;
    CacheCursor.RunKeepsInvariant(m, es);
    var c := CacheCursor.Run(es);
    hide IsSolidSlice;
    forall i | 0 <= i < |c.arrivals| ensures IsSolidSlice(m, c.arrivals[i]) {
      assert c.arrivals[i] in multiset(c.tree);
    }
    forall i, j | 0 <= i < j < |c.arrivals| ensures Separate(c.arrivals[i], c.arrivals[j]) {
      TwoEntries(c.arrivals, c.tree, i, j);
    }
  }

  lemma Both<T>(s: seq<T>, i: nat, j: nat)
    requires i < j < |s|
    ensures multiset{s[i], s[j]} <= multiset(s)
  {
    assert s == s[..j] + [s[j]] + s[j + 1..];
    assert s[..j][i] == s[i];
    assert s[i] in multiset(s[..j]);
  }

  lemma Another<T>(s: seq<T>, x: T, j: nat) returns (i: nat)
    requires j < |s| && multiset{x, s[j]} <= multiset(s)
    ensures i < |s| && i != j && s[i] == x
  {
    var rest := s[..j] + s[j + 1..];
    assert s == s[..j] + [s[j]] + s[j + 1..];
    assert multiset(s) == multiset(rest) + multiset{s[j]};
    assert x in multiset(rest);
    var a :| 0 <= a < |rest| && rest[a] == x;
    i := if a < j then a else a + 1;
  }

  lemma TwoEntries(arrivals: seq<Fragment>, tree: seq<Fragment>, i: nat, j: nat)
    requires i < j < |arrivals| && multiset(arrivals) == multiset(tree) && FragmentCache.Tidy(tree)
    ensures Separate(arrivals[i], arrivals[j])
  {
    var (f, g) := (arrivals[i], arrivals[j]);
    Both(arrivals, i, j);
    assert g in multiset(tree);
    var b :| 0 <= b < |tree| && tree[b] == g;
    var a := Another(tree, f, b);
  }
}
