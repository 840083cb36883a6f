/** What any run of the datagram publisher comes to, whatever the congestion verdicts and the
    room in each datagram: every fragment of the cache is sent once, in consecutive pieces that
    tile it, or its whole object is replaced by one placeholder.  The exception is exact: the
    objects below the first one ever sent are passed over in silence. */
module DatagramRuns {
  import opened Media
  import opened DatagramPublisher
  import FragmentCache

  // ----- What the cache offers to its readers -----

  ghost predicate Separate(f: Fragment, g: Fragment) {
    f.key == g.key ==>
      (f.offset < g.offset && f.End() <= g.offset) || (g.offset < f.offset && g.End() <= f.offset)
  }

  /** The arrivals are pieces of one media, and no two of them overlap. */
  ghost predicate Cut(m: Groups, arrivals: seq<Fragment>) {
    && (forall i :: 0 <= i < |arrivals| ==> IsSolidSlice(m, arrivals[i]))
    && (forall i, j :: 0 <= i < j < |arrivals| ==> Separate(arrivals[i], arrivals[j]))
  }

  ghost predicate Tight(arrivals: seq<Fragment>, log: seq<Fate>) {
    && |log| <= |arrivals|
    && forall i :: 0 <= i < |log| ==> Bytes(log[i]) <= |arrivals[i].data|
  }

  function Length(ds: seq<Datagram>): nat {
    if ds == [] then 0 else Length(ds[..|ds| - 1]) + |ds[|ds| - 1].data|
  }

  function Bytes(fate: Fate): nat {
    if fate.Pieces? then Length(fate.sent) else 0
  }

  /** How many bytes of object k were sent. */
  function SentOf(arrivals: seq<Fragment>, log: seq<Fate>, k: Key): nat
    requires |log| <= |arrivals|
  {
    if log == [] then 0
    else
      var i := |log| - 1;
      SentOf(arrivals, log[..i], k) + if arrivals[i].key == k then Bytes(log[i]) else 0
  }

  /** The positions of object k among the first n arrivals. */
  ghost function Offered(arrivals: seq<Fragment>, n: nat, k: Key): set<nat>
    requires n <= |arrivals|
  {
    if n == 0 then {}
    else Offered(arrivals, n - 1, k) +
         if arrivals[n - 1].key == k then Span(arrivals[n - 1].offset, |arrivals[n - 1].data|) else {}
  }

  lemma {:induction false} OfferedIsBelow(m: Groups, arrivals: seq<Fragment>, n: nat, k: Key, f: Fragment)
    requires Cut(m, arrivals) && n <= |arrivals|
    requires forall i :: 0 <= i < n ==> Separate(arrivals[i], f)
    ensures f.key == k ==> Offered(arrivals, n, k) !! Span(f.offset, |f.data|)
    ensures InMedia(m, k) ==> Offered(arrivals, n, k) <= Span(0, |ObjectAt(m, k).data|)
  {
    if n > 0 {
      OfferedIsBelow(m, arrivals, n - 1, k, f);
      var g := arrivals[n - 1];
      assert IsSolidSlice(m, g) && Separate(g, f);
    }
  }

  lemma {:induction false} SentWithinOffered(m: Groups, arrivals: seq<Fragment>, log: seq<Fate>, k: Key)
    requires Cut(m, arrivals) && Tight(arrivals, log)
    ensures SentOf(arrivals, log, k) <= |Offered(arrivals, |log|, k)|
  {
    if log != [] {
      var n := |log| - 1;
      SentWithinOffered(m, arrivals, log[..n], k);
      OfferedIsBelow(m, arrivals, n, k, arrivals[n]);
      SpanSize(arrivals[n].offset, |arrivals[n].data|);
    }
  }

  // ----- Objects that are finished with -----

  ghost predicate Blank(fate: Fate) {
    fate == Pieces([])
  }

  ghost predicate Emitted(fate: Fate) {
    fate.Placeheld? || (fate.Pieces? && fate.sent != [])
  }

  ghost predicate EmittedFor(arrivals: seq<Fragment>, log: seq<Fate>, k: Key) {
    exists i :: 0 <= i < |log| <= |arrivals| && arrivals[i].key == k && Emitted(log[i])
  }

  /** Every byte of object k was sent, or the empty object k was. */
  ghost predicate Done(m: Groups, arrivals: seq<Fragment>, log: seq<Fate>, k: Key) {
    && InMedia(m, k) && |log| <= |arrivals|
    && SentOf(arrivals, log, k) >= |ObjectAt(m, k).data| && EmittedFor(arrivals, log, k)
  }

  /** Nothing more can arrive for an object that is done. */
  lemma NothingLeft(m: Groups, arrivals: seq<Fragment>, log: seq<Fate>, k: Key, j: nat)
    requires Cut(m, arrivals) && Tight(arrivals, log) && Done(m, arrivals, log, k)
    requires |log| <= j < |arrivals|
    ensures arrivals[j].key != k
  {
    var f := arrivals[j];
    if f.key == k {
      var s, n := Offered(arrivals, |log|, k), |ObjectAt(m, k).data|;
      SentWithinOffered(m, arrivals, log, k);
      OfferedIsBelow(m, arrivals, |log|, k, f);
      SpanSize(0, n);
      SpanSize(f.offset, |f.data|);
      assert IsSolidSlice(m, f);
      assert s + Span(f.offset, |f.data|) <= Span(0, n);
      Subset(s + Span(f.offset, |f.data|), Span(0, n));
    }
  }

  lemma Subset(a: set<nat>, b: set<nat>)
    requires a <= b
    ensures |a| <= |b|
  {
    assert a + (b - a) == b;
  }

  // ----- Pieces that tile a fragment -----

  /** The datagrams are consecutive pieces of the first n bytes, none of them empty unless
      the fragment is. */
  predicate Tiles(f: Fragment, ds: seq<Datagram>, n: nat) {
    if ds == [] then n == 0
    else
      var d := ds[|ds| - 1];
      && |d.data| <= n <= |f.data|
      && d == PieceOf(f, n - |d.data|, n)
      && (d.data == [] ==> f.data == [] && |ds| == 1)
      && Tiles(f, ds[..|ds| - 1], n - |d.data|)
  }

  ghost predicate Whole(f: Fragment, ds: seq<Datagram>) {
    ds != [] && Tiles(f, ds, |f.data|)
  }

  ghost predicate Underway(f: Fragment, ds: seq<Datagram>, n: nat) {
    Tiles(f, ds, n) && if f.data == [] then ds == [] else n < |f.data|
  }

  function Joined(ds: seq<Datagram>): seq<Byte> {
    if ds == [] then [] else Joined(ds[..|ds| - 1]) + ds[|ds| - 1].data
  }

  /** What tiles a fragment carries exactly its bytes, in order. */
  lemma {:induction false} TilesJoin(f: Fragment, ds: seq<Datagram>, n: nat)
    requires Tiles(f, ds, n)
    ensures n <= |f.data| && Joined(ds) == f.data[..n] && Length(ds) == n
  {
    if ds != [] {
      var d := ds[|ds| - 1];
      TilesJoin(f, ds[..|ds| - 1], n - |d.data|);
    }
  }

  lemma TilesMore(f: Fragment, ds: seq<Datagram>, a: nat, b: nat)
    requires Tiles(f, ds, a) && a <= b <= |f.data| && (a == b ==> f.data == [] && ds == [])
    ensures Tiles(f, ds + [PieceOf(f, a, b)], b)
  {
    var all := ds + [PieceOf(f, a, b)];
    assert all[..|all| - 1] == ds;
  }

  // ----- The invariant -----

  ghost predicate Dropped(arrivals: seq<Fragment>, log: seq<Fate>, k: Key) {
    exists i :: 0 <= i < |log| <= |arrivals| && arrivals[i].key == k && log[i].Placeheld?
  }

  /** No arrival of object k other than i was sent or placeheld. */
  ghost predicate Alone(arrivals: seq<Fragment>, log: seq<Fate>, i: nat, k: Key)
    requires |log| <= |arrivals|
  {
    forall j :: 0 <= j < |log| && j != i && arrivals[j].key == k ==> log[j] == Silent
  }

  /** What became of arrival i is right.  k0 is the first object ever sent. */
  ghost predicate Right(arrivals: seq<Fragment>, k0: Key, r: Reader, i: nat)
    requires i < |r.log| <= |arrivals|
  {
    var f := arrivals[i];
    match r.log[i]
    case Silent => Before(f.key, k0) || Dropped(arrivals, r.log, f.key)
    case Placeheld(d) => !Before(f.key, k0) && d == PlaceholderFor(f) && MaySkip(f) && Alone(arrivals, r.log, i, f.key)
    case Pieces(ds) =>
      && !Before(f.key, k0)
      && if i == r.current && !r.isCurrentSent then Underway(f, ds, r.lengthSent) else Whole(f, ds)
  }

  ghost predicate History(arrivals: seq<Fragment>, k0: Key, r: Reader) {
    && |r.log| <= |arrivals|
    && forall i :: 0 <= i < |r.log| ==> Right(arrivals, k0, r, i)
  }

  ghost predicate Sorted(objects: seq<SentObject>) {
    forall i, j :: 0 <= i < j < |objects| ==> Before(objects[i].key, objects[j].key)
  }

  ghost predicate True(m: Groups, arrivals: seq<Fragment>, log: seq<Fate>, k0: Key, o: SentObject) {
    && InMedia(m, o.key) && !Before(o.key, k0) && |log| <= |arrivals|
    && o.length == |ObjectAt(m, o.key).data|
    && o.bytesSent == SentOf(arrivals, log, o.key)
    && (o.isDropped <==> Dropped(arrivals, log, o.key))
    && (o.isSent ==> Done(m, arrivals, log, o.key))
    && (o.previousSize > 0 ==> o.key.id == 0 && o.key.group > 0 && o.previousSize == |m[o.key.group - 1]|)
  }

  /** Object k is in the list, or below its first entry. */
  predicate Recorded(objects: seq<SentObject>, k: Key) {
    objects != [] && (Before(k, objects[0].key) || Find(objects, k) >= 0)
  }

  ghost predicate AllRecorded(arrivals: seq<Fragment>, log: seq<Fate>, k0: Key, objects: seq<SentObject>) {
    forall i :: 0 <= i < |log| <= |arrivals| && !Before(arrivals[i].key, k0) && !Blank(log[i]) ==>
      Recorded(objects, arrivals[i].key)
  }

  /** The low-water mark: from the first object ever sent up to the first entry, all is sent. */
  ghost predicate LowWater(m: Groups, arrivals: seq<Fragment>, log: seq<Fate>, k0: Key, objects: seq<SentObject>) {
    forall k :: InMedia(m, k) && objects != [] && !Before(k, k0) && Before(k, objects[0].key) ==> Done(m, arrivals, log, k)
  }

  ghost predicate Books(m: Groups, arrivals: seq<Fragment>, log: seq<Fate>, k0: Key, objects: seq<SentObject>) {
    && Sorted(objects)
    && (forall i :: 0 <= i < |objects| ==> True(m, arrivals, log, k0, objects[i]))
    && AllRecorded(arrivals, log, k0, objects)
    && LowWater(m, arrivals, log, k0, objects)
  }

  /** Where the current fragment stands: its object is not below the first entry. */
  ghost predicate Standing(arrivals: seq<Fragment>, k0: Key, r: Reader) {
    && 0 <= r.current < |arrivals|
    && (r.objects == [] ==> !r.isCurrentSent && arrivals[r.current].key == k0)
    && (r.objects != [] && !r.isCurrentSent ==> !Before(arrivals[r.current].key, r.objects[0].key))
  }

  ghost predicate Invariant(m: Groups, arrivals: seq<Fragment>, start: Key, r: Reader) {
    && Ready(r, arrivals)
    && (r.current < 0 ==> r == NEW_READER)
    && (r.current >= 0 ==>
          && FirstFrom(arrivals, start, 0) <= r.current
          && var k0 := arrivals[FirstFrom(arrivals, start, 0)].key;
             && History(arrivals, k0, r)
             && Books(m, arrivals, r.log, k0, r.objects)
             && Standing(arrivals, k0, r))
  }

  // ----- The list of objects -----

  lemma {:induction false} BlankSendsNothing(arrivals: seq<Fragment>, log: seq<Fate>, k: Key)
    requires |log| <= |arrivals|
    requires forall i :: 0 <= i < |log| && arrivals[i].key == k ==> Blank(log[i])
    ensures SentOf(arrivals, log, k) == 0
  {
    if log != [] {
      BlankSendsNothing(arrivals, log[..|log| - 1], k);
    }
  }

  /** A list that knows nothing of object k: nothing was done about it. */
  lemma Unrecorded(m: Groups, arrivals: seq<Fragment>, log: seq<Fate>, k0: Key, objects: seq<SentObject>, k: Key)
    requires AllRecorded(arrivals, log, k0, objects) && |log| <= |arrivals|
    requires !Before(k, k0) && !Recorded(objects, k)
    ensures forall i :: 0 <= i < |log| && arrivals[i].key == k ==> Blank(log[i])
    ensures SentOf(arrivals, log, k) == 0 && !Dropped(arrivals, log, k)
  {
    BlankSendsNothing(arrivals, log, k);
  }

  lemma PlaceAt(objects: seq<SentObject>, k: Key)
    requires Sorted(objects)
    ensures forall i :: 0 <= i < Place(objects, k) ==> !Before(k, objects[i].key)
  {
    var p := Place(objects, k);
    forall i | 0 <= i < p ensures !Before(k, objects[i].key) {
      if i < p - 1 {
        assert Before(objects[i].key, objects[p - 1].key);
      }
    }
  }

  lemma NewEntryIndex(objects: seq<SentObject>, f: Fragment, p: nat, i: nat)
    requires p == Place(objects, f.key) && Find(objects, f.key) < 0
    requires i < |WithEntry(objects, f)|
    ensures |WithEntry(objects, f)| == |objects| + 1
    ensures WithEntry(objects, f)[i] ==
            if i < p then objects[i] else if i == p then SentObject(f.key, 0, f.objectLength, 0, false, false)
            else objects[i - 1]
  {
  }

  lemma NewEntrySorted(objects: seq<SentObject>, f: Fragment)
    requires Sorted(objects) && Find(objects, f.key) < 0
    ensures Sorted(WithEntry(objects, f))
  {
    hide WithEntry;
    var now, p := WithEntry(objects, f), Place(objects, f.key);
    PlaceAt(objects, f.key);
    forall i, j | 0 <= i < j < |now| ensures Before(now[i].key, now[j].key) {
      NewEntryIndex(objects, f, p, i);
      NewEntryIndex(objects, f, p, j);
      if j == p {
        FragmentCache.KeyOrder(f.key, objects[i].key);
      }
    }
  }

  lemma RecordedByEntry(objects: seq<SentObject>, k: Key, i: nat)
    requires i < |objects| && objects[i].key == k
    ensures Recorded(objects, k)
  {
  }

  /** Nothing is lost from a list that gains an entry above its first one. */
  lemma RecordedGrows(objects: seq<SentObject>, f: Fragment, k: Key)
    requires Sorted(objects) && Find(objects, f.key) < 0 && (objects != [] ==> !Before(f.key, objects[0].key))
    ensures Recorded(objects, k) ==> Recorded(WithEntry(objects, f), k)
    ensures objects != [] ==> WithEntry(objects, f)[0] == objects[0]
  {
    hide WithEntry;
    var now, p := WithEntry(objects, f), Place(objects, f.key);
    if objects != [] {
      NewEntryIndex(objects, f, p, 0);
      FragmentCache.KeyOrder(f.key, objects[0].key);
      var i := Find(objects, k);
      if i >= 0 {
        NewEntryIndex(objects, f, p, if i < p then i else i + 1);
        RecordedByEntry(now, k, if i < p then i else i + 1);
      }
    }
  }

  lemma NewEntryIsTrue(m: Groups, arrivals: seq<Fragment>, log: seq<Fate>, k0: Key, objects: seq<SentObject>, f: Fragment)
    requires Books(m, arrivals, log, k0, objects) && |log| <= |arrivals|
    requires IsSlice(m, f) && !Before(f.key, k0) && !Recorded(objects, f.key)
    ensures True(m, arrivals, log, k0, SentObject(f.key, 0, f.objectLength, 0, false, false))
  {
    Unrecorded(m, arrivals, log, k0, objects, f.key);
  }

  lemma NewEntryBooks(m: Groups, arrivals: seq<Fragment>, log: seq<Fate>, k0: Key, objects: seq<SentObject>, f: Fragment)
    requires Books(m, arrivals, log, k0, objects) && |log| <= |arrivals|
    requires IsSlice(m, f) && !Before(f.key, k0) && !Recorded(objects, f.key)
    requires objects == [] ==> f.key == k0
    ensures Books(m, arrivals, log, k0, WithEntry(objects, f))
    ensures objects != [] ==> WithEntry(objects, f)[0].key == objects[0].key
  {
    hide WithEntry, True, Done, Before, IsSlice, SentOf;
    var now, p := WithEntry(objects, f), Place(objects, f.key);
    assert Find(objects, f.key) < 0;
    NewEntrySorted(objects, f);
    RecordedGrows(objects, f, f.key);
    NewEntryIsTrue(m, arrivals, log, k0, objects, f);
    forall i | 0 <= i < |now| ensures True(m, arrivals, log, k0, now[i]) {
      NewEntryIndex(objects, f, p, i);
    }
    forall i | 0 <= i < |log| && !Before(arrivals[i].key, k0) && !Blank(log[i])
      ensures Recorded(now, arrivals[i].key)
    {
      RecordedGrows(objects, f, arrivals[i].key);
    }
    if objects == [] {
      NewEntryIndex(objects, f, p, 0);
      NothingBetween(k0);
    }
  }

  lemma NothingBetween(k0: Key)
    ensures forall k :: Before(k, k0) ==> !Before(k0, k) && k != k0
  {
  }

  // ----- The entry of the fragment that was sent -----

  lemma SentOfLast(arrivals: seq<Fragment>, log: seq<Fate>, fate: Fate, k: Key)
    requires 0 < |log| <= |arrivals|
    ensures SentOf(arrivals, log[|log| - 1 := fate], k) ==
            SentOf(arrivals, log[..|log| - 1], k) + if arrivals[|log| - 1].key == k then Bytes(fate) else 0
  {
    var now := log[|log| - 1 := fate];
    assert now[..|now| - 1] == log[..|log| - 1];
  }

  /** A last fate that becomes more definite: further pieces, or a placeholder for no pieces. */
  ghost predicate Firmer(a: Fate, b: Fate) {
    && a.Pieces?
    && ((b.Placeheld? && a.sent == []) || (b.Pieces? && b.sent != [] && Bytes(a) <= Bytes(b)))
  }

  lemma FirmerKeeps(m: Groups, arrivals: seq<Fragment>, log: seq<Fate>, fate: Fate, k: Key)
    requires 0 < |log| <= |arrivals| && Firmer(log[|log| - 1], fate)
    ensures var now := log[|log| - 1 := fate];
            && SentOf(arrivals, now, k) ==
               SentOf(arrivals, log, k) + (if arrivals[|log| - 1].key == k then Bytes(fate) - Bytes(log[|log| - 1]) else 0)
            && (Done(m, arrivals, log, k) ==> Done(m, arrivals, now, k))
            && (Dropped(arrivals, now, k) <==> Dropped(arrivals, log, k) || (arrivals[|log| - 1].key == k && fate.Placeheld?))
            && (arrivals[|log| - 1].key == k ==> EmittedFor(arrivals, now, k))
  {
    var n := |log| - 1;
    var now := log[n := fate];
    SentOfLast(arrivals, log, fate, k);
    SentOfLast(arrivals, log, log[n], k);
    assert log[n := log[n]] == log;
    if EmittedFor(arrivals, log, k) {
      var i :| 0 <= i < |log| <= |arrivals| && arrivals[i].key == k && Emitted(log[i]);
      assert now[i] == if i == n then fate else log[i];
    }
    if Dropped(arrivals, log, k) {
      var i :| 0 <= i < |log| <= |arrivals| && arrivals[i].key == k && log[i].Placeheld?;
      assert now[i] == log[i];
    }
    if Dropped(arrivals, now, k) {
      var i :| 0 <= i < |now| <= |arrivals| && arrivals[i].key == k && now[i].Placeheld?;
      assert now[i] == if i == n then fate else log[i];
    }
    if arrivals[n].key == k {
      assert now[n] == fate;
    }
  }

  lemma NotedIsTrue(m: Groups, arrivals: seq<Fragment>, log: seq<Fate>, k0: Key, o: SentObject,
                    fate: Fate, nextOffset: nat, copied: nat)
    requires 0 < |log| <= |arrivals| && Firmer(log[|log| - 1], fate) && True(m, arrivals, log, k0, o)
    requires var f := arrivals[|log| - 1]; IsSlice(m, f) && f.key == o.key
    requires copied == Bytes(fate) - Bytes(log[|log| - 1]) && !Dropped(arrivals, log, o.key)
    ensures True(m, arrivals, log[|log| - 1 := fate], k0, Noted(o, arrivals[|log| - 1], fate.Placeheld?, nextOffset, copied))
  {
    FirmerKeeps(m, arrivals, log, fate, o.key);
    hide SentOf, Dropped, EmittedFor, Firmer, Bytes, Before;
  }

  lemma NotedBooks(m: Groups, arrivals: seq<Fragment>, log: seq<Fate>, k0: Key, objects: seq<SentObject>,
                   i: nat, fate: Fate, nextOffset: nat, copied: nat)
    requires 0 < |log| <= |arrivals| && Firmer(log[|log| - 1], fate) && Books(m, arrivals, log, k0, objects)
    requires var f := arrivals[|log| - 1]; IsSlice(m, f) && i < |objects| && f.key == objects[i].key
    requires copied == Bytes(fate) - Bytes(log[|log| - 1]) && !Dropped(arrivals, log, objects[i].key)
    ensures Books(m, arrivals, log[|log| - 1 := fate], k0,
                  objects[i := Noted(objects[i], arrivals[|log| - 1], fate.Placeheld?, nextOffset, copied)])
  {
    var f := arrivals[|log| - 1];
    var o := Noted(objects[i], f, fate.Placeheld?, nextOffset, copied);
    var (now, objects') := (log[|log| - 1 := fate], objects[i := o]);
    NotedIsTrue(m, arrivals, log, k0, objects[i], fate, nextOffset, copied);
    assert o.key == objects[i].key;
    hide Noted, True, Find, Place, Done, SentOf, Dropped, Firmer, IsSlice, Bytes, Recorded, InMedia, Before;
    forall j | 0 <= j < |objects'| ensures True(m, arrivals, now, k0, objects'[j]) {
      if j != i {
        assert Before(objects[j].key, objects[i].key) || Before(objects[i].key, objects[j].key);
        TrueElsewhere(m, arrivals, log, k0, objects[j], fate);
      }
    }
    forall j | 0 <= j < |now| && !Before(arrivals[j].key, k0) && !Blank(now[j])
      ensures Recorded(objects', arrivals[j].key)
    {
      RecordedSame(objects, i, o, arrivals[j].key);
    }
    forall k | InMedia(m, k) && !Before(k, k0) && Before(k, objects'[0].key) ensures Done(m, arrivals, now, k) {
      FirmerKeeps(m, arrivals, log, fate, k);
    }
  }

  lemma RecordedSame(objects: seq<SentObject>, i: nat, o: SentObject, k: Key)
    requires i < |objects| && o.key == objects[i].key
    ensures Recorded(objects, k) || k == o.key ==> Recorded(objects[i := o], k)
  {
    var now := objects[i := o];
    if Find(objects, k) >= 0 {
      RecordedByEntry(now, k, Find(objects, k));
    } else if k == o.key {
      RecordedByEntry(now, k, i);
    }
  }

  lemma TrueElsewhere(m: Groups, arrivals: seq<Fragment>, log: seq<Fate>, k0: Key, o: SentObject, fate: Fate)
    requires 0 < |log| <= |arrivals| && Firmer(log[|log| - 1], fate) && True(m, arrivals, log, k0, o)
    requires Before(arrivals[|log| - 1].key, o.key) || Before(o.key, arrivals[|log| - 1].key)
    ensures True(m, arrivals, log[|log| - 1 := fate], k0, o)
  {
    hide SentOf, Dropped, EmittedFor, Firmer, Bytes;
    FirmerKeeps(m, arrivals, log, fate, o.key);
  }

  // ----- Pruning -----

  /** Between an entry and the next in sequence there is no other object. */
  lemma NextInSequence(m: Groups, arrivals: seq<Fragment>, log: seq<Fate>, k0: Key, a: SentObject, b: SentObject, k: Key)
    requires InSequence(a, b) && True(m, arrivals, log, k0, a) && True(m, arrivals, log, k0, b)
    requires InMedia(m, k) && Before(k, b.key)
    ensures Before(k, a.key) || k == a.key
  {
  }

  lemma RecordedTail(objects: seq<SentObject>, k: Key)
    requires Sorted(objects) && |objects| >= 2 && Recorded(objects, k)
    ensures Recorded(objects[1..], k)
  {
    var i := Find(objects, k);
    assert Before(objects[0].key, objects[1].key);
    if i > 0 {
      RecordedByEntry(objects[1..], k, i - 1);
    }
  }

  lemma PruneStepBooks(m: Groups, arrivals: seq<Fragment>, log: seq<Fate>, k0: Key, objects: seq<SentObject>)
    requires Books(m, arrivals, log, k0, objects) && |log| <= |arrivals|
    requires |objects| >= 2 && objects[0].isSent && InSequence(objects[0], objects[1])
    ensures Books(m, arrivals, log, k0, objects[1..])
  {
    var rest := objects[1..];
    assert True(m, arrivals, log, k0, objects[0]) && True(m, arrivals, log, k0, objects[1]);
    assert Done(m, arrivals, log, objects[0].key);
    hide Done, InSequence, True, Recorded, Find, InMedia, Before;
    forall i | 0 <= i < |rest| ensures True(m, arrivals, log, k0, rest[i]) {
      assert rest[i] == objects[i + 1];
    }
    forall i | 0 <= i < |log| && !Before(arrivals[i].key, k0) && !Blank(log[i])
      ensures Recorded(rest, arrivals[i].key)
    {
      RecordedTail(objects, arrivals[i].key);
    }
    forall k | InMedia(m, k) && !Before(k, k0) && Before(k, rest[0].key) ensures Done(m, arrivals, log, k) {
      NextInSequence(m, arrivals, log, k0, objects[0], objects[1], k);
    }
  }

  /** Pruning keeps the low-water mark sound. */
  lemma {:induction false} PruneBooks(m: Groups, arrivals: seq<Fragment>, log: seq<Fate>, k0: Key, objects: seq<SentObject>)
    requires Books(m, arrivals, log, k0, objects) && |log| <= |arrivals|
    ensures Books(m, arrivals, log, k0, Prune(objects))
    ensures objects != [] ==> Prune(objects) != []
  {
    hide Books, InSequence;
    if |objects| >= 2 && objects[0].isSent && InSequence(objects[0], objects[1]) {
      PruneStepBooks(m, arrivals, log, k0, objects);
      PruneBooks(m, arrivals, log, k0, objects[1..]);
    }
  }

  // ----- Sending -----

  lemma UpdatedUnfold(objects: seq<SentObject>, f: Fragment, skip: bool, nextOffset: nat, copied: nat)
    ensures var objects' := WithEntry(objects, f);
            var i := Find(objects', f.key);
            var now := objects'[i := Noted(objects'[i], f, skip, nextOffset, copied)];
            Updated(objects, f, skip, nextOffset, copied) == if Finishes(objects'[i], nextOffset, copied) then Prune(now) else now
  {
  }

  lemma UpdatedBooks(m: Groups, arrivals: seq<Fragment>, log: seq<Fate>, k0: Key, objects: seq<SentObject>,
                     fate: Fate, nextOffset: nat, copied: nat) returns (o: SentObject)
    requires 0 < |log| <= |arrivals| && Firmer(log[|log| - 1], fate) && Books(m, arrivals, log, k0, objects)
    requires var f := arrivals[|log| - 1]; IsSlice(m, f) && !Before(f.key, k0) && !Dropped(arrivals, log, f.key)
    requires objects == [] ==> arrivals[|log| - 1].key == k0
    requires objects != [] ==> !Before(arrivals[|log| - 1].key, objects[0].key)
    requires copied == Bytes(fate) - Bytes(log[|log| - 1])
    ensures var f := arrivals[|log| - 1];
            var now := Updated(objects, f, fate.Placeheld?, nextOffset, copied);
            && Books(m, arrivals, log[|log| - 1 := fate], k0, now) && now != []
            && True(m, arrivals, log, k0, o) && o.key == f.key
            && (!Finishes(o, nextOffset, copied) ==> !Before(f.key, now[0].key))
  {
    var f := arrivals[|log| - 1];
    hide *;
    var objects' := WithEntry(objects, f);
    EntryBooks(m, arrivals, log, k0, objects, f);
    var i := Find(objects', f.key);
    o := objects'[i];
    TrueAt(m, arrivals, log, k0, objects', i);
    NotedBooks(m, arrivals, log, k0, objects', i, fate, nextOffset, copied);
    var now := objects'[i := Noted(o, f, fate.Placeheld?, nextOffset, copied)];
    PruneBooks(m, arrivals, log[|log| - 1 := fate], k0, now);
    UpdatedUnfold(objects, f, fate.Placeheld?, nextOffset, copied);
    NotBelowFirst(objects', i, Noted(o, f, fate.Placeheld?, nextOffset, copied), f);
    NotedKey(o, f, fate.Placeheld?, nextOffset, copied);
  }

  lemma NotedKey(o: SentObject, f: Fragment, skip: bool, nextOffset: nat, copied: nat)
    ensures Noted(o, f, skip, nextOffset, copied).key == o.key
  {
  }

  lemma TrueAt(m: Groups, arrivals: seq<Fragment>, log: seq<Fate>, k0: Key, objects: seq<SentObject>, i: nat)
    requires Books(m, arrivals, log, k0, objects) && i < |objects|
    ensures True(m, arrivals, log, k0, objects[i]) && Sorted(objects)
  {
  }

  lemma NotBelowFirst(objects: seq<SentObject>, i: nat, o: SentObject, f: Fragment)
    requires i < |objects| && objects[i].key == f.key && (o.key == f.key ==> Sorted(objects))
    ensures o.key == f.key ==> !Before(f.key, objects[i := o][0].key)
  {
    if i > 0 && o.key == f.key {
      assert Before(objects[0].key, objects[i].key);
    }
  }

  lemma EntryBooks(m: Groups, arrivals: seq<Fragment>, log: seq<Fate>, k0: Key, objects: seq<SentObject>, f: Fragment)
    requires Books(m, arrivals, log, k0, objects) && |log| <= |arrivals|
    requires IsSlice(m, f) && !Before(f.key, k0)
    requires objects == [] ==> f.key == k0
    requires objects != [] ==> !Before(f.key, objects[0].key)
    ensures Books(m, arrivals, log, k0, WithEntry(objects, f))
    ensures WithEntry(objects, f)[Find(WithEntry(objects, f), f.key)].key == f.key
  {
    hide Books, IsSlice, Before, Place;
    if Find(objects, f.key) < 0 {
      NewEntryBooks(m, arrivals, log, k0, objects, f);
    }
  }

  lemma RightIsTight(arrivals: seq<Fragment>, k0: Key, r: Reader, i: nat)
    requires i < |r.log| <= |arrivals| && Right(arrivals, k0, r, i)
    ensures Bytes(r.log[i]) <= |arrivals[i].data|
    ensures i == r.current && !r.isCurrentSent && r.log[i].Pieces? ==> Bytes(r.log[i]) == r.lengthSent
  {
    if r.log[i].Pieces? {
      var ds := r.log[i].sent;
      TilesJoin(arrivals[i], ds, if i == r.current && !r.isCurrentSent then r.lengthSent else |arrivals[i].data|);
    }
  }

  lemma HistoryIsTight(arrivals: seq<Fragment>, k0: Key, r: Reader)
    requires History(arrivals, k0, r)
    ensures Tight(arrivals, r.log)
  {
    forall i | 0 <= i < |r.log| ensures Bytes(r.log[i]) <= |arrivals[i].data| {
      RightIsTight(arrivals, k0, r, i);
    }
  }

  /** While a fragment is under way, its object is not yet sent. */
  lemma UnderwayIsShort(m: Groups, arrivals: seq<Fragment>, log: seq<Fate>)
    requires Cut(m, arrivals) && Tight(arrivals, log) && log != []
    requires Bytes(log[|log| - 1]) < |arrivals[|log| - 1].data|
    ensures SentOf(arrivals, log, arrivals[|log| - 1].key) < arrivals[|log| - 1].objectLength
  {
    var n := |log| - 1;
    var f := arrivals[n];
    var s := Offered(arrivals, n, f.key);
    assert IsSolidSlice(m, f);
    SentWithinOffered(m, arrivals, log[..n], f.key);
    OfferedIsBelow(m, arrivals, n, f.key, f);
    SpanSize(f.offset, |f.data|);
    SpanSize(0, f.objectLength);
    Subset(s + Span(f.offset, |f.data|), Span(0, f.objectLength));
  }

  lemma RightElsewhere(arrivals: seq<Fragment>, k0: Key, r: Reader, r': Reader, i: nat)
    requires 0 <= r.current && |r.log| == r.current + 1 <= |arrivals|
    requires r'.current == r.current && |r'.log| == |r.log| && r'.log == r.log[r.current := r'.log[r.current]]
    requires Firmer(r.log[r.current], r'.log[r.current]) && i < r.current && Right(arrivals, k0, r, i)
    ensures Right(arrivals, k0, r', i)
  {
    hide Whole, Before, Underway;
    FirmerDrops(arrivals, r.log, r'.log[r.current], arrivals[i].key);
    assert r'.log[i] == r.log[i];
  }

  lemma FirmerDrops(arrivals: seq<Fragment>, log: seq<Fate>, fate: Fate, k: Key)
    requires 0 < |log| <= |arrivals| && Firmer(log[|log| - 1], fate)
    ensures Dropped(arrivals, log, k) ==> Dropped(arrivals, log[|log| - 1 := fate], k)
  {
    if Dropped(arrivals, log, k) {
      var i :| 0 <= i < |log| <= |arrivals| && arrivals[i].key == k && log[i].Placeheld?;
      assert log[|log| - 1 := fate][i] == log[i];
    }
  }

  ghost predicate FirstOf(arrivals: seq<Fragment>, i: nat)
    requires i < |arrivals|
  {
    forall j :: 0 <= j < i ==> arrivals[j].key != arrivals[i].key
  }

  lemma RightSent(arrivals: seq<Fragment>, k0: Key, r: Reader, room: int, skip: bool)
    requires Ready(r, arrivals) && r.current >= 0 && !r.isCurrentSent && Right(arrivals, k0, r, r.current)
    requires skip ==> FirstOf(arrivals, r.current) && MaySkip(arrivals[r.current])
    ensures var r' := Send(r, arrivals[r.current], room, skip);
            r'.current == r.current && Ready(r', arrivals) && Right(arrivals, k0, r', r.current)
  {
    hide Updated;
    var f, ds := arrivals[r.current], r.log[r.current].sent;
    var r' := Send(r, f, room, skip);
    if !skip && r' != r {
      TilesMore(f, ds, r.lengthSent, r'.lengthSent);
    }
  }

  lemma {:induction false} LengthMore(ds: seq<Datagram>, d: Datagram)
    ensures Length(ds + [d]) == Length(ds) + |d.data|
  {
    assert (ds + [d])[..|ds|] == ds;
  }

  lemma SendFirmer(arrivals: seq<Fragment>, k0: Key, r: Reader, room: int, skip: bool)
    requires Ready(r, arrivals) && r.current >= 0 && !r.isCurrentSent && Right(arrivals, k0, r, r.current)
    requires skip ==> Blank(r.log[r.current])
    ensures var r' := Send(r, arrivals[r.current], room, skip);
            && Bytes(r.log[r.current]) == r.lengthSent
            && (r' != r ==>
                  var copied := r'.lengthSent - r.lengthSent;
                  && copied >= 0
                  && r'.log == r.log[r.current := r'.log[r.current]] && Firmer(r.log[r.current], r'.log[r.current])
                  && Bytes(r'.log[r.current]) - Bytes(r.log[r.current]) == copied
                  && r'.log[r.current].Placeheld? == skip
                  && r'.objects == Updated(r.objects, arrivals[r.current], skip,
                                           (if skip then 0 else arrivals[r.current].offset + r.lengthSent) + copied, copied))
  {
    hide Updated, Underway, Whole;
    var f, ds := arrivals[r.current], r.log[r.current].sent;
    RightIsTight(arrivals, k0, r, r.current);
    var r' := Send(r, f, room, skip);
    if !skip && r' != r {
      LengthMore(ds, PieceOf(f, r.lengthSent, r'.lengthSent));
    }
  }

  /** An entry is not finished by a piece that does not end its fragment. */
  lemma NotFinished(m: Groups, arrivals: seq<Fragment>, k0: Key, r: Reader, o: SentObject, copied: nat, fate: Fate)
    requires Cut(m, arrivals) && 0 <= r.current && |r.log| == r.current + 1 && Tight(arrivals, r.log[r.current := fate])
    requires Firmer(r.log[r.current], fate) && True(m, arrivals, r.log, k0, o) && o.key == arrivals[r.current].key
    requires Bytes(fate) == r.lengthSent + copied && Bytes(r.log[r.current]) == r.lengthSent
    requires r.lengthSent + copied < |arrivals[r.current].data|
    ensures !Finishes(o, arrivals[r.current].offset + r.lengthSent + copied, copied)
  {
    var now := r.log[r.current := fate];
    UnderwayIsShort(m, arrivals, now);
    FirmerKeeps(m, arrivals, r.log, fate, o.key);
    assert IsSolidSlice(m, arrivals[r.current]);
    hide SentOf, Bytes, Done, Dropped, Firmer;
  }

  /** The invariant of a reader that has begun. */
  ghost predicate Sound(m: Groups, arrivals: seq<Fragment>, k0: Key, r: Reader) {
    && Ready(r, arrivals) && r.current >= 0
    && History(arrivals, k0, r)
    && Books(m, arrivals, r.log, k0, r.objects)
    && Standing(arrivals, k0, r)
  }

  lemma HistorySent(arrivals: seq<Fragment>, k0: Key, r: Reader, r': Reader)
    requires Ready(r, arrivals) && r.current >= 0 && History(arrivals, k0, r)
    requires r'.current == r.current && Ready(r', arrivals) && Right(arrivals, k0, r', r.current)
    requires r'.log == r.log[r.current := r'.log[r.current]] && Firmer(r.log[r.current], r'.log[r.current])
    ensures History(arrivals, k0, r')
  {
    hide Right, Firmer;
    forall i | 0 <= i < |r'.log| ensures Right(arrivals, k0, r', i) {
      if i < r.current {
        RightElsewhere(arrivals, k0, r, r', i);
      }
    }
  }

  lemma NotDropped(arrivals: seq<Fragment>, k0: Key, r: Reader)
    requires Ready(r, arrivals) && r.current >= 0 && !r.isCurrentSent && History(arrivals, k0, r)
    ensures !Before(arrivals[r.current].key, k0) && !Dropped(arrivals, r.log, arrivals[r.current].key)
  {
    assert Right(arrivals, k0, r, r.current);
    forall i | 0 <= i < |r.log| && arrivals[i].key == arrivals[r.current].key ensures !r.log[i].Placeheld? {
      assert Right(arrivals, k0, r, i);
    }
  }

  lemma Parts(m: Groups, arrivals: seq<Fragment>, k0: Key, r: Reader)
    requires Cut(m, arrivals) && Sound(m, arrivals, k0, r)
    ensures 0 <= r.current < |arrivals| && |r.log| == r.current + 1 && Ready(r, arrivals)
    ensures History(arrivals, k0, r) && Books(m, arrivals, r.log, k0, r.objects) && Right(arrivals, k0, r, r.current)
    ensures IsSlice(m, arrivals[r.current])
    ensures r.objects == [] ==> !r.isCurrentSent && arrivals[r.current].key == k0
    ensures r.objects != [] && !r.isCurrentSent ==> !Before(arrivals[r.current].key, r.objects[0].key)
    ensures !r.isCurrentSent ==> r.log[r.current].Pieces? && r.lengthSent <= |arrivals[r.current].data|
  {
    assert IsSolidSlice(m, arrivals[r.current]);
  }

  lemma SendSetsSent(arrivals: seq<Fragment>, r: Reader, room: int, skip: bool)
    requires Ready(r, arrivals) && r.current >= 0 && !r.isCurrentSent
    ensures var r' := Send(r, arrivals[r.current], room, skip);
            && (r' == r || (r'.isCurrentSent <==> skip || r'.lengthSent >= |arrivals[r.current].data|))
            && r'.current == r.current
  {
    hide Updated;
  }

  /** Sending keeps the invariant, under any verdict that falls on a new object. */
  lemma SendKeeps(m: Groups, arrivals: seq<Fragment>, k0: Key, r: Reader, room: int, skip: bool)
    requires Cut(m, arrivals) && Sound(m, arrivals, k0, r) && !r.isCurrentSent
    requires skip ==> FirstOf(arrivals, r.current) && Blank(r.log[r.current]) && MaySkip(arrivals[r.current])
    ensures Sound(m, arrivals, k0, Send(r, arrivals[r.current], room, skip))
  {
    hide *;
    Parts(m, arrivals, k0, r);
    var f := arrivals[r.current];
    var r' := Send(r, f, room, skip);
    SendFirmer(arrivals, k0, r, room, skip);
    RightSent(arrivals, k0, r, room, skip);
    SendSetsSent(arrivals, r, room, skip);
    NotDropped(arrivals, k0, r);
    if r' != r {
      var fate, copied := r'.log[r.current], r'.lengthSent - r.lengthSent;
      var nextOffset := (if skip then 0 else f.offset + r.lengthSent) + copied;
      HistorySent(arrivals, k0, r, r');
      HistoryIsTight(arrivals, k0, r');
      var o := UpdatedBooks(m, arrivals, r.log, k0, r.objects, fate, nextOffset, copied);
      if !r'.isCurrentSent {
        NotFinished(m, arrivals, k0, r, o, copied, fate);
      }
      Assemble(m, arrivals, k0, r');
    }
  }

  lemma Assemble(m: Groups, arrivals: seq<Fragment>, k0: Key, r: Reader)
    requires Ready(r, arrivals) && 0 <= r.current < |arrivals| && History(arrivals, k0, r)
    requires Books(m, arrivals, r.log, k0, r.objects) && r.objects != []
    requires !r.isCurrentSent ==> !Before(arrivals[r.current].key, r.objects[0].key)
    ensures Sound(m, arrivals, k0, r)
  {
  }

  // ----- Seeking -----

  lemma SentOfMore(arrivals: seq<Fragment>, log: seq<Fate>, fate: Fate, k: Key)
    requires |log| < |arrivals| && (Blank(fate) || fate == Silent)
    ensures SentOf(arrivals, log + [fate], k) == SentOf(arrivals, log, k)
    ensures EmittedFor(arrivals, log + [fate], k) <==> EmittedFor(arrivals, log, k)
    ensures Dropped(arrivals, log + [fate], k) <==> Dropped(arrivals, log, k)
  {
    var now := log + [fate];
    assert now[..|log|] == log;
    if EmittedFor(arrivals, log, k) {
      var i :| 0 <= i < |log| <= |arrivals| && arrivals[i].key == k && Emitted(log[i]);
      assert now[i] == log[i];
    }
    if Dropped(arrivals, log, k) {
      var i :| 0 <= i < |log| <= |arrivals| && arrivals[i].key == k && log[i].Placeheld?;
      assert now[i] == log[i];
    }
  }

  /** Passing on to the next fragment changes nothing in the books. */
  lemma BooksMore(m: Groups, arrivals: seq<Fragment>, log: seq<Fate>, k0: Key, objects: seq<SentObject>, fate: Fate)
    requires |log| < |arrivals| && Books(m, arrivals, log, k0, objects)
    requires Blank(fate) || (fate == Silent && (Before(arrivals[|log|].key, k0) || Recorded(objects, arrivals[|log|].key)))
    ensures Books(m, arrivals, log + [fate], k0, objects)
  {
    var now := log + [fate];
    hide SentOf, EmittedFor, Dropped, Recorded, Before, InMedia;
    forall i | 0 <= i < |objects| ensures True(m, arrivals, now, k0, objects[i]) {
      SentOfMore(arrivals, log, fate, objects[i].key);
    }
    forall k | InMedia(m, k) && objects != [] && !Before(k, k0) && Before(k, objects[0].key)
      ensures Done(m, arrivals, now, k)
    {
      SentOfMore(arrivals, log, fate, k);
    }
  }

  lemma RightMore(arrivals: seq<Fragment>, k0: Key, r: Reader, r': Reader, i: nat)
    requires Ready(r, arrivals) && 0 <= r.current < |arrivals| - 1 && r.isCurrentSent
    requires r'.current == r.current + 1 && |r'.log| == r'.current + 1 && r'.log[..r'.current] == r.log
    requires r'.log[r'.current] == Silent ||
             (Blank(r'.log[r'.current]) && !Dropped(arrivals, r.log, arrivals[r'.current].key))
    requires i <= r.current && Right(arrivals, k0, r, i)
    ensures Right(arrivals, k0, r', i)
  {
    hide Whole, Before, Underway;
    var fate := r'.log[r'.current];
    assert r'.log == r.log + [fate] && r'.log[i] == r.log[i];
    SentOfMore(arrivals, r.log, fate, arrivals[i].key);
    if r.log[i].Placeheld? {
      assert Dropped(arrivals, r.log, arrivals[i].key);
      forall j | 0 <= j < |r'.log| && j != i && arrivals[j].key == arrivals[i].key ensures r'.log[j] == Silent {
        if j < r'.current {
          assert r'.log[j] == r.log[j];
        }
      }
    }
  }

  lemma HistoryMore(arrivals: seq<Fragment>, k0: Key, r: Reader, r': Reader)
    requires Ready(r, arrivals) && 0 <= r.current < |arrivals| - 1 && r.isCurrentSent && History(arrivals, k0, r)
    requires r'.current == r.current + 1 && |r'.log| == r'.current + 1 && r'.log[..r'.current] == r.log
    requires var k := arrivals[r'.current].key;
             if r'.isCurrentSent then r'.log[r'.current] == Silent && (Before(k, k0) || Dropped(arrivals, r.log, k))
             else Blank(r'.log[r'.current]) && !Dropped(arrivals, r.log, k) && !Before(k, k0) && r'.lengthSent == 0
    ensures History(arrivals, k0, r')
  {
    var fate := r'.log[r'.current];
    assert r'.log == r.log + [fate];
    SentOfMore(arrivals, r.log, fate, arrivals[r'.current].key);
    forall i | 0 <= i < |r'.log| ensures Right(arrivals, k0, r', i) {
      if i <= r.current {
        RightMore(arrivals, k0, r, r', i);
      }
    }
  }

  /** A fragment is passed over only if it is below the first object ever sent, or dropped. */
  lemma SkippedIsRight(m: Groups, arrivals: seq<Fragment>, start: Key, k0: Key, r: Reader)
    requires Cut(m, arrivals) && Sound(m, arrivals, k0, r) && r.isCurrentSent && !Before(k0, start)
    requires r.current + 1 < |arrivals| && Judge(r.objects, arrivals[r.current + 1].key, start).Skipped?
    ensures var k := arrivals[r.current + 1].key; (Before(k, k0) || Dropped(arrivals, r.log, k)) && Recorded(r.objects, k)
  {
    var k := arrivals[r.current + 1].key;
    var i := Find(r.objects, k);
    if i >= 0 {
      assert True(m, arrivals, r.log, k0, r.objects[i]);
    } else if !Before(k, k0) {
      assert IsSolidSlice(m, arrivals[r.current + 1]);
      assert Done(m, arrivals, r.log, k);
      HistoryIsTight(arrivals, k0, r);
      NothingLeft(m, arrivals, r.log, k, r.current + 1);
    }
  }

  lemma TakenIsRight(m: Groups, arrivals: seq<Fragment>, start: Key, k0: Key, r: Reader)
    requires Sound(m, arrivals, k0, r) && r.isCurrentSent && r.current + 1 < |arrivals|
    requires !Judge(r.objects, arrivals[r.current + 1].key, start).Skipped?
    ensures var k := arrivals[r.current + 1].key;
            && !Before(k, k0) && !Dropped(arrivals, r.log, k) && r.objects != [] && !Before(k, r.objects[0].key)
  {
    hide Done, SentOf, History, AllRecorded, LowWater, EmittedFor;
    var k := arrivals[r.current + 1].key;
    var i := Find(r.objects, k);
    assert True(m, arrivals, r.log, k0, r.objects[0]);
    if i >= 0 {
      assert True(m, arrivals, r.log, k0, r.objects[i]);
      assert i > 0 ==> Before(r.objects[0].key, r.objects[i].key);
    } else {
      NewIsNotDropped(m, arrivals, k0, r, k);
    }
  }

  lemma NewIsNotDropped(m: Groups, arrivals: seq<Fragment>, k0: Key, r: Reader, k: Key)
    requires Sound(m, arrivals, k0, r) && !Before(k, k0) && !Recorded(r.objects, k)
    ensures !Dropped(arrivals, r.log, k)
  {
    Unrecorded(m, arrivals, r.log, k0, r.objects, k);
  }

  lemma NewIsFirst(m: Groups, arrivals: seq<Fragment>, k0: Key, r: Reader)
    requires Sound(m, arrivals, k0, r) && r.isCurrentSent && r.current + 1 < |arrivals|
    requires var k := arrivals[r.current + 1].key; !Before(k, k0) && !Recorded(r.objects, k)
    ensures FirstOf(arrivals, r.current + 1)
  {
    var j := r.current + 1;
    Unrecorded(m, arrivals, r.log, k0, r.objects, arrivals[j].key);
    forall i | 0 <= i < j ensures arrivals[i].key != arrivals[j].key {
      assert Right(arrivals, k0, r, i);
    }
  }

  lemma PassOverKeeps(m: Groups, arrivals: seq<Fragment>, start: Key, k0: Key, r: Reader)
    requires Cut(m, arrivals) && Sound(m, arrivals, k0, r) && r.isCurrentSent && !Before(k0, start)
    requires r.current + 1 < |arrivals| && Judge(r.objects, arrivals[r.current + 1].key, start).Skipped?
    ensures Sound(m, arrivals, k0, PassOver(Onward(r)))
  {
    hide Right, Books, Judge, Cut, Before, Recorded, Dropped;
    var r' := PassOver(Onward(r));
    SkippedIsRight(m, arrivals, start, k0, r);
    assert r'.log == r.log + [Silent];
    HistoryMore(arrivals, k0, r, r');
    BooksMore(m, arrivals, r.log, k0, r.objects, Silent);
  }

  lemma OnwardKeeps(m: Groups, arrivals: seq<Fragment>, start: Key, k0: Key, r: Reader)
    requires Sound(m, arrivals, k0, r) && r.isCurrentSent
    requires r.current + 1 < |arrivals| && !Judge(r.objects, arrivals[r.current + 1].key, start).Skipped?
    ensures Sound(m, arrivals, k0, Onward(r))
    ensures Judge(r.objects, arrivals[r.current + 1].key, start).New? ==> FirstOf(arrivals, r.current + 1)
  {
    var r' := Onward(r);
    TakenIsRight(m, arrivals, start, k0, r);
    if Judge(r.objects, arrivals[r.current + 1].key, start).New? {
      NewIsFirst(m, arrivals, k0, r);
    }
    hide Right, Books, Judge, Cut, Before, Recorded, Dropped, FirstOf;
    HistoryMore(arrivals, k0, r, r');
    BooksMore(m, arrivals, r.log, k0, r.objects, Pieces([]));
  }

  lemma {:induction false} SeekKeeps(m: Groups, arrivals: seq<Fragment>, start: Key, k0: Key, r: Reader)
    requires Cut(m, arrivals) && Sound(m, arrivals, k0, r) && !Before(k0, start)
    ensures var (r', isNew) := Seek(r, arrivals, start);
            && Sound(m, arrivals, k0, r') && r.current <= r'.current
            && (isNew ==> !r'.isCurrentSent && FirstOf(arrivals, r'.current) && Blank(r'.log[r'.current]))
            && (r'.isCurrentSent ==> r'.current == |arrivals| - 1)
    decreases |arrivals| - r.current
  {
    hide History, Books, Judge, Cut, Before, FirstOf, Standing, Seek;
    SeekUnfold(r, arrivals, start);
    if r.isCurrentSent && r.current + 1 < |arrivals| {
      if Judge(r.objects, arrivals[r.current + 1].key, start).Skipped? {
        PassOverKeeps(m, arrivals, start, k0, r);
        SeekKeeps(m, arrivals, start, k0, PassOver(Onward(r)));
      } else {
        OnwardKeeps(m, arrivals, start, k0, r);
      }
    }
  }

  lemma BeginKeeps(m: Groups, arrivals: seq<Fragment>, start: Key)
    requires Cut(m, arrivals)
    ensures var i := FirstFrom(arrivals, start, 0);
            var r := Begin(NEW_READER, arrivals, start);
            if i == |arrivals| then r == NEW_READER
            else r.current == i && Sound(m, arrivals, arrivals[i].key, r) && !Before(arrivals[i].key, start)
  {
    var i := FirstFrom(arrivals, start, 0);
    if i < |arrivals| {
      var r := Begin(NEW_READER, arrivals, start);
      forall x | 0 <= x < |r.log| ensures Right(arrivals, arrivals[i].key, r, x) {
        if x < i {
          assert Before(arrivals[x].key, start);
        }
      }
    }
  }

  lemma PollUnfold(r: Reader, arrivals: seq<Fragment>, start: Key, verdict: bool, room: int)
    requires Ready(r, arrivals)
    ensures r.current < 0 ==> Choice(r, arrivals, start) == (Begin(r, arrivals, start), false)
    ensures r.current >= 0 ==> Choice(r, arrivals, start) == Seek(r, arrivals, start)
    ensures var (r1, isNew) := Choice(r, arrivals, start);
            Poll(r, arrivals, start, verdict, room) ==
            if r1.current < 0 || r1.isCurrentSent then r1
            else Send(r1, arrivals[r1.current], room, isNew && verdict && MaySkip(arrivals[r1.current]))
  {
    hide Seek, Begin, Send;
  }

  lemma SoundIsInvariant(m: Groups, arrivals: seq<Fragment>, start: Key, r: Reader)
    requires Invariant(m, arrivals, start, r) && r.current >= 0
    ensures var i := FirstFrom(arrivals, start, 0); i <= r.current < |arrivals| && Sound(m, arrivals, arrivals[i].key, r)
  {
  }

  /** Every poll keeps the invariant. */
  lemma PollKeeps(m: Groups, arrivals: seq<Fragment>, start: Key, r: Reader, verdict: bool, room: int)
    requires Cut(m, arrivals) && Invariant(m, arrivals, start, r)
    ensures Invariant(m, arrivals, start, Poll(r, arrivals, start, verdict, room))
  {
    PollUnfold(r, arrivals, start, verdict, room);
    var i := FirstFrom(arrivals, start, 0);
    hide History, Books, Cut, Before, FirstOf, Standing, Seek, Begin, Send, Poll, Choice;
    if r.current < 0 {
      BeginKeeps(m, arrivals, start);
      if i < |arrivals| {
        var r1 := Begin(r, arrivals, start);
        if !r1.isCurrentSent {
          SendKeeps(m, arrivals, arrivals[i].key, r1, room, false);
          SendSetsSent(arrivals, r1, room, false);
        }
      }
    } else {
      SeekKeeps(m, arrivals, start, arrivals[i].key, r);
      var (r1, isNew) := Seek(r, arrivals, start);
      if !r1.isCurrentSent {
        var skip := isNew && verdict && MaySkip(arrivals[r1.current]);
        SendKeeps(m, arrivals, arrivals[i].key, r1, room, skip);
        SendSetsSent(arrivals, r1, room, skip);
      }
    }
  }
}
