/** What unidirectional streams deliver to a consumer.  Each stream brings objects one after the other
    and cut in any way; the streams themselves are mixed in any order.  Every piece says what the
    header of its object said, also the size of the previous group. */
module WarpReception {
  import opened Media
  import opened Arrivals
  import Reassembly
  import Delivery
  import FragmentCache
  import CacheCursor
  import WarpStream

  /** The receiver once it has read the header of object k. */
  function Opened(m: Groups, k: Key): WarpStream.Receiver
    requires InMedia(m, k)
  {
    var o := ObjectAt(m, k);
    WarpStream.Receiver(k, o.flags, if k.id == 0 then SizeOfPrevious(m, k.group) else 0, |o.data|, 0)
  }

  /** The pieces that came of an object: none is empty, and none runs past the end of the object. */
  ghost predicate PiecesOf(m: Groups, k: Key, pieces: seq<seq<Byte>>) {
    InMedia(m, k) && Concat(pieces) <= ObjectAt(m, k).data && forall i :: 0 <= i < |pieces| ==> pieces[i] != []
  }

  /** The fragments that the consumer gets of an object whose header came: one for each piece, and
      one for the header of an empty object. */
  function Fragments(m: Groups, k: Key, pieces: seq<seq<Byte>>): (r: seq<Fragment>)
    requires PiecesOf(m, k, pieces)
  {
    if ObjectAt(m, k).data == [] then [Fragment(k, 0, ObjectAt(m, k).flags, Opened(m, k).previousSize, 0, [])]
    else WarpStream.Taken(Opened(m, k), pieces).0
  }

  /** The arrivals of object k, in order. */
  function ArrivalsOf(es: seq<Event>, k: Key): seq<Fragment> {
    if es == [] then []
    else
      var e := es[|es| - 1];
      ArrivalsOf(es[..|es| - 1], k) + if e.Arrival? && e.fragment.key == k then [e.fragment] else []
  }

  /** A consumer is fed by streams: of the objects in cuts the header came, and of each of them those
      pieces, in order; a start point can only be learned first. */
  ghost predicate Streamed(m: Groups, cuts: map<Key, seq<seq<Byte>>>, es: seq<Event>) {
    && (forall k :: k in cuts ==> PiecesOf(m, k, cuts[k]))
    && (forall i :: 0 <= i < |es| ==>
          if es[i].Arrival? then es[i].fragment.key in cuts else Honest(m, es[i]) && (es[i].Start? ==> i == 0))
    && forall k :: k in cuts ==> ArrivalsOf(es, k) == Fragments(m, k, cuts[k])
  }

  // ----- Each arrival is a piece of the media, behind those before it -----

  lemma FragmentsAre(m: Groups, k: Key, pieces: seq<seq<Byte>>, n: nat)
    requires PiecesOf(m, k, pieces) && n < |Fragments(m, k, pieces)|
    ensures var f := Fragments(m, k, pieces)[n];
            && f.key == k && IsSolidSlice(m, f) && f.offset == ReachOf(pieces, n)
            && (n < |pieces| ==> f.End() == ReachOf(pieces, n + 1))
            && (n >= |pieces| ==> f.data == [])
  {
    if n < |pieces| && ObjectAt(m, k).data != [] {
      WarpStream.ReceivedTiles(ObjectAt(m, k).data, Opened(m, k), pieces, n);
    } else {
      NoPieces(pieces);
    }
  }

  /** Nothing comes of an empty object but its header. */
  lemma {:induction false} NoPieces(pieces: seq<seq<Byte>>)
    requires forall i :: 0 <= i < |pieces| ==> pieces[i] != []
    ensures |Concat(pieces)| >= |pieces|
  {
    if pieces != [] {
      NoPieces(pieces[..|pieces| - 1]);
    }
  }

  /** How far the first n pieces reach. */
  function ReachOf(pieces: seq<seq<Byte>>, n: nat): nat {
    |Concat(pieces[..if n < |pieces| then n else |pieces|])|
  }

  lemma {:induction false} ArrivalsBefore(es: seq<Event>, n: nat, k: Key)
    requires n <= |es|
    ensures IsFront(ArrivalsOf(es[..n], k), ArrivalsOf(es, k))
    ensures n < |es| && Touches(es[n], k) ==>
              |ArrivalsOf(es[..n], k)| < |ArrivalsOf(es, k)| &&
              ArrivalsOf(es, k)[|ArrivalsOf(es[..n], k)|] == es[n].fragment
  {
    if n < |es| {
      var before := es[..|es| - 1];
      assert n < |before| ==> before[..n] == es[..n] && before[n] == es[n];
      assert n == |before| ==> es[..n] == before;
      if n < |before| {
        ArrivalsBefore(before, n, k);
      }
    } else {
      assert es[..n] == es;
    }
  }

  /** One more arrival carries the range behind what was covered. */
  lemma NextFragment(m: Groups, es: seq<Event>, e: Event, k: Key, pieces: seq<seq<Byte>>, n: nat)
    requires PiecesOf(m, k, pieces) && n < |Fragments(m, k, pieces)| && e == Arrival(Fragments(m, k, pieces)[n])
    requires forall p :: p in Covered(es, k) <==> 0 <= p < ReachOf(pieces, n)
    ensures forall p :: p in Covered(es + [e], k) <==> 0 <= p < ReachOf(pieces, n + 1)
    ensures Touched(es + [e], k)
  {
    hide Fragments, Span, PiecesOf, Covered, Touched, ReachOf, IsSolidSlice;
    FragmentsAre(m, k, pieces, n);
    OnlyItsObject(m, es, e, k);
    SpanAt(e.fragment);
    ReachGrows(pieces, n);
  }

  lemma ArrivalsUnfold(es: seq<Event>, e: Event, k: Key)
    ensures ArrivalsOf(es + [e], k) == ArrivalsOf(es, k) + if Touches(e, k) then [e.fragment] else []
  {
    assert (es + [e])[..|es|] == es;
  }

  ghost predicate IsFront(fs: seq<Fragment>, all: seq<Fragment>) {
    |fs| <= |all| && forall i :: 0 <= i < |fs| ==> fs[i] == all[i]
  }

  lemma FrontLast(fs: seq<Fragment>, f: Fragment, all: seq<Fragment>)
    requires IsFront(fs + [f], all)
    ensures IsFront(fs, all) && |fs| < |all| && all[|fs|] == f
  {
    assert (fs + [f])[|fs|] == f;
  }

  lemma FrontBefore(m: Groups, es: seq<Event>, e: Event, k: Key, pieces: seq<seq<Byte>>)
    requires PiecesOf(m, k, pieces) && IsFront(ArrivalsOf(es + [e], k), Fragments(m, k, pieces))
    ensures IsFront(ArrivalsOf(es, k), Fragments(m, k, pieces))
    ensures Touches(e, k) ==> |ArrivalsOf(es, k)| < |Fragments(m, k, pieces)| && Fragments(m, k, pieces)[|ArrivalsOf(es, k)|] == e.fragment
  {
    hide Fragments, PiecesOf, IsFront, ArrivalsOf;
    ArrivalsUnfold(es, e, k);
    if Touches(e, k) {
      FrontLast(ArrivalsOf(es, k), e.fragment, Fragments(m, k, pieces));
    } else {
      assert ArrivalsOf(es, k) + [] == ArrivalsOf(es, k);
    }
  }

  lemma OneMoreArrival(m: Groups, es: seq<Event>, e: Event, k: Key, pieces: seq<seq<Byte>>)
    requires PiecesOf(m, k, pieces)
    requires Touches(e, k) ==>
               |ArrivalsOf(es, k)| < |Fragments(m, k, pieces)| && Fragments(m, k, pieces)[|ArrivalsOf(es, k)|] == e.fragment
    requires forall p :: p in Covered(es, k) <==> 0 <= p < ReachOf(pieces, |ArrivalsOf(es, k)|)
    requires Touched(es, k) <==> ArrivalsOf(es, k) != []
    ensures forall p :: p in Covered(es + [e], k) <==> 0 <= p < ReachOf(pieces, |ArrivalsOf(es + [e], k)|)
    ensures Touched(es + [e], k) <==> ArrivalsOf(es + [e], k) != []
  {
    hide Fragments, PiecesOf, Covered, Touched, ReachOf, ArrivalsOf;
    ArrivalsUnfold(es, e, k);
    if Touches(e, k) {
      NextFragment(m, es, e, k, pieces, |ArrivalsOf(es, k)|);
    } else {
      OnlyItsObject(m, es, e, k);
      assert ArrivalsOf(es, k) + [] == ArrivalsOf(es, k);
    }
  }

  /** What arrived of an object is its front part, as far as its pieces came. */
  lemma {:induction false} CoveredIsFront(m: Groups, es: seq<Event>, k: Key, pieces: seq<seq<Byte>>)
    requires PiecesOf(m, k, pieces) && IsFront(ArrivalsOf(es, k), Fragments(m, k, pieces))
    ensures forall p :: p in Covered(es, k) <==> 0 <= p < ReachOf(pieces, |ArrivalsOf(es, k)|)
    ensures Touched(es, k) <==> ArrivalsOf(es, k) != []
  {
    if es == [] {
      NothingYet(pieces, k);
    } else {
      hide Fragments, PiecesOf, Covered, Touched, ReachOf, IsFront, ArrivalsOf;
      var (before, e) := (es[..|es| - 1], es[|es| - 1]);
      assert es == before + [e];
      FrontBefore(m, before, e, k, pieces);
      CoveredIsFront(m, before, k, pieces);
      OneMoreArrival(m, before, e, k, pieces);
    }
  }

  lemma NothingYet(pieces: seq<seq<Byte>>, k: Key)
    ensures ReachOf(pieces, 0) == 0 && Covered([], k) == {} && !Touched([], k)
  {
    assert pieces[..0] == [];
  }

  lemma ReachGrows(pieces: seq<seq<Byte>>, n: nat)
    ensures ReachOf(pieces, n) <= ReachOf(pieces, n + 1)
    ensures n >= |pieces| ==> ReachOf(pieces, n) == ReachOf(pieces, n + 1)
  {
    if n < |pieces| {
      assert pieces[..n + 1][..n] == pieces[..n];
    }
  }

  lemma SpanAt(f: Fragment)
    ensures forall p :: p in Span(f.offset, |f.data|) <==> f.offset <= p < f.End()
  {
  }

  lemma ArrivalIsWelcome(m: Groups, cuts: map<Key, seq<seq<Byte>>>, es: seq<Event>, i: nat)
    requires Streamed(m, cuts, es) && i < |es| && es[i].Arrival?
    ensures IsSolidSlice(m, es[i].fragment) && CacheCursor.WellCut(es[..i], es[i].fragment)
  {
    hide Fragments, Covered, PiecesOf, IsSolidSlice;
    var (f, k) := (es[i].fragment, es[i].fragment.key);
    ArrivalsBefore(es, i, k);
    FragmentsAre(m, k, cuts[k], |ArrivalsOf(es[..i], k)|);
    CoveredIsFront(m, es[..i], k, cuts[k]);
  }

  /** Whatever the cutting and the order of the streams: everything that arrives is a piece of the
      media, a cache is fed as it expects, and of every object exactly the front part arrived that
      its pieces make up. */
  lemma StreamsFeed(m: Groups, cuts: map<Key, seq<seq<Byte>>>, es: seq<Event>)
    requires Streamed(m, cuts, es)
    ensures AllHonest(m, es) && CacheCursor.Feed(m, es)
    ensures forall k :: k in cuts ==> forall p :: p in Covered(es, k) <==> 0 <= p < |Concat(cuts[k])|
    ensures forall k :: InMedia(m, k) ==> (Arrived(m, es, k) <==> k in cuts && Concat(cuts[k]) == ObjectAt(m, k).data)
  {
    hide Fragments, Covered, IsSolidSlice, CacheCursor.WellCut, Arrived;
    forall i | 0 <= i < |es| ensures Honest(m, es[i]) && CacheCursor.Welcome(m, es[..i], es[i]) {
      if es[i].Arrival? {
        ArrivalIsWelcome(m, cuts, es, i);
        SolidIsSlice(m, es[i].fragment);
      } else if es[i].Start? {
        assert es[..0] == [];
      }
    }
    forall k | k in cuts ensures forall p :: p in Covered(es, k) <==> 0 <= p < |Concat(cuts[k])| {
      WholeFront(m, cuts, es, k);
    }
    forall k | InMedia(m, k) ensures Arrived(m, es, k) <==> k in cuts && Concat(cuts[k]) == ObjectAt(m, k).data {
      if k in cuts {
        WholeFront(m, cuts, es, k);
      } else {
        Untouched(m, cuts, es, k);
      }
    }
  }

  lemma SolidIsSlice(m: Groups, f: Fragment)
    requires IsSolidSlice(m, f)
    ensures IsSlice(m, f)
  {
  }

  lemma WholeFront(m: Groups, cuts: map<Key, seq<seq<Byte>>>, es: seq<Event>, k: Key)
    requires Streamed(m, cuts, es) && k in cuts
    ensures forall p :: p in Covered(es, k) <==> 0 <= p < |Concat(cuts[k])|
    ensures InMedia(m, k) && (Arrived(m, es, k) <==> Concat(cuts[k]) == ObjectAt(m, k).data)
  {
    hide Covered, Touched, Span;
    var (pieces, data) := (cuts[k], ObjectAt(m, k).data);
    CoveredIsFront(m, es, k, pieces);
    if data == [] {
      NoPieces(pieces);
    } else {
      assert |Fragments(m, k, pieces)| == |pieces|;
    }
    assert pieces[..|pieces|] == pieces;
    SpanAt(Fragment(k, 0, 0, 0, 0, data));
    if Covered(es, k) == Span(0, |data|) {
      SameReach(Covered(es, k), |Concat(pieces)|, |data|);
    }
  }

  lemma SameReach(s: set<nat>, a: nat, b: nat)
    requires (forall p: nat :: p in s <==> p < a) && forall p: nat :: p in s <==> p < b
    ensures a == b
  {
    var least := if a < b then a else b;
    assert least in s <==> least < a;
    assert least in s <==> least < b;
  }

  lemma Untouched(m: Groups, cuts: map<Key, seq<seq<Byte>>>, es: seq<Event>, k: Key)
    requires Streamed(m, cuts, es) && k !in cuts && InMedia(m, k)
    ensures !Arrived(m, es, k)
  {
    hide Covered;
    assert !Touched(es, k);
  }

  // ----- What consumers make of it -----

  /** A consumer that reassembles is handed exactly the objects all of whose pieces came, whole and
      once; a relay's cache holds of every object exactly the pieces that came. */
  lemma StreamedIsDelivered(m: Groups, cuts: map<Key, seq<seq<Byte>>>, es: seq<Event>)
    requires WellFormed(m) && Streamed(m, cuts, es)
    ensures var out := Delivery.OutOfOrder(Reassembly.Run(es).1);
            NoStart(es, 0) ==>
              && Delivery.ExactlyTheArrived(m, es, out)
              && forall k :: InMedia(m, k) ==> (Delivery.Holds(out, k) <==> k in cuts && Concat(cuts[k]) == ObjectAt(m, k).data)
    ensures var tree := CacheCursor.Run(es).tree;
            forall k, p: nat :: k in cuts && !Before(k, CacheCursor.StartOf(es)) ==>
              (FragmentCache.Has(tree, k, p) <==> p < |Concat(cuts[k])|)
  {
    hide Reassembly.Run, Delivery.OutOfOrder, CacheCursor.Run, Covered, Arrived, Streamed, FragmentCache.Has, CacheCursor.Feed, WellFormed,
      Honest, CacheCursor.Exact;
    StreamsFeed(m, cuts, es);
    CacheCursor.RunKeepsInvariant(m, es);
    if NoStart(es, 0) {
      Delivery.OutOfOrderExactlyOnce(m, es);
    }
  }
}
