/** What a list of received fragments amounts to, without any machine: which positions of which
    objects arrived, and which object is the first that has not.  The reassembly of module
    Reassembly and the cache of module CacheCursor are both compared with this. */
module Arrivals {
  import opened Media

  datatype Event = Arrival(fragment: Fragment) | Start(key: Key) | Final(key: Key)

  /** The event says only what is true of the media m. */
  ghost predicate Honest(m: Groups, e: Event) {
    match e
    case Arrival(f) => IsSlice(m, f)
    case Start(k) => IsCursor(m, k)
    case Final(k) => k == EndOf(m)
  }

  ghost predicate AllHonest(m: Groups, es: seq<Event>) {
    forall i :: 0 <= i < |es| ==> Honest(m, es[i])
  }

  ghost predicate Touches(e: Event, k: Key) {
    e.Arrival? && e.fragment.key == k
  }

  ghost predicate Touched(es: seq<Event>, k: Key) {
    exists i :: 0 <= i < |es| && Touches(es[i], k)
  }

  /** The positions of object k that some arrival carried. */
  ghost function Covered(es: seq<Event>, k: Key): set<nat> {
    if es == [] then {}
    else
      var e := es[|es| - 1];
      Covered(es[..|es| - 1], k) + if Touches(e, k) then Span(e.fragment.offset, |e.fragment.data|) else {}
  }

  /** Every byte of object k arrived; an empty object must at least be mentioned. */
  ghost predicate Arrived(m: Groups, es: seq<Event>, k: Key)
    requires InMedia(m, k)
  {
    Touched(es, k) && Covered(es, k) == Span(0, |ObjectAt(m, k).data|)
  }

  /** The first object at rank i or after that has not arrived. */
  ghost function Advance(m: Groups, es: seq<Event>, i: nat): (j: nat)
    requires i <= Count(m)
    ensures i <= j <= Count(m)
    decreases Count(m) - i
  {
    if i < Count(m) && ArrivedAt(m, es, i) then Advance(m, es, i + 1) else i
  }

  ghost predicate ArrivedAt(m: Groups, es: seq<Event>, i: nat)
    requires i < Count(m)
  {
    exists k :: InMedia(m, k) && Rank(m, k) == i && Arrived(m, es, k)
  }

  /** The rank a start point asks for. */
  ghost function StartRank(m: Groups, e: Event): (i: nat)
    ensures i <= Count(m)
  {
    if e.Start? && IsCursor(m, e.key) then RankBelowCount(m, e.key); Rank(m, e.key) else 0
  }

  /** Where delivery resumes on an event: only a start point may push it forward. */
  ghost function Resume(m: Groups, es: seq<Event>, e: Event): (i: nat)
    ensures Cursor(m, es) <= i <= Count(m)
    decreases |es|, 1
  {
    if Cursor(m, es) < StartRank(m, e) then StartRank(m, e) else Cursor(m, es)
  }

  /** The rank of the first object not yet passed. */
  ghost function Cursor(m: Groups, es: seq<Event>): (i: nat)
    ensures i <= Count(m)
    decreases |es|, 0
  {
    if es == [] then 0 else Advance(m, es, Resume(m, es[..|es| - 1], es[|es| - 1]))
  }

  ghost predicate FinalSeen(es: seq<Event>) {
    exists i :: 0 <= i < |es| && es[i].Final?
  }

  lemma ArrivedAtRank(m: Groups, es: seq<Event>, k: Key)
    requires InMedia(m, k)
    ensures Rank(m, k) < Count(m)
    ensures ArrivedAt(m, es, Rank(m, k)) <==> Arrived(m, es, k)
  {
    RankBelowCount(m, k);
    forall k' | InMedia(m, k') && Rank(m, k') == Rank(m, k) ensures k' == k {
      RankOrders(m, k, k');
    }
  }

  lemma AdvanceStep(m: Groups, es: seq<Event>, i: nat)
    requires i <= Count(m)
    ensures i == Count(m) || !ArrivedAt(m, es, i) ==> Advance(m, es, i) == i
    ensures i < Count(m) && ArrivedAt(m, es, i) ==> Advance(m, es, i) == Advance(m, es, i + 1)
  {
  }

  /** An event changes what is known of its own object only. */
  lemma OnlyItsObject(m: Groups, es: seq<Event>, e: Event, k: Key)
    ensures Touched(es + [e], k) <==> Touched(es, k) || Touches(e, k)
    ensures Covered(es + [e], k) ==
            Covered(es, k) + if Touches(e, k) then Span(e.fragment.offset, |e.fragment.data|) else {}
    ensures InMedia(m, k) && !Touches(e, k) ==> (Arrived(m, es + [e], k) <==> Arrived(m, es, k))
  {
    var es' := es + [e];
    assert es'[..|es'| - 1] == es;
    if Touched(es, k) {
      var i :| 0 <= i < |es| && Touches(es[i], k);
      assert Touches(es'[i], k);
    }
    if Touches(e, k) {
      assert Touches(es'[|es|], k);
    }
    if Touched(es', k) && !Touches(e, k) {
      var i :| 0 <= i < |es'| && Touches(es'[i], k);
      assert Touches(es[i], k);
    }
  }

  lemma {:induction false} UntouchedIsUncovered(es: seq<Event>, k: Key)
    requires !Touched(es, k)
    ensures Covered(es, k) == {}
  {
    if es != [] {
      assert !Touches(es[|es| - 1], k);
      assert forall i :: 0 <= i < |es| - 1 ==> es[..|es| - 1][i] == es[i];
      UntouchedIsUncovered(es[..|es| - 1], k);
    }
  }

  lemma ArrivalsAccumulate(m: Groups, es: seq<Event>, f: Fragment)
    requires IsSlice(m, f) && Arrived(m, es, f.key)
    ensures Arrived(m, es + [Arrival(f)], f.key)
  {
    OnlyItsObject(m, es, Arrival(f), f.key);
    assert Covered(es + [Arrival(f)], f.key) == Span(0, |ObjectAt(m, f.key).data|);
  }

  lemma {:induction false} AdvanceRests(m: Groups, es: seq<Event>, i: nat)
    requires i <= Count(m)
    ensures var j := Advance(m, es, i);
            && (j == Count(m) || !ArrivedAt(m, es, j))
            && (forall x :: i <= x < j ==> ArrivedAt(m, es, x))
    decreases Count(m) - i
  {
    if i < Count(m) && ArrivedAt(m, es, i) {
      AdvanceRests(m, es, i + 1);
    }
  }

  /** The object at the cursor has not arrived. */
  lemma CursorRests(m: Groups, es: seq<Event>)
    ensures Cursor(m, es) == Count(m) || !ArrivedAt(m, es, Cursor(m, es))
  {
    if es != [] {
      AdvanceRests(m, es, Resume(m, es[..|es| - 1], es[|es| - 1]));
    }
  }

  lemma CursorUnfold(m: Groups, es: seq<Event>, e: Event)
    ensures Cursor(m, es + [e]) == Advance(m, es + [e], Resume(m, es, e))
  {
    assert (es + [e])[..|es + [e]| - 1] == es;
  }

  lemma ArrivedElsewhere(m: Groups, es: seq<Event>, e: Event, i: nat)
    requires i < Count(m)
    requires e.Arrival? ==> InMedia(m, e.fragment.key) && Rank(m, e.fragment.key) != i
    ensures ArrivedAt(m, es + [e], i) <==> ArrivedAt(m, es, i)
  {
    forall k | InMedia(m, k) && Rank(m, k) == i ensures Arrived(m, es + [e], k) <==> Arrived(m, es, k) {
      OnlyItsObject(m, es, e, k);
    }
  }

  lemma AdvanceAt(m: Groups, es: seq<Event>, f: Fragment)
    requires InMedia(m, f.key) && Rank(m, f.key) == Cursor(m, es) && Arrived(m, es + [Arrival(f)], f.key)
    ensures Cursor(m, es) < Count(m)
    ensures Cursor(m, es + [Arrival(f)]) == Advance(m, es + [Arrival(f)], Cursor(m, es) + 1)
  {
    hide *;
    ArrivedAtRank(m, es + [Arrival(f)], f.key);
    CursorUnfold(m, es, Arrival(f));
    ResumeSame(m, es, Arrival(f));
    AdvanceStep(m, es + [Arrival(f)], Cursor(m, es));
  }

  lemma ResumeSame(m: Groups, es: seq<Event>, e: Event)
    requires !e.Start?
    ensures Resume(m, es, e) == Cursor(m, es)
  {
  }

  /** An event that completes nothing at the cursor leaves the cursor alone. */
  lemma CursorStays(m: Groups, es: seq<Event>, e: Event)
    requires !e.Start?
    requires e.Arrival? ==> InMedia(m, e.fragment.key)
    requires e.Arrival? && Rank(m, e.fragment.key) == Cursor(m, es) ==> !Arrived(m, es + [e], e.fragment.key)
    ensures Cursor(m, es + [e]) == Cursor(m, es)
  {
    hide Advance, Cursor, Resume, Rank, ArrivedAt, Arrived;
    var c := Cursor(m, es);
    CursorRests(m, es);
    CursorUnfold(m, es, e);
    ResumeSame(m, es, e);
    AdvanceStep(m, es + [e], c);
    if c < Count(m) {
      if e.Arrival? && Rank(m, e.fragment.key) == c {
        ArrivedAtRank(m, es + [e], e.fragment.key);
      } else {
        ArrivedElsewhere(m, es, e, c);
      }
    }
  }

  lemma FinalSeenUnfold(es: seq<Event>, e: Event)
    ensures FinalSeen(es + [e]) <==> FinalSeen(es) || e.Final?
  {
    if FinalSeen(es) {
      var i :| 0 <= i < |es| && es[i].Final?;
      assert (es + [e])[i].Final?;
    }
    if e.Final? {
      assert (es + [e])[|es|].Final?;
    }
  }

  /** A start point at or before the cursor changes nothing. */
  lemma StartNowhere(m: Groups, es: seq<Event>, e: Event)
    requires e.Start? && StartRank(m, e) <= Cursor(m, es)
    ensures Resume(m, es, e) == Cursor(m, es) == Cursor(m, es + [e])
  {
    CursorRests(m, es);
    CursorUnfold(m, es, e);
    AdvanceStep(m, es + [e], Cursor(m, es));
    if Cursor(m, es) < Count(m) {
      ArrivedElsewhere(m, es, e, Cursor(m, es));
    }
  }

  ghost predicate NoStart(es: seq<Event>, from: nat) {
    forall i :: from <= i < |es| ==> !es[i].Start?
  }

  lemma ArrivedStays(m: Groups, es: seq<Event>, e: Event, k: Key)
    requires InMedia(m, k) && Arrived(m, es, k) && Honest(m, e)
    ensures Arrived(m, es + [e], k)
  {
    OnlyItsObject(m, es, e, k);
    if Touches(e, k) {
      ArrivalsAccumulate(m, es, e.fragment);
    }
  }

  /** The cursor is the least incomplete object: nothing before it is missing a byte, and
      what stands at it is. */
  lemma {:induction false} CursorIsLeastMissing(m: Groups, es: seq<Event>)
    requires AllHonest(m, es) && NoStart(es, 0)
    ensures forall k :: InMedia(m, k) && Rank(m, k) < Cursor(m, es) ==> Arrived(m, es, k)
    ensures forall k :: InMedia(m, k) && Rank(m, k) == Cursor(m, es) ==> !Arrived(m, es, k)
  {
    forall k | InMedia(m, k) && Rank(m, k) == Cursor(m, es) ensures !Arrived(m, es, k) {
      CursorRests(m, es);
      ArrivedAtRank(m, es, k);
    }
    if es != [] {
      var n := |es| - 1;
      var (prefix, e) := (es[..n], es[n]);
      assert es == prefix + [e] && AllHonest(m, prefix);
      CursorIsLeastMissing(m, prefix);
      CursorUnfold(m, prefix, e);
      ResumeSame(m, prefix, e);
      AdvanceRests(m, es, Cursor(m, prefix));
      forall k | InMedia(m, k) && Rank(m, k) < Cursor(m, es) ensures Arrived(m, es, k) {
        if Rank(m, k) < Cursor(m, prefix) {
          ArrivedStays(m, prefix, e, k);
        } else {
          ArrivedAtRank(m, es, k);
        }
      }
    }
  }
}
