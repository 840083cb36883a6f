/** The count of completely received objects, and the relay's test for the end of the media. */
module CacheCounts {
  import opened Media
  import opened Arrivals
  import opened FragmentCache
  import opened CacheCursor

  // ----- The test for a complete object -----

  /** Entries before j end at or before o, and those from j on begin there or later. */
  ghost predicate SplitAt(tree: seq<Fragment>, j: nat, k: Key, o: nat)
    requires j <= |tree|
  {
    && (forall i :: 0 <= i < j && tree[i].key == k ==> tree[i].End() <= o)
    && (forall i :: j <= i < |tree| && tree[i].key == k ==> o <= tree[i].offset)
    && (forall i :: 0 <= i < j ==> !Before(k, tree[i].key))
  }

  lemma SplitDown(tree: seq<Fragment>, j: nat, k: Key, o: nat)
    requires Tidy(tree) && 0 < j <= |tree| && tree[j - 1].key == k && SplitAt(tree, j, k, o)
    ensures SplitAt(tree, j - 1, k, tree[j - 1].offset)
  {
  }

  /** Only the entry just before can cover the position just below o. */
  lemma LastBelow(tree: seq<Fragment>, j: nat, k: Key, o: nat)
    requires Tidy(tree) && j <= |tree| && SplitAt(tree, j, k, o) && o > 0
    requires j == 0 || tree[j - 1].key != k || tree[j - 1].End() < o
    ensures !Has(tree, k, o - 1)
  {
    forall i | 0 <= i < |tree| ensures !Covers(tree[i], k, o - 1) {
      if i < j && tree[i].key == k && i != j - 1 {
        KeyOrder(tree[j - 1].key, k);
      }
    }
  }

  lemma {:induction false} JoinsDownIff(tree: seq<Fragment>, j: nat, k: Key, o: nat)
    requires Tidy(tree) && j <= |tree| && SplitAt(tree, j, k, o)
    ensures JoinsDown(tree, j, k, o) <==> forall p :: 0 <= p < o ==> Has(tree, k, p)
    decreases j
  {
    if o > 0 {
      if j == 0 || tree[j - 1].key != k || tree[j - 1].End() < o {
        LastBelow(tree, j, k, o);
      } else {
        SplitDown(tree, j, k, o);
        JoinsDownIff(tree, j - 1, k, tree[j - 1].offset);
        forall p | tree[j - 1].offset <= p < o ensures Has(tree, k, p) {
          EntryHas(tree, j - 1, p);
        }
      }
    }
  }

  lemma SplitAtLast(tree: seq<Fragment>, j: nat, k: Key)
    requires Tidy(tree) && j == UpToObject(tree, k) > 0 && tree[j - 1].key == k
    ensures SplitAt(tree, j, k, tree[j - 1].End())
  {
    forall i | 0 <= i < j ensures !Before(k, tree[i].key) && (tree[i].key == k ==> tree[i].End() <= tree[j - 1].End()) {
    }
  }

  lemma LastIsOfObject(tree: seq<Fragment>, k: Key)
    requires Tidy(tree) && HasEntry(tree, k)
    ensures var j := UpToObject(tree, k); j > 0 && tree[j - 1].key == k
  {
    var j := UpToObject(tree, k);
    var i :| 0 <= i < |tree| && tree[i].key == k;
    KeyOrder(tree[j - 1].key, k);
  }

  /** The test looks at the last entry of the object and the chain behind it. */
  lemma LastEntry(m: Groups, tree: seq<Fragment>, k: Key)
    requires Tidy(tree) && SolidTree(m, tree) && HasEntry(tree, k)
    ensures var j := UpToObject(tree, k);
            && j > 0 && tree[j - 1].key == k && InMedia(m, k) && tree[j - 1].objectLength == |ObjectAt(m, k).data|
            && tree[j - 1].End() <= tree[j - 1].objectLength
            && SplitAt(tree, j, k, tree[j - 1].End()) && SplitAt(tree, j - 1, k, tree[j - 1].offset)
  {
    hide SplitAt, Tidy, UpToObject, HasEntry;
    var j := UpToObject(tree, k);
    LastIsOfObject(tree, k);
    SolidEntry(m, tree, j - 1);
    SplitAtLast(tree, j, k);
    SplitDown(tree, j, k, tree[j - 1].End());
  }

  lemma CompleteIsHas(m: Groups, tree: seq<Fragment>, k: Key)
    requires SolidTree(m, tree) && InMedia(m, k) && ObjectAt(m, k).data != []
    ensures Complete(m, tree, k) <==> HasBelow(tree, k, |ObjectAt(m, k).data|)
  {
    hide Present, Has, SolidTree;
    forall p: nat | p < |ObjectAt(m, k).data| ensures Present(tree, k, p) <==> Has(tree, k, p) {
      PresentIsHas(m, tree, k, p);
    }
  }

  ghost predicate HasBelow(tree: seq<Fragment>, k: Key, o: nat) {
    forall p: nat :: p < o ==> Has(tree, k, p)
  }

  lemma IsWholeUnfold(tree: seq<Fragment>, k: Key, j: nat)
    requires Tidy(tree) && j == UpToObject(tree, k) > 0 && SplitAt(tree, j - 1, k, tree[j - 1].offset)
    ensures IsWhole(tree, k) <==> tree[j - 1].End() >= tree[j - 1].objectLength && HasBelow(tree, k, tree[j - 1].offset)
  {
    JoinsDownIff(tree, j - 1, k, tree[j - 1].offset);
  }

  lemma HasBelowEntry(tree: seq<Fragment>, i: nat)
    requires i < |tree|
    ensures HasBelow(tree, tree[i].key, tree[i].offset) <==> HasBelow(tree, tree[i].key, tree[i].End())
  {
    forall p: nat | tree[i].offset <= p < tree[i].End() ensures Has(tree, tree[i].key, p) {
      EntryHas(tree, i, p);
    }
  }

  /** The chain of entries from the last one back covers everything below it. */
  lemma ChainIffHas(m: Groups, tree: seq<Fragment>, k: Key)
    requires Tidy(tree) && SolidTree(m, tree) && HasEntry(tree, k)
    ensures InMedia(m, k)
    ensures IsWhole(tree, k) <==> HasBelow(tree, k, |ObjectAt(m, k).data|)
  {
    LastEntry(m, tree, k);
    hide SplitAt, Tidy, SolidTree, Has, HasEntry, UpToObject, IsWhole;
    var j := UpToObject(tree, k);
    var (last, length) := (tree[j - 1], |ObjectAt(m, k).data|);
    IsWholeUnfold(tree, k, j);
    HasBelowEntry(tree, j - 1);
    if last.End() < length {
      NothingAfterLast(tree, j, k, length - 1);
    }
  }

  /** The test made after an addition recognises exactly the complete objects. */
  lemma IsWholeIffComplete(m: Groups, tree: seq<Fragment>, k: Key)
    requires Tidy(tree) && SolidTree(m, tree) && HasEntry(tree, k)
    ensures InMedia(m, k) && (IsWhole(tree, k) <==> Complete(m, tree, k))
  {
    ChainIffHas(m, tree, k);
    if ObjectAt(m, k).data == [] {
      PresentIsEntry(m, tree, k);
    } else {
      CompleteIsHas(m, tree, k);
    }
  }

  lemma NothingAfterLast(tree: seq<Fragment>, j: nat, k: Key, p: nat)
    requires 0 < j <= |tree| && SplitAt(tree, j, k, tree[j - 1].End()) && tree[j - 1].End() <= p
    requires j == UpToObject(tree, k)
    ensures !Has(tree, k, p)
  {
  }

  // ----- Counting -----

  /** How many of the first n objects of the media arrived, not counting those before the
      start. */
  ghost function CountArrived(m: Groups, es: seq<Event>, start: nat, n: nat): nat
    requires n <= Count(m)
  {
    if n == 0 then 0
    else CountArrived(m, es, start, n - 1) + if start <= n - 1 && ArrivedAt(m, es, n - 1) then 1 else 0
  }

  /** An event that completes the object of one rank adds one to the count. */
  lemma {:induction false} CountStep(m: Groups, es: seq<Event>, e: Event, start: nat, n: nat, r: nat)
    requires n <= Count(m) && start <= r < Count(m)
    requires forall i :: 0 <= i < Count(m) && i != r ==> (ArrivedAt(m, es + [e], i) <==> ArrivedAt(m, es, i))
    requires !ArrivedAt(m, es, r)
    ensures CountArrived(m, es + [e], start, n) ==
            CountArrived(m, es, start, n) + if r < n && ArrivedAt(m, es + [e], r) then 1 else 0
  {
    if n > 0 {
      CountStep(m, es, e, start, n - 1, r);
    }
  }

  lemma {:induction false} CountSame(m: Groups, es: seq<Event>, e: Event, start: nat, n: nat)
    requires n <= Count(m)
    requires forall i :: start <= i < Count(m) ==> (ArrivedAt(m, es + [e], i) <==> ArrivedAt(m, es, i))
    ensures CountArrived(m, es + [e], start, n) == CountArrived(m, es, start, n)
  {
    if n > 0 {
      CountSame(m, es, e, start, n - 1);
    }
  }

  ghost predicate Counted(m: Groups, es: seq<Event>, c: Cache)
    requires IsCursor(m, c.first)
  {
    c.received == CountArrived(m, es, Rank(m, c.first), Count(m))
  }

  /** Nothing is added to an object that is complete. */
  lemma CompleteAddsNothing(m: Groups, es: seq<Event>, c: Cache, f: Fragment)
    requires WellFormed(m) && CacheCursor.Invariant(m, es, c) && Welcome(m, es, Arrival(f)) && !Before(f.key, c.first)
    requires Arrived(m, es, f.key)
    ensures !Wanted(c, f).1
  {
    InvariantParts(m, es, c);
    WelcomeParts(m, es, f);
    hide *;
    StoredIsTidy(m, es, c.tree, c.first);
    CompleteIffArrived(m, es, c.tree, c.first, f.key);
    CompleteHasAll(m, c.tree, f);
    if f.data != [] {
      PresentIsHas(m, c.tree, f.key, f.offset);
      WantedNothing(c, f);
    } else {
      PresentIsEntry(m, c.tree, f.key);
      EmptyWantsNothing(c, f);
    }
  }

  lemma InvariantParts(m: Groups, es: seq<Event>, c: Cache)
    requires CacheCursor.Invariant(m, es, c)
    ensures Stored(m, es, c.tree, c.first) && IsCursor(m, c.first)
  {
  }

  lemma WelcomeParts(m: Groups, es: seq<Event>, f: Fragment)
    requires Welcome(m, es, Arrival(f))
    ensures IsSolidSlice(m, f) && InMedia(m, f.key) && f.End() <= |ObjectAt(m, f.key).data|
    ensures f.data == [] ==> ObjectAt(m, f.key).data == []
  {
  }

  lemma CompleteHasAll(m: Groups, tree: seq<Fragment>, f: Fragment)
    requires InMedia(m, f.key) && Complete(m, tree, f.key) && f.End() <= |ObjectAt(m, f.key).data|
    ensures f.data != [] ==> Present(tree, f.key, f.offset)
    ensures Present(tree, f.key, 0)
  {
  }

  lemma EmptyWantsNothing(c: Cache, f: Fragment)
    requires f.data == [] && HasEntry(c.tree, f.key)
    ensures !Wanted(c, f).1
  {
    hide Add;
  }

  lemma NothingWantedSame(c: Cache, f: Fragment)
    ensures !Wanted(c, f).1 ==> Wanted(c, f).0 == c
  {
    hide Add;
  }

  /** What adds nothing completes nothing. */
  lemma NothingAddedNothingComplete(m: Groups, es: seq<Event>, c: Cache, f: Fragment)
    requires WellFormed(m) && CacheCursor.Invariant(m, es, c) && Welcome(m, es, Arrival(f)) && !Before(f.key, c.first)
    requires !Wanted(c, f).1
    ensures Arrived(m, es + [Arrival(f)], f.key) <==> Arrived(m, es, f.key)
  {
    hide Stored, Arrived, Tidy, Covered, Present, WellCut, Exact, HasEntry, Missing, Wanted, IsSolidSlice, Compatible, MissingIsPrefix;
    WelcomeIsInMedia(m, es, f);
    NothingWantedSame(c, f);
    StoredGrows(m, es, c, f);
    CompleteIffArrived(m, es, c.tree, c.first, f.key);
    CompleteIffArrived(m, es + [Arrival(f)], Wanted(c, f).0.tree, c.first, f.key);
  }

  lemma WelcomeIsInMedia(m: Groups, es: seq<Event>, f: Fragment)
    requires Welcome(m, es, Arrival(f))
    ensures InMedia(m, f.key)
  {
  }

  /** An addition was made exactly when the object was not complete before. */
  lemma AddedWasIncomplete(m: Groups, es: seq<Event>, c: Cache, f: Fragment)
    requires WellFormed(m) && CacheCursor.Invariant(m, es, c) && Welcome(m, es, Arrival(f)) && !Before(f.key, c.first)
    ensures Arrived(m, es, f.key) ==> !Wanted(c, f).1
    ensures !Wanted(c, f).1 ==> (Arrived(m, es + [Arrival(f)], f.key) <==> Arrived(m, es, f.key))
  {
    WelcomeIsInMedia(m, es, f);
    hide CacheCursor.Invariant, Welcome, Arrived, Wanted;
    if Arrived(m, es, f.key) {
      CompleteAddsNothing(m, es, c, f);
    }
    if !Wanted(c, f).1 {
      NothingAddedNothingComplete(m, es, c, f);
    }
  }

  /** A proposal counts its object when, and only when, it makes it complete. */
  lemma ProposalCounts(m: Groups, es: seq<Event>, c: Cache, f: Fragment)
    requires WellFormed(m) && CacheCursor.Invariant(m, es, c) && Welcome(m, es, Arrival(f)) && !Before(f.key, c.first)
    ensures Propose(c, f).received ==
            c.received + if Arrived(m, es + [Arrival(f)], f.key) && !Arrived(m, es, f.key) then 1 else 0
  {
    StoredIsTidy(m, es, c.tree, c.first);
    WelcomeIsCompatible(m, es, c, f);
    ProposalWanted(c, f);
    AddedWasIncomplete(m, es, c, f);
    hide Stored, Arrived, Tidy, Covered, WellCut, Exact, IsWhole, HasEntry, Place, Missing, Inserted, Progress, Compatible, MissingIsPrefix;
    if Wanted(c, f).1 {
      var d := Wanted(c, f).0;
      StoredGrows(m, es, c, f);
      StoredIsTidy(m, es + [Arrival(f)], d.tree, c.first);
      WantedEnters(m, c, f);
      EnteringKey(c, f);
      HasEntryInserted(c.tree, Entering(c, f), f.key);
      IsWholeIffComplete(m, d.tree, f.key);
      CompleteIffArrived(m, es + [Arrival(f)], d.tree, c.first, f.key);
    }
  }

  /** An arrival makes at most its own object complete. */
  lemma OneCounts(m: Groups, es: seq<Event>, f: Fragment, start: nat)
    requires IsSlice(m, f)
    ensures var (k, now) := (f.key, es + [Arrival(f)]);
            CountArrived(m, now, start, Count(m)) ==
            CountArrived(m, es, start, Count(m)) + if start <= Rank(m, k) && Arrived(m, now, k) && !Arrived(m, es, k) then 1 else 0
  {
    hide Arrived, Covered, CountArrived, ArrivedAt, Rank;
    RankBelowCount(m, f.key);
    var (e, r) := (Arrival(f), Rank(m, f.key));
    forall i | 0 <= i < Count(m) && i != r ensures ArrivedAt(m, es + [e], i) <==> ArrivedAt(m, es, i) {
      ArrivedElsewhere(m, es, e, i);
    }
    ArrivedAtRank(m, es, f.key);
    ArrivedAtRank(m, es + [e], f.key);
    if Arrived(m, es, f.key) {
      ArrivalsAccumulate(m, es, f);
      CountSame(m, es, e, start, Count(m));
    } else if start <= r {
      CountStep(m, es, e, start, Count(m), r);
    } else {
      CountSame(m, es, e, start, Count(m));
    }
  }

  lemma ArrivalCounts(m: Groups, es: seq<Event>, c: Cache, f: Fragment)
    requires WellFormed(m) && CacheCursor.Invariant(m, es, c) && Welcome(m, es, Arrival(f)) && Counted(m, es, c)
    ensures Propose(c, f).first == c.first && Counted(m, es + [Arrival(f)], Propose(c, f))
  {
    hide *;
    ArrivalStep(m, es, c, f);
    ArrivalParts(m, es, c, f);
    OneCounts(m, es, f, Rank(m, c.first));
    AtCursor(m, c.first, f.key);
    if !Before(f.key, c.first) {
      ProposalCounts(m, es, c, f);
    }
    CountedIs(m, es, c);
    CountedIs(m, es + [Arrival(f)], Propose(c, f));
  }

  lemma ArrivalParts(m: Groups, es: seq<Event>, c: Cache, f: Fragment)
    requires CacheCursor.Invariant(m, es, c) && Welcome(m, es, Arrival(f))
    ensures IsCursor(m, c.first) && InMedia(m, f.key) && IsSlice(m, f) && Propose(c, f).first == c.first
    ensures Before(f.key, c.first) ==> Propose(c, f) == c
  {
    hide Place, Stored, Exact, WellCut;
    PlaceKeepsFirst(c, f, UpToObject(c.tree, f.key));
  }

  lemma {:induction false} PlaceKeepsFirst(c: Cache, f: Fragment, j: nat)
    requires j <= |c.tree|
    ensures Place(c, f, j).0.first == c.first
    decreases |f.data|, j
  {
    hide Position, Progress, Inserted, Place;
    PlaceUnfold(c, f, j);
    if !Stops(c.tree, f, j) && Rest(f, c.tree[j - 1]).data != [] {
      var entry := c.tree[j - 1];
      PlaceKeepsFirst(AddBeyond(c, f, entry), Rest(f, entry), Shifted(c, f, entry, j) - 1);
    }
  }

  /** Object completion count: without purge, nb_object_received is always the number of
      objects, from the start point on, whose bytes are all in the cache.  No object is
      counted twice, whether it is repeated or empty. */
  lemma {:induction false} CountIsExact(m: Groups, es: seq<Event>)
    requires WellFormed(m) && Feed(m, es)
    ensures IsCursor(m, StartOf(es)) && Run(es).first == StartOf(es)
    ensures Run(es).received == CountArrived(m, es, Rank(m, StartOf(es)), Count(m))
  {
    hide *;
    RunKeepsInvariant(m, es);
    FirstIsStart(m, es);
    if es == [] {
      NothingCountedYet(m, es);
    } else {
      var prefix, e := es[..|es| - 1], es[|es| - 1];
      assert es == prefix + [e];
      RunUnfold(es);
      FeedUnfold(m, prefix, e);
      RunKeepsInvariant(m, prefix);
      FirstIsStart(m, prefix);
      CountIsExact(m, prefix);
      CountedIs(m, prefix, Run(prefix));
      CountOneStep(m, prefix, e);
      CountedIs(m, es, Run(es));
    }
  }

  lemma CountedIs(m: Groups, es: seq<Event>, c: Cache)
    requires IsCursor(m, c.first)
    ensures Counted(m, es, c) <==> c.received == CountArrived(m, es, Rank(m, c.first), Count(m))
  {
  }

  lemma NothingCountedYet(m: Groups, es: seq<Event>)
    requires es == [] && IsCursor(m, StartOf(es))
    ensures Run(es).received == CountArrived(m, es, Rank(m, StartOf(es)), Count(m))
  {
    NothingCounted(m, es, Rank(m, StartOf(es)), Count(m));
  }

  lemma RunUnfold(es: seq<Event>)
    ensures es == [] ==> Run(es) == EMPTY
    ensures es != [] ==> Run(es) == CacheCursor.Step(Run(es[..|es| - 1]), es[|es| - 1])
    ensures es != [] && es[..|es| - 1] == [] ==> Run(es[..|es| - 1]) == EMPTY
  {
    hide CacheCursor.Step;
  }

  lemma FirstIsStart(m: Groups, es: seq<Event>)
    requires CacheCursor.Invariant(m, es, Run(es))
    ensures Run(es).first == StartOf(es) && IsCursor(m, StartOf(es))
  {
    hide Run;
  }

  lemma {:induction false} NothingCounted(m: Groups, es: seq<Event>, start: nat, n: nat)
    requires n <= Count(m) && forall i :: 0 <= i < |es| ==> !es[i].Arrival?
    ensures CountArrived(m, es, start, n) == 0
  {
    if n > 0 {
      NothingCounted(m, es, start, n - 1);
    }
  }

  lemma CountOneStep(m: Groups, es: seq<Event>, e: Event)
    requires WellFormed(m) && CacheCursor.Invariant(m, es, Run(es)) && Welcome(m, es, e)
    requires Counted(m, es, Run(es)) && (es == [] ==> Run(es) == EMPTY)
    ensures var c := CacheCursor.Step(Run(es), e);
            IsCursor(m, c.first) && Counted(m, es + [e], c)
  {
    FirstIsStart(m, es);
    match e {
      case Arrival(f) =>
        hide Propose, Run, CountArrived, WellFormed, CacheCursor.Invariant, Rank;
        ArrivalCounts(m, es, Run(es), f);
      case Start(k) =>
        hide Run, WellFormed, CacheCursor.Invariant;
        assert es == [] && es + [e] == [e];
        NothingCounted(m, [e], Rank(m, k), Count(m));
      case Final(k) =>
        hide Run, CacheCursor.Invariant, ArrivedAt, CountArrived;
        forall i | 0 <= i < Count(m) ensures ArrivedAt(m, es + [e], i) <==> ArrivedAt(m, es, i) {
          ArrivedElsewhere(m, es, e, i);
        }
        CountSame(m, es, e, Rank(m, Run(es).first), Count(m));
    }
  }

  // ----- The end of the media at a relay -----

  /** The test of quicrq_relay_consumer_cb after a fragment. */
  predicate FinishedAfterFragment(c: Cache) {
    (c.final.group > 0 || c.final.id > 0) && c.next == c.final
  }

  /** The test of quicrq_relay_consumer_cb after the final identifier. */
  predicate FinishedAfterFinal(c: Cache) {
    c.next == c.final
  }

  /** The cursor stands at the end of the media exactly when nothing is missing. */
  lemma EndIffNothingMissing(m: Groups, es: seq<Event>)
    requires WellFormed(m) && Feed(m, es)
    ensures IsCursor(m, StartOf(es)) && IsCursor(m, Run(es).next)
    ensures Run(es).next == EndOf(m) <==> NothingMissing(m, es)
  {
    hide Arrived, Covered, Run, Feed;
    CacheCursor.CursorIsLeastMissing(m, es);
    RankCount(m, Run(es).next);
    if Rank(m, Run(es).next) == Count(m) {
      forall k | InMedia(m, k) && Rank(m, StartOf(es)) <= Rank(m, k) ensures Arrived(m, es, k) {
        RankBelowCount(m, k);
      }
    } else {
      RankBelowCount(m, Run(es).next);
    }
  }

  /** A relay reports the end of the media on exactly those events after which the final
      identifier is known and no byte from the start point on is missing. */
  lemma RelayFinishesExactly(m: Groups, es: seq<Event>)
    requires WellFormed(m) && Feed(m, es) && es != []
    ensures IsCursor(m, StartOf(es))
    ensures es[|es| - 1].Arrival? ==>
              (FinishedAfterFragment(Run(es)) <==> FinalSeen(es) && NothingMissing(m, es))
    ensures es[|es| - 1].Final? ==> (FinishedAfterFinal(Run(es)) <==> NothingMissing(m, es))
  {
    hide NothingMissing, Run, Feed, FinalSeen;
    EndIffNothingMissing(m, es);
    FinalField(m, es);
  }

  /** What the cache knows of the end of the media, and what the last event says of it. */
  lemma FinalField(m: Groups, es: seq<Event>)
    requires WellFormed(m) && Feed(m, es) && es != []
    ensures Run(es).final == if FinalSeen(es) then EndOf(m) else Key(0, 0)
    ensures es[|es| - 1].Final? ==> FinalSeen(es)
    ensures es[|es| - 1].Arrival? ==> EndOf(m) != Key(0, 0)
  {
    hide Stored, Exact, Run;
    RunKeepsInvariant(m, es);
    assert Welcome(m, es[..|es| - 1], es[|es| - 1]);
    if es[|es| - 1].Arrival? {
      EndNotZero(m);
    }
  }

  ghost predicate NothingMissing(m: Groups, es: seq<Event>)
    requires IsCursor(m, StartOf(es))
  {
    forall k :: InMedia(m, k) && Rank(m, StartOf(es)) <= Rank(m, k) ==> Arrived(m, es, k)
  }

  lemma EndNotZero(m: Groups)
    requires WellFormed(m) && m != []
    ensures EndOf(m) != Key(0, 0)
  {
  }
}
