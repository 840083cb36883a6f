/** The cursor of the cache over whole runs: although it only walks forward from the fragment
    just inserted, it always stands at the least position that the media still misses. */
module CacheCursor {
  import opened Media
  import opened Arrivals
  import opened FragmentCache

  // ----- The walk forward -----

  ghost predicate SolidTree(m: Groups, tree: seq<Fragment>) {
    forall i :: 0 <= i < |tree| ==> IsSolidSlice(m, tree[i])
  }

  /** Entry e holds position o of object k; the entry of an empty object holds position 0. */
  ghost predicate Sits(e: Fragment, k: Key, o: nat) {
    e.key == k && e.offset <= o && (o < e.End() || (e.objectLength == 0 && o == 0))
  }

  ghost predicate Present(tree: seq<Fragment>, k: Key, o: nat) {
    exists i :: 0 <= i < |tree| && Sits(tree[i], k, o)
  }

  ghost predicate Complete(m: Groups, tree: seq<Fragment>, k: Key)
    requires InMedia(m, k)
  {
    forall o: nat :: o < |ObjectAt(m, k).data| || o == 0 ==> Present(tree, k, o)
  }

  /** The object a cursor stands at: past the end of a group, the first of the next one. */
  function Standing(m: Groups, k: Key): Key {
    if InMedia(m, k) then k else Key(k.group + 1, 0)
  }

  /** Everything from the start up to the cursor is in the cache. */
  ghost predicate Passed(m: Groups, tree: seq<Fragment>, start: Key, k: Key, o: nat) {
    && IsCursor(m, start) && IsCursor(m, k) && Rank(m, start) <= Rank(m, k)
    && (o > 0 ==> InMedia(m, k) && o < |ObjectAt(m, k).data|)
    && (forall x :: InMedia(m, x) && Rank(m, start) <= Rank(m, x) < Rank(m, k) ==> Complete(m, tree, x))
    && (forall p :: 0 <= p < o ==> Present(tree, k, p))
  }

  /** The position at the cursor is not. */
  ghost predicate AtGap(m: Groups, tree: seq<Fragment>, k: Key, o: nat)
    requires IsCursor(m, k)
  {
    Rank(m, k) == Count(m) || !Present(tree, Standing(m, k), o)
  }

  ghost predicate Exact(m: Groups, tree: seq<Fragment>, start: Key, k: Key, o: nat) {
    Passed(m, tree, start, k, o) && AtGap(m, tree, k, o)
  }

  /** Entry e begins exactly at the cursor. */
  ghost predicate BeginsAt(m: Groups, e: Fragment, k: Key, o: nat) {
    e.key == Standing(m, k) && e.offset == o
  }

  lemma StandingRank(m: Groups, k: Key)
    requires WellFormed(m) && IsCursor(m, k) && Rank(m, k) < Count(m)
    ensures InMedia(m, Standing(m, k)) && Rank(m, Standing(m, k)) == Rank(m, k)
  {
    if m != [] && !InMedia(m, k) {
      assert k.group + 1 < |m| && m[k.group + 1] != [];
    }
  }

  /** An entry at the cursor is recognised by one of the two tests of the walk. */
  lemma Recognised(m: Groups, e: Fragment, k: Key, o: nat)
    requires WellFormed(m) && IsCursor(m, k) && Rank(m, k) < Count(m) && IsSolidSlice(m, e)
    requires o > 0 ==> InMedia(m, k)
    ensures BeginsAt(m, e, k, o) <==> IsExpected(k, o, e) || IsNextGroup(k, o, e)
    ensures InMedia(m, k) ==> !IsNextGroup(k, o, e)
  {
    StandingRank(m, k);
    if !InMedia(m, k) && e.key == Key(k.group + 1, 0) && e.offset == 0 && o == 0 {
      assert m[k.group] != [];
      assert e.previousSize == |m[k.group]|;
    }
  }

  /** What an entry at the cursor completes. */
  lemma StepKeepsPassed(m: Groups, tree: seq<Fragment>, start: Key, i: nat, k: Key, o: nat)
    requires WellFormed(m) && i < |tree| && IsSolidSlice(m, tree[i])
    requires Passed(m, tree, start, k, o) && Rank(m, k) < Count(m) && BeginsAt(m, tree[i], k, o)
    ensures var (k', o') := StepOver(tree[i].key, o, tree[i]); Passed(m, tree, start, k', o')
  {
    StandingRank(m, k);
    var e := tree[i];
    var (k', o') := StepOver(e.key, o, e);
    forall p: nat | p < o + |e.data| || (p == 0 && e.objectLength == 0) ensures Present(tree, e.key, p) {
      if p >= o {
        assert Sits(tree[i], e.key, p);
      }
    }
    forall x | InMedia(m, x) && Rank(m, start) <= Rank(m, x) < Rank(m, k') ensures Complete(m, tree, x) {
      if Rank(m, x) == Rank(m, k) {
        RankOrders(m, x, e.key);
      }
    }
  }

  /** Entries of one object that follow each other leave nothing between them, and the entry
      after the last of an object begins a later one. */
  lemma NextEntry(m: Groups, tree: seq<Fragment>, i: nat, x: nat, o: nat)
    requires WellFormed(m) && Tidy(tree) && SolidTree(m, tree) && i < |tree| && x < |tree|
    requires var (k', o') := StepOver(tree[i].key, tree[i].offset, tree[i]);
             && IsCursor(m, k') && Rank(m, k') < Count(m) && o == o'
             && Sits(tree[x], Standing(m, k'), o')
    ensures x == i + 1 && tree[x].offset == o
  {
    var e := tree[i];
    var (k', o') := StepOver(e.key, e.offset, e);
    StandingRank(m, k');
    RankOrders(m, e.key, tree[x].key);
    assert IsSolidSlice(m, e) && IsSolidSlice(m, tree[x]);
    if i + 1 < x {
      Between(m, tree, i, x);
    }
  }

  /** No entry fits between two that are adjacent in the media. */
  lemma Between(m: Groups, tree: seq<Fragment>, i: nat, x: nat)
    requires WellFormed(m) && Tidy(tree) && SolidTree(m, tree) && i + 1 < x < |tree|
    ensures Rank(m, tree[i].key) < Rank(m, tree[x].key) ==>
              Rank(m, tree[i].key) + 1 < Rank(m, tree[x].key) || tree[i].End() < tree[i].objectLength || tree[x].offset > 0
    ensures tree[i].key == tree[x].key ==> tree[i].End() < tree[x].offset
  {
    var (a, b, c) := (tree[i], tree[i + 1], tree[x]);
    assert IsSolidSlice(m, a) && IsSolidSlice(m, b) && IsSolidSlice(m, c);
    assert Before(a.key, b.key) || (a.key == b.key && a.offset < b.offset && a.End() <= b.offset);
    assert Before(b.key, c.key) || (b.key == c.key && b.offset < c.offset && b.End() <= c.offset);
    RankOrders(m, a.key, b.key);
    RankOrders(m, b.key, c.key);
  }

  /** After stepping over an entry, either the next entry begins at the cursor or what stands
      there is missing. */
  lemma StepKeepsWalking(m: Groups, tree: seq<Fragment>, start: Key, i: nat, k: Key, o: nat)
    requires WellFormed(m) && Tidy(tree) && SolidTree(m, tree) && i < |tree|
    requires Passed(m, tree, start, k, o) && Rank(m, k) < Count(m) && BeginsAt(m, tree[i], k, o)
    ensures var (k', o') := StepOver(tree[i].key, o, tree[i]);
            && Passed(m, tree, start, k', o')
            && (AtGap(m, tree, k', o') || (i + 1 < |tree| && BeginsAt(m, tree[i + 1], k', o')))
  {
    hide Passed, Tidy, IsSolidSlice;
    StepKeepsPassed(m, tree, start, i, k, o);
    var (k', o') := StepOver(tree[i].key, o, tree[i]);
    PassedCursor(m, tree, start, k', o');
    RankBelowCount(m, k');
    if !AtGap(m, tree, k', o') {
      var x :| 0 <= x < |tree| && Sits(tree[x], Standing(m, k'), o');
      NextEntry(m, tree, i, x, o');
    }
  }

  lemma PassedCursor(m: Groups, tree: seq<Fragment>, start: Key, k: Key, o: nat)
    requires Passed(m, tree, start, k, o)
    ensures IsCursor(m, k) && (o > 0 ==> InMedia(m, k))
  {
  }

  lemma SolidEntry(m: Groups, tree: seq<Fragment>, i: nat)
    requires SolidTree(m, tree) && i < |tree|
    ensures IsSolidSlice(m, tree[i])
  {
  }

  /** The walk ends at the first position that is missing, provided that it starts at an entry
      that begins at the cursor, or that the cursor's position is missing already. */
  lemma {:induction false} ProgressExact(m: Groups, tree: seq<Fragment>, start: Key, i: nat, k: Key, o: nat)
    requires WellFormed(m) && Tidy(tree) && SolidTree(m, tree) && i <= |tree|
    requires Passed(m, tree, start, k, o)
    requires IsCursor(m, k) && (AtGap(m, tree, k, o) || (i < |tree| && BeginsAt(m, tree[i], k, o)))
    ensures var (k', o') := Progress(tree, i, k, o); Exact(m, tree, start, k', o')
    decreases |tree| - i
  {
    hide Passed, Tidy, IsSolidSlice, SolidTree, Progress, StepOver, Present, IsNextGroup, IsExpected, Rank, Count;
    PassedCursor(m, tree, start, k, o);
    RankBelowCount(m, k);
    ProgressUnfold(tree, i, k, o);
    if i < |tree| && Rank(m, k) < Count(m) {
      SolidEntry(m, tree, i);
      Recognised(m, tree[i], k, o);
      if BeginsAt(m, tree[i], k, o) {
        var (k', o') := StepOver(tree[i].key, o, tree[i]);
        StepKeepsWalking(m, tree, start, i, k, o);
        PassedCursor(m, tree, start, k', o');
        ProgressExact(m, tree, start, i + 1, k', o');
      }
    } else if i < |tree| {
      EndOfWalk(m, tree, i, k, o);
    }
  }

  /** At the end of the media no entry is expected. */
  lemma EndOfWalk(m: Groups, tree: seq<Fragment>, i: nat, k: Key, o: nat)
    requires WellFormed(m) && SolidTree(m, tree) && i < |tree| && IsCursor(m, k) && Rank(m, k) == Count(m)
    ensures Progress(tree, i, k, o) == (k, o)
  {
    assert IsSolidSlice(m, tree[i]);
    RankCount(m, k);
    RankBelowCount(m, tree[i].key);
  }

  // ----- One insertion -----

  lemma PresentInserted(tree: seq<Fragment>, g: Fragment, k: Key, o: nat)
    ensures Present(Inserted(tree, g), k, o) <==> Present(tree, k, o) || Sits(g, k, o)
  {
    var p, t := Position(tree, g.key, g.offset), Inserted(tree, g);
    if Present(tree, k, o) {
      var i :| 0 <= i < |tree| && Sits(tree[i], k, o);
      assert t[if i < p then i else i + 1] == tree[i];
    }
    if Sits(g, k, o) {
      assert t[p] == g;
    }
    if Present(t, k, o) && !Sits(g, k, o) {
      var i :| 0 <= i < |t| && Sits(t[i], k, o);
      assert t[i] == tree[if i < p then i else i - 1];
    }
  }

  /** A fragment apart from all others that covers the cursor begins at it. */
  lemma CoversCursor(m: Groups, tree: seq<Fragment>, start: Key, g: Fragment, k: Key, o: nat)
    requires WellFormed(m) && SolidTree(m, tree) && IsSolidSlice(m, g) && Apart(tree, g)
    requires Passed(m, tree, start, k, o) && Sits(g, Standing(m, k), o)
    ensures BeginsAt(m, g, k, o)
  {
    if o > 0 {
      assert Present(tree, k, o - 1);
    }
  }

  lemma PassedGrows(m: Groups, tree: seq<Fragment>, start: Key, g: Fragment, k: Key, o: nat)
    requires Passed(m, tree, start, k, o)
    ensures Passed(m, Inserted(tree, g), start, k, o)
  {
    forall k, o: nat | Present(tree, k, o) ensures Present(Inserted(tree, g), k, o) {
      PresentInserted(tree, g, k, o);
    }
  }

  lemma SolidInserted(m: Groups, tree: seq<Fragment>, g: Fragment)
    requires SolidTree(m, tree) && IsSolidSlice(m, g)
    ensures SolidTree(m, Inserted(tree, g))
  {
    hide IsSolidSlice;
  }

  /** Cache cursor refinement, one insertion at a time: from an exact cursor to an exact one,
      wherever the new fragment goes. */
  lemma AddKeepsExact(m: Groups, c: Cache, start: Key, g: Fragment)
    requires WellFormed(m) && Tidy(c.tree) && SolidTree(m, c.tree) && IsSolidSlice(m, g) && Apart(c.tree, g)
    requires Exact(m, c.tree, start, c.next, c.nextOffset)
    ensures Exact(m, Add(c, g).tree, start, Add(c, g).next, Add(c, g).nextOffset)
  {
    hide Progress, Passed, Tidy, IsSolidSlice, SolidTree, Apart, Present;
    var (p, tree) := (Position(c.tree, g.key, g.offset), Inserted(c.tree, g));
    PassedCursor(m, c.tree, start, c.next, c.nextOffset);
    PassedGrows(m, c.tree, start, g, c.next, c.nextOffset);
    TidyInsert(c.tree, g);
    SolidInserted(m, c.tree, g);
    assert tree[p] == g;
    PresentInserted(c.tree, g, Standing(m, c.next), c.nextOffset);
    if Sits(g, Standing(m, c.next), c.nextOffset) {
      CoversCursor(m, c.tree, start, g, c.next, c.nextOffset);
    }
    ProgressExact(m, tree, start, p, c.next, c.nextOffset);
  }

  // ----- Whole runs -----

  function Step(c: Cache, e: Event): Cache {
    match e
    case Arrival(f) => Propose(c, f)
    case Start(k) => LearnStartPoint(c, k)
    case Final(k) => LearnEndPoint(c, k)
  }

  function Run(es: seq<Event>): Cache {
    if es == [] then EMPTY else Step(Run(es[..|es| - 1]), es[|es| - 1])
  }

  function StartOf(es: seq<Event>): Key {
    if es != [] && es[0].Start? then es[0].key else Key(0, 0)
  }

  /** No position of f that is still missing lies behind one that is not. */
  ghost predicate WellCut(es: seq<Event>, f: Fragment) {
    forall p, q :: f.offset <= p < q < f.End() && p in Covered(es, f.key) ==> q in Covered(es, f.key)
  }

  ghost predicate Welcome(m: Groups, es: seq<Event>, e: Event) {
    && Honest(m, e)
    && (e.Start? ==> es == [])
    && (e.Arrival? ==> IsSolidSlice(m, e.fragment) && (!Before(e.fragment.key, StartOf(es)) ==> WellCut(es, e.fragment)))
  }

  /** A run the cache is made for: honest, the start point first if there is one, and every
      fragment cut so that what it brings comes before what it repeats. */
  ghost predicate Feed(m: Groups, es: seq<Event>) {
    forall i :: 0 <= i < |es| ==> Welcome(m, es[..i], es[i])
  }

  ghost predicate HasEntry(tree: seq<Fragment>, k: Key) {
    exists i :: 0 <= i < |tree| && tree[i].key == k
  }

  /** The tree holds what the arrivals carried, object by object, from the start point on. */
  ghost predicate Stored(m: Groups, es: seq<Event>, tree: seq<Fragment>, first: Key) {
    && Tidy(tree) && SolidTree(m, tree)
    && NoneBefore(tree, first) && HasCovered(es, tree, first) && HasTouched(es, tree, first)
  }

  ghost predicate NoneBefore(tree: seq<Fragment>, first: Key) {
    forall i :: 0 <= i < |tree| ==> !Before(tree[i].key, first)
  }

  ghost predicate HasCovered(es: seq<Event>, tree: seq<Fragment>, first: Key) {
    forall k, p: nat :: !Before(k, first) ==> (Has(tree, k, p) <==> p in Covered(es, k))
  }

  ghost predicate HasTouched(es: seq<Event>, tree: seq<Fragment>, first: Key) {
    forall k :: !Before(k, first) ==> (HasEntry(tree, k) <==> Touched(es, k))
  }

  ghost predicate Invariant(m: Groups, es: seq<Event>, c: Cache) {
    && c.first == StartOf(es) && IsCursor(m, c.first)
    && Stored(m, es, c.tree, c.first)
    && Exact(m, c.tree, c.first, c.next, c.nextOffset)
    && c.final == (if FinalSeen(es) then EndOf(m) else Key(0, 0))
    && multiset(c.arrivals) == multiset(c.tree)
  }

  lemma FrontIsSolid(m: Groups, f: Fragment, n: nat)
    requires IsSolidSlice(m, f) && 0 < n <= |f.data|
    ensures IsSolidSlice(m, Front(f, n))
  {
  }

  lemma HasEntryInserted(tree: seq<Fragment>, g: Fragment, k: Key)
    ensures HasEntry(Inserted(tree, g), k) <==> HasEntry(tree, k) || k == g.key
  {
    var p, t := Position(tree, g.key, g.offset), Inserted(tree, g);
    if HasEntry(tree, k) {
      var i :| 0 <= i < |tree| && tree[i].key == k;
      assert t[if i < p then i else i + 1] == tree[i];
    }
    assert t[p] == g;
    if HasEntry(t, k) && k != g.key {
      var i :| 0 <= i < |t| && t[i].key == k;
      assert t[i] == tree[if i < p then i else i - 1];
    }
  }

  lemma MultisetInserted(tree: seq<Fragment>, g: Fragment)
    ensures multiset(Inserted(tree, g)) == multiset(tree) + multiset{g}
  {
    var p := Position(tree, g.key, g.offset);
    assert tree == tree[..p] + tree[p..];
  }

  /** The piece of a welcome fragment that enters, if any does. */
  ghost function Entering(c: Cache, f: Fragment): Fragment {
    if f.data == [] then f else Front(f, Missing(c.tree, f.key, f.offset, |f.data|))
  }

  lemma WelcomeIsCompatible(m: Groups, es: seq<Event>, c: Cache, f: Fragment)
    requires Stored(m, es, c.tree, c.first) && IsSolidSlice(m, f) && !Before(f.key, c.first)
    ensures Compatible(c.tree, f) && (MissingIsPrefix(c.tree, f) <==> WellCut(es, f))
  {
    forall i | 0 <= i < |c.tree| && c.tree[i].key == f.key
      ensures && c.tree[i].objectLength == f.objectLength
              && c.tree[i].End() <= c.tree[i].objectLength && (c.tree[i].data != [] || c.tree[i].objectLength == 0)
    {
      assert IsSolidSlice(m, c.tree[i]);
    }
  }

  /** Either nothing enters, the object being known to the tree, or one piece does, apart from
      all others. */
  lemma WantedEnters(m: Groups, c: Cache, f: Fragment)
    requires Tidy(c.tree) && Compatible(c.tree, f) && IsSolidSlice(m, f)
    ensures var (d, added) := Wanted(c, f);
            if added then d == Add(c, Entering(c, f)) && Apart(c.tree, Entering(c, f)) && IsSolidSlice(m, Entering(c, f))
            else d == c && HasEntry(c.tree, f.key)
  {
    var n := Missing(c.tree, f.key, f.offset, |f.data|);
    if f.data != [] && n > 0 {
      var g := Front(f, n);
      FrontIsSolid(m, f, n);
      forall i | 0 <= i < |c.tree| && c.tree[i].key == g.key
        ensures (c.tree[i].offset < g.offset && c.tree[i].End() <= g.offset) ||
                (g.offset < c.tree[i].offset && g.End() <= c.tree[i].offset)
      {
        ApartFrom(c.tree, g, i);
      }
    } else if f.data != [] {
      assert Has(c.tree, f.key, f.offset);
    }
  }

  lemma CoveredGrows(es: seq<Event>, tree: seq<Fragment>, now: seq<Fragment>, f: Fragment, first: Key)
    requires HasCovered(es, tree, first)
    requires forall k, x: nat :: Has(now, k, x) <==> Has(tree, k, x) || (k == f.key && f.offset <= x < f.End())
    ensures HasCovered(es + [Arrival(f)], now, first)
  {
    hide Has;
    forall k, p: nat | !Before(k, first) ensures Has(now, k, p) <==> p in Covered(es + [Arrival(f)], k) {
      OnlyItsObject([], es, Arrival(f), k);
    }
  }

  lemma TouchedGrows(es: seq<Event>, tree: seq<Fragment>, now: seq<Fragment>, f: Fragment, first: Key)
    requires HasTouched(es, tree, first)
    requires (now == tree && HasEntry(tree, f.key)) || exists g: Fragment :: g.key == f.key && now == Inserted(tree, g)
    ensures HasTouched(es + [Arrival(f)], now, first)
  {
    hide HasEntry, Inserted, Touched;
    forall k | !Before(k, first) ensures HasEntry(now, k) <==> Touched(es + [Arrival(f)], k) {
      OnlyItsObject([], es, Arrival(f), k);
      if now != tree || !HasEntry(tree, f.key) {
        var g: Fragment :| g.key == f.key && now == Inserted(tree, g);
        HasEntryInserted(tree, g, k);
      }
    }
  }

  lemma NoneBeforeInserted(tree: seq<Fragment>, g: Fragment, first: Key)
    requires NoneBefore(tree, first) && !Before(g.key, first)
    ensures NoneBefore(Inserted(tree, g), first)
  {
  }

  /** Storing a welcome fragment keeps the tree what the arrivals say it should be. */
  lemma StoredGrows(m: Groups, es: seq<Event>, c: Cache, f: Fragment)
    requires Stored(m, es, c.tree, c.first) && IsSolidSlice(m, f) && !Before(f.key, c.first) && WellCut(es, f)
    ensures Stored(m, es + [Arrival(f)], Wanted(c, f).0.tree, c.first)
  {
    WelcomeIsCompatible(m, es, c, f);
    hide Wanted, Tidy, SolidTree, IsSolidSlice, Compatible, MissingIsPrefix, WellCut, Entering, Apart, HasCovered, HasTouched, NoneBefore, HasEntry, Inserted, Has;
    WantedEnters(m, c, f);
    WantedCovers(c, f);
    EnteringKey(c, f);
    var g, d := Entering(c, f), Wanted(c, f).0;
    if Wanted(c, f).1 {
      SolidInserted(m, c.tree, g);
      NoneBeforeInserted(c.tree, g, c.first);
    }
    CoveredGrows(es, c.tree, d.tree, f, c.first);
    TouchedGrows(es, c.tree, d.tree, f, c.first);
  }

  lemma EnteringKey(c: Cache, f: Fragment)
    ensures Entering(c, f).key == f.key
  {
  }

  lemma StartOfStays(es: seq<Event>, e: Event)
    requires e.Start? ==> es == []
    ensures StartOf(es + [e]) == if e.Start? then e.key else StartOf(es)
  {
  }

  /** A fragment from before the start point changes nothing that counts. */
  lemma StoredIgnores(m: Groups, es: seq<Event>, tree: seq<Fragment>, first: Key, e: Event)
    requires Stored(m, es, tree, first) && (e.Arrival? ==> Before(e.fragment.key, first))
    ensures Stored(m, es + [e], tree, first)
  {
    hide Has, HasEntry, Touched;
    forall k | !Before(k, first)
      ensures Touched(es + [e], k) <==> Touched(es, k)
      ensures Covered(es + [e], k) == Covered(es, k)
    {
      OnlyItsObject(m, es, e, k);
    }
  }

  lemma ArrivalStep(m: Groups, es: seq<Event>, c: Cache, f: Fragment)
    requires WellFormed(m) && Invariant(m, es, c) && Welcome(m, es, Arrival(f))
    ensures Invariant(m, es + [Arrival(f)], Propose(c, f))
  {
    var e := Arrival(f);
    hide Place, Wanted, Stored, Exact, Progress, Inserted, WellCut, FinalSeen;
    StartOfStays(es, e);
    FinalSeenUnfold(es, e);
    if Before(f.key, c.first) {
      StoredIgnores(m, es, c.tree, c.first, e);
    } else {
      StoredIsTidy(m, es, c.tree, c.first);
      WelcomeIsCompatible(m, es, c, f);
      ProposalWanted(c, f);
      StoredGrows(m, es, c, f);
      WantedEnters(m, c, f);
      if Wanted(c, f).1 {
        AddKeepsExact(m, c, c.first, Entering(c, f));
        MultisetInserted(c.tree, Entering(c, f));
      }
    }
  }

  lemma StoredIsTidy(m: Groups, es: seq<Event>, tree: seq<Fragment>, first: Key)
    requires Stored(m, es, tree, first)
    ensures Tidy(tree) && SolidTree(m, tree)
  {
  }

  lemma EmptyExact(m: Groups, k: Key)
    requires WellFormed(m) && IsCursor(m, k)
    ensures Exact(m, [], k, k, 0)
  {
  }

  lemma NothingStored(m: Groups, es: seq<Event>, k: Key)
    requires forall i :: 0 <= i < |es| ==> !es[i].Arrival?
    ensures Stored(m, es, [], k)
  {
    forall k ensures !Touched(es, k) && Covered(es, k) == {} {
      UntouchedIsUncovered(es, k);
    }
  }

  lemma RunStep(m: Groups, es: seq<Event>, e: Event)
    requires WellFormed(m) && Invariant(m, es, Run(es)) && Welcome(m, es, e) && (es == [] ==> Run(es) == EMPTY)
    ensures Invariant(m, es + [e], Step(Run(es), e))
  {
    var c := Run(es);
    match e {
      case Arrival(f) => ArrivalStep(m, es, c, f);
      case Start(k) =>
        FinalSeenUnfold(es, e);
        StartOfStays(es, e);
        NothingStored(m, [e], k);
        EmptyExact(m, k);
      case Final(k) =>
        FinalSeenUnfold(es, e);
        StartOfStays(es, e);
        StoredIgnores(m, es, c.tree, c.first, e);
    }
  }

  lemma FeedUnfold(m: Groups, es: seq<Event>, e: Event)
    requires Feed(m, es + [e])
    ensures Feed(m, es) && Welcome(m, es, e)
  {
    hide Welcome;
    var es' := es + [e];
    assert es'[..|es|] == es && es'[|es|] == e;
    forall i | 0 <= i < |es| ensures Welcome(m, es[..i], es[i]) {
      assert es'[..i] == es[..i] && es'[i] == es[i];
    }
  }

  /** On every run the cache was made for, whatever the order of arrival, the invariant holds:
      in particular the cursor is exact. */
  lemma {:induction false} RunKeepsInvariant(m: Groups, es: seq<Event>)
    requires WellFormed(m) && Feed(m, es)
    ensures Invariant(m, es, Run(es))
  {
    hide Invariant, Step, Welcome, Feed, Stored, Exact;
    if es == [] {
      NothingStored(m, [], Key(0, 0));
      EmptyExact(m, Key(0, 0));
      EmptyInvariant(m);
    } else {
      var prefix, e := es[..|es| - 1], es[|es| - 1];
      assert es == prefix + [e];
      FeedUnfold(m, prefix, e);
      RunKeepsInvariant(m, prefix);
      RunStep(m, prefix, e);
    }
  }

  lemma EmptyInvariant(m: Groups)
    requires Stored(m, [], [], Key(0, 0)) && Exact(m, [], Key(0, 0), Key(0, 0), 0)
    ensures Invariant(m, [], EMPTY)
  {
  }

  lemma CoveredWithin(m: Groups, es: seq<Event>, tree: seq<Fragment>, first: Key, k: Key)
    requires Stored(m, es, tree, first) && InMedia(m, k) && !Before(k, first)
    ensures forall o :: o in Covered(es, k) ==> o < |ObjectAt(m, k).data| && HasEntry(tree, k)
  {
    forall o | o in Covered(es, k) ensures o < |ObjectAt(m, k).data| && HasEntry(tree, k) {
      assert Has(tree, k, o);
      var i :| 0 <= i < |tree| && Covers(tree[i], k, o);
      assert IsSolidSlice(m, tree[i]);
    }
  }

  /** In the tree, an object is complete exactly when all of it arrived. */
  lemma CompleteIffArrived(m: Groups, es: seq<Event>, tree: seq<Fragment>, first: Key, k: Key)
    requires Stored(m, es, tree, first) && InMedia(m, k) && !Before(k, first)
    ensures Complete(m, tree, k) <==> Arrived(m, es, k)
    ensures forall o: nat :: o < |ObjectAt(m, k).data| ==> (Present(tree, k, o) <==> o in Covered(es, k))
    ensures ObjectAt(m, k).data == [] ==> (Present(tree, k, 0) <==> Touched(es, k))
  {
    hide Tidy, Present, Has, Covered, Touched, HasEntry, IsSolidSlice;
    var length := |ObjectAt(m, k).data|;
    forall o: nat | o < length ensures Present(tree, k, o) <==> o in Covered(es, k) {
      PresentIsHas(m, tree, k, o);
    }
    CoveredWithin(m, es, tree, first, k);
    PresentIsEntry(m, tree, k);
    assert Covered(es, k) == Span(0, length) <==> forall o: nat :: o < length ==> o in Covered(es, k);
  }

  lemma PresentIsHas(m: Groups, tree: seq<Fragment>, k: Key, o: nat)
    requires SolidTree(m, tree) && InMedia(m, k) && ObjectAt(m, k).data != []
    ensures Present(tree, k, o) <==> Has(tree, k, o)
  {
    if Present(tree, k, o) {
      var i :| 0 <= i < |tree| && Sits(tree[i], k, o);
      assert IsSolidSlice(m, tree[i]);
      assert Covers(tree[i], k, o);
    }
    if Has(tree, k, o) {
      var i :| 0 <= i < |tree| && Covers(tree[i], k, o);
      assert Sits(tree[i], k, o);
    }
  }

  lemma PresentIsEntry(m: Groups, tree: seq<Fragment>, k: Key)
    requires SolidTree(m, tree) && InMedia(m, k)
    ensures ObjectAt(m, k).data == [] ==> (Present(tree, k, 0) <==> HasEntry(tree, k))
  {
    if ObjectAt(m, k).data == [] && HasEntry(tree, k) {
      var i :| 0 <= i < |tree| && tree[i].key == k;
      assert IsSolidSlice(m, tree[i]);
      assert Sits(tree[i], k, 0);
    }
  }

  /** The cursor is the least missing position of the media from the start point on: every
      object before it arrived; of the object it stands at, every position before its offset
      arrived and the one at its offset did not. */
  lemma CursorIsLeastMissing(m: Groups, es: seq<Event>)
    requires WellFormed(m) && Feed(m, es)
    ensures var c := Run(es);
            var k := Standing(m, c.next);
            && IsCursor(m, c.next) && IsCursor(m, StartOf(es)) && Rank(m, StartOf(es)) <= Rank(m, c.next)
            && (forall x :: InMedia(m, x) && Rank(m, StartOf(es)) <= Rank(m, x) < Rank(m, c.next) ==> Arrived(m, es, x))
            && (forall o :: 0 <= o < c.nextOffset ==> o in Covered(es, k))
            && (Rank(m, c.next) < Count(m) ==>
                  && InMedia(m, k) && Rank(m, k) == Rank(m, c.next) && !Arrived(m, es, k)
                  && c.nextOffset !in Covered(es, k))
            && (Rank(m, c.next) == Count(m) ==> c.nextOffset == 0)
  {
    hide Tidy, Present, Stored, Arrived, Covered;
    RunKeepsInvariant(m, es);
    var c, start := Run(es), StartOf(es);
    RankBelowCount(m, c.next);
    forall x | InMedia(m, x) && Rank(m, start) <= Rank(m, x) < Rank(m, c.next) ensures Arrived(m, es, x) {
      AtCursor(m, start, x);
      CompleteIffArrived(m, es, c.tree, start, x);
    }
    if Rank(m, c.next) < Count(m) {
      var k := Standing(m, c.next);
      StandingRank(m, c.next);
      AtCursor(m, start, k);
      CompleteIffArrived(m, es, c.tree, start, k);
      GapPosition(m, es, c, k);
    }
  }

  lemma GapPosition(m: Groups, es: seq<Event>, c: Cache, k: Key)
    requires WellFormed(m) && Invariant(m, es, c) && Rank(m, c.next) < Count(m) && k == Standing(m, c.next)
    requires InMedia(m, k) && !Before(k, c.first)
    ensures !Complete(m, c.tree, k) && c.nextOffset !in Covered(es, k)
    ensures c.nextOffset > 0 ==> k == c.next && forall o :: 0 <= o < c.nextOffset ==> o in Covered(es, k)
  {
    CompleteIffArrived(m, es, c.tree, c.first, k);
    CoveredWithin(m, es, c.tree, c.first, k);
  }

  // ----- The exact condition on whole runs -----

  /** The tree covers exactly what arrived. */
  ghost predicate HoldsArrived(es: seq<Event>) {
    HasCovered(es, Run(es).tree, Key(0, 0))
  }

  /** Fragments and final points only. */
  ghost predicate Plain(m: Groups, es: seq<Event>) {
    forall i :: 0 <= i < |es| ==> !es[i].Start? && Honest(m, es[i]) && (es[i].Arrival? ==> IsSolidSlice(m, es[i].fragment))
  }

  ghost predicate AllWellCut(es: seq<Event>) {
    forall i: nat :: i < |es| && es[i].Arrival? ==> WellCut(es[..i], es[i].fragment)
  }

  lemma PlainIsFeed(m: Groups, es: seq<Event>)
    requires Plain(m, es)
    ensures Feed(m, es) <==> AllWellCut(es)
  {
    hide WellCut, IsSolidSlice;
    forall i: nat | i < |es| ensures StartOf(es[..i]) == Key(0, 0) {
    }
  }

  /** A fragment on a cache that holds what arrived. */
  lemma ArrivalHoldsIff(m: Groups, es: seq<Event>, f: Fragment)
    requires WellFormed(m) && Invariant(m, es, Run(es)) && IsSolidSlice(m, f) && StartOf(es) == Key(0, 0)
    ensures HoldsArrived(es + [Arrival(f)]) <==> WellCut(es, f)
  {
    hide Exact, Tidy, Has, IsSolidSlice, Propose, Covered, Touched, Inserted, WellCut;
    var c := Run(es);
    var now := es + [Arrival(f)];
    assert now[..|now| - 1] == es && Run(now) == Step(c, Arrival(f));
    if WellCut(es, f) {
      ArrivalIsStored(m, es, c, f);
    } else {
      NotCutHasData(es, f);
      WelcomeIsCompatible(m, es, c, f);
      StoredIsTidy(m, es, c.tree, c.first);
      ProposalExactIffMissingIsPrefix(c, f);
      OnlyItsObject(m, es, Arrival(f), f.key);
    }
  }

  lemma NotCutHasData(es: seq<Event>, f: Fragment)
    requires !WellCut(es, f)
    ensures f.data != []
  {
  }

  lemma ArrivalIsStored(m: Groups, es: seq<Event>, c: Cache, f: Fragment)
    requires WellFormed(m) && Invariant(m, es, c) && IsSolidSlice(m, f) && WellCut(es, f) && c.first == Key(0, 0)
    ensures HasCovered(es + [Arrival(f)], Propose(c, f).tree, Key(0, 0))
  {
    hide Invariant, Propose, WellCut, HasCovered;
    InvariantStarts(m, es, c);
    ArrivalStep(m, es, c, f);
    InvariantStarts(m, es + [Arrival(f)], Propose(c, f));
    StartOfStays(es, Arrival(f));
  }

  lemma InvariantStarts(m: Groups, es: seq<Event>, c: Cache)
    requires Invariant(m, es, c)
    ensures c.first == StartOf(es) && HasCovered(es, c.tree, c.first)
  {
  }

  lemma FinalHolds(es: seq<Event>, k: Key)
    ensures HoldsArrived(es + [Final(k)]) <==> HoldsArrived(es)
  {
    var now := es + [Final(k)];
    assert now[..|now| - 1] == es;
    forall x ensures Covered(now, x) == Covered(es, x) {
    }
  }

  lemma PlainUnfold(m: Groups, es: seq<Event>, e: Event)
    requires Plain(m, es + [e])
    ensures Plain(m, es) && !e.Start? && Honest(m, e) && (e.Arrival? ==> IsSolidSlice(m, e.fragment)) && StartOf(es) == Key(0, 0)
    ensures AllWellCut(es + [e]) <==> AllWellCut(es) && (e.Arrival? ==> WellCut(es, e.fragment))
    ensures (forall n: nat :: n <= |es| + 1 ==> HoldsArrived((es + [e])[..n])) <==>
            (forall n: nat :: n <= |es| ==> HoldsArrived(es[..n])) && HoldsArrived(es + [e])
  {
    hide WellCut, IsSolidSlice, HoldsArrived;
    var now := es + [e];
    assert now[|es|] == e && now[..|es|] == es && now[..|now|] == now;
    assert forall n: nat :: n <= |es| ==> now[..n] == es[..n];
    assert forall i: nat :: i < |es| ==> now[i] == es[i];
  }

  /** Without start points a cache holds, at every moment, exactly what arrived, if and only if what
      each fragment brought comes before what it repeated. */
  lemma {:induction false} HoldsArrivedIff(m: Groups, es: seq<Event>)
    requires WellFormed(m) && Plain(m, es)
    ensures (forall n: nat :: n <= |es| ==> HoldsArrived(es[..n])) <==> AllWellCut(es)
  {
    hide *;
    if es == [] {
      NothingHolds(es);
    } else {
      var (before, e) := (es[..|es| - 1], es[|es| - 1]);
      assert es == before + [e];
      PlainUnfold(m, before, e);
      HoldsArrivedIff(m, before);
      if AllWellCut(before) {
        PlainIsFeed(m, before);
        RunKeepsInvariant(m, before);
        assert HoldsArrived(before) by { assert before[..|before|] == before; }
        match e {
          case Arrival(f) => ArrivalHoldsIff(m, before, f);
          case Final(k) => FinalHolds(before, k);
        }
      }
    }
  }

  lemma NothingHolds(es: seq<Event>)
    requires es == []
    ensures AllWellCut(es) && forall n: nat :: n <= |es| ==> HoldsArrived(es[..n])
  {
    assert es[..0] == es;
  }

  // ----- A start point that comes late -----

  /** Deleting from the front takes exactly the entries of objects before k. */
  lemma {:induction false} DropBeforeIs(tree: seq<Fragment>, arrivals: seq<Fragment>, k: Key)
    requires Tidy(tree)
    ensures var (now, _) := DropBefore(tree, arrivals, k);
            Tidy(now) && forall f :: f in now <==> f in tree && !Before(f.key, k)
  {
    if tree != [] {
      assert tree == [tree[0]] + tree[1..];
      if Before(tree[0].key, k) {
        DropBeforeIs(tree[1..], Without(arrivals, tree[0]), k);
      } else {
        forall i | 0 <= i < |tree| ensures !Before(tree[i].key, k) {
          assert i > 0 ==> !Before(tree[i].key, tree[0].key);
        }
      }
    }
  }

  lemma PresentIsMember(tree: seq<Fragment>, k: Key, o: nat)
    ensures Present(tree, k, o) <==> exists f :: f in tree && Sits(f, k, o)
  {
    if f :| f in tree && Sits(f, k, o) {
      var i :| 0 <= i < |tree| && tree[i] == f;
      assert Sits(tree[i], k, o);
    }
  }

  /** Nothing is lost of the object at the start point and those after it. */
  lemma PresentAfterDrop(tree: seq<Fragment>, arrivals: seq<Fragment>, k: Key, x: Key, o: nat)
    requires Tidy(tree) && !Before(x, k)
    ensures Present(DropBefore(tree, arrivals, k).0, x, o) <==> Present(tree, x, o)
  {
    hide Tidy, DropBefore, Present;
    DropBeforeIs(tree, arrivals, k);
    PresentIsMember(tree, x, o);
    PresentIsMember(DropBefore(tree, arrivals, k).0, x, o);
  }

  lemma CursorsOrdered(m: Groups, a: Key, b: Key)
    requires WellFormed(m) && IsCursor(m, a) && IsCursor(m, b) && !Before(b, a)
    ensures Rank(m, a) <= Rank(m, b)
    ensures !Before(Standing(m, b), a)
  {
    if m != [] {
      GroupStartMonotone(m, a.group, b.group);
    }
  }

  /** Of the object at cursor k, the first o positions are held and the next one is not. */
  ghost predicate HeldJustTo(m: Groups, tree: seq<Fragment>, k: Key, o: nat)
    requires IsCursor(m, k)
  {
    && (o > 0 ==> InMedia(m, k) && o < |ObjectAt(m, k).data|)
    && (forall p :: 0 <= p < o ==> Present(tree, k, p))
    && (Rank(m, k) < Count(m) ==> !Present(tree, Standing(m, k), o))
  }

  /** When a start point may still come after fragments did: the cursor stays exact if and only
      if the start point does not move it, or the offset that was reached in another object
      happens to be right for the object of the start point. */
  lemma LateStartIsExactIff(m: Groups, c: Cache, k: Key)
    requires WellFormed(m) && Tidy(c.tree) && Exact(m, c.tree, c.first, c.next, c.nextOffset)
    requires IsCursor(m, k) && !Before(k, c.first)
    ensures var d := LearnStartPoint(c, k);
            Exact(m, d.tree, d.first, d.next, d.nextOffset) <==>
            !Before(c.next, k) || HeldJustTo(m, c.tree, k, c.nextOffset)
  {
    hide Tidy, Present, DropBefore, WellFormed, Rank, Standing;
    var d := LearnStartPoint(c, k);
    CursorsOrdered(m, k, k);
    RankBelowCount(m, k);
    forall x, o: nat | !Before(x, k) ensures Present(d.tree, x, o) <==> Present(c.tree, x, o) {
      PresentAfterDrop(c.tree, c.arrivals, k, x, o);
    }
    if !Before(c.next, k) {
      CursorsOrdered(m, k, c.next);
      CursorsOrdered(m, c.first, k);
      forall x | InMedia(m, x) && Rank(m, k) <= Rank(m, x) < Rank(m, c.next) ensures Complete(m, d.tree, x) {
        AtCursor(m, k, x);
      }
    }
  }

  /** The smallest case in which it is not: the offset reached in an earlier object is kept for
      the object of the start point, and an object that is then complete is not passed. */
  lemma LateStartPointIsNotExact(c: Cache, f: Fragment)
    requires c == EMPTY.(nextOffset := 1, tree := [f], arrivals := [f])
    requires f.key == Key(0, 0) && f.offset == 0 && |f.data| == 1 && f.objectLength == 2
    ensures var g := Fragment(Key(1, 0), 0, 0, 1, 1, [0]);
            var d := Propose(LearnStartPoint(c, Key(1, 0)), g);
            Has(d.tree, Key(1, 0), 0) && d.next == Key(1, 0) && d.nextOffset == 1
  {
    var g := Fragment(Key(1, 0), 0, 0, 1, 1, [0]);
    var s := LearnStartPoint(c, Key(1, 0));
    assert c.tree[1..] == [];
    assert DropBefore(c.tree, c.arrivals, Key(1, 0)) == DropBefore([], Without(c.arrivals, f), Key(1, 0));
    assert Inserted(s.tree, g) == [g];
    assert Covers([g][0], Key(1, 0), 0);
  }
}
