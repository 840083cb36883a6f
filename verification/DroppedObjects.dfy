/** Reassembly of datagrams when a publisher dropped objects.  Of a dropped object a consumer may get
    the placeholder that was sent, or repeats of it.  The placeholder is an empty object; a repeat
    announces the length that the object really has, and brings nothing.  The one that comes first
    decides: behind the placeholder repeats change nothing, and behind a repeat the placeholder is
    refused and the object never becomes complete. */
module DroppedObjects {
  import opened Media
  import opened PacketList
  import opened Arrivals
  import opened Replacement
  import Reassembly
  import Delivery
  import FragmentCache

  /** The repeat of a placeholder: the length of the object, and none of its bytes. */
  function HollowOf(k: Key, length: nat): Fragment {
    Fragment(k, 0, 255, 0, length, [])
  }

  function Hollow(m: Groups, k: Key): Fragment
    requires InMedia(m, k)
  {
    HollowOf(k, |ObjectAt(m, k).data|)
  }

  /** Objects that may be dropped: they have data, and are not the first of their group. */
  ghost predicate Droppable(m: Groups, ks: set<Key>) {
    forall k :: k in ks ==> InMedia(m, k) && k.id != 0 && ObjectAt(m, k).data != []
  }

  /** What comes from a publisher that dropped the objects ks. */
  ghost predicate Comes(m: Groups, ks: set<Key>, e: Event) {
    match e
    case Arrival(f) => if f.key in ks then InMedia(m, f.key) && (f == PlaceholderOf(f.key) || f == Hollow(m, f.key)) else IsSlice(m, f)
    case Start(_) => false
    case Final(k) => k == EndOf(m)
  }

  ghost predicate AllCome(m: Groups, ks: set<Key>, es: seq<Event>) {
    forall i :: 0 <= i < |es| ==> Comes(m, ks, es[i])
  }

  /** The placeholder of object k comes before anything else of it. */
  ghost predicate PlaceholderFirst(es: seq<Event>, k: Key) {
    exists i: nat :: FirstAt(es, i, k) && es[i] == Arrival(PlaceholderOf(k))
  }

  ghost predicate FirstAt(es: seq<Event>, i: nat, k: Key) {
    i < |es| && Touches(es[i], k) && forall j :: 0 <= j < i ==> !Touches(es[j], k)
  }

  /** The media as the consumer sees it: a dropped object is empty if its placeholder comes first,
      and otherwise an object with all flags set, of which no byte ever comes. */
  ghost function Seen(m: Groups, ks: set<Key>, es: seq<Event>): Groups {
    seq(|m|, g requires 0 <= g < |m| =>
      seq(|m[g]|, o requires 0 <= o < |m[g]| =>
        if Key(g, o) !in ks then m[g][o]
        else if PlaceholderFirst(es, Key(g, o)) then BLANK
        else MediaObject(m[g][o].data, 255)))
  }

  lemma SeenObject(m: Groups, ks: set<Key>, es: seq<Event>)
    ensures SameExcept(m, Seen(m, ks, es), ks)
    ensures forall k :: InMedia(m, k) && k in ks ==>
              ObjectAt(Seen(m, ks, es), k) == if PlaceholderFirst(es, k) then BLANK else MediaObject(ObjectAt(m, k).data, 255)
  {
    hide PlaceholderFirst;
  }

  /** What is true of that media. */
  ghost function Kept(v: Groups, es: seq<Event>): (r: seq<Event>)
    ensures AllHonest(v, r)
  {
    if es == [] then []
    else Kept(v, es[..|es| - 1]) + if Honest(v, es[|es| - 1]) then [es[|es| - 1]] else []
  }

  // ----- What is true and what is not -----

  lemma OthersAreHonest(m: Groups, v: Groups, ks: set<Key>, e: Event)
    requires SameExcept(m, v, ks) && Comes(m, ks, e) && !(e.Arrival? && e.fragment.key in ks)
    ensures Honest(v, e)
  {
    ShapeBasics(m, v);
  }

  /** Of an object dropped, either the placeholder or the repeats are true of what the consumer sees. */
  lemma DroppedIsHonestIff(m: Groups, v: Groups, ks: set<Key>, k: Key)
    requires SameExcept(m, v, ks) && Droppable(m, ks) && k in ks
    ensures InMedia(v, k)
    ensures ObjectAt(v, k) == BLANK ==> Honest(v, Arrival(PlaceholderOf(k))) && !Honest(v, Arrival(Hollow(m, k)))
    ensures ObjectAt(v, k) == MediaObject(ObjectAt(m, k).data, 255) ==>
              Honest(v, Arrival(Hollow(m, k))) && !Honest(v, Arrival(PlaceholderOf(k)))
  {
    ShapeBasics(m, v);
  }

  lemma {:induction false} KeptTouches(v: Groups, es: seq<Event>, i: nat, k: Key)
    requires i < |es| && Touches(es[i], k) && Honest(v, es[i])
    ensures Touched(Kept(v, es), k)
  {
    hide Honest;
    var (before, last) := (es[..|es| - 1], es[|es| - 1]);
    if i == |es| - 1 {
      TouchedLast(Kept(v, before), last, k);
    } else {
      KeptTouches(v, before, i, k);
      var j :| 0 <= j < |Kept(v, before)| && Touches(Kept(v, before)[j], k);
      assert Kept(v, es)[j] == Kept(v, before)[j];
    }
  }

  lemma TouchedLast(es: seq<Event>, e: Event, k: Key)
    requires Touches(e, k)
    ensures Touched(es + [e], k)
  {
    assert (es + [e])[|es|] == e;
  }

  /** An event that is not true of what the consumer sees comes behind one of its object that is. */
  lemma FalseComesLater(m: Groups, ks: set<Key>, es: seq<Event>, n: nat)
    requires AllCome(m, ks, es) && Droppable(m, ks) && n < |es|
    requires !Honest(Seen(m, ks, es), es[n])
    ensures es[n].Arrival? && es[n].fragment.key in ks && es[n].fragment.data == [] && es[n].fragment.offset == 0
    ensures Touched(Kept(Seen(m, ks, es), es[..n]), es[n].fragment.key)
  {
    hide Honest, SameExcept;
    var v := Seen(m, ks, es);
    SeenObject(m, ks, es);
    if !(es[n].Arrival? && es[n].fragment.key in ks) {
      OthersAreHonest(m, v, ks, es[n]);
    } else {
      var k := es[n].fragment.key;
      DroppedIsHonestIff(m, v, ks, k);
      var i := FirstTouch(es, n, k);
      assert Comes(m, ks, es[i]) && Comes(m, ks, es[n]);
      if PlaceholderFirst(es, k) {
        OnlyFirst(es, i, k);
      } else {
        assert es[i] != Arrival(PlaceholderOf(k));
      }
      assert Honest(v, es[i]) && i < n;
      KeptTouches(v, es[..n], i, k);
    }
  }

  lemma FirstTouch(es: seq<Event>, n: nat, k: Key) returns (i: nat)
    requires n < |es| && Touches(es[n], k)
    ensures i <= n && FirstAt(es, i, k)
  {
    i := 0;
    while !Touches(es[i], k)
      invariant i <= n && forall j :: 0 <= j < i ==> !Touches(es[j], k)
      decreases n - i
    {
      i := i + 1;
    }
  }

  lemma OnlyFirst(es: seq<Event>, i: nat, k: Key)
    requires FirstAt(es, i, k) && PlaceholderFirst(es, k)
    ensures es[i] == Arrival(PlaceholderOf(k))
  {
    var j: nat :| FirstAt(es, j, k) && es[j] == Arrival(PlaceholderOf(k));
    assert i == j;
  }

  // ----- What is not true changes nothing -----

  /** An entry of a dropped object as the consumer sees it. */
  ghost predicate Decided(o: ObjectState) {
    if o.length == 0 then o.isLast && o.reassembled.Some? else true
  }

  lemma NoBytes(bytes: map<nat, Byte>)
    ensures Merge(bytes, 0, []) == bytes
  {
    assert RangeBytes(0, []) + bytes == bytes;
  }

  /** Whatever else comes of an object that is in the tree, without data and under another length, is
      ignored or refused. */
  lemma Unmoved(s: Reassembly.State, f: Fragment)
    requires f.key.id != 0 && f.data == [] && f.offset == 0
    requires Before(f.key, s.next) || (f.key in s.objects && Decided(s.objects[f.key]) &&
                                       (s.objects[f.key].length > 0 ==> f.objectLength != s.objects[f.key].length))
    ensures Reassembly.Input(s, f).0 == s && Reassembly.Input(s, f).1 == []
  {
    hide RangeBytes;
    if !Before(f.key, s.next) {
      var o := s.objects[f.key];
      assert Noted(o, f) == o;
      assert Reassembly.Put(s, f.key, o) == s;
      NoBytes(o.bytes);
    }
  }

  /** Behind a true event of its object, a false one finds the entry decided. */
  lemma FalseIsUnmoved(m: Groups, ks: set<Key>, es: seq<Event>, v: Groups, kept: seq<Event>, f: Fragment)
    requires WellFormed(m) && Droppable(m, ks) && v == Seen(m, ks, es) && AllHonest(v, kept) && NoStart(kept, 0)
    requires f.key in ks && (f == PlaceholderOf(f.key) || f == Hollow(m, f.key)) && !Honest(v, Arrival(f))
    requires Touched(kept, f.key)
    ensures Reassembly.Input(Reassembly.Run(kept).0, f).0 == Reassembly.Run(kept).0
    ensures Reassembly.Input(Reassembly.Run(kept).0, f).1 == []
  {
    hide Reassembly.Run, Reassembly.Input, Honest, Arrived, Cursor, PlaceholderFirst, SameExcept;
    var (k, s) := (f.key, Reassembly.Run(kept).0);
    SeenObject(m, ks, es);
    DroppedIsHonestIff(m, v, ks, k);
    SeenShape(m, v, ks);
    Reassembly.RunRefinesReference(v, kept);
    if !Before(k, s.next) {
      AtCursor(v, s.next, k);
      EntryIsDecided(v, kept, s, k);
    }
    Unmoved(s, f);
  }

  lemma SeenShape(m: Groups, v: Groups, ks: set<Key>)
    requires SameExcept(m, v, ks)
    ensures SameShape(m, v) && (WellFormed(m) <==> WellFormed(v)) && EndOf(m) == EndOf(v)
  {
    ShapeBasics(m, v);
  }

  lemma EntryIsDecided(v: Groups, kept: seq<Event>, s: Reassembly.State, k: Key)
    requires Reassembly.Faithful(v, kept, s) && AllHonest(v, kept) && InMedia(v, k) && Touched(kept, k) && Rank(v, s.next) <= Rank(v, k)
    ensures k in s.objects && s.objects[k].length == |ObjectAt(v, k).data| && Decided(s.objects[k])
  {
    hide Honest, Covered;
    assert Reassembly.Matches(v, kept, k, s.objects[k]);
    if ObjectAt(v, k).data == [] {
      assert Covered(kept, k) == Span(0, 0);
    }
  }

  // ----- Runs -----

  lemma {:induction false} KeptHasNoStart(v: Groups, es: seq<Event>)
    requires NoStart(es, 0)
    ensures NoStart(Kept(v, es), 0)
  {
    hide Honest;
    if es != [] {
      assert forall i :: 0 <= i < |es| - 1 ==> es[..|es| - 1][i] == es[i];
      KeptHasNoStart(v, es[..|es| - 1]);
    }
  }

  lemma ComeIsNoStart(m: Groups, ks: set<Key>, es: seq<Event>)
    requires AllCome(m, ks, es)
    ensures NoStart(es, 0)
  {
    forall i | 0 <= i < |es| ensures !es[i].Start? {
      assert Comes(m, ks, es[i]);
    }
  }

  lemma RunUnfold(es: seq<Event>, e: Event)
    ensures Reassembly.Run(es + [e]) ==
            (Reassembly.Step(Reassembly.Run(es).0, e).0, Reassembly.Run(es).1 + Reassembly.Step(Reassembly.Run(es).0, e).1)
  {
    hide Reassembly.Step;
    assert (es + [e])[..|es|] == es;
  }

  /** The machine does on all events what it does on those that are true of what the consumer sees. */
  lemma {:induction false} RunsAlike(m: Groups, ks: set<Key>, es: seq<Event>, n: nat)
    requires WellFormed(m) && Droppable(m, ks) && AllCome(m, ks, es) && n <= |es|
    ensures Reassembly.Run(es[..n]) == Reassembly.Run(Kept(Seen(m, ks, es), es[..n]))
  {
    hide Reassembly.Run, Reassembly.Step, Honest, Seen, Comes, Droppable;
    var v := Seen(m, ks, es);
    if n > 0 {
      var (before, e) := (es[..n - 1], es[n - 1]);
      RunsAlike(m, ks, es, n - 1);
      assert es[..n] == before + [e];
      RunUnfold(before, e);
      KeptUnfold(v, before, e);
      var kept := Kept(v, before);
      if Honest(v, e) {
        RunUnfold(kept, e);
      } else {
        FalseComesLater(m, ks, es, n - 1);
        ComeIsNoStart(m, ks, es);
        KeptHasNoStart(v, before);
        assert Comes(m, ks, es[n - 1]);
        ComesOf(m, ks, e);
        FalseIsUnmoved(m, ks, es, v, kept, e.fragment);
        StepIsInput(Reassembly.Run(kept).0, e);
        assert Reassembly.Run(kept).1 + [] == Reassembly.Run(kept).1 && kept + [] == kept;
      }
    } else {
      assert es[..0] == [];
    }
  }

  lemma ComesOf(m: Groups, ks: set<Key>, e: Event)
    requires Comes(m, ks, e) && e.Arrival? && e.fragment.key in ks
    ensures InMedia(m, e.fragment.key) && (e.fragment == PlaceholderOf(e.fragment.key) || e.fragment == Hollow(m, e.fragment.key))
  {
  }

  lemma StepIsInput(s: Reassembly.State, e: Event)
    requires e.Arrival?
    ensures Reassembly.Step(s, e) == Reassembly.Input(s, e.fragment)
  {
  }

  lemma KeptUnfold(v: Groups, es: seq<Event>, e: Event)
    ensures Kept(v, es + [e]) == Kept(v, es) + if Honest(v, e) then [e] else []
  {
    hide Honest;
    assert (es + [e])[..|es|] == es;
  }

  // ----- What the consumer gets -----

  lemma {:induction false} NothingCovered(m: Groups, ks: set<Key>, es: seq<Event>, k: Key)
    requires AllCome(m, ks, es) && k in ks
    ensures Covered(es, k) == {}
  {
    if es != [] {
      var (before, e) := (es[..|es| - 1], es[|es| - 1]);
      assert forall i :: 0 <= i < |before| ==> before[i] == es[i];
      NothingCovered(m, ks, before, k);
      assert Comes(m, ks, e);
    }
  }

  lemma {:induction false} KeptComes(m: Groups, ks: set<Key>, v: Groups, es: seq<Event>)
    requires AllCome(m, ks, es)
    ensures AllCome(m, ks, Kept(v, es))
  {
    hide Honest, Comes;
    if es != [] {
      assert forall i :: 0 <= i < |es| - 1 ==> es[..|es| - 1][i] == es[i];
      KeptComes(m, ks, v, es[..|es| - 1]);
    }
  }

  /** A dropped object arrives, for the consumer, if and only if its placeholder comes first. */
  lemma DroppedArrivesIff(m: Groups, ks: set<Key>, es: seq<Event>, k: Key)
    requires WellFormed(m) && Droppable(m, ks) && AllCome(m, ks, es) && k in ks
    ensures var v := Seen(m, ks, es); InMedia(v, k) && (Arrived(v, Kept(v, es), k) <==> PlaceholderFirst(es, k))
  {
    hide Honest, Comes, SameExcept, Touched, Covered;
    var v := Seen(m, ks, es);
    SeenObject(m, ks, es);
    DroppedIsHonestIff(m, v, ks, k);
    KeptComes(m, ks, v, es);
    NothingCovered(m, ks, Kept(v, es), k);
    if PlaceholderFirst(es, k) {
      var i: nat :| FirstAt(es, i, k) && es[i] == Arrival(PlaceholderOf(k));
      KeptTouches(v, es, i, k);
    } else {
      assert |ObjectAt(v, k).data| > 0 && 0 in Span(0, |ObjectAt(v, k).data|);
    }
  }

  /** Whatever comes of the dropped objects, in whatever order: the consumer is handed, in order, a
      front part of the media as it sees it, and out of order exactly the objects of it that
      arrived; a dropped object is among them, empty, if and only if its placeholder came before any
      repeat of it; and if it did not, delivery in order never gets past it. */
  lemma DroppedDelivery(m: Groups, ks: set<Key>, es: seq<Event>)
    requires WellFormed(m) && Droppable(m, ks) && AllCome(m, ks, es)
    ensures var (v, calls) := (Seen(m, ks, es), Reassembly.Run(es).1);
            var kept := Kept(v, es);
            && WellFormed(v) && NoStart(kept, 0)
            && Delivery.InOrder(calls) == Items(v)[..Cursor(v, kept)]
            && Delivery.ExactlyTheArrived(v, kept, Delivery.OutOfOrder(calls))
            && (forall k :: InMedia(v, k) && Arrived(v, kept, k) ==> Delivery.Holds(Delivery.OutOfOrder(calls), k))
            && forall k :: k in ks ==>
                 && InMedia(m, k) && (Delivery.Holds(Delivery.OutOfOrder(calls), k) <==> PlaceholderFirst(es, k))
                 && (!PlaceholderFirst(es, k) ==> Cursor(v, kept) <= Rank(m, k))
  {
    hide Reassembly.Run, Honest, Comes, Seen, Kept, SameExcept, Arrived, Cursor, Items, Delivery.InOrder, Delivery.OutOfOrder,
      PlaceholderFirst, Rank, WellFormed;
    var v := Seen(m, ks, es);
    SeenObject(m, ks, es);
    SeenShape(m, v, ks);
    RunsAlike(m, ks, es, |es|);
    assert es[..|es|] == es;
    var kept := Kept(v, es);
    ComeIsNoStart(m, ks, es);
    KeptHasNoStart(v, es);
    Delivery.PrefixOfTheMedia(v, kept);
    Delivery.OutOfOrderExactlyOnce(v, kept);
    Arrivals.CursorIsLeastMissing(v, kept);
    forall k | k in ks
      ensures InMedia(m, k) && (Delivery.Holds(Delivery.OutOfOrder(Reassembly.Run(es).1), k) <==> PlaceholderFirst(es, k))
      ensures !PlaceholderFirst(es, k) ==> Cursor(v, kept) <= Rank(m, k)
    {
      DroppedArrivesIff(m, ks, es, k);
      HeldIsArrived(v, kept, Delivery.OutOfOrder(Reassembly.Run(es).1), k);
      ShapeRanks(m, v, k);
    }
  }

  lemma HeldIsArrived(v: Groups, kept: seq<Event>, out: seq<Item>, k: Key)
    requires Delivery.ExactlyTheArrived(v, kept, out) && InMedia(v, k)
    ensures Delivery.Holds(out, k) ==> Arrived(v, kept, k)
  {
    hide Arrived;
  }

  // ----- The smallest case, for any object -----

  /** A repeat that comes first makes an entry that waits for bytes which will not come: neither
      another repeat nor the placeholder itself changes anything, and the latter is refused. */
  lemma HollowIsStuck(s: Reassembly.State, k: Key, length: nat)
    requires k.id != 0 && length > 0 && !Before(k, s.next) && k !in s.objects
    ensures var (t, calls, ok) := Reassembly.Input(s, HollowOf(k, length));
            && t == Reassembly.Put(s, k, ObjectState(length, 255, 0, false, map[], None)) && calls == [] && ok
            && Reassembly.Input(t, HollowOf(k, length)) == (t, [], true)
            && Reassembly.Input(t, PlaceholderOf(k)) == (t, [], false)
  {
    var f := HollowOf(k, length);
    var o := ObjectState(length, 255, 0, false, map[], None);
    var t := Reassembly.Put(s, k, o);
    assert RangeBytes(0, []) + map[] == map[];
    assert Reassembly.Put(t, k, o) == t;
  }

  /** In a cache such an entry is found by the cursor and not passed, and what else comes of the
      object changes nothing. */
  lemma CacheIsStuck(c: FragmentCache.Cache, k: Key, length: nat)
    requires length > 0 && !Before(k, c.first) && c.next == k && c.nextOffset == 0
    requires forall i :: 0 <= i < |c.tree| ==> Before(c.tree[i].key, k)
    ensures var d := FragmentCache.Propose(c, HollowOf(k, length));
            && d.tree == c.tree + [HollowOf(k, length)] && d.next == k && d.nextOffset == 0 && d.received == c.received
            && FragmentCache.Propose(d, HollowOf(k, length)) == d
            && FragmentCache.Propose(d, PlaceholderOf(k)) == d
  {
    var f := HollowOf(k, length);
    var tree := c.tree + [f];
    assert FragmentCache.Position(c.tree, k, 0) == |c.tree| == FragmentCache.UpToObject(c.tree, k);
    assert FragmentCache.Inserted(c.tree, f) == tree;
    FragmentCache.ProgressUnfold(tree, |c.tree|, k, 0);
    FragmentCache.ProgressUnfold(tree, |tree|, k, 0);
    assert FragmentCache.UpToObject(tree, k) == |tree|;
  }
}
