/** A datagram reader on a cache.  The cache appends what it takes in to its order of arrival and
    changes nothing before that; so the reader sees the runs that the theorems about datagrams are
    about, over whatever fragments come in and are proposed, cut or repeated. */
module CachedReader {
  import opened Media
  import opened Arrivals
  import opened FragmentCache
  import CacheCursor
  import DatagramRuns
  import D = DatagramDelivery

  // ----- The order of arrival only grows -----

  lemma AppendsMore<T>(a: seq<T>, b: seq<T>, c: seq<T>)
    requires a <= b <= c
    ensures c[|a|..] == b[|a|..] + c[|b|..]
  {
  }

  /** What an addition appends is what it puts into the tree. */
  lemma AddAppends(c: Cache, f: Fragment)
    ensures c.arrivals <= Add(c, f).arrivals && Add(c, f).arrivals[|c.arrivals|..] == [f]
    ensures multiset(Add(c, f).tree) == multiset(c.tree) + multiset{f}
  {
    hide Progress, Inserted, Position;
    CacheCursor.MultisetInserted(c.tree, f);
  }

  /** The cache d has taken in what c had, and more behind it. */
  ghost predicate Appends(c: Cache, d: Cache) {
    && c.arrivals <= d.arrivals
    && multiset(d.tree) == multiset(c.tree) + multiset(d.arrivals[|c.arrivals|..])
  }

  lemma AppendsTwice(c: Cache, d: Cache, e: Cache)
    requires Appends(c, d) && Appends(d, e)
    ensures Appends(c, e)
  {
    AppendsMore(c.arrivals, d.arrivals, e.arrivals);
  }

  lemma AppendsNothing(c: Cache, d: Cache)
    requires d.arrivals == c.arrivals && d.tree == c.tree
    ensures Appends(c, d)
  {
    assert d.arrivals[|c.arrivals|..] == [];
  }

  lemma AddBeyondAppends(c: Cache, f: Fragment, entry: Fragment)
    requires f.offset <= entry.End()
    ensures Appends(c, AddBeyond(c, f, entry))
  {
    hide Add;
    AppendsNothing(c, c);
    AddAppends(c, Front(f, Beyond(f, entry)));
  }

  lemma {:induction false} PlaceAppends(c: Cache, f: Fragment, j: nat)
    requires j <= |c.tree|
    ensures Appends(c, Place(c, f, j).0)
    decreases |f.data|, j
  {
    hide Place, Add, AddBeyond, Appends;
    PlaceUnfold(c, f, j);
    if Stops(c.tree, f, j) {
      OneAppends(c, f);
    } else {
      var (entry, c1) := (c.tree[j - 1], AddBeyond(c, f, c.tree[j - 1]));
      AddBeyondAppends(c, f, entry);
      if Rest(f, entry).data != [] {
        PlaceAppends(c1, Rest(f, entry), Shifted(c, f, entry, j) - 1);
        AppendsTwice(c, c1, Place(c1, Rest(f, entry), Shifted(c, f, entry, j) - 1).0);
      }
    }
  }

  lemma OneAppends(c: Cache, f: Fragment)
    ensures Appends(c, Add(c, f))
  {
    hide Add;
    AddAppends(c, f);
  }

  /** Whatever is proposed, the order of arrival stays as it was, and what comes behind it is what
      entered the tree. */
  lemma ProposeAppends(c: Cache, f: Fragment)
    ensures Appends(c, Propose(c, f))
  {
    hide Place, Appends, IsWhole;
    AppendsNothing(c, c);
    if !Before(f.key, c.first) {
      PlaceAppends(c, f, UpToObject(c.tree, f.key));
      var d := Place(c, f, UpToObject(c.tree, f.key)).0;
      AppendsNothing(d, d.(received := d.received + 1));
      AppendsTwice(c, d, d.(received := d.received + 1));
    }
  }

  /** A front part of a fragment, under its label but for the size of the previous group. */
  predicate IsPiece(g: Fragment, f: Fragment, previousSize: nat) {
    |g.data| <= |f.data| && g == f.(data := f.data[..|g.data|], previousSize := previousSize)
  }

  /** Front parts of it, of which the first alone repeats the size of the previous group. */
  ghost predicate AllPieces(gs: seq<Fragment>, f: Fragment) {
    forall i :: 0 <= i < |gs| ==> IsPiece(gs[i], f, if i == 0 then f.previousSize else 0)
  }

  lemma BeyondGains(c: Cache, f: Fragment, entry: Fragment)
    requires f.offset <= entry.End()
    ensures var c1 := AddBeyond(c, f, entry);
            && c.arrivals <= c1.arrivals
            && c1.arrivals[|c.arrivals|..] == if Beyond(f, entry) > 0 then [Front(f, Beyond(f, entry))] else []
  {
    hide Add;
    AddAppends(c, Front(f, Beyond(f, entry)));
  }

  lemma PiecesOfRest(f: Fragment, entry: Fragment, gs: seq<Fragment>)
    requires f.offset <= entry.End() && AllPieces(gs, Rest(f, entry))
    ensures AllPieces((if Beyond(f, entry) > 0 then [Front(f, Beyond(f, entry))] else []) + gs, f)
  {
    var r := Rest(f, entry);
    assert r.data == f.data[..|r.data|];
    forall i | 0 <= i < |gs| ensures IsPiece(gs[i], f, if Beyond(f, entry) > 0 || i > 0 then 0 else f.previousSize) {
      assert IsPiece(gs[i], r, if i == 0 then r.previousSize else 0);
    }
  }

  lemma {:induction false} PlaceGains(c: Cache, f: Fragment, j: nat)
    requires j <= |c.tree|
    ensures var d := Place(c, f, j).0; c.arrivals <= d.arrivals && AllPieces(d.arrivals[|c.arrivals|..], f)
    decreases |f.data|, j
  {
    hide Place, Add, AddBeyond, AllPieces;
    PlaceUnfold(c, f, j);
    if Stops(c.tree, f, j) {
      AddAppends(c, f);
      OneWhole(f);
    } else {
      var (entry, c1) := (c.tree[j - 1], AddBeyond(c, f, c.tree[j - 1]));
      BeyondGains(c, f, entry);
      var rest := Rest(f, entry);
      if rest.data == [] {
        NoPieces(rest);
        PiecesOfRest(f, entry, []);
        assert c1.arrivals[|c.arrivals|..] + [] == c1.arrivals[|c.arrivals|..];
      } else {
        var d := Place(c1, rest, Shifted(c, f, entry, j) - 1).0;
        PlaceGains(c1, rest, Shifted(c, f, entry, j) - 1);
        AppendsMore(c.arrivals, c1.arrivals, d.arrivals);
        PiecesOfRest(f, entry, d.arrivals[|c1.arrivals|..]);
      }
    }
  }

  lemma OneWhole(f: Fragment)
    ensures AllPieces([f], f)
  {
    assert f.data[..|f.data|] == f.data;
  }

  lemma NoPieces(f: Fragment)
    ensures AllPieces([], f)
  {
  }

  /** Whatever is proposed, and whatever the cache holds: what enters are front parts of the proposal, at
      its place and under its label, and the first of them alone says how large the previous group is. */
  lemma ProposalEntersInPieces(c: Cache, f: Fragment)
    ensures var d := Propose(c, f); c.arrivals <= d.arrivals && AllPieces(d.arrivals[|c.arrivals|..], f)
  {
    hide Place, AllPieces, IsWhole;
    assert c.arrivals[|c.arrivals|..] == [];
    NoPieces(f);
    if !Before(f.key, c.first) {
      PlaceGains(c, f, UpToObject(c.tree, f.key));
    }
  }

  /** Every event but a start point leaves the order of arrival as it was, and appends to it. */
  lemma EventAppends(es: seq<Event>, e: Event)
    requires e.Start? ==> es == []
    ensures Appends(CacheCursor.Run(es), CacheCursor.Run(es + [e]))
  {
    assert (es + [e])[..|es|] == es;
    var c := CacheCursor.Run(es);
    match e {
      case Arrival(f) => ProposeAppends(c, f);
      case Start(k) => AppendsNothing(c, CacheCursor.Run(es + [e]));
      case Final(k) => AppendsNothing(c, CacheCursor.Run(es + [e]));
    }
  }

  /** A fragment that is welcome enters as its missing front part, or not at all. */
  lemma ArrivalGains(m: Groups, es: seq<Event>, f: Fragment)
    requires WellFormed(m) && CacheCursor.Feed(m, es + [Arrival(f)])
    ensures var gained := Gained(CacheCursor.Run(es).arrivals, CacheCursor.Run(es + [Arrival(f)]).arrivals);
            gained == [] || exists n: nat :: n <= |f.data| && gained == [Front(f, n)]
  {
    var c := CacheCursor.Run(es);
    CacheCursor.FeedUnfold(m, es, Arrival(f));
    CacheCursor.RunKeepsInvariant(m, es);
    assert (es + [Arrival(f)])[..|es|] == es;
    assert CacheCursor.Run(es + [Arrival(f)]) == Propose(c, f);
    hide CacheCursor.Run, CacheCursor.Exact, Place, Tidy, Progress, Inserted, CacheCursor.HasCovered, CacheCursor.HasTouched;
    if !Before(f.key, c.first) {
      CacheCursor.WelcomeIsCompatible(m, es, c, f);
      ProposalWanted(c, f);
      WantedGains(c, f);
    }
  }

  lemma WantedGains(c: Cache, f: Fragment)
    ensures var gained := Gained(c.arrivals, Wanted(c, f).0.arrivals);
            gained == [] || exists n: nat :: n <= |f.data| && gained == [Front(f, n)]
  {
    hide Progress, Inserted, Has;
    assert Front(f, |f.data|) == f;
    if f.data != [] {
      var n := Missing(c.tree, f.key, f.offset, |f.data|);
      assert Front(f, n) == f.(data := f.data[..n]);
    }
  }

  // ----- Where the cursor goes -----

  /** The first object of the group is there, and documents that the group before it has n objects or more,
      at least one. */
  ghost predicate IsOpened(tree: seq<Fragment>, group: nat, n: nat) {
    exists f :: f in tree && f.key == Key(group, 0) && f.offset == 0 && f.previousSize > 0 && f.previousSize >= n
  }

  /** How many objects the group before that one must have for a cursor to come from there. */
  function Least(before: Key, group: nat): nat {
    if group == before.group + 1 then before.id else 0
  }

  /** Every group between the two cursors was left over the first object of the next one. */
  ghost predicate Crosses(tree: seq<Fragment>, before: Key, now: Key) {
    && before.group <= now.group
    && forall g: nat :: before.group < g <= now.group ==> IsOpened(tree, g, Least(before, g))
  }

  lemma OpenedMore(tree: seq<Fragment>, more: seq<Fragment>, group: nat, n: nat, fewer: nat)
    requires IsOpened(tree, group, n) && fewer <= n && forall f :: f in tree ==> f in more
    ensures IsOpened(more, group, fewer)
  {
    var f :| f in tree && f.key == Key(group, 0) && f.offset == 0 && f.previousSize > 0 && f.previousSize >= n;
    assert f in more;
  }

  lemma CrossesMore(tree: seq<Fragment>, more: seq<Fragment>, a: Key, b: Key, c: Key)
    requires Crosses(tree, a, b) && Crosses(more, b, c) && forall f :: f in tree ==> f in more
    requires b.group == a.group ==> b.id >= a.id
    ensures Crosses(more, a, c)
  {
    hide IsOpened;
    forall g: nat | a.group < g <= c.group ensures IsOpened(more, g, Least(a, g)) {
      if g <= b.group {
        OpenedMore(tree, more, g, Least(a, g), Least(a, g));
      } else {
        OpenedMore(more, more, g, Least(b, g), Least(a, g));
      }
    }
  }

  predicate NoEarlier(a: Key, b: Key) {
    !Before(b, a)
  }

  lemma {:induction false} ProgressCrosses(tree: seq<Fragment>, i: nat, next: Key, offset: nat)
    requires i <= |tree|
    ensures var k := Progress(tree, i, next, offset).0; Crosses(tree, next, k) && NoEarlier(next, k)
    decreases |tree| - i
  {
    hide Progress, Crosses;
    ProgressUnfold(tree, i, next, offset);
    if i < |tree| && (IsExpected(next, offset, tree[i]) || IsNextGroup(next, offset, tree[i])) {
      var (k, o) := StepOver(tree[i].key, offset, tree[i]);
      StepCrosses(tree, i, next, offset);
      ProgressCrosses(tree, i + 1, k, o);
      CrossesMore(tree, tree, next, k, Progress(tree, i + 1, k, o).0);
    } else {
      StaysCrosses(tree, next);
    }
  }

  lemma StaysCrosses(tree: seq<Fragment>, next: Key)
    ensures Crosses(tree, next, next)
  {
  }

  lemma StepCrosses(tree: seq<Fragment>, i: nat, next: Key, offset: nat)
    requires i < |tree| && (IsExpected(next, offset, tree[i]) || IsNextGroup(next, offset, tree[i]))
    ensures var k := StepOver(tree[i].key, offset, tree[i]).0; Crosses(tree, next, k) && NoEarlier(next, k)
  {
    var f := tree[i];
    var k := StepOver(f.key, offset, f).0;
    if !IsExpected(next, offset, f) {
      assert f in tree && f.key == Key(next.group + 1, 0) && f.offset == 0 && f.previousSize > 0 && f.previousSize >= next.id;
      assert IsOpened(tree, next.group + 1, next.id);
    }
  }

  lemma AddCrosses(c: Cache, f: Fragment)
    ensures var d := Add(c, f); Crosses(d.tree, c.next, d.next) && NoEarlier(c.next, d.next)
    ensures forall g :: g in c.tree ==> g in Add(c, f).tree
  {
    hide Progress, Crosses;
    var p := Position(c.tree, f.key, f.offset);
    ProgressCrosses(Inserted(c.tree, f), p, c.next, c.nextOffset);
    assert c.tree == c.tree[..p] + c.tree[p..];
  }

  lemma {:induction false} PlaceCrosses(c: Cache, f: Fragment, j: nat)
    requires j <= |c.tree|
    ensures var d := Place(c, f, j).0; Crosses(d.tree, c.next, d.next) && NoEarlier(c.next, d.next)
    ensures forall g :: g in c.tree ==> g in Place(c, f, j).0.tree
    decreases |f.data|, j
  {
    hide Place, Add, Crosses;
    PlaceUnfold(c, f, j);
    if Stops(c.tree, f, j) {
      AddCrosses(c, f);
    } else {
      var entry := c.tree[j - 1];
      var (c1, rest) := (AddBeyond(c, f, entry), Rest(f, entry));
      StaysCrosses(c.tree, c.next);
      AddCrosses(c, Front(f, Beyond(f, entry)));
      if rest.data != [] {
        var d := Place(c1, rest, Shifted(c, f, entry, j) - 1).0;
        PlaceCrosses(c1, rest, Shifted(c, f, entry, j) - 1);
        CrossesMore(c1.tree, d.tree, c.next, c1.next, d.next);
      }
    }
  }

  /** Whatever is proposed, and whatever the cache holds: the cursor does not go back, and it leaves a group
      only over the first object of the next one, which must document that the group is not empty, and
      not shorter than the cursor had come. */
  lemma GroupsAreLeftDocumented(c: Cache, f: Fragment)
    ensures var d := Propose(c, f);
            && !Before(d.next, c.next)
            && forall g: nat :: c.next.group < g <= d.next.group ==> IsOpened(d.tree, g, Least(c.next, g))
  {
    hide Place, IsWhole;
    StaysCrosses(c.tree, c.next);
    if !Before(f.key, c.first) {
      PlaceCrosses(c, f, UpToObject(c.tree, f.key));
    }
  }

  // ----- The ends of what is kept -----

  /** The last start point, or (0, 0). */
  function LastStart(es: seq<Event>): Key {
    if es == [] then Key(0, 0) else if es[|es| - 1].Start? then es[|es| - 1].key else LastStart(es[..|es| - 1])
  }

  /** The last final point, or (0, 0). */
  function LastFinal(es: seq<Event>): Key {
    if es == [] then Key(0, 0) else if es[|es| - 1].Final? then es[|es| - 1].key else LastFinal(es[..|es| - 1])
  }

  lemma {:induction false} PlaceKeepsEnds(c: Cache, f: Fragment, j: nat)
    requires j <= |c.tree|
    ensures Place(c, f, j).0.first == c.first && Place(c, f, j).0.final == c.final
    decreases |f.data|, j
  {
    hide Place, Position, Inserted, Progress;
    PlaceUnfold(c, f, j);
    if !Stops(c.tree, f, j) && Rest(f, c.tree[j - 1]).data != [] {
      var entry := c.tree[j - 1];
      PlaceKeepsEnds(AddBeyond(c, f, entry), Rest(f, entry), Shifted(c, f, entry, j) - 1);
    }
  }

  /** Whatever the events are, the cache begins at the last start point and ends at the last final one
      that it learned, and a fragment of an object before its beginning changes nothing. */
  lemma {:induction false} EndsAreTheLast(es: seq<Event>, f: Fragment)
    ensures CacheCursor.Run(es).first == LastStart(es) && CacheCursor.Run(es).final == LastFinal(es)
    ensures Before(f.key, LastStart(es)) ==> CacheCursor.Run(es + [Arrival(f)]) == CacheCursor.Run(es)
  {
    assert (es + [Arrival(f)])[..|es|] == es;
    if es != [] {
      var (before, e) := (es[..|es| - 1], es[|es| - 1]);
      EndsAreTheLast(before, f);
      if e.Arrival? {
        hide Place, IsWhole;
        var c := CacheCursor.Run(before);
        PlaceKeepsEnds(c, e.fragment, UpToObject(c.tree, e.fragment.key));
      }
    }
  }

  // ----- Deleting what lies below a point -----

  /** What is not below k, in the same order. */
  function From(fs: seq<Fragment>, k: Key): seq<Fragment> {
    if fs == [] then [] else (if Before(fs[0].key, k) then [] else [fs[0]]) + From(fs[1..], k)
  }

  lemma {:induction false} FromAll(fs: seq<Fragment>, k: Key)
    requires forall f :: f in fs ==> !Before(f.key, k)
    ensures From(fs, k) == fs
  {
    if fs != [] {
      FromAll(fs[1..], k);
    }
  }

  lemma {:induction false} FromWithout(fs: seq<Fragment>, f: Fragment, k: Key)
    requires Before(f.key, k)
    ensures From(Without(fs, f), k) == From(fs, k)
  {
    if fs != [] && fs[0] != f {
      FromWithout(fs[1..], f, k);
      assert ([fs[0]] + Without(fs[1..], f))[1..] == Without(fs[1..], f);
    }
  }

  lemma {:induction false} WithoutTakesOne(fs: seq<Fragment>, f: Fragment)
    requires f in fs
    ensures multiset(Without(fs, f)) == multiset(fs) - multiset{f}
  {
    assert fs == [fs[0]] + fs[1..];
    if fs[0] != f {
      WithoutTakesOne(fs[1..], f);
    }
  }

  /** A start point, or a purge, deletes exactly what lies below it, from both indexes, and keeps the
      order of the rest. */
  lemma {:induction false} DropsExactly(tree: seq<Fragment>, arrivals: seq<Fragment>, k: Key)
    requires Tidy(tree) && multiset(arrivals) == multiset(tree)
    ensures DropBefore(tree, arrivals, k) == (From(tree, k), From(arrivals, k))
    decreases |tree|
  {
    hide Tidy, Without, From;
    if tree != [] && Before(tree[0].key, k) {
      var g := tree[0];
      TreeTail(tree);
      assert g in multiset(arrivals);
      WithoutTakesOne(arrivals, g);
      FromWithout(arrivals, g, k);
      FromUnfold(tree, k);
      DropsExactly(tree[1..], Without(arrivals, g), k);
    } else {
      NoneIsBelow(tree, arrivals, k);
      FromAll(tree, k);
      FromAll(arrivals, k);
    }
  }

  lemma FromUnfold(fs: seq<Fragment>, k: Key)
    requires fs != [] && Before(fs[0].key, k)
    ensures From(fs, k) == From(fs[1..], k)
  {
  }

  lemma TreeTail(tree: seq<Fragment>)
    requires Tidy(tree) && tree != []
    ensures Tidy(tree[1..]) && multiset(tree[1..]) == multiset(tree) - multiset{tree[0]}
  {
    assert tree == [tree[0]] + tree[1..];
  }

  lemma NoneIsBelow(tree: seq<Fragment>, arrivals: seq<Fragment>, k: Key)
    requires Tidy(tree) && multiset(arrivals) == multiset(tree) && (tree == [] || !Before(tree[0].key, k))
    ensures forall f :: f in tree || f in arrivals ==> !Before(f.key, k)
  {
    forall f | f in tree ensures !Before(f.key, k) {
      var i :| 0 <= i < |tree| && tree[i] == f;
      assert i > 0 ==> Before(tree[0].key, tree[i].key) || tree[0].key == tree[i].key;
    }
    forall f | f in arrivals ensures f in tree {
      assert f in multiset(arrivals);
    }
  }

  // ----- A reader on that cache -----

  /** Something reaches the cache, or the transport offers a datagram. */
  datatype Step = Receive(event: Event) | Offer(verdict: bool, room: int)

  /** What reached the cache. */
  function Events(steps: seq<Step>): seq<Event> {
    if steps == [] then []
    else
      var last := steps[|steps| - 1];
      Events(steps[..|steps| - 1]) + if last.Receive? then [last.event] else []
  }

  function Arrive(fs: seq<Fragment>): (r: seq<D.Step>)
    ensures |r| == |fs| && forall i :: 0 <= i < |r| ==> r[i] == D.Arrive(fs[i])
  {
    seq(|fs|, i requires 0 <= i < |fs| => D.Arrive(fs[i]))
  }

  /** What is new in the order of arrival. */
  function Gained(before: seq<Fragment>, now: seq<Fragment>): seq<Fragment> {
    if |before| <= |now| then now[|before|..] else []
  }

  /** The same run as the reader sees it. */
  function Seen(steps: seq<Step>): seq<D.Step> {
    if steps == [] then []
    else
      var (before, last) := (steps[..|steps| - 1], steps[|steps| - 1]);
      Seen(before) +
      match last
      case Receive(e) => Arrive(Gained(CacheCursor.Run(Events(before)).arrivals, CacheCursor.Run(Events(before) + [e]).arrivals))
      case Offer(verdict, room) => [D.Offer(verdict, room)]
  }

  lemma {:induction false} ArriveAll(start: Key, steps: seq<D.Step>, fs: seq<Fragment>)
    ensures D.Run(start, steps + Arrive(fs)) == D.World(D.Run(start, steps).arrivals + fs, D.Run(start, steps).reader)
  {
    hide D.Run, Arrive;
    ArriveSplits(steps, fs);
    if fs != [] {
      ArriveAll(start, steps, fs[..|fs| - 1]);
      ArriveOne(start, steps + Arrive(fs[..|fs| - 1]), fs[|fs| - 1]);
    }
    ArrivalsSplit(D.Run(start, steps).arrivals, fs);
  }

  lemma ArriveSplits(steps: seq<D.Step>, fs: seq<Fragment>)
    ensures fs == [] ==> steps + Arrive(fs) == steps
    ensures fs != [] ==> steps + Arrive(fs) == (steps + Arrive(fs[..|fs| - 1])) + [D.Arrive(fs[|fs| - 1])]
  {
    if fs != [] {
      assert Arrive(fs) == Arrive(fs[..|fs| - 1]) + [D.Arrive(fs[|fs| - 1])];
    }
  }

  lemma ArrivalsSplit(arrivals: seq<Fragment>, fs: seq<Fragment>)
    ensures fs == [] ==> arrivals + fs == arrivals
    ensures fs != [] ==> arrivals + fs == (arrivals + fs[..|fs| - 1]) + [fs[|fs| - 1]]
  {
  }

  lemma ArriveOne(start: Key, steps: seq<D.Step>, f: Fragment)
    ensures D.Run(start, steps + [D.Arrive(f)]) == D.World(D.Run(start, steps).arrivals + [f], D.Run(start, steps).reader)
  {
    hide D.Run;
    D.RunUnfold(start, steps, D.Arrive(f));
  }

  lemma FeedBefore(m: Groups, es: seq<Event>, e: Event)
    requires CacheCursor.Feed(m, es + [e])
    ensures CacheCursor.Feed(m, es) && (e.Start? ==> es == [])
  {
    hide CacheCursor.WellCut, IsSolidSlice;
    CacheCursor.FeedUnfold(m, es, e);
  }

  /** At every moment the reader's list of arrivals is the cache's. */
  lemma {:induction false} ReaderSeesTheCache(m: Groups, start: Key, steps: seq<Step>)
    requires CacheCursor.Feed(m, Events(steps))
    ensures D.Run(start, Seen(steps)).arrivals == CacheCursor.Run(Events(steps)).arrivals
  {
    if steps != [] {
      var (before, last) := (steps[..|steps| - 1], steps[|steps| - 1]);
      var es := Events(before);
      match last {
        case Receive(e) =>
          hide D.Run, CacheCursor.Run, CacheCursor.Feed;
          FeedBefore(m, es, e);
          ReaderSeesTheCache(m, start, before);
          EventAppends(es, e);
          ArriveAll(start, Seen(before), Gained(CacheCursor.Run(es).arrivals, CacheCursor.Run(es + [e]).arrivals));
        case Offer(verdict, room) =>
          hide D.Run, CacheCursor.Run, CacheCursor.Feed, D.After;
          assert es + [] == es;
          ReaderSeesTheCache(m, start, before);
          D.RunUnfold(start, Seen(before), D.Offer(verdict, room));
      }
    }
  }

  lemma HasAt(c: Cache, k: Key, p: nat) returns (i: nat)
    requires Has(c.tree, k, p) && multiset(c.arrivals) == multiset(c.tree)
    ensures i < |c.arrivals| && Covers(c.arrivals[i], k, p)
  {
    var x :| 0 <= x < |c.tree| && Covers(c.tree[x], k, p);
    assert c.tree[x] in multiset(c.tree);
    assert c.tree[x] in multiset(c.arrivals);
    i :| 0 <= i < |c.arrivals| && c.arrivals[i] == c.tree[x];
  }

  /** So every byte that came in, from the start point on, is in a fragment that the reader gets to;
      when it is done with it, the fragment was sent whole, in pieces, or its object replaced by one
      placeholder, if and only if the object does not come before the first one sent. */
  lemma WhatCameInIsSent(m: Groups, start: Key, steps: seq<Step>, k: Key, p: nat) returns (i: nat)
    requires WellFormed(m) && CacheCursor.Feed(m, Events(steps))
    requires p in Covered(Events(steps), k) && !Before(k, CacheCursor.StartOf(Events(steps)))
    ensures var w := D.Run(start, Seen(steps));
            && i < |w.arrivals| && Covers(w.arrivals[i], k, p)
            && (D.PassedBy(w.reader, i) ==>
                  |w.reader.log| <= |w.arrivals| && i < |w.reader.log| &&
                  (D.SentWhole(w, i) || (exists j: nat :: D.Replaced(w, i, j)) <==> !Before(k, D.FirstSent(w.arrivals, start))))
  {
    hide D.Run, CacheCursor.Run, CacheCursor.Feed, CacheCursor.Exact, CacheCursor.HasTouched, Tidy, Covered, D.SentWhole, D.Replaced, D.FirstSent;
    var es := Events(steps);
    ReaderSeesTheCache(m, start, steps);
    CacheCursor.RunKeepsInvariant(m, es);
    D.CachedArrivalsAreCut(m, es);
    i := HasAt(CacheCursor.Run(es), k, p);
    if D.PassedBy(D.Run(start, Seen(steps)).reader, i) {
      D.SentOnceOrReplaced(m, start, Seen(steps), i);
    }
  }
}
