/** The fragment cache as a state machine over its two indexes: the order of arrival, and the
    order of group, object and offset.  The tree of the original is a sorted sequence here,
    with a new entry placed after those that compare equal. */
module FragmentCache {
  import opened Media

  datatype Cache = Cache(
    arrivals: seq<Fragment>,
    tree: seq<Fragment>,
    first: Key,
    next: Key,
    nextOffset: nat,
    final: Key,
    received: nat)

  const EMPTY := Cache([], [], Key(0, 0), Key(0, 0), 0, Key(0, 0), 0)

  /** The comparison function of the tree. */
  predicate Precedes(k: Key, offset: nat, f: Fragment) {
    Before(k, f.key) || (k == f.key && offset < f.offset)
  }

  /** Where a new entry goes: after every entry that does not come strictly after it. */
  function Position(tree: seq<Fragment>, k: Key, offset: nat): (p: nat)
    ensures p <= |tree|
    ensures forall i :: p <= i < |tree| ==> Precedes(k, offset, tree[i])
    ensures p > 0 ==> !Precedes(k, offset, tree[p - 1])
  {
    if tree == [] then 0
    else if Precedes(k, offset, tree[|tree| - 1]) then Position(tree[..|tree| - 1], k, offset)
    else |tree|
  }

  function Inserted(tree: seq<Fragment>, f: Fragment): seq<Fragment> {
    var p := Position(tree, f.key, f.offset);
    tree[..p] + [f] + tree[p..]
  }

  /** How many entries come no later than the last possible fragment of object k. */
  function UpToObject(tree: seq<Fragment>, k: Key): (p: nat)
    ensures p <= |tree|
    ensures forall i :: p <= i < |tree| ==> Before(k, tree[i].key)
    ensures p > 0 ==> !Before(k, tree[p - 1].key)
  {
    if tree == [] then 0
    else if Before(k, tree[|tree| - 1].key) then UpToObject(tree[..|tree| - 1], k)
    else |tree|
  }

  // ----- Progress of the cursor -----

  predicate IsExpected(next: Key, offset: nat, f: Fragment) {
    f.key == next && f.offset == offset
  }

  /** The first fragment of the next group, when the current group is exactly exhausted. */
  predicate IsNextGroup(next: Key, offset: nat, f: Fragment) {
    && f.key == Key(next.group + 1, 0) && f.offset == 0
    && next.id > 0 && offset == 0 && next.id == f.previousSize
  }

  /** The cursor once it has stepped over a fragment that it expected. */
  function StepOver(k: Key, offset: nat, f: Fragment): (Key, nat) {
    if offset + |f.data| >= f.objectLength then (After(k), 0) else (k, offset + |f.data|)
  }

  /** quicrq_fragment_cache_progress: walk forward from entry i as long as it is expected. */
  function Progress(tree: seq<Fragment>, i: nat, next: Key, offset: nat): (Key, nat)
    requires i <= |tree|
    decreases |tree| - i
  {
    if i < |tree| && IsExpected(next, offset, tree[i]) then
      var (k, o) := StepOver(next, offset, tree[i]);
      Progress(tree, i + 1, k, o)
    else if i < |tree| && IsNextGroup(next, offset, tree[i]) then
      var (k, o) := StepOver(tree[i].key, 0, tree[i]);
      Progress(tree, i + 1, k, o)
    else (next, offset)
  }

  lemma ProgressUnfold(tree: seq<Fragment>, i: nat, k: Key, o: nat)
    requires i <= |tree|
    ensures i < |tree| && (IsExpected(k, o, tree[i]) || IsNextGroup(k, o, tree[i])) ==>
              var (k', o') := StepOver(tree[i].key, o, tree[i]);
              Progress(tree, i, k, o) == Progress(tree, i + 1, k', o')
    ensures i == |tree| || !(IsExpected(k, o, tree[i]) || IsNextGroup(k, o, tree[i])) ==>
              Progress(tree, i, k, o) == (k, o)
  {
  }

  /** quicrq_fragment_add_to_cache. */
  function Add(c: Cache, f: Fragment): Cache {
    var p, tree := Position(c.tree, f.key, f.offset), Inserted(c.tree, f);
    var (k, o) := Progress(tree, p, c.next, c.nextOffset);
    c.(arrivals := c.arrivals + [f], tree := tree, next := k, nextOffset := o)
  }

  // ----- Proposing a fragment -----

  function Front(f: Fragment, n: nat): Fragment
    requires n <= |f.data|
  {
    f.(data := f.data[..n])
  }

  /** Whether the entry under examination cannot concern the proposal. */
  predicate Stops(tree: seq<Fragment>, f: Fragment, j: nat)
    requires j <= |tree|
  {
    j == 0 || tree[j - 1].key != f.key || tree[j - 1].End() < f.offset
  }

  /** How many bytes of a proposal lie beyond an entry. */
  function Beyond(f: Fragment, entry: Fragment): (n: nat)
    requires f.offset <= entry.End()
    ensures n <= |f.data|
  {
    if f.End() > entry.End() then f.End() - entry.End() else 0
  }

  /** What remains of a proposal once an entry was examined: the bytes beyond it are done,
      those inside it are dropped, and the size of the previous group is not repeated. */
  function Rest(f: Fragment, entry: Fragment): (r: Fragment)
    requires f.offset <= entry.End()
    ensures r.key == f.key && r.offset == f.offset && |r.data| <= |f.data|
  {
    var n := Beyond(f, entry);
    var r := if n > 0 then Front(f, |f.data| - n).(previousSize := 0) else f;
    if f.offset >= entry.offset then Front(r, 0)
    else if entry.offset < r.End() then Front(r, entry.offset - f.offset)
    else r
  }

  /** The bytes beyond an entry are added, but taken from the front of the proposal. */
  function AddBeyond(c: Cache, f: Fragment, entry: Fragment): Cache
    requires f.offset <= entry.End()
  {
    if Beyond(f, entry) > 0 then Add(c, Front(f, Beyond(f, entry))) else c
  }

  /** Where the entry under examination is found after such an addition. */
  function Shifted(c: Cache, f: Fragment, entry: Fragment, j: nat): nat
    requires f.offset <= entry.End()
  {
    if Beyond(f, entry) > 0 && Position(c.tree, f.key, f.offset) < j then j + 1 else j
  }

  /** The backward loop of quicrq_fragment_propose_to_cache.  Entry j - 1 is the one under
      examination and f is what remains of the proposal. */
  function Place(c: Cache, f: Fragment, j: nat): (Cache, bool)
    requires j <= |c.tree|
    decreases |f.data|, j
  {
    if Stops(c.tree, f, j) then (Add(c, f), true)
    else
      var entry := c.tree[j - 1];
      var (c1, rest, j1) := (AddBeyond(c, f, entry), Rest(f, entry), Shifted(c, f, entry, j));
      if rest.data == [] then (c1, Beyond(f, entry) > 0)
      else
        var (c2, more) := Place(c1, rest, j1 - 1);
        (c2, Beyond(f, entry) > 0 || more)
  }

  /** Whether the entries before index j, from the last one back, join down to offset zero. */
  function JoinsDown(tree: seq<Fragment>, j: nat, k: Key, offset: nat): bool
    requires j <= |tree|
    decreases j
  {
    if offset == 0 then true
    else if j == 0 || tree[j - 1].key != k || tree[j - 1].End() < offset then false
    else JoinsDown(tree, j - 1, k, tree[j - 1].offset)
  }

  /** The test for a completely received object, made after something was added to it. */
  predicate IsWhole(tree: seq<Fragment>, k: Key) {
    var j := UpToObject(tree, k);
    j > 0 && tree[j - 1].End() >= tree[j - 1].objectLength && JoinsDown(tree, j - 1, k, tree[j - 1].offset)
  }

  /** quicrq_fragment_propose_to_cache. */
  function Propose(c: Cache, f: Fragment): Cache {
    if Before(f.key, c.first) then c
    else
      var (d, added) := Place(c, f, UpToObject(c.tree, f.key));
      if added && IsWhole(d.tree, f.key) then d.(received := d.received + 1) else d
  }

  // ----- What the entries cover -----

  /** Ordered, and disjoint inside each object. */
  ghost predicate Tidy(tree: seq<Fragment>) {
    forall i, j :: 0 <= i < j < |tree| ==>
      Before(tree[i].key, tree[j].key) ||
      (tree[i].key == tree[j].key && tree[i].offset < tree[j].offset && tree[i].End() <= tree[j].offset)
  }

  ghost predicate Covers(f: Fragment, k: Key, p: nat) {
    f.key == k && f.offset <= p < f.End()
  }

  /** Position p of object k is in the cache. */
  ghost predicate Has(tree: seq<Fragment>, k: Key, p: nat) {
    exists i :: 0 <= i < |tree| && Covers(tree[i], k, p)
  }

  /** What the cache assumes of the fragments of one object: they agree on its length, and
      none is empty unless the object is. */
  ghost predicate Compatible(tree: seq<Fragment>, f: Fragment) {
    && f.End() <= f.objectLength && (f.data != [] || f.objectLength == 0)
    && forall i :: 0 <= i < |tree| && tree[i].key == f.key ==>
         && tree[i].objectLength == f.objectLength
         && tree[i].End() <= tree[i].objectLength && (tree[i].data != [] || tree[i].objectLength == 0)
  }

  /** The condition on a proposal: no position of it that is missing from the cache lies
      behind one that is there. */
  ghost predicate MissingIsPrefix(tree: seq<Fragment>, f: Fragment) {
    forall p, q :: f.offset <= p < q < f.End() && Has(tree, f.key, p) ==> Has(tree, f.key, q)
  }

  /** How many positions from the front of the range are missing. */
  ghost function Missing(tree: seq<Fragment>, k: Key, offset: nat, length: nat): (n: nat)
    ensures n <= length
    ensures forall p :: offset <= p < offset + n ==> !Has(tree, k, p)
    ensures n < length ==> Has(tree, k, offset + n)
    decreases length
  {
    if length == 0 || Has(tree, k, offset) then 0 else 1 + Missing(tree, k, offset + 1, length - 1)
  }

  /** What a proposal should come to: its missing front part enters, and nothing else changes.
      An empty object enters once. */
  ghost function Wanted(c: Cache, f: Fragment): (Cache, bool) {
    if f.data == [] then
      if exists i :: 0 <= i < |c.tree| && c.tree[i].key == f.key then (c, false) else (Add(c, f), true)
    else
      var n := Missing(c.tree, f.key, f.offset, |f.data|);
      if n == 0 then (c, false) else (Add(c, f.(data := f.data[..n])), true)
  }

  // ----- Insertion keeps the index tidy -----

  lemma HasInsert(tree: seq<Fragment>, p: nat, f: Fragment, k: Key, x: nat)
    requires p <= |tree|
    ensures Has(tree[..p] + [f] + tree[p..], k, x) <==> Has(tree, k, x) || Covers(f, k, x)
  {
    var t := tree[..p] + [f] + tree[p..];
    if Has(tree, k, x) {
      var i :| 0 <= i < |tree| && Covers(tree[i], k, x);
      assert t[if i < p then i else i + 1] == tree[i];
    }
    if Covers(f, k, x) {
      assert t[p] == f;
    }
    if Has(t, k, x) && !Covers(f, k, x) {
      var i :| 0 <= i < |t| && Covers(t[i], k, x);
      assert t[i] == tree[if i < p then i else i - 1];
    }
  }

  /** f lies strictly between the entries of its object. */
  ghost predicate Apart(tree: seq<Fragment>, f: Fragment) {
    forall i :: 0 <= i < |tree| && tree[i].key == f.key ==>
      (tree[i].offset < f.offset && tree[i].End() <= f.offset) || (f.offset < tree[i].offset && f.End() <= tree[i].offset)
  }

  lemma KeyOrder(a: Key, b: Key)
    ensures Before(a, b) || a == b || Before(b, a)
  {
  }

  lemma PositionSplits(tree: seq<Fragment>, k: Key, offset: nat)
    requires Tidy(tree)
    ensures forall i :: 0 <= i < Position(tree, k, offset) ==> !Precedes(k, offset, tree[i])
  {
    var p := Position(tree, k, offset);
    forall i | 0 <= i < p ensures !Precedes(k, offset, tree[i]) {
      if i < p - 1 {
        KeyOrder(tree[p - 1].key, k);
      }
    }
  }

  lemma TidyInsert(tree: seq<Fragment>, f: Fragment)
    requires Tidy(tree) && Apart(tree, f)
    ensures Tidy(Inserted(tree, f))
  {
    var p, t := Position(tree, f.key, f.offset), Inserted(tree, f);
    PositionSplits(tree, f.key, f.offset);
    forall i, j | 0 <= i < j < |t|
      ensures Before(t[i].key, t[j].key) ||
              (t[i].key == t[j].key && t[i].offset < t[j].offset && t[i].End() <= t[j].offset)
    {
      if i == p {
        assert t[j] == tree[j - 1] && Precedes(f.key, f.offset, tree[j - 1]);
      } else if j == p {
        assert t[i] == tree[i] && !Precedes(f.key, f.offset, tree[i]);
        KeyOrder(f.key, tree[i].key);
      } else {
        var (i', j') := (if i < p then i else i - 1, if j < p then j else j - 1);
        assert t[i] == tree[i'] && t[j] == tree[j'];
      }
    }
  }

  lemma {:induction false} MissingIs(tree: seq<Fragment>, k: Key, offset: nat, length: nat, n: nat)
    requires n <= length && forall p :: offset <= p < offset + n ==> !Has(tree, k, p)
    requires n < length ==> Has(tree, k, offset + n)
    ensures Missing(tree, k, offset, length) == n
  {
  }

  // ----- The backward loop, when what is missing is a prefix -----

  /** Entries from index j on do not concern what remains of the proposal. */
  ghost predicate Behind(tree: seq<Fragment>, f: Fragment, j: nat)
    requires j <= |tree|
  {
    && (forall i :: j <= i < |tree| ==> !Before(tree[i].key, f.key) && (tree[i].key == f.key ==> f.End() <= tree[i].offset))
    && (j > 0 ==> !Before(f.key, tree[j - 1].key))
  }

  lemma BehindAtStart(tree: seq<Fragment>, f: Fragment)
    requires Tidy(tree)
    ensures Behind(tree, f, UpToObject(tree, f.key))
  {
  }

  lemma BehindDown(tree: seq<Fragment>, f: Fragment, j: nat, rest: Fragment)
    requires Tidy(tree) && 0 < j <= |tree| && Behind(tree, f, j) && tree[j - 1].key == f.key
    requires rest.key == f.key && rest.End() <= f.End() && rest.End() <= tree[j - 1].offset
    ensures Behind(tree, rest, j - 1)
  {
    if j - 1 > 0 {
      assert Before(tree[j - 2].key, tree[j - 1].key) || tree[j - 2].key == tree[j - 1].key;
    }
  }

  /** Nothing of the object lies at or above the proposal's front when the loop stops. */
  lemma NothingBelow(tree: seq<Fragment>, f: Fragment, j: nat)
    requires Tidy(tree) && j <= |tree| && Behind(tree, f, j)
    requires j == 0 || tree[j - 1].key != f.key || tree[j - 1].End() <= f.offset
    ensures forall i :: 0 <= i < j && tree[i].key == f.key ==> tree[i].End() <= f.offset && j > 0 && tree[j - 1].key == f.key
    ensures forall p :: f.offset <= p < f.End() ==> !Has(tree, f.key, p)
  {
    forall i | 0 <= i < j && tree[i].key == f.key ensures tree[i].End() <= f.offset && tree[j - 1].key == f.key {
      if i < j - 1 {
        KeyOrder(tree[j - 1].key, f.key);
      }
    }
  }

  lemma EntryHas(tree: seq<Fragment>, i: nat, p: nat)
    requires i < |tree| && tree[i].offset <= p < tree[i].End()
    ensures Has(tree, tree[i].key, p)
  {
    assert Covers(tree[i], tree[i].key, p);
  }

  /** A position past an entry and before the next one of its object is missing. */
  lemma GapAfter(tree: seq<Fragment>, f: Fragment, j: nat)
    requires Tidy(tree) && 0 < j <= |tree| && Behind(tree, f, j) && tree[j - 1].key == f.key
    ensures forall p :: tree[j - 1].End() <= p < f.End() ==> !Has(tree, f.key, p)
  {
  }

  // Place, case by case.

  lemma PlaceWhole(c: Cache, f: Fragment, j: nat)
    requires j <= |c.tree| && f.data != []
    requires Stops(c.tree, f, j) || c.tree[j - 1].End() == f.offset
    ensures Place(c, f, j) == (Add(c, f), true)
  {
    assert f.(data := f.data[..|f.data|]) == f;
  }

  lemma PlaceInside(c: Cache, f: Fragment, j: nat)
    requires j <= |c.tree| && !Stops(c.tree, f, j)
    requires c.tree[j - 1].offset <= f.offset && f.End() <= c.tree[j - 1].End()
    ensures Place(c, f, j) == (c, false)
  {
  }

  lemma PlaceGoesOn(c: Cache, f: Fragment, j: nat)
    requires j <= |c.tree| && !Stops(c.tree, f, j) && f.data != []
    requires f.offset < c.tree[j - 1].offset && f.End() <= c.tree[j - 1].End()
    ensures var rest := Rest(f, c.tree[j - 1]);
            && rest.data != [] && rest == Front(f, |rest.data|)
            && rest.End() == (if c.tree[j - 1].offset < f.End() then c.tree[j - 1].offset else f.End())
            && Place(c, f, j) == Place(c, rest, j - 1)
  {
  }

  lemma WantedWhole(c: Cache, f: Fragment)
    requires f.data != [] && forall p :: f.offset <= p < f.End() ==> !Has(c.tree, f.key, p)
    ensures Wanted(c, f) == (Add(c, f), true)
  {
    MissingIs(c.tree, f.key, f.offset, |f.data|, |f.data|);
    assert Front(f, |f.data|) == f;
  }

  lemma WantedFront(c: Cache, f: Fragment, n: nat)
    requires 0 < n <= |f.data| && (n < |f.data| ==> Has(c.tree, f.key, f.offset + n))
    ensures Wanted(c, f) == Wanted(c, Front(f, n))
  {
    var k := Missing(c.tree, f.key, f.offset, n);
    MissingIs(c.tree, f.key, f.offset, |f.data|, k);
    assert f.data[..n][..k] == f.data[..k];
  }

  /** Under the condition, an entry that ends inside the proposal ends at its front. */
  lemma EndsAtFront(tree: seq<Fragment>, f: Fragment, j: nat)
    requires Tidy(tree) && Compatible(tree, f) && f.data != [] && MissingIsPrefix(tree, f)
    requires 0 < j <= |tree| && Behind(tree, f, j) && tree[j - 1].key == f.key
    requires f.offset <= tree[j - 1].End() < f.End()
    ensures tree[j - 1].End() == f.offset
  {
    var entry := tree[j - 1];
    if entry.End() > f.offset {
      EntryHas(tree, j - 1, entry.End() - 1);
      assert Has(tree, f.key, entry.End());
      GapAfter(tree, f, j);
    }
  }

  /** Where the condition on proposals holds, the loop adds the missing front part and only
      that. */
  lemma {:induction false} PlaceIsWanted(c: Cache, f: Fragment, j: nat)
    requires Tidy(c.tree) && Compatible(c.tree, f) && f.data != [] && MissingIsPrefix(c.tree, f)
    requires j <= |c.tree| && Behind(c.tree, f, j)
    ensures Place(c, f, j) == Wanted(c, f)
    decreases |f.data|, j
  {
    hide Place, Wanted, Tidy, Behind, Add, Missing;
    if Stops(c.tree, f, j) {
      NothingBelow(c.tree, f, j);
      PlaceWhole(c, f, j);
      WantedWhole(c, f);
    } else {
      var entry := c.tree[j - 1];
      if f.End() > entry.End() {
        EndsAtFront(c.tree, f, j);
        NothingBelow(c.tree, f, j);
        PlaceWhole(c, f, j);
        WantedWhole(c, f);
      } else if f.offset >= entry.offset {
        PlaceInside(c, f, j);
        EntryHas(c.tree, j - 1, f.offset);
        WantedNothing(c, f);
      } else {
        var rest := Rest(f, entry);
        PlaceGoesOn(c, f, j);
        BehindDown(c.tree, f, j, rest);
        if entry.offset < f.End() {
          EntryHas(c.tree, j - 1, entry.offset);
        }
        PlaceIsWanted(c, rest, j - 1);
        WantedFront(c, f, |rest.data|);
      }
    }
  }

  lemma WantedNothing(c: Cache, f: Fragment)
    requires f.data != [] && Has(c.tree, f.key, f.offset)
    ensures Wanted(c, f) == (c, false)
  {
    MissingIs(c.tree, f.key, f.offset, |f.data|, 0);
  }

  /** An empty object enters once. */
  lemma PlaceEmpty(c: Cache, f: Fragment)
    requires Tidy(c.tree) && Compatible(c.tree, f) && f.data == []
    ensures Place(c, f, UpToObject(c.tree, f.key)) == Wanted(c, f)
  {
    var j := UpToObject(c.tree, f.key);
    if i :| 0 <= i < |c.tree| && c.tree[i].key == f.key {
      KeyOrder(c.tree[j - 1].key, f.key);
      EntryOfEmpty(c.tree, f, i, j);
      hide Add;
      assert !Stops(c.tree, f, j);
      assert Beyond(f, c.tree[j - 1]) == 0 && Rest(f, c.tree[j - 1]).data == [];
    } else {
      hide Add;
      assert Stops(c.tree, f, j);
    }
  }

  /** The last entry of an object that has one, and that is empty. */
  lemma EntryOfEmpty(tree: seq<Fragment>, f: Fragment, i: nat, j: nat)
    requires Tidy(tree) && Compatible(tree, f) && f.data == [] && i < |tree| && tree[i].key == f.key
    requires j == UpToObject(tree, f.key)
    ensures j > 0 && tree[j - 1].key == f.key && tree[j - 1].offset == 0 && tree[j - 1].data == [] && f.offset == 0
  {
    assert j > i;
    assert Before(tree[i].key, tree[j - 1].key) || tree[i].key == tree[j - 1].key;
    assert tree[j - 1].key == f.key;
  }

  /** Duplicates, contained fragments, appended and preceding pieces: wherever the condition
      holds, a proposal adds exactly its missing front part. */
  lemma ProposalWanted(c: Cache, f: Fragment)
    requires Tidy(c.tree) && Compatible(c.tree, f) && MissingIsPrefix(c.tree, f)
    ensures Place(c, f, UpToObject(c.tree, f.key)) == Wanted(c, f)
  {
    if f.data == [] {
      PlaceEmpty(c, f);
    } else {
      BehindAtStart(c.tree, f);
      PlaceIsWanted(c, f, UpToObject(c.tree, f.key));
    }
  }

  /** The piece that enters lies apart from every entry of its object. */
  lemma FrontApart(tree: seq<Fragment>, f: Fragment, n: nat)
    requires Compatible(tree, f) && n <= |f.data| && (n > 0 || (f.data == [] && forall i :: 0 <= i < |tree| ==> tree[i].key != f.key))
    requires forall p :: f.offset <= p < f.offset + n ==> !Has(tree, f.key, p)
    ensures Apart(tree, Front(f, n))
  {
    forall i | 0 <= i < |tree| && tree[i].key == f.key
      ensures (tree[i].offset < f.offset && tree[i].End() <= f.offset) || (f.offset < tree[i].offset && f.offset + n <= tree[i].offset)
    {
      ApartFrom(tree, Front(f, n), i);
    }
  }

  /** What is wanted keeps the index tidy and covers exactly the union. */
  lemma WantedCovers(c: Cache, f: Fragment)
    requires Tidy(c.tree) && Compatible(c.tree, f) && MissingIsPrefix(c.tree, f)
    ensures Tidy(Wanted(c, f).0.tree)
    ensures forall k, x: nat :: Has(Wanted(c, f).0.tree, k, x) <==>
              Has(c.tree, k, x) || (k == f.key && f.offset <= x < f.End())
  {
    hide Tidy, Compatible, Has, Inserted;
    var d := Wanted(c, f).0;
    var n := Missing(c.tree, f.key, f.offset, |f.data|);
    var g := Front(f, n);
    assert f.data == [] ==> g == f;
    if Wanted(c, f).1 {
      FrontApart(c.tree, f, n);
      TidyInsert(c.tree, g);
    }
    forall k, x: nat ensures Has(d.tree, k, x) <==> Has(c.tree, k, x) || (k == f.key && f.offset <= x < f.End()) {
      if Wanted(c, f).1 {
        AddCovers(c, g, k, x);
      }
    }
  }

  /** A non-empty range with nothing in it lies apart from every non-empty entry. */
  lemma ApartFrom(tree: seq<Fragment>, g: Fragment, i: nat)
    requires i < |tree| && tree[i].key == g.key && tree[i].data != [] && g.data != []
    requires forall p :: g.offset <= p < g.End() ==> !Has(tree, g.key, p)
    ensures (tree[i].offset < g.offset && tree[i].End() <= g.offset) || (g.offset < tree[i].offset && g.End() <= tree[i].offset)
  {
    if tree[i].offset <= g.offset < tree[i].End() {
      EntryHas(tree, i, g.offset);
    } else if g.offset <= tree[i].offset < g.End() {
      EntryHas(tree, i, tree[i].offset);
    }
  }

  // ----- And when it is not -----

  lemma AddBeyondCovers(c: Cache, f: Fragment, entry: Fragment, k: Key, x: nat)
    requires f.offset <= entry.End()
    ensures Has(AddBeyond(c, f, entry).tree, k, x) <==>
            Has(c.tree, k, x) || (k == f.key && f.offset <= x < f.offset + Beyond(f, entry))
  {
    HasInsert(c.tree, Position(c.tree, f.key, f.offset), Front(f, Beyond(f, entry)), k, x);
  }

  lemma PlaceUnfold(c: Cache, f: Fragment, j: nat)
    requires j <= |c.tree|
    ensures Stops(c.tree, f, j) ==> Place(c, f, j) == (Add(c, f), true)
    ensures !Stops(c.tree, f, j) ==>
              var (entry, c1) := (c.tree[j - 1], AddBeyond(c, f, c.tree[j - 1]));
              && 0 < Shifted(c, f, entry, j) <= |c1.tree| + 1
              && Place(c, f, j) == if Rest(f, entry).data == [] then (c1, Beyond(f, entry) > 0)
                                   else var (c2, more) := Place(c1, Rest(f, entry), Shifted(c, f, entry, j) - 1);
                                        (c2, Beyond(f, entry) > 0 || more)
  {
    hide Progress, Rest, Front;
  }

  /** The loop never covers anything outside the proposal. */
  lemma {:induction false} PlaceStaysInside(c: Cache, f: Fragment, j: nat, k: Key, x: nat)
    requires j <= |c.tree| && Has(Place(c, f, j).0.tree, k, x)
    ensures Has(c.tree, k, x) || (k == f.key && f.offset <= x < f.End())
    decreases |f.data|, j
  {
    hide Place, Has, Add, AddBeyond;
    PlaceUnfold(c, f, j);
    if Stops(c.tree, f, j) {
      AddCovers(c, f, k, x);
    } else {
      var entry := c.tree[j - 1];
      AddBeyondCovers(c, f, entry, k, x);
      if Rest(f, entry).data != [] {
        PlaceStaysInside(AddBeyond(c, f, entry), Rest(f, entry), Shifted(c, f, entry, j) - 1, k, x);
      }
    }
  }

  lemma AddCovers(c: Cache, f: Fragment, k: Key, x: nat)
    ensures Has(Add(c, f).tree, k, x) <==> Has(c.tree, k, x) || (k == f.key && f.offset <= x < f.End())
  {
    HasInsert(c.tree, Position(c.tree, f.key, f.offset), f, k, x);
  }

  /** A missing position behind a present one, with nothing missing after it. */
  ghost predicate LastMissing(tree: seq<Fragment>, f: Fragment, u: nat) {
    && f.offset < u < f.End() && !Has(tree, f.key, u)
    && (forall x :: u < x < f.End() ==> Has(tree, f.key, x))
    && exists p :: f.offset <= p < u && Has(tree, f.key, p)
  }

  /** The part added from the wrong place leaves the last missing position missing. */
  lemma PieceMisses(c: Cache, f: Fragment, j: nat, u: nat)
    requires Tidy(c.tree) && j <= |c.tree| && Behind(c.tree, f, j) && !Stops(c.tree, f, j)
    requires LastMissing(c.tree, f, u) && c.tree[j - 1].End() < f.End()
    ensures c.tree[j - 1].End() <= u == f.End() - 1 && f.offset < c.tree[j - 1].End()
  {
    if c.tree[j - 1].End() == f.offset {
      NothingBelow(c.tree, f, j);
    } else {
      if u < f.End() - 1 {
        assert Has(c.tree, f.key, f.End() - 1);
      }
      GapAfter(c.tree, f, j);
    }
  }

  /** Trimming by an entry keeps the last missing position of a proposal in its rest. */
  lemma LastMissingStays(tree: seq<Fragment>, f: Fragment, j: nat, u: nat, rest: Fragment)
    requires 0 < j <= |tree| && tree[j - 1].key == f.key == rest.key && LastMissing(tree, f, u)
    requires rest.offset == f.offset < tree[j - 1].offset && f.End() <= tree[j - 1].End()
    requires rest.End() == if tree[j - 1].offset < f.End() then tree[j - 1].offset else f.End()
    ensures LastMissing(tree, rest, u)
  {
    var i: nat := j - 1;
    if tree[i].offset <= u {
      EntryHas(tree, i, u);
    }
  }

  lemma {:induction false} PlaceLoses(c: Cache, f: Fragment, j: nat, u: nat)
    requires Tidy(c.tree) && Compatible(c.tree, f) && f.data != []
    requires j <= |c.tree| && Behind(c.tree, f, j) && LastMissing(c.tree, f, u)
    ensures !Has(Place(c, f, j).0.tree, f.key, u)
    decreases |f.data|, j
  {
    hide Place, Has, Tidy, Behind, Add, Rest;
    if Stops(c.tree, f, j) {
      NothingBelow(c.tree, f, j);
    } else {
      var entry := c.tree[j - 1];
      if f.End() > entry.End() {
        PieceMisses(c, f, j, u);
        PlaceLosesPiece(c, f, j, u);
      } else if f.offset >= entry.offset {
        EntryHas(c.tree, j - 1, u);
      } else {
        PlaceGoesOn(c, f, j);
        var rest := Rest(f, entry);
        BehindDown(c.tree, f, j, rest);
        LastMissingStays(c.tree, f, j, u, rest);
        PlaceLoses(c, rest, j - 1, u);
      }
    }
  }

  /** After such a piece, the rest of the proposal no longer reaches the lost position. */
  lemma PlaceLosesPiece(c: Cache, f: Fragment, j: nat, u: nat)
    requires j <= |c.tree| && !Stops(c.tree, f, j) && !Has(c.tree, f.key, u)
    requires f.offset < c.tree[j - 1].End() <= u == f.End() - 1
    ensures !Has(Place(c, f, j).0.tree, f.key, u)
  {
    hide Place, Has, Add, AddBeyond;
    var entry := c.tree[j - 1];
    PlaceUnfold(c, f, j);
    AddBeyondCovers(c, f, entry, f.key, u);
    var (c1, rest, j1) := (AddBeyond(c, f, entry), Rest(f, entry), Shifted(c, f, entry, j));
    if rest.data != [] && Has(Place(c1, rest, j1 - 1).0.tree, f.key, u) {
      PlaceStaysInside(c1, rest, j1 - 1, f.key, u);
    }
  }

  /** Where the condition fails there is a last missing position behind a present one. */
  lemma {:induction false} FindLastMissing(tree: seq<Fragment>, f: Fragment, p: nat, q: nat, high: nat) returns (u: nat)
    requires f.offset <= p < q < high <= f.End() && Has(tree, f.key, p) && !Has(tree, f.key, q)
    requires forall x :: high <= x < f.End() ==> Has(tree, f.key, x)
    ensures LastMissing(tree, f, u)
    decreases high
  {
    if Has(tree, f.key, high - 1) {
      u := FindLastMissing(tree, f, p, q, high - 1);
    } else {
      u := high - 1;
    }
  }

  /** The cache then covers exactly what it covered before and the proposed range. */
  ghost predicate CoversUnion(before: seq<Fragment>, f: Fragment, now: seq<Fragment>) {
    forall x: nat :: Has(now, f.key, x) <==> Has(before, f.key, x) || f.offset <= x < f.End()
  }

  /** The exact condition under which a proposal is cached correctly. */
  lemma ProposalExactIffMissingIsPrefix(c: Cache, f: Fragment)
    requires Tidy(c.tree) && Compatible(c.tree, f) && f.data != [] && !Before(f.key, c.first)
    ensures CoversUnion(c.tree, f, Propose(c, f).tree) <==> MissingIsPrefix(c.tree, f)
  {
    hide Place, Wanted, Tidy, Compatible;
    BehindAtStart(c.tree, f);
    if MissingIsPrefix(c.tree, f) {
      ProposalWanted(c, f);
      WantedCovers(c, f);
    } else {
      var p, q :| f.offset <= p < q < f.End() && Has(c.tree, f.key, p) && !Has(c.tree, f.key, q);
      var u := FindLastMissing(c.tree, f, p, q, f.End());
      PlaceLoses(c, f, UpToObject(c.tree, f.key), u);
    }
  }

  /** Byte 1 of a three-byte object is cached and the whole object is proposed: byte 2 is lost,
      because the part beyond the cached byte is added from the front of the proposal. */
  lemma OverlapLosesTheEnd(c: Cache, f: Fragment, held: Fragment)
    requires f.offset == 0 && |f.data| == 3 && f.objectLength == 3 && !Before(f.key, c.first)
    requires held == f.(offset := 1, data := f.data[1..2]) && c.tree == [held]
    ensures !Has(Propose(c, f).tree, f.key, 2)
  {
    assert Covers(c.tree[0], f.key, 1);
    assert Has(c.tree, f.key, 1);
    assert LastMissing(c.tree, f, 2);
    BehindAtStart(c.tree, f);
    PlaceLoses(c, f, UpToObject(c.tree, f.key), 2);
  }

  // ----- The other operations -----

  function Without(fs: seq<Fragment>, f: Fragment): (r: seq<Fragment>)
    ensures |r| <= |fs|
  {
    if fs == [] then [] else if fs[0] == f then fs[1..] else [fs[0]] + Without(fs[1..], f)
  }

  /** Delete the first entry of the tree, which leaves the order of arrival as well, for as
      long as it belongs to an object before k. */
  function DropBefore(tree: seq<Fragment>, arrivals: seq<Fragment>, k: Key): (seq<Fragment>, seq<Fragment>) {
    if tree != [] && Before(tree[0].key, k) then DropBefore(tree[1..], Without(arrivals, tree[0]), k)
    else (tree, arrivals)
  }

  /** quicrq_fragment_cache_learn_start_point: the offset of the cursor is left as it was, and
      its progress is not evaluated again. */
  function LearnStartPoint(c: Cache, k: Key): Cache {
    var (tree, arrivals) := DropBefore(c.tree, c.arrivals, k);
    c.(first := k, next := if Before(c.next, k) then k else c.next, tree := tree, arrivals := arrivals)
  }

  /** quicrq_fragment_cache_learn_end_point. */
  function LearnEndPoint(c: Cache, k: Key): Cache {
    c.(final := k)
  }
}
