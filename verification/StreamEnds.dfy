/** Where the publisher of a stream goes next, and where it stops, whatever the cache holds: nothing here
    requires the fragments or the final point to be true of a media. */
module StreamEnds {
  import opened Media
  import opened StreamPublisher

  /** The final point is known, and it is at the object or before it. */
  predicate IsPast(final: Key, k: Key) {
    (final.group != 0 || final.id != 0) &&
    (k.group > final.group || (k.group == final.group && k.id >= final.id))
  }

  /** Behind the end nothing is sent any more, whatever is in the cache: every offer answers with the
      final point, and changes nothing. */
  lemma NothingBehindTheEnd(w: Line, c: Store, space: nat, verdict: bool, header: Label -> nat)
    requires Guess(w.sender, space, header) <= space && IsPast(c.final, Key(w.publisher.group, w.publisher.id))
    ensures Offer(w, c, space, verdict, header) == (w, Some(Fin(Key(w.sender.group, w.sender.id))))
  {
    hide Fitted;
    OfferUnfold(w, c, space, verdict, header);
  }

  /** And the final point is sent only there: at the object where the publisher stands, or at the one
      behind it when that was skipped. */
  lemma FinOnlyAtTheEnd(w: Line, c: Store, space: nat, verdict: bool, header: Label -> nat)
    requires Offer(w, c, space, verdict, header).1.Some? && Offer(w, c, space, verdict, header).1.value.Fin?
    ensures var p := w.publisher;
            IsPast(c.final, Key(p.group, p.id)) || (p.isSkipped && IsPast(c.final, Key(p.group, p.id + 1)))
  {
    hide Fitted;
    OfferUnfold(w, c, space, verdict, header);
  }

  /** No two entries have the same place. */
  ghost predicate Distinct(tree: seq<Fragment>) {
    forall i, j :: 0 <= i < j < |tree| ==> tree[i].key != tree[j].key || tree[i].offset != tree[j].offset
  }

  ghost predicate Holds(tree: seq<Fragment>, k: Key, offset: nat) {
    exists f :: f in tree && f.key == k && f.offset == offset
  }

  /** The next group has begun, and says that the group before it has no more than n objects. */
  ghost predicate Opens(tree: seq<Fragment>, group: nat, n: nat) {
    exists f :: f in tree && f.key == Key(group + 1, 0) && f.offset == 0 && f.previousSize <= n
  }

  lemma GetIs(tree: seq<Fragment>, f: Fragment)
    requires Distinct(tree) && f in tree
    ensures Get(tree, f.key, f.offset) == Some(f)
  {
    var g := Get(tree, f.key, f.offset);
    var i :| 0 <= i < |tree| && tree[i] == f;
    if g.Some? {
      var j :| 0 <= j < |tree| && tree[j] == g.value;
      assert i == j;
    }
  }

  lemma OpensIff(tree: seq<Fragment>, group: nat, n: nat)
    requires Distinct(tree)
    ensures var first := Get(tree, Key(group + 1, 0), 0);
            Opens(tree, group, n) <==> first.Some? && n >= first.value.previousSize
  {
    hide Get, Distinct;
    if Opens(tree, group, n) {
      var f :| f in tree && f.key == Key(group + 1, 0) && f.offset == 0 && f.previousSize <= n;
      GetIs(tree, f);
    }
  }

  lemma HoldsIff(tree: seq<Fragment>, k: Key, offset: nat)
    ensures Holds(tree, k, offset) <==> Get(tree, k, offset).Some?
  {
    hide Get;
    if Get(tree, k, offset).Some? {
      assert Get(tree, k, offset).value in tree;
    }
  }

  /** The publisher enters the next group if and only if nothing of its own is left to expect, neither a
      fragment at its place nor an object in the middle, and the next group has begun and documents that
      its own ends there, or before. */
  lemma EntersGroupIff(p: Publisher, c: Store)
    requires Distinct(c.tree) && !IsPast(c.final, Key(p.group, p.id)) && (p.isSkipped || p.current.None?)
    ensures var (k, offset) := if p.isSkipped then (Key(p.group, p.id + 1), 0) else (Key(p.group, p.id), p.offset);
            var found := Locate(p, c);
            && (found.isNewGroup <==> offset == 0 && !Holds(c.tree, k, 0) && Opens(c.tree, p.group, k.id))
            && (found.isNewGroup ==>
                  && found.publisher.group == p.group + 1 && found.publisher.id == 0 && found.publisher.offset == 0
                  && found.publisher.current.Some? && found.publisher.current.value in c.tree
                  && found.publisher.current.value.key == Key(p.group + 1, 0) && !found.publisher.isSkipped)
            && (!found.isNewGroup && Holds(c.tree, k, offset) ==>
                  && (found.publisher.group, found.publisher.id, found.publisher.offset) == (k.group, k.id, offset)
                  && found.publisher.current.Some? && found.publisher.current.value in c.tree
                  && found.publisher.current.value.key == k && found.publisher.current.value.offset == offset)
  {
    hide Get, Distinct, Opens, Holds;
    var k := if p.isSkipped then Key(p.group, p.id + 1) else Key(p.group, p.id);
    OpensIff(c.tree, p.group, k.id);
    HoldsIff(c.tree, k, 0);
    HoldsIff(c.tree, k, p.offset);
  }
}
