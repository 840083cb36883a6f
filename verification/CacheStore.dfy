/** The fragment cache as the program keeps it: fields updated in place by each call.  Its
    methods are proved against the state machine of module FragmentCache. */
module CacheStore {
  import opened Media
  import Machine = FragmentCache

  class Store {
    /** The fragments in order of arrival, and in the order of the tree. */
    var arrivals: seq<Fragment>
    var tree: seq<Fragment>
    var first: Key
    var next: Key
    var nextOffset: nat
    var final: Key
    var received: nat

    ghost function Model(): Machine.Cache
      reads this
    {
      Machine.Cache(arrivals, tree, first, next, nextOffset, final, received)
    }

    constructor ()
      ensures Model() == Machine.EMPTY
    {
      arrivals, tree, first, next, nextOffset, final, received := [], [], Key(0, 0), Key(0, 0), 0, Key(0, 0), 0;
    }

    /** quicrq_fragment_cache_progress, from the node at index i of the tree. */
    method Progress(i: nat)
      requires i < |tree|
      modifies this`next, this`nextOffset
      ensures (next, nextOffset) == Machine.Progress(tree, i, old(next), old(nextOffset))
    {
      var node := i;
      while node < |tree|
        invariant i <= node <= |tree|
        invariant Machine.Progress(tree, i, old(next), old(nextOffset)) == Machine.Progress(tree, node, next, nextOffset)
      {
        var isExpected, fragment := false, tree[node];
        Machine.ProgressUnfold(tree, node, next, nextOffset);
        if fragment.key == next && fragment.offset == nextOffset {
          isExpected := true;
        } else if fragment.key.group == next.group + 1 && fragment.key.id == 0 && fragment.offset == 0 &&
                  next.id > 0 && nextOffset == 0 && next.id == fragment.previousSize {
          next := Key(next.group + 1, 0);
          nextOffset := 0;
          isExpected := true;
        }
        if isExpected {
          var reached := nextOffset + |fragment.data|;
          if reached >= fragment.objectLength {
            next := After(next);
            nextOffset := 0;
          } else {
            nextOffset := reached;
          }
        } else {
          break;
        }
        node := node + 1;
      }
    }

    /** quicrq_fragment_add_to_cache: last in order of arrival, and in its place in the tree. */
    method AddToCache(f: Fragment)
      modifies this`arrivals, this`tree, this`next, this`nextOffset
      ensures Model() == Machine.Add(old(Model()), f)
    {
      hide Machine.Progress;
      arrivals := arrivals + [f];
      var p := Machine.Position(tree, f.key, f.offset);
      tree := Machine.Inserted(tree, f);
      Progress(p);
    }

    /** The end of quicrq_fragment_propose_to_cache: is the object now complete? */
    method CheckWhole(k: Key) returns (isWhole: bool)
      ensures isWhole == Machine.IsWhole(tree, k)
    {
      var j: nat := Machine.UpToObject(tree, k);
      if j == 0 {
        return false;
      }
      isWhole := tree[j - 1].End() >= tree[j - 1].objectLength;
      var previousOffset := tree[j - 1].offset;
      j := j - 1;
      ghost var wanted := isWhole && Machine.JoinsDown(tree, j, k, previousOffset);
      while isWhole && previousOffset > 0
        invariant j <= |tree|
        invariant wanted == (isWhole && Machine.JoinsDown(tree, j, k, previousOffset))
        decreases j, isWhole
      {
        if j == 0 {
          isWhole := false;
        } else if tree[j - 1].key != k || tree[j - 1].End() < previousOffset {
          isWhole := false;
        } else {
          previousOffset := tree[j - 1].offset;
          j := j - 1;
        }
      }
    }

    /** quicrq_fragment_propose_to_cache. */
    method ProposeToCache(f0: Fragment)
      modifies this`arrivals, this`tree, this`next, this`nextOffset, this`received
      ensures Model() == Machine.Propose(old(Model()), f0)
    {
      if f0.key.group < first.group || (f0.key.group == first.group && f0.key.id < first.id) {
        return;
      }
      hide Machine.Place, Machine.Add, Machine.IsWhole, Machine.Stops, Machine.Rest, Machine.AddBeyond;
      var f, wasAdded := f0, false;
      var j: nat := Machine.UpToObject(tree, f.key);
      ghost var start := j;
      wasAdded, f, j := Examine(f, j);
      while f.data != []
        invariant j <= |tree| && received == old(received) && first == old(first)
        invariant f.data == [] ==>
                    Machine.Place(old(Model()), f0, start) == (Model(), wasAdded)
        invariant f.data != [] ==>
                    && Machine.Place(old(Model()), f0, start).0 == Machine.Place(Model(), f, j).0
                    && Machine.Place(old(Model()), f0, start).1 == (wasAdded || Machine.Place(Model(), f, j).1)
        decreases |f.data|, j
      {
        var more;
        more, f, j := Examine(f, j);
        wasAdded := wasAdded || more;
      }
      if wasAdded {
        var isWhole := CheckWhole(f0.key);
        if isWhole {
          received := received + 1;
        }
      }
    }

    /** One turn of the loop: entry j - 1 against what remains of the proposal. */
    method Examine(f: Fragment, j: nat) returns (wasAdded: bool, rest: Fragment, below: nat)
      requires j <= |tree|
      modifies this`arrivals, this`tree, this`next, this`nextOffset
      ensures below <= |tree|
      ensures rest.data == [] ==> Machine.Place(old(Model()), f, j) == (Model(), wasAdded)
      ensures rest.data != [] ==>
                && Machine.Place(old(Model()), f, j).0 == Machine.Place(Model(), rest, below).0
                && Machine.Place(old(Model()), f, j).1 == (wasAdded || Machine.Place(Model(), rest, below).1)
      ensures |rest.data| < |f.data| || (|rest.data| == |f.data| && below < j) || rest.data == []
    {
      hide Machine.Place, Machine.Add, Machine.Inserted;
      Machine.PlaceUnfold(Model(), f, j);
      if j == 0 || tree[j - 1].key != f.key || tree[j - 1].End() < f.offset {
        AddToCache(f);
        return true, Machine.Front(f, 0), 0;
      }
      var entry := tree[j - 1];
      wasAdded, rest, below := false, f, j - 1;
      if f.End() > entry.End() {
        var added := f.End() - entry.End();
        if Machine.Position(tree, f.key, f.offset) < j {
          below := j;
        }
        AddToCache(Machine.Front(f, added));
        wasAdded := true;
        rest := Machine.Front(f, |f.data| - added).(previousSize := 0);
      }
      if f.offset >= entry.offset {
        rest := Machine.Front(rest, 0);
      } else if entry.offset < rest.End() {
        rest := Machine.Front(rest, entry.offset - f.offset);
      }
    }

    /** quicrq_fragment_cache_learn_start_point. */
    method LearnStartPoint(k: Key)
      modifies this`arrivals, this`tree, this`first, this`next
      ensures Model() == Machine.LearnStartPoint(old(Model()), k)
    {
      first := k;
      if next.group < k.group || (next.group == k.group && next.id < k.id) {
        next := k;
      }
      DeleteBefore(k);
    }

    /** Delete the first node of the tree as long as it belongs to an object before k. */
    method DeleteBefore(k: Key)
      modifies this`arrivals, this`tree
      ensures (tree, arrivals) == Machine.DropBefore(old(tree), old(arrivals), k)
    {
      while tree != []
        invariant Machine.DropBefore(tree, arrivals, k) == Machine.DropBefore(old(tree), old(arrivals), k)
        decreases |tree|
      {
        var fragment := tree[0];
        if !Before(fragment.key, k) {
          break;
        }
        tree := tree[1..];
        arrivals := Machine.Without(arrivals, fragment);
      }
    }

    /** quicrq_fragment_cache_learn_end_point. */
    method LearnEndPoint(k: Key)
      modifies this`final
      ensures Model() == Machine.LearnEndPoint(old(Model()), k)
    {
      final := k;
    }
  }
}
