/** Sending the data of one object on a unidirectional stream, after its header.  The cache is
    asked twice, once for a size and once for bytes, and may have gained fragments between two
    offers of space. */
module WarpSender {
  import opened Media
  import FragmentCache
  import CacheCursor

  // ----- What the cache has from an offset on -----

  function IndexOf(tree: seq<Fragment>, k: Key, offset: nat): (i: int)
    ensures -1 <= i < |tree|
    ensures i >= 0 ==> tree[i].key == k && tree[i].offset == offset
    ensures i < 0 ==> forall j :: 0 <= j < |tree| ==> tree[j].key != k || tree[j].offset != offset
  {
    if tree == [] then -1
    else if tree[|tree| - 1].key == k && tree[|tree| - 1].offset == offset then |tree| - 1
    else IndexOf(tree[..|tree| - 1], k, offset)
  }

  /** The part of fragment f that is at or past the offset, as far as there is room. */
  function Portion(f: Fragment, current: nat, offset: nat, room: nat): seq<Byte> {
    if current + |f.data| > offset then
      var from := if current < offset then offset - current else 0;
      var copied := if |f.data| - from > room then room else |f.data| - from;
      f.data[from..from + copied]
    else []
  }

  /** The loop of quicrq_fragment_object_copy_available_data, from node i of the tree. */
  function Walk(tree: seq<Fragment>, i: nat, k: Key, current: nat, offset: nat, available: nat, got: seq<Byte>): seq<Byte>
    requires i <= |tree|
    decreases |tree| - i
  {
    if i < |tree| && |got| < available && tree[i].key == k && tree[i].offset == current then
      var f := tree[i];
      Walk(tree, i + 1, k, current + |f.data|, offset, available, got + Portion(f, current, offset, available - |got|))
    else got
  }

  lemma WalkUnfold(tree: seq<Fragment>, i: nat, k: Key, current: nat, offset: nat, available: nat, got: seq<Byte>)
    requires i <= |tree|
    ensures Walk(tree, i, k, current, offset, available, got) ==
            if i < |tree| && |got| < available && tree[i].key == k && tree[i].offset == current then
              Walk(tree, i + 1, k, current + |tree[i].data|, offset, available,
                   got + Portion(tree[i], current, offset, available - |got|))
            else got
  {
    hide Portion;
  }

  function Available(tree: seq<Fragment>, k: Key, offset: nat, available: nat): seq<Byte> {
    var i := IndexOf(tree, k, 0);
    if i < 0 then [] else Walk(tree, i, k, 0, offset, available, [])
  }

  /** How far the object is in the cache without a gap, from position o on. */
  ghost function Reach(tree: seq<Fragment>, k: Key, o: nat, length: nat): (n: nat)
    requires o <= length
    ensures o <= n <= length
    ensures forall p :: o <= p < n ==> FragmentCache.Has(tree, k, p)
    ensures n < length ==> !FragmentCache.Has(tree, k, n)
    decreases length - o
  {
    if o < length && FragmentCache.Has(tree, k, o) then Reach(tree, k, o + 1, length) else o
  }

  lemma ReachIs(tree: seq<Fragment>, k: Key, length: nat, n: nat)
    requires n <= length && forall p :: 0 <= p < n ==> FragmentCache.Has(tree, k, p)
    requires n < length ==> !FragmentCache.Has(tree, k, n)
    ensures Reach(tree, k, 0, length) == n
  {
  }

  /** The end of what a reader at the offset gets, when the cache reaches to n. */
  function Limit(offset: nat, available: nat, n: nat): (r: nat)
    ensures r >= offset
  {
    if n <= offset then offset else if n - offset <= available then n else offset + available
  }

  /** Node i is where position current of the object is to be found. */
  ghost predicate Stands(tree: seq<Fragment>, i: nat, k: Key, current: nat) {
    && (forall j :: 0 <= j < |tree| && j < i && tree[j].key == k ==> tree[j].End() <= current)
    && (forall j :: i <= j < |tree| && tree[j].key == k ==> current <= tree[j].offset)
    && (forall j :: i <= j < |tree| ==> !Before(tree[j].key, k))
  }

  lemma StandsNext(tree: seq<Fragment>, i: nat, k: Key, current: nat)
    requires FragmentCache.Tidy(tree) && i < |tree| && tree[i].key == k && tree[i].offset == current
    requires Stands(tree, i, k, current)
    ensures Stands(tree, i + 1, k, current + |tree[i].data|)
  {
  }

  lemma StopsAtGap(m: Groups, tree: seq<Fragment>, i: nat, k: Key, current: nat)
    requires FragmentCache.Tidy(tree) && CacheCursor.SolidTree(m, tree) && i <= |tree| && Stands(tree, i, k, current)
    requires i == |tree| || tree[i].key != k || tree[i].offset != current
    ensures !FragmentCache.Has(tree, k, current)
  {
    forall j | 0 <= j < |tree| ensures !FragmentCache.Covers(tree[j], k, current) {
      if i < j && tree[j].key == k {
        assert Before(tree[i].key, k) || tree[i].key == k;
      }
    }
  }

  lemma EntryIsSlice(m: Groups, tree: seq<Fragment>, i: nat)
    requires CacheCursor.SolidTree(m, tree) && i < |tree|
    ensures InMedia(m, tree[i].key) && tree[i].End() <= |ObjectAt(m, tree[i].key).data|
    ensures tree[i].data == ObjectAt(m, tree[i].key).data[tree[i].offset..tree[i].End()]
  {
    assert IsSolidSlice(m, tree[i]);
  }

  lemma EntryHas(tree: seq<Fragment>, i: nat)
    requires i < |tree|
    ensures forall p :: tree[i].offset <= p < tree[i].End() ==> FragmentCache.Has(tree, tree[i].key, p)
  {
    forall p | tree[i].offset <= p < tree[i].End() ensures FragmentCache.Has(tree, tree[i].key, p) {
      assert FragmentCache.Covers(tree[i], tree[i].key, p);
    }
  }

  /** Where the part of a fragment that begins at current begins and ends in its object. */
  lemma PortionBounds(f: Fragment, current: nat, offset: nat, available: nat)
    requires f.offset == current && Limit(offset, available, current) - offset < available
    ensures var (a, b) := (Limit(offset, available, current), Limit(offset, available, f.End()));
            && a <= b
            && if f.End() <= offset then a == b && Portion(f, current, offset, available - (a - offset)) == []
               else current <= a <= b <= f.End() &&
                    Portion(f, current, offset, available - (a - offset)) == f.data[a - current..b - current]
  {
  }

  lemma SlicesJoin(data: seq<Byte>, offset: nat, i: nat, j: nat, a: nat, b: nat)
    requires offset <= a && i <= a <= b <= j <= |data|
    ensures data[offset..a] + data[i..j][a - i..b - i] == data[offset..b]
  {
    SliceOfSlice(data, i, j, a - i, b - i);
  }

  lemma PortionIsSlice(data: seq<Byte>, f: Fragment, current: nat, offset: nat, available: nat)
    requires offset <= |data| && f.offset == current && f.End() <= |data| && f.data == data[current..f.End()]
    requires Limit(offset, available, current) <= |data|
    requires Limit(offset, available, current) - offset < available
    ensures var (a, b) := (Limit(offset, available, current), Limit(offset, available, f.End()));
            && a <= b <= |data|
            && data[offset..a] + Portion(f, current, offset, available - (a - offset)) == data[offset..b]
  {
    var (a, b) := (Limit(offset, available, current), Limit(offset, available, f.End()));
    PortionBounds(f, current, offset, available);
    hide Limit, Portion;
    if f.End() > offset {
      SlicesJoin(data, offset, current, f.End(), a, b);
    } else {
      assert data[offset..a] + [] == data[offset..a];
    }
  }

  /** The walk yields all that follows without a gap, as far as there is room. */
  lemma {:induction false} WalkIsExact(m: Groups, tree: seq<Fragment>, i: nat, k: Key, current: nat, offset: nat, available: nat)
    requires FragmentCache.Tidy(tree) && CacheCursor.SolidTree(m, tree) && i <= |tree| && InMedia(m, k)
    requires offset <= |ObjectAt(m, k).data| && current <= |ObjectAt(m, k).data|
    requires Stands(tree, i, k, current) && forall p :: 0 <= p < current ==> FragmentCache.Has(tree, k, p)
    ensures var data := ObjectAt(m, k).data;
            var n := Reach(tree, k, 0, |data|);
            && current <= n && Limit(offset, available, current) <= |data| && Limit(offset, available, n) <= |data|
            && Walk(tree, i, k, current, offset, available, data[offset..Limit(offset, available, current)]) ==
               data[offset..Limit(offset, available, n)]
    decreases |tree| - i
  {
    hide FragmentCache.Tidy, CacheCursor.SolidTree, Stands, FragmentCache.Has, Reach, Portion, InMedia;
    var data := ObjectAt(m, k).data;
    var n := Reach(tree, k, 0, |data|);
    var got := data[offset..Limit(offset, available, current)];
    if i < |tree| && tree[i].key == k && tree[i].offset == current {
      EntryIsSlice(m, tree, i);
      if |got| < available {
        PortionIsSlice(data, tree[i], current, offset, available);
        StandsNext(tree, i, k, current);
        EntryHas(tree, i);
        WalkIsExact(m, tree, i + 1, k, current + |tree[i].data|, offset, available);
      } else {
        NotBeyond(tree, k, |data|, current);
      }
    } else {
      StopsAtGap(m, tree, i, k, current);
      ReachIs(tree, k, |data|, current);
    }
  }

  lemma NotBeyond(tree: seq<Fragment>, k: Key, length: nat, current: nat)
    requires current <= length && forall p :: 0 <= p < current ==> FragmentCache.Has(tree, k, p)
    ensures current <= Reach(tree, k, 0, length)
  {
  }

  lemma StandsAtStart(tree: seq<Fragment>, i: nat, k: Key)
    requires FragmentCache.Tidy(tree) && i < |tree| && tree[i].key == k && tree[i].offset == 0
    ensures Stands(tree, i, k, 0)
  {
  }

  /** What is copied is exactly the bytes of the object from the offset on, up to the first gap in
      the cache or the room there is. */
  lemma AvailableIsExact(m: Groups, tree: seq<Fragment>, k: Key, offset: nat, available: nat)
    requires FragmentCache.Tidy(tree) && CacheCursor.SolidTree(m, tree) && InMedia(m, k) && offset <= |ObjectAt(m, k).data|
    ensures var data := ObjectAt(m, k).data;
            var b := Limit(offset, available, Reach(tree, k, 0, |data|));
            b <= |data| && Available(tree, k, offset, available) == data[offset..b]
  {
    hide FragmentCache.Tidy, CacheCursor.SolidTree, Reach;
    var data := ObjectAt(m, k).data;
    var i := IndexOf(tree, k, 0);
    if i >= 0 {
      StandsAtStart(tree, i, k);
      WalkIsExact(m, tree, i, k, 0, offset, available);
    } else {
      NoFront(tree, k);
      ReachIs(tree, k, |data|, 0);
    }
  }

  lemma NoFront(tree: seq<Fragment>, k: Key)
    requires FragmentCache.Tidy(tree) && IndexOf(tree, k, 0) < 0
    ensures !FragmentCache.Has(tree, k, 0)
  {
  }

  // ----- The sender -----

  /** current_object_offset, and whether the object is done with. */
  datatype Sender = Sender(offset: nat, isDone: bool)

  /** The sending of data in quicrq_prepare_to_send_on_unistream: the bytes, the new state, and
      whether it failed. */
  function Send(s: Sender, tree: seq<Fragment>, k: Key, length: nat, space: nat): (seq<Byte>, Sender, bool) {
    if s.isDone then ([], s, false)
    else
      var size := |Available(tree, k, s.offset, space)|;
      if size == 0 then ([], s, false)
      else
        var chunk := Available(tree, k, s.offset, size);
        var offset := s.offset + |chunk|;
        if |chunk| != size then ([], s, true)
        else if offset == length then (chunk, Sender(0, true), false)
        else (chunk, Sender(offset, false), offset > length)
  }

  /** The transport offers space; the cache then holds these fragments. */
  datatype Offer = Offer(tree: seq<Fragment>, space: nat)

  datatype Line = Line(sender: Sender, sent: seq<Byte>, failed: bool)

  function After(w: Line, offer: Offer, k: Key, length: nat): Line {
    var (chunk, s, failed) := Send(w.sender, offer.tree, k, length, offer.space);
    Line(s, w.sent + chunk, w.failed || failed)
  }

  function Run(offers: seq<Offer>, k: Key, length: nat): Line {
    if offers == [] then Line(Sender(0, false), [], false)
    else After(Run(offers[..|offers| - 1], k, length), offers[|offers| - 1], k, length)
  }

  ghost predicate Stored(m: Groups, offers: seq<Offer>) {
    forall i :: 0 <= i < |offers| ==> FragmentCache.Tidy(offers[i].tree) && CacheCursor.SolidTree(m, offers[i].tree)
  }

  ghost predicate Sound(data: seq<Byte>, w: Line) {
    && !w.failed
    && if w.sender.isDone then w.sent == data else w.sender.offset < |data| && w.sent == data[..w.sender.offset]
  }

  lemma LimitAgain(offset: nat, available: nat, n: nat)
    ensures Limit(offset, Limit(offset, available, n) - offset, n) == Limit(offset, available, n)
  {
  }

  lemma AfterKeeps(m: Groups, w: Line, offer: Offer, k: Key)
    requires InMedia(m, k) && Sound(ObjectAt(m, k).data, w)
    requires FragmentCache.Tidy(offer.tree) && CacheCursor.SolidTree(m, offer.tree)
    ensures Sound(ObjectAt(m, k).data, After(w, offer, k, |ObjectAt(m, k).data|))
  {
    hide FragmentCache.Tidy, CacheCursor.SolidTree, Available, Reach;
    if !w.sender.isDone {
      var (data, o) := (ObjectAt(m, k).data, w.sender.offset);
      var n := Reach(offer.tree, k, 0, |data|);
      AvailableIsExact(m, offer.tree, k, o, offer.space);
      LimitAgain(o, offer.space, n);
      AvailableIsExact(m, offer.tree, k, o, Limit(o, offer.space, n) - o);
    }
  }

  /** For any sequence of spaces, and with fragments arriving in between, the chunks of an object
      with data concatenate to a front part of its bytes, and to all of them when the sender is
      done; the sizing call and the copying call agree, and the object is never overshot. */
  lemma {:induction false} ChunksJoin(m: Groups, offers: seq<Offer>, k: Key)
    requires InMedia(m, k) && ObjectAt(m, k).data != [] && Stored(m, offers)
    ensures var data := ObjectAt(m, k).data;
            var w := Run(offers, k, |data|);
            && !w.failed
            && if w.sender.isDone then w.sent == data else w.sender.offset < |data| && w.sent == data[..w.sender.offset]
  {
    hide FragmentCache.Tidy, CacheCursor.SolidTree, After;
    if offers != [] {
      ChunksJoin(m, offers[..|offers| - 1], k);
      AfterKeeps(m, Run(offers[..|offers| - 1], k, |ObjectAt(m, k).data|), offers[|offers| - 1], k);
    }
  }

  /** An offer of space moves nothing if and only if the next byte is not in the cache, in sequence,
      or there is no space. */
  lemma IdleIffGap(m: Groups, tree: seq<Fragment>, k: Key, offset: nat, space: nat)
    requires FragmentCache.Tidy(tree) && CacheCursor.SolidTree(m, tree) && InMedia(m, k) && offset < |ObjectAt(m, k).data|
    ensures var length := |ObjectAt(m, k).data|;
            Send(Sender(offset, false), tree, k, length, space).0 == [] <==>
            space == 0 || exists p :: 0 <= p <= offset && !FragmentCache.Has(tree, k, p)
  {
    hide FragmentCache.Tidy, CacheCursor.SolidTree, Available;
    var data := ObjectAt(m, k).data;
    var n := Reach(tree, k, 0, |data|);
    AvailableIsExact(m, tree, k, offset, space);
    LimitAgain(offset, space, n);
    AvailableIsExact(m, tree, k, offset, Limit(offset, space, n) - offset);
  }

  /** Nothing is held back: the chunk of an offer fills the space, or ends the object, or ends where
      the cache has its first gap, or else there is a gap before it and the chunk is empty; and the
      sender then stands behind it, or is done if it was the last one. */
  lemma OfferIsFilled(m: Groups, tree: seq<Fragment>, k: Key, offset: nat, space: nat)
    requires FragmentCache.Tidy(tree) && CacheCursor.SolidTree(m, tree) && InMedia(m, k) && offset < |ObjectAt(m, k).data|
    ensures var data := ObjectAt(m, k).data;
            var (chunk, s, failed) := Send(Sender(offset, false), tree, k, |data|, space);
            var end := offset + |chunk|;
            && !failed && |chunk| <= space && end <= |data| && chunk == data[offset..end]
            && (|chunk| == space || end == |data| || !FragmentCache.Has(tree, k, end)
                || (chunk == [] && exists p :: 0 <= p <= offset && !FragmentCache.Has(tree, k, p)))
            && s == if end == |data| then Sender(0, true) else Sender(end, false)
  {
    hide FragmentCache.Tidy, CacheCursor.SolidTree, Available;
    var data := ObjectAt(m, k).data;
    var n := Reach(tree, k, 0, |data|);
    AvailableIsExact(m, tree, k, offset, space);
    LimitAgain(offset, space, n);
    AvailableIsExact(m, tree, k, offset, Limit(offset, space, n) - offset);
  }
}
