/** The vocabulary of every other module: bytes, object identifiers, the media itself and
    the fragments that are cut from it.

    A media is a sequence of groups, a group is a sequence of objects, an object is a
    sequence of bytes with a flag byte.  Every theorem about transport compares what some
    machine did with such a value.  Identifiers are natural numbers: the original keeps
    them in 64 bits but carries them as QUIC variable length integers, below 2^62, so that
    its signed differences never wrap.
 */
module Media {

  datatype Option<+T> = None | Some(value: T)

  type Byte = b: int | 0 <= b < 256

  /** (group_id, object_id), ordered as the comparison functions of the splay trees do. */
  datatype Key = Key(group: nat, id: nat)

  predicate Before(a: Key, b: Key) {
    a.group < b.group || (a.group == b.group && a.id < b.id)
  }

  datatype MediaObject = MediaObject(data: seq<Byte>, flags: Byte)

  /** What stands for an object that was dropped: no bytes, flags 0xFF. */
  const BLANK := MediaObject([], 255)

  type Groups = seq<seq<MediaObject>>

  /** The numbering rules of a publisher never leave an empty group behind. */
  ghost predicate WellFormed(m: Groups) {
    forall g :: 0 <= g < |m| ==> m[g] != []
  }

  predicate InMedia(m: Groups, k: Key) {
    k.group < |m| && k.id < |m[k.group]|
  }

  function ObjectAt(m: Groups, k: Key): MediaObject
    requires InMedia(m, k)
  {
    m[k.group][k.id]
  }

  /** A position between two objects: an object of the media, or one past the last object
      of a group.  The empty media has the single cursor (0, 0). */
  predicate IsCursor(m: Groups, k: Key) {
    k == Key(0, 0) || (k.group < |m| && k.id <= |m[k.group]|)
  }

  /** What a publisher announces as the final identifier: one past the last object. */
  function EndOf(m: Groups): Key {
    if m == [] then Key(0, 0) else Key(|m| - 1, |m[|m| - 1]|)
  }

  /** nb_objects_previous_group, as documented on the first fragment of a group. */
  function SizeOfPrevious(m: Groups, group: nat): nat
    requires group < |m|
  {
    if group == 0 then 0 else |m[group - 1]|
  }

  // ----- Linear positions -----

  /** The number of objects in the first g groups. */
  function GroupStart(m: Groups, g: nat): nat
    requires g <= |m|
  {
    if g == 0 then 0 else GroupStart(m, g - 1) + |m[g - 1]|
  }

  function Count(m: Groups): nat {
    GroupStart(m, |m|)
  }

  /** The rank of a cursor.  (g, size of g) and (g + 1, 0) have the same rank: this is the
      boundary identity of the protocol. */
  function Rank(m: Groups, k: Key): nat
    requires IsCursor(m, k)
  {
    if m == [] then 0 else GroupStart(m, k.group) + k.id
  }

  /** One object together with its identifier. */
  datatype Item = Item(key: Key, content: MediaObject)

  function GroupItems(m: Groups, g: nat): (r: seq<Item>)
    requires g < |m|
    ensures |r| == |m[g]|
  {
    seq(|m[g]|, o requires 0 <= o < |m[g]| => Item(Key(g, o), m[g][o]))
  }

  function ItemsUpTo(m: Groups, g: nat): (r: seq<Item>)
    requires g <= |m|
    ensures |r| == GroupStart(m, g)
  {
    if g == 0 then [] else ItemsUpTo(m, g - 1) + GroupItems(m, g - 1)
  }

  /** The media as the single list of objects an in-order consumer must see. */
  function Items(m: Groups): (r: seq<Item>)
    ensures |r| == Count(m)
  {
    ItemsUpTo(m, |m|)
  }

  lemma {:induction false} GroupStartMonotone(m: Groups, g: nat, h: nat)
    requires g <= h <= |m|
    ensures GroupStart(m, g) <= GroupStart(m, h)
    ensures g < h ==> GroupStart(m, g) + |m[g]| <= GroupStart(m, h)
  {
    if g < h {
      GroupStartMonotone(m, g, h - 1);
    }
  }

  /** Ranks order the objects of a media exactly as the splay comparison functions do. */
  lemma RankOrders(m: Groups, a: Key, b: Key)
    requires IsCursor(m, a) && InMedia(m, b)
    ensures Before(a, b) ==> Rank(m, a) <= Rank(m, b)
    ensures Before(b, a) ==> Rank(m, b) < Rank(m, a)
    ensures InMedia(m, a) && Before(a, b) ==> Rank(m, a) < Rank(m, b)
    ensures InMedia(m, a) && Rank(m, a) == Rank(m, b) ==> a == b
  {
    if a.group < b.group {
      GroupStartMonotone(m, a.group, b.group);
    } else if b.group < a.group {
      GroupStartMonotone(m, b.group, a.group);
    }
  }

  lemma RankBelowCount(m: Groups, k: Key)
    requires IsCursor(m, k)
    ensures Rank(m, k) <= Count(m)
    ensures InMedia(m, k) ==> Rank(m, k) < Count(m)
  {
    if m != [] {
      GroupStartMonotone(m, k.group, |m|);
    }
  }

  lemma RankOfEnd(m: Groups)
    ensures IsCursor(m, EndOf(m))
    ensures Rank(m, EndOf(m)) == Count(m)
  {
  }

  /** Only the end of the media, seen from its last group, has the last rank. */
  lemma RankCount(m: Groups, k: Key)
    requires WellFormed(m) && IsCursor(m, k)
    ensures Rank(m, k) == Count(m) <==> k == EndOf(m)
  {
    if m != [] && k.group < |m| - 1 {
      GroupStartMonotone(m, k.group + 1, |m| - 1);
      assert m[|m| - 1] != [];
    }
  }

  lemma {:induction false} ItemsUpToAt(m: Groups, h: nat, k: Key)
    requires k.group < h <= |m| && InMedia(m, k)
    ensures Rank(m, k) < GroupStart(m, h)
    ensures ItemsUpTo(m, h)[Rank(m, k)] == Item(k, ObjectAt(m, k))
  {
    GroupStartMonotone(m, k.group, h);
    if k.group < h - 1 {
      ItemsUpToAt(m, h - 1, k);
    }
  }

  /** Rank indexes the list of items. */
  lemma ItemsAt(m: Groups, k: Key)
    requires InMedia(m, k)
    ensures Rank(m, k) < Count(m)
    ensures Items(m)[Rank(m, k)] == Item(k, ObjectAt(m, k))
  {
    ItemsUpToAt(m, |m|, k);
  }

  lemma {:induction false} KeyAtUpTo(m: Groups, h: nat, i: nat) returns (k: Key)
    requires h <= |m| && i < GroupStart(m, h)
    ensures k.group < h && InMedia(m, k) && Rank(m, k) == i
  {
    if i < GroupStart(m, h - 1) {
      k := KeyAtUpTo(m, h - 1, i);
    } else {
      k := Key(h - 1, i - GroupStart(m, h - 1));
    }
  }

  lemma KeyAt(m: Groups, i: nat) returns (k: Key)
    requires i < Count(m)
    ensures InMedia(m, k) && Rank(m, k) == i
    ensures Items(m)[i] == Item(k, ObjectAt(m, k))
  {
    k := KeyAtUpTo(m, |m|, i);
    ItemsAt(m, k);
  }

  /** The cursor right after an object. */
  function After(k: Key): Key {
    Key(k.group, k.id + 1)
  }

  lemma RankAfter(m: Groups, k: Key)
    requires InMedia(m, k)
    ensures IsCursor(m, After(k)) && Rank(m, After(k)) == Rank(m, k) + 1
  {
  }

  /** The cursor after a group, and the first object of the next one, have the same rank. */
  lemma Boundary(m: Groups, c: Key)
    requires WellFormed(m) && IsCursor(m, c)
    ensures InMedia(m, c) || c == EndOf(m) || (c.group + 1 < |m| && c.id == |m[c.group]| && InMedia(m, Key(c.group + 1, 0)))
    ensures c.group + 1 < |m| && c.id == |m[c.group]| ==> Rank(m, c) == Rank(m, Key(c.group + 1, 0))
  {
    if m != [] && c.group + 1 < |m| {
      assert m[c.group + 1] != [];
    }
  }

  /** An object at or past the cursor is at it under the cursor's name, or opens its group. */
  lemma AtCursor(m: Groups, c: Key, k: Key)
    requires WellFormed(m) && IsCursor(m, c) && InMedia(m, k)
    ensures Rank(m, k) == Rank(m, c) <==> k == c || (k == Key(c.group + 1, 0) && c.id == |m[c.group]|)
    ensures Before(k, c) <==> Rank(m, k) < Rank(m, c)
  {
    RankOrders(m, c, k);
    Boundary(m, c);
    if Rank(m, k) == Rank(m, c) && !InMedia(m, c) {
      if c == EndOf(m) {
        RankOfEnd(m);
        RankBelowCount(m, k);
      } else {
        RankOrders(m, Key(c.group + 1, 0), k);
      }
    }
  }

  // ----- Fragments -----

  /** One received or stored piece of an object, with everything the header says. */
  datatype Fragment = Fragment(
    key: Key, offset: nat, flags: Byte, previousSize: nat, objectLength: nat, data: seq<Byte>)
  {
    function End(): nat { offset + |data| }
  }

  /** A header documents the size of the previous group on the first fragment of a group.  On later
      pieces of that object it may say the same once more, or nothing; elsewhere it says nothing. */
  predicate Documents(previousSize: nat, k: Key, offset: nat, size: nat) {
    if k.id == 0 then previousSize == size || (previousSize == 0 && offset > 0) else previousSize == 0
  }

  /** f says about its object only what is true of the media m. */
  ghost predicate IsSlice(m: Groups, f: Fragment) {
    && InMedia(m, f.key)
    && var o := ObjectAt(m, f.key);
       && f.flags == o.flags
       && f.objectLength == |o.data|
       && f.End() <= |o.data|
       && f.data == o.data[f.offset..f.End()]
       && Documents(f.previousSize, f.key, f.offset, SizeOfPrevious(m, f.key.group))
  }

  /** A slice that moves something: senders cut no empty piece out of a non-empty object. */
  ghost predicate IsSolidSlice(m: Groups, f: Fragment) {
    IsSlice(m, f) && (f.data != [] || f.objectLength == 0)
  }

  /** Pieces, one after the other. */
  function Concat(pieces: seq<seq<Byte>>): seq<Byte> {
    if pieces == [] then [] else Concat(pieces[..|pieces| - 1]) + pieces[|pieces| - 1]
  }

  lemma SliceOfSlice<T>(s: seq<T>, i: nat, j: nat, a: nat, b: nat)
    requires i <= j <= |s| && a <= b <= j - i
    ensures s[i..j][a..b] == s[i + a..i + b]
  {
    var t := s[i..j];
    assert forall k :: a <= k < b ==> t[k] == s[i + k];
    assert forall k :: 0 <= k < b - a ==> t[a..b][k] == s[i + a..i + b][k];
  }

  // ----- Byte ranges -----

  function Span(offset: nat, length: nat): (r: set<nat>)
    ensures forall i :: i in r <==> offset <= i < offset + length
  {
    if length == 0 then {} else Span(offset, length - 1) + {offset + length - 1}
  }

  lemma {:induction false} SpanSize(offset: nat, length: nat)
    ensures |Span(offset, length)| == length
  {
    if length > 0 {
      SpanSize(offset, length - 1);
    }
  }

  /** Counting implies completeness: length distinct positions below length are all of them. */
  lemma FullSpan(s: set<nat>, length: nat)
    requires forall i :: i in s ==> i < length
    ensures |s| <= length
    ensures |s| == length <==> s == Span(0, length)
  {
    SpanSize(0, length);
    var rest := Span(0, length) - s;
    assert s + rest == Span(0, length);
    assert |s| + |rest| == length;
  }
}
