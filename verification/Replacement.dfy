/** What a media looks like behind a sender that replaced some of its objects.  On the wire a
    placeholder is the one fragment of an empty object with all flags set: whoever receives it
    sees a media of the same shape, in which the replaced objects are such objects. */
module Replacement {
  import opened Media
  import opened StreamPublisher
  import opened StreamReading

  function PlaceholderOf(k: Key): Fragment {
    Fragment(k, 0, 255, 0, 0, [])
  }

  /** What goes over the wire for a message. */
  function Wire(message: Message): Message {
    if message.Skipped? then Chunk(PlaceholderOf(message.key)) else message
  }

  function Wired(out: seq<Message>): (r: seq<Message>)
    ensures |r| == |out| && forall i :: 0 <= i < |out| ==> r[i] == Wire(out[i])
  {
    seq(|out|, i requires 0 <= i < |out| => Wire(out[i]))
  }

  lemma WiredUnfold(out: seq<Message>, message: Message)
    ensures Wired(out + [message]) == Wired(out) + [Wire(message)]
  {
  }

  /** The media behind a sender that sent those messages. */
  function Replaced(m: Groups, out: seq<Message>): Groups {
    seq(|m|, g requires 0 <= g < |m| =>
      seq(|m[g]|, o requires 0 <= o < |m[g]| => if Skips(out, Key(g, o)) > 0 then BLANK else m[g][o]))
  }

  // ----- Medias of the same shape -----

  ghost predicate SameShape(m: Groups, now: Groups) {
    |m| == |now| && forall g :: 0 <= g < |m| ==> |m[g]| == |now[g]|
  }

  /** The same objects, but for those of ks. */
  ghost predicate SameExcept(m: Groups, now: Groups, ks: set<Key>) {
    SameShape(m, now) && forall k :: InMedia(m, k) && k !in ks ==> ObjectAt(now, k) == ObjectAt(m, k)
  }

  lemma ReplacedObject(m: Groups, out: seq<Message>)
    ensures SameShape(m, Replaced(m, out))
    ensures forall k :: InMedia(m, k) ==> ObjectAt(Replaced(m, out), k) == if Skips(out, k) > 0 then BLANK else ObjectAt(m, k)
  {
  }

  lemma ShapeBasics(m: Groups, now: Groups)
    requires SameShape(m, now)
    ensures WellFormed(m) <==> WellFormed(now)
    ensures EndOf(m) == EndOf(now) && forall k :: (IsCursor(m, k) <==> IsCursor(now, k)) && (InMedia(m, k) <==> InMedia(now, k))
    ensures forall k :: AtGroupEnd(m, k) <==> AtGroupEnd(now, k)
  {
    if !WellFormed(m) || !WellFormed(now) {
      var g :| 0 <= g < |m| && (m[g] == [] || now[g] == []);
      assert |m[g]| == |now[g]|;
    }
  }

  lemma {:induction false} ShapeStarts(m: Groups, now: Groups, g: nat)
    requires SameShape(m, now) && g <= |m|
    ensures GroupStart(m, g) == GroupStart(now, g)
  {
    if g > 0 {
      ShapeStarts(m, now, g - 1);
    }
  }

  lemma ShapeRanks(m: Groups, now: Groups, k: Key)
    requires SameShape(m, now) && IsCursor(m, k)
    ensures IsCursor(now, k) && Rank(m, k) == Rank(now, k) && Count(m) == Count(now)
  {
    ShapeBasics(m, now);
    ShapeStarts(m, now, |m|);
    if m != [] {
      ShapeStarts(m, now, k.group);
    }
  }

  lemma {:induction false} ShapeFollow(m: Groups, now: Groups, start: Key, out: seq<Message>)
    requires SameShape(m, now)
    ensures Follow(m, start, out) == Follow(now, start, out)
  {
    if out != [] {
      hide SameShape;
      ShapeFollow(m, now, start, out[..|out| - 1]);
      ShapeBasics(m, now);
    }
  }

  lemma SliceElsewhere(m: Groups, now: Groups, ks: set<Key>, f: Fragment)
    requires SameExcept(m, now, ks) && IsSolidSlice(m, f) && f.key !in ks
    ensures IsSolidSlice(now, f)
  {
  }

  lemma TrueElsewhere(m: Groups, now: Groups, ks: set<Key>, start: Key, f: Fragment)
    requires SameExcept(m, now, ks) && TrueFrom(m, start, f) && f.key !in ks
    ensures TrueFrom(now, start, f)
  {
    if IsSolidSlice(m, f) {
      SliceElsewhere(m, now, ks, f);
    } else {
      SliceElsewhere(m, now, ks, f.(previousSize := SizeOfPrevious(m, start.group)));
    }
  }

  // ----- One more message -----

  lemma SkipsMore(out: seq<Message>, message: Message, k: Key)
    ensures Skips(out + [message], k) == Skips(out, k) + if message == Skipped(k) then 1 else 0
  {
    OneMore(out, message, k);
  }

  /** Only a placeholder changes the media behind, and only in the object that it replaces. */
  lemma ReplacedMore(m: Groups, out: seq<Message>, message: Message)
    ensures SameExcept(Replaced(m, out), Replaced(m, out + [message]), if message.Skipped? then {message.key} else {})
  {
    ReplacedObject(m, out);
    ReplacedObject(m, out + [message]);
    forall k: Key ensures Skips(out + [message], k) == Skips(out, k) + if message == Skipped(k) then 1 else 0 {
      SkipsMore(out, message, k);
    }
  }

  lemma ReplacedElsewhere(m: Groups, now: Groups, ks: set<Key>, out: seq<Message>)
    requires SameExcept(m, now, ks)
    ensures SameExcept(Replaced(m, out), Replaced(now, out), ks)
  {
    ReplacedObject(m, out);
    ReplacedObject(now, out);
  }

  // ----- What is sent is true of the media behind -----

  /** An object that was replaced has data, and is not the first of its group. */
  ghost predicate Replaceable(m: Groups, out: seq<Message>) {
    forall i :: 0 <= i < |out| && out[i].Skipped? ==>
      InMedia(m, out[i].key) && out[i].key.id != 0 && ObjectAt(m, out[i].key).data != []
  }

  lemma PlaceholderIsTrue(m: Groups, k: Key)
    requires InMedia(m, k) && ObjectAt(m, k) == BLANK && k.id != 0
    ensures IsSolidSlice(m, PlaceholderOf(k))
  {
  }

  lemma {:induction false} SkipsOf(out: seq<Message>, i: nat)
    requires i < |out|
    ensures out[i].Skipped? ==> Skips(out, out[i].key) > 0
    ensures out[i].Chunk? ==> Chunks(out, out[i].fragment.key) > 0
  {
    if i < |out| - 1 {
      SkipsOf(out[..|out| - 1], i);
    }
  }

  lemma TellsOneKind(m: Groups, out: seq<Message>, start: nat, r: nat, o: nat, x: Key)
    requires InMedia(m, x) && Tells(m, out, start, r, o, x)
    ensures Skips(out, x) > 0 ==> Chunks(out, x) == 0
  {
  }

  /** A message carries the same to the media behind as to the one it was made from. */
  lemma NextWired(m: Groups, k: Key, o: nat, message: Message)
    ensures Next(m, k, o, message).Some? ==> Next(m, k, o, Wire(message)) == Next(m, k, o, message)
  {
  }

  lemma {:induction false} FollowWired(m: Groups, start: Key, out: seq<Message>)
    ensures Follow(m, start, out).Some? ==> Follow(m, start, Wired(out)) == Follow(m, start, out)
  {
    if out != [] {
      hide Next, Wire;
      var (before, last) := (out[..|out| - 1], out[|out| - 1]);
      assert out == before + [last];
      FollowWired(m, start, before);
      WiredUnfold(before, last);
      FollowUnfold(m, start, Wired(before), Wire(last));
      FollowUnfold(m, start, before, last);
      if Follow(m, start, before).Some? {
        var (k, o) := Follow(m, start, before).value;
        NextWired(m, k, o, last);
      }
    }
  }

  /** What a sender sent in sequence is, on the wire, in sequence and true of the media behind. */
  lemma WiredIsTrue(m: Groups, start: Key, out: seq<Message>)
    requires WellFormed(m) && IsCursor(m, start) && AllTrue(m, start, out) && Follow(m, start, out).Some? && Replaceable(m, out)
    ensures AllTrue(Replaced(m, out), start, Wired(out))
    ensures Follow(Replaced(m, out), start, Wired(out)) == Follow(m, start, out)
  {
    hide TrueFrom, IsSolidSlice, Follow, Tells, SameShape;
    var now := Replaced(m, out);
    ReplacedObject(m, out);
    FollowWired(m, start, out);
    ShapeFollow(m, now, start, Wired(out));
    forall i | 0 <= i < |out| && Wired(out)[i].Chunk? ensures TrueFrom(now, start, Wired(out)[i].fragment) {
      SkipsOf(out, i);
      if out[i].Skipped? {
        ShapeBasics(m, now);
        PlaceholderIsTrue(now, out[i].key);
        SolidIsTrue(now, start, PlaceholderOf(out[i].key));
      } else {
        var f := out[i].fragment;
        assert TrueFrom(m, start, f);
        ChunkIsKept(m, start, out, f);
      }
    }
  }

  lemma SolidIsTrue(m: Groups, start: Key, f: Fragment)
    requires IsSolidSlice(m, f)
    ensures TrueFrom(m, start, f)
  {
  }

  lemma ChunkIsKept(m: Groups, start: Key, out: seq<Message>, f: Fragment)
    requires WellFormed(m) && IsCursor(m, start) && AllTrue(m, start, out) && Follow(m, start, out).Some?
    requires TrueFrom(m, start, f) && Chunks(out, f.key) > 0
    ensures TrueFrom(Replaced(m, out), start, f)
  {
    hide TrueFrom, Follow, Tells;
    SliceBytes(m, start, f);
    FollowedIsComplete(m, start, out, f.key);
    var (k, o) := Follow(m, start, out).value;
    TellsOneKind(m, out, Rank(m, start), Rank(m, k), o, f.key);
    var now := Replaced(m, out);
    ReplacedObject(m, out);
    var all := set g, i | 0 <= g < |m| && 0 <= i < |m[g]| :: Key(g, i);
    assert SameExcept(m, now, all - {f.key}) by {
      forall k | InMedia(m, k) && k !in all - {f.key} ensures ObjectAt(now, k) == ObjectAt(m, k) {
        assert k in all;
      }
    }
    TrueElsewhere(m, now, all - {f.key}, start, f);
  }

  // ----- The list of objects -----

  lemma ReplacedItem(m: Groups, now: Groups, i: nat)
    requires SameShape(m, now) && i < Count(m)
    ensures Count(now) == Count(m) && InMedia(m, Items(m)[i].key) && InMedia(now, Items(m)[i].key)
    ensures Items(m)[i].content == ObjectAt(m, Items(m)[i].key)
    ensures Items(now)[i] == Item(Items(m)[i].key, ObjectAt(now, Items(m)[i].key))
  {
    var k := KeyAt(m, i);
    ShapeBasics(m, now);
    ShapeRanks(m, now, k);
    ItemsAt(now, k);
  }
}
