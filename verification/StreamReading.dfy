/** What a list of stream messages tells a reader who takes them in order: a position, and for
    every object of the media its bytes so far. */
module StreamReading {
  import opened Media
  import opened StreamPublisher
  import FragmentCache

  /** The header of a fragment message is true of the media.  Only the very first object may
      leave the size of the previous group out. */
  ghost predicate TrueFrom(m: Groups, start: Key, f: Fragment) {
    || IsSolidSlice(m, f)
    || (f.key == start && f.offset == 0 && f.previousSize == 0 && InMedia(m, start) && start.id == 0 &&
        IsSolidSlice(m, f.(previousSize := SizeOfPrevious(m, start.group))))
  }

  /** All objects of group k.group are behind k. */
  predicate AtGroupEnd(m: Groups, k: Key) {
    k.group < |m| && k.id == |m[k.group]|
  }

  /** The position after one more message, if the message belongs there. */
  ghost function Next(m: Groups, k: Key, o: nat, message: Message): Option<(Key, nat)> {
    match message
    case Chunk(f) =>
      if f.key == k && f.offset == o then Some(FragmentCache.StepOver(k, o, f))
      else if f.key == Key(k.group + 1, 0) && f.offset == 0 && o == 0 && AtGroupEnd(m, k) then
        Some(FragmentCache.StepOver(f.key, 0, f))
      else None
    case Skipped(x) => if x == k && o == 0 && InMedia(m, k) then Some((After(k), 0)) else None
    case Fin(x) => if x == k && o == 0 && k == EndOf(m) then Some((k, o)) else None
  }

  /** The position after all messages, if each belongs where it comes. */
  ghost function Follow(m: Groups, start: Key, out: seq<Message>): Option<(Key, nat)> {
    if out == [] then Some((start, 0))
    else
      match Follow(m, start, out[..|out| - 1])
      case None => None
      case Some((k, o)) => Next(m, k, o, out[|out| - 1])
  }

  ghost predicate AllTrue(m: Groups, start: Key, out: seq<Message>) {
    forall i :: 0 <= i < |out| && out[i].Chunk? ==> TrueFrom(m, start, out[i].fragment)
  }

  /** All bytes the messages carry of object k, one after the other. */
  function BytesOf(out: seq<Message>, k: Key): seq<Byte> {
    if out == [] then []
    else
      var last := out[|out| - 1];
      BytesOf(out[..|out| - 1], k) + if last.Chunk? && last.fragment.key == k then last.fragment.data else []
  }

  /** How many messages of a kind concern object k. */
  function Chunks(out: seq<Message>, k: Key): nat {
    if out == [] then 0
    else
      var last := out[|out| - 1];
      Chunks(out[..|out| - 1], k) + if last.Chunk? && last.fragment.key == k then 1 else 0
  }

  function Skips(out: seq<Message>, k: Key): nat {
    if out == [] then 0 else Skips(out[..|out| - 1], k) + if out[|out| - 1] == Skipped(k) then 1 else 0
  }

  /** Object k was sent whole, in order, or was replaced by exactly one placeholder. */
  ghost predicate Complete(m: Groups, out: seq<Message>, k: Key)
    requires InMedia(m, k)
  {
    if Skips(out, k) > 0 then Skips(out, k) == 1 && Chunks(out, k) == 0 && BytesOf(out, k) == []
    else Chunks(out, k) > 0 && BytesOf(out, k) == ObjectAt(m, k).data
  }

  ghost predicate Untold(out: seq<Message>, k: Key) {
    Chunks(out, k) == 0 && Skips(out, k) == 0 && BytesOf(out, k) == []
  }

  ghost predicate Begun(m: Groups, out: seq<Message>, k: Key, o: nat)
    requires InMedia(m, k)
  {
    && Skips(out, k) == 0 && o <= |ObjectAt(m, k).data| && BytesOf(out, k) == ObjectAt(m, k).data[..o]
    && (o == 0 ==> Chunks(out, k) == 0)
  }

  /** What the messages say of object x, when they lead to position o of the object at rank r. */
  ghost predicate Tells(m: Groups, out: seq<Message>, start: nat, r: nat, o: nat, x: Key)
    requires InMedia(m, x)
  {
    if Rank(m, x) < start || r < Rank(m, x) then Untold(out, x)
    else if Rank(m, x) < r then Complete(m, out, x)
    else Begun(m, out, x, o)
  }

  lemma OneMore(out: seq<Message>, message: Message, x: Key)
    ensures var now := out + [message];
            && Skips(now, x) == Skips(out, x) + (if message == Skipped(x) then 1 else 0)
            && var mine := message.Chunk? && message.fragment.key == x;
               && Chunks(now, x) == Chunks(out, x) + (if mine then 1 else 0)
               && BytesOf(now, x) == BytesOf(out, x) + (if mine then message.fragment.data else [])
  {
    assert (out + [message])[..|out|] == out;
  }

  lemma SliceBytes(m: Groups, start: Key, f: Fragment)
    requires TrueFrom(m, start, f)
    ensures InMedia(m, f.key) && f.End() <= |ObjectAt(m, f.key).data| == f.objectLength
    ensures f.data == ObjectAt(m, f.key).data[f.offset..f.End()]
    ensures f.data != [] || f.objectLength == 0
  {
  }

  lemma StepRank(m: Groups, start: Key, k: Key, f: Fragment)
    requires WellFormed(m) && IsCursor(m, k) && TrueFrom(m, start, f)
    requires f.key == k || (f.key == Key(k.group + 1, 0) && AtGroupEnd(m, k))
    ensures InMedia(m, f.key) && Rank(m, f.key) == Rank(m, k) && Rank(m, After(f.key)) == Rank(m, k) + 1
    ensures forall x :: InMedia(m, x) && Rank(m, x) == Rank(m, k) ==> x == f.key
  {
    SliceBytes(m, start, f);
    forall x | InMedia(m, x) && Rank(m, x) == Rank(m, k) ensures x == f.key {
      RankOrders(m, f.key, x);
    }
  }

  /** The chunk that the position expects. */
  lemma ChunkTells(m: Groups, start: Key, out: seq<Message>, k: Key, o: nat, f: Fragment, x: Key)
    requires WellFormed(m) && IsCursor(m, start) && IsCursor(m, k) && Rank(m, start) <= Rank(m, k) && InMedia(m, x)
    requires TrueFrom(m, start, f) && Tells(m, out, Rank(m, start), Rank(m, k), o, x)
    requires (f.key == k && f.offset == o) || (f.key == Key(k.group + 1, 0) && AtGroupEnd(m, k) && f.offset == o == 0)
    ensures var (k', o') := FragmentCache.StepOver(f.key, o, f);
            IsCursor(m, k') && Tells(m, out + [Chunk(f)], Rank(m, start), Rank(m, k'), o', x)
  {
    hide AtGroupEnd, TrueFrom, Rank, IsCursor, InMedia;
    SliceBytes(m, start, f);
    StepRank(m, start, k, f);
    OneMore(out, Chunk(f), x);
    var data := ObjectAt(m, f.key).data;
    assert data[..f.offset] + data[f.offset..f.End()] == data[..f.End()];
    assert data[..|data|] == data;
    RankAfter(m, f.key);
    CursorOf(m, f.key);
  }

  lemma CursorOf(m: Groups, k: Key)
    requires InMedia(m, k)
    ensures IsCursor(m, k)
  {
  }

  lemma SkipTells(m: Groups, start: Key, out: seq<Message>, k: Key, x: Key)
    requires IsCursor(m, start) && InMedia(m, k) && Rank(m, start) <= Rank(m, k) && InMedia(m, x)
    requires Tells(m, out, Rank(m, start), Rank(m, k), 0, x)
    ensures IsCursor(m, After(k)) && Tells(m, out + [Skipped(k)], Rank(m, start), Rank(m, After(k)), 0, x)
  {
    OneMore(out, Skipped(k), x);
    RankAfter(m, k);
    RankOrders(m, k, x);
  }

  lemma NothingTold(m: Groups, start: Key, x: Key)
    requires IsCursor(m, start) && InMedia(m, x)
    ensures Tells(m, [], Rank(m, start), Rank(m, start), 0, x)
  {
  }

  lemma FollowUnfold(m: Groups, start: Key, out: seq<Message>, message: Message)
    ensures Follow(m, start, out + [message]) ==
            match Follow(m, start, out) case None => None case Some((k, o)) => Next(m, k, o, message)
  {
    assert (out + [message])[..|out|] == out;
  }

  /** Messages that can be followed and are true say everything once: up to the position they
      lead to, each object was sent whole and in order or was replaced by exactly one
      placeholder, and nothing was said of any other object. */
  lemma {:induction false} FollowedIsComplete(m: Groups, start: Key, out: seq<Message>, x: Key)
    requires WellFormed(m) && IsCursor(m, start) && AllTrue(m, start, out) && Follow(m, start, out).Some? && InMedia(m, x)
    ensures var (k, o) := Follow(m, start, out).value;
            IsCursor(m, k) && Rank(m, start) <= Rank(m, k) && Tells(m, out, Rank(m, start), Rank(m, k), o, x)
  {
    hide Tells, IsCursor, InMedia, Rank, TrueFrom, WellFormed;
    if out == [] {
      NothingTold(m, start, x);
    } else {
      var (before, last) := (out[..|out| - 1], out[|out| - 1]);
      assert out == before + [last];
      FollowUnfold(m, start, before, last);
      FollowedIsComplete(m, start, before, x);
      var (k, o) := Follow(m, start, before).value;
      match last {
        case Chunk(f) =>
          assert TrueFrom(m, start, f);
          ChunkTells(m, start, before, k, o, f, x);
          StepRank(m, start, k, f);
          RankKept(m, k, f, o);
        case Skipped(_) =>
          SkipTells(m, start, before, k, x);
          RankAfter(m, k);
        case Fin(y) =>
          FinTells(m, before, Rank(m, start), Rank(m, k), o, y, x);
      }
    }
  }

  lemma RankKept(m: Groups, k: Key, f: Fragment, o: nat)
    requires InMedia(m, f.key) && IsCursor(m, k) && IsCursor(m, f.key) && IsCursor(m, After(f.key))
    requires Rank(m, f.key) == Rank(m, k) && Rank(m, After(f.key)) == Rank(m, k) + 1
    ensures var (k', o') := FragmentCache.StepOver(f.key, o, f);
            (k' == After(f.key) || k' == f.key) && Rank(m, k) <= Rank(m, k')
  {
  }

  lemma FinTells(m: Groups, out: seq<Message>, start: nat, r: nat, o: nat, y: Key, x: Key)
    requires InMedia(m, x) && Tells(m, out, start, r, o, x)
    ensures Tells(m, out + [Fin(y)], start, r, o, x)
  {
    OneMore(out, Fin(y), x);
  }
}
