/** The promises of the stream sender, over every interleaving of cache changes and offers of
    space.  Its position and the publisher's agree, what it sends is true of the media and in
    sequence, and the final point comes exactly at the end. */
module StreamDelivery {
  import opened Media
  import opened StreamPublisher
  import opened StreamReading
  import FragmentCache

  /** What the publisher may find in the cache: slices of the media, and a final point that is
      unknown or right. */
  ghost predicate Stocked(m: Groups, c: Store) {
    (forall f :: f in c.tree ==> IsSolidSlice(m, f)) && (c.final == Key(0, 0) || c.final == EndOf(m))
  }

  /** A header is not longer for less data. */
  ghost predicate Shrinks(header: Label -> nat) {
    forall l: Label, n: nat :: n <= l.length ==> header(l.(length := n)) <= header(l)
  }

  /** The space takes the header that is guessed, and the true one if there is anything to send,
      with a byte to spare. */
  ghost predicate HasRoom(w: Line, c: Store, space: nat, header: Label -> nat) {
    && Shrinks(header) && Guess(w.sender, space, header) < space
    && (Announce(w.publisher, c, space - Guess(w.sender, space, header)).isActive ==>
          header(Intended(w, c, space, header)) < space)
  }

  /** A verdict to skip makes no difference, or falls on the front of an object. */
  predicate Harmless(w: Line, c: Store, space: nat, verdict: bool, header: Label -> nat) {
    var message := Offer(w, c, space, verdict, header).1;
    message.Some? && message.value.Skipped? ==> w.sender.offset == 0
  }

  // ----- Agreement -----

  /** The fragment in hand is a slice that begins where the previous ones ended. */
  ghost predicate InHand(m: Groups, p: Publisher, f: Fragment) {
    && IsSolidSlice(m, f) && f.key == Key(p.group, p.id) && f.offset == p.offset
    && if f.data == [] then p.lengthSent == 0 else p.lengthSent < |f.data|
  }

  /** The sender's position is the publisher's, but for an object that was skipped and that the
      publisher has not left yet. */
  ghost predicate Agree(m: Groups, p: Publisher, s: Sender) {
    if p.isSkipped then
      s == Sender(p.group, p.id + 1, 0) && p.lengthSent == 0 && InMedia(m, Key(p.group, p.id))
    else
      && s == Sender(p.group, p.id, p.offset + p.lengthSent)
      && (p.current.None? ==> p.lengthSent == 0)
      && (p.offset > 0 ==> InMedia(m, Key(p.group, p.id)))
      && (p.current.Some? ==> InHand(m, p, p.current.value))
  }

  /** An empty object that is not a placeholder: the sender takes it for the absence of data. */
  predicate Unsendable(f: Fragment) {
    f.data == [] && f.flags != 255
  }

  /** Between offers, a fragment in hand was begun, or cannot be sent; and only the start of the
      whole delivery may be the front of a group. */
  ghost predicate Settled(start: Key, p: Publisher) {
    !p.isSkipped ==>
      && (p.current.Some? ==> p.lengthSent > 0 || Unsendable(p.current.value))
      && (p.current.None? && p.id == 0 && p.offset == 0 ==> p.group == 0 || Key(p.group, 0) == start)
  }

  /** Where the messages lead is where the sender is; but when the first object of a group cannot
      be sent, the sender has entered the group and said nothing of it. */
  ghost predicate Reached(m: Groups, w: Line, k: Key, o: nat) {
    var (p, s) := (w.publisher, w.sender);
    || (k, o) == (s.At(), s.offset)
    || (AtGroupEnd(m, k) && o == 0 && s == Sender(k.group + 1, 0, 0) && p.current.Some? && Unsendable(p.current.value) && !p.isSkipped)
  }

  ghost predicate Invariant(m: Groups, start: Key, w: Line, out: seq<Message>) {
    && WellFormed(m) && IsCursor(m, start) && IsCursor(m, w.sender.At())
    && Agree(m, w.publisher, w.sender) && Settled(start, w.publisher)
    && AllTrue(m, start, out) && Follow(m, start, out).Some?
    && var (k, o) := Follow(m, start, out).value; Reached(m, w, k, o)
  }

  // ----- Locating the next fragment -----

  lemma OverIsEnd(m: Groups, c: Store, k: Key)
    requires WellFormed(m) && Stocked(m, c) && IsCursor(m, k)
    ensures IsOver(c.final, k) ==> k == EndOf(m)
    ensures InMedia(m, k) ==> !IsOver(c.final, k)
  {
  }

  /** The fragment found, if any, is the one to send next. */
  ghost predicate Right(m: Groups, p: Publisher, s: Sender, found: Found) {
    var (now, s1) := (found.publisher, Regrouped(s, found.isNewGroup));
    && Agree(m, now, s1)
    && (found.isFinished ==> s.offset == 0 && s.At() == EndOf(m))
    && (found.isNewGroup ==>
          && s.group + 1 < |m| && s.offset == 0 && AtGroupEnd(m, s.At()) && s.id == SizeOfPrevious(m, s.group + 1)
          && now.current.Some? && !now.isSkipped && now.lengthSent == 0 && now.offset == 0)
  }

  lemma PastSkippedIsRight(m: Groups, p: Publisher, s: Sender, c: Store)
    requires WellFormed(m) && Stocked(m, c) && IsCursor(m, s.At()) && Agree(m, p, s) && p.isSkipped
    ensures Right(m, p, s, PastSkipped(p, c))
  {
    hide FragmentCache.StepOver;
    var next := Get(c.tree, Key(p.group, p.id + 1), 0);
    if next.Some? {
      assert IsSolidSlice(m, next.value);
    } else {
      var first := Get(c.tree, Key(p.group + 1, 0), 0);
      if first.Some? {
        assert IsSolidSlice(m, first.value);
      }
      OverIsEnd(m, c, Key(p.group, p.id + 1));
    }
  }

  lemma ExpectedIsRight(m: Groups, p: Publisher, s: Sender, c: Store)
    requires WellFormed(m) && Stocked(m, c) && IsCursor(m, s.At()) && Agree(m, p, s) && !p.isSkipped && p.current.None?
    ensures Right(m, p, s, Expected(p, c))
    ensures Expected(p, c).publisher.current.Some? && !Expected(p, c).isNewGroup ==>
              Expected(p, c).publisher == p.(current := Expected(p, c).publisher.current)
  {
    var next := Get(c.tree, Key(p.group, p.id), p.offset);
    if next.Some? {
      assert IsSolidSlice(m, next.value);
    } else {
      var first := Get(c.tree, Key(p.group + 1, 0), 0);
      if first.Some? {
        assert IsSolidSlice(m, first.value);
      }
    }
  }

  lemma LocateIsRight(m: Groups, p: Publisher, s: Sender, c: Store)
    requires WellFormed(m) && Stocked(m, c) && IsCursor(m, s.At()) && Agree(m, p, s)
    ensures Right(m, p, s, Locate(p, c))
    ensures IsOver(c.final, Key(p.group, p.id)) ==> Locate(p, c) == Found(p, false, true) && p.current.None? && !p.isSkipped
    ensures !IsOver(c.final, Key(p.group, p.id)) && Locate(p, c).publisher.current.Some? ==>
              !Locate(p, c).isFinished && !Locate(p, c).publisher.isSkipped
    ensures p.current.Some? && !p.isSkipped ==> Locate(p, c).publisher == p && !Locate(p, c).isNewGroup
    ensures Locate(p, c).publisher.current.Some? && !Locate(p, c).isNewGroup && Locate(p, c).publisher.id == 0 ==>
              !p.isSkipped && Locate(p, c).publisher == p.(current := Locate(p, c).publisher.current)
  {
    hide Stocked;
    if p.isSkipped {
      OverIsEnd(m, c, Key(p.group, p.id));
      PastSkippedIsRight(m, p, s, c);
    } else if IsOver(c.final, Key(p.group, p.id)) {
      OverIsEnd(m, c, s.At());
      NoFragmentAtEnd(m, p);
    } else if p.current.None? {
      ExpectedIsRight(m, p, s, c);
    }
  }

  lemma NoFragmentAtEnd(m: Groups, p: Publisher)
    requires Key(p.group, p.id) == EndOf(m)
    ensures p.current.Some? ==> !InHand(m, p, p.current.value)
  {
  }

  // ----- One message -----

  /** The bytes from a fragment in hand, under a header that gives the size of the previous group
      where it belongs, or leaves it out at the start. */
  lemma ChunkIsTrue(m: Groups, start: Key, p: Publisher, previousSize: nat, n: nat)
    requires p.current.Some? && InHand(m, p, p.current.value) && n <= Remaining(p)
    requires n > 0 || p.current.value.data == []
    requires if p.id == 0 && p.offset + p.lengthSent == 0 then
               previousSize == SizeOfPrevious(m, p.group) || (previousSize == 0 && Key(p.group, 0) == start)
             else previousSize == 0
    ensures var f := p.current.value;
            TrueFrom(m, start, Fragment(f.key, p.offset + p.lengthSent, f.flags, previousSize, f.objectLength,
                                        f.data[p.lengthSent..p.lengthSent + n]))
  {
    var f := p.current.value;
    SliceOfSlice(ObjectAt(m, f.key).data, f.offset, f.End(), p.lengthSent, p.lengthSent + n);
  }

  /** The publisher after a copy, and the sender after the same count, agree again. */
  lemma AdvanceAgrees(m: Groups, p: Publisher, s: Sender, n: nat)
    requires p.current.Some? && !p.isSkipped && Agree(m, p, s) && n <= Remaining(p)
    requires n > 0 || p.current.value.data == []
    ensures var f := p.current.value;
            var s2 := if s.offset + n >= f.objectLength then PassedObject(s) else s.(offset := s.offset + n);
            var p2 := Advanced(p, n);
            && Agree(m, p2, s2) && IsCursor(m, s2.At()) && !p2.isSkipped
            && (p2.current.Some? ==> p2.lengthSent > 0) && (p2.id > 0 || p2.offset > 0 || p2.current.Some?)
            && (s2.At(), s2.offset) == FragmentCache.StepOver(f.key, s.offset, f.(data := f.data[p.lengthSent..p.lengthSent + n]))
  {
    var f := p.current.value;
    InHandBounds(m, p, f);
    assert |f.data[p.lengthSent..p.lengthSent + n]| == n;
    hide IsSolidSlice;
  }

  lemma InHandBounds(m: Groups, p: Publisher, f: Fragment)
    requires InHand(m, p, f)
    ensures InMedia(m, f.key) && f.key == Key(p.group, p.id) && f.End() <= f.objectLength && p.lengthSent <= |f.data|
    ensures f.data == [] ==> f.objectLength == 0
  {
  }

  /** A copy takes what was announced, from the fragment in hand. */
  lemma CopyIsExact(m: Groups, p: Publisher, s: Sender, c: Store, n: nat)
    requires WellFormed(m) && Stocked(m, c) && p.current.Some? && !p.isSkipped && Agree(m, p, s) && n <= Remaining(p)
    ensures Copy(p, c, n) == (p.current.value.data[p.lengthSent..p.lengthSent + n], Advanced(p, n))
  {
    hide Stocked, Advanced;
    CursorOf(m, Key(p.group, p.id));
    OverIsEnd(m, c, Key(p.group, p.id));
  }

  lemma FittedBounds(l: Label, guess: nat, space: nat, header: Label -> nat)
    requires Shrinks(header) && header(l) < space && l.length <= space - guess && guess < space
    ensures var n := Fitted(l, guess, space, header);
            n <= l.length && (l.length > 0 ==> n > 0) && header(l.(length := n)) + n <= space
  {
    var n := Fitted(l, guess, space, header);
    assert header(l.(length := n)) <= header(l);
  }

  // ----- One offer -----

  function Listed(message: Option<Message>): seq<Message> {
    if message.Some? then [message.value] else []
  }

  lemma ReachedIsSame(m: Groups, w: Line, k: Key, o: nat)
    requires Reached(m, w, k, o) && !(w.publisher.current.Some? && !w.publisher.isSkipped && Unsendable(w.publisher.current.value))
    ensures (k, o) == (w.sender.At(), w.sender.offset)
  {
  }

  /** Nothing goes out, or the final point does. */
  lemma QuietKeeps(m: Groups, start: Key, w: Line, out: seq<Message>, found: Found)
    requires Invariant(m, start, w, out) && Right(m, w.publisher, w.sender, found)
    requires Settled(start, found.publisher)
    requires found.isNewGroup ==> Unsendable(found.publisher.current.value) && (w.publisher.current.None? || w.publisher.isSkipped)
    requires !found.isNewGroup && w.publisher.current.Some? && !w.publisher.isSkipped ==> found.publisher.current == w.publisher.current && !found.publisher.isSkipped
    ensures Invariant(m, start, Line(found.publisher, Regrouped(w.sender, found.isNewGroup)), out)
  {
    hide Follow, AllTrue, WellFormed;
    var (k, o) := Follow(m, start, out).value;
  }

  lemma FinKeeps(m: Groups, start: Key, w: Line, out: seq<Message>)
    requires Invariant(m, start, w, out) && w.sender.offset == 0 && w.sender.At() == EndOf(m)
    requires w.publisher.current.None? || w.publisher.isSkipped
    ensures Invariant(m, start, w, out + [Fin(w.sender.At())])
  {
    hide AllTrue, WellFormed, Agree, Settled;
    var (k, o) := Follow(m, start, out).value;
    FollowUnfold(m, start, out, Fin(w.sender.At()));
    AllTrueMore(m, start, out, Fin(w.sender.At()));
  }

  lemma AllTrueMore(m: Groups, start: Key, out: seq<Message>, message: Message)
    requires AllTrue(m, start, out) && (message.Chunk? ==> TrueFrom(m, start, message.fragment))
    ensures AllTrue(m, start, out + [message])
  {
  }

  /** A message that belongs at the sender's position. */
  lemma SpokenKeeps(m: Groups, start: Key, w: Line, out: seq<Message>, w': Line, message: Message)
    requires Invariant(m, start, w, out)
    requires !(w.publisher.current.Some? && !w.publisher.isSkipped && Unsendable(w.publisher.current.value))
    requires message.Chunk? ==> TrueFrom(m, start, message.fragment)
    requires Next(m, w.sender.At(), w.sender.offset, message) == Some((w'.sender.At(), w'.sender.offset))
    requires Agree(m, w'.publisher, w'.sender) && Settled(start, w'.publisher) && IsCursor(m, w'.sender.At())
    ensures Invariant(m, start, w', out + [message])
  {
    hide AllTrue, WellFormed, Agree, Settled, Next, TrueFrom, IsCursor;
    var (k, o) := Follow(m, start, out).value;
    ReachedIsSame(m, w, k, o);
    FollowUnfold(m, start, out, message);
    AllTrueMore(m, start, out, message);
  }

  /** The size of the previous group that goes into the header belongs there. */
  lemma PreviousSizeIsRight(m: Groups, start: Key, w: Line, found: Found)
    requires Agree(m, w.publisher, w.sender) && Settled(start, w.publisher) && Right(m, w.publisher, w.sender, found)
    requires var now := found.publisher;
             && now.current.Some? && !now.isSkipped
             && (!found.isNewGroup && now.id == 0 ==> !w.publisher.isSkipped && now == w.publisher.(current := now.current))
             && !Unsendable(now.current.value)
    requires w.publisher.current.Some? && !w.publisher.isSkipped ==> found.publisher.current == w.publisher.current
    ensures var p := found.publisher;
            var previousSize := if found.isNewGroup then w.sender.id else 0;
            if p.id == 0 && p.offset + p.lengthSent == 0 then
              p.group < |m| && (previousSize == SizeOfPrevious(m, p.group) || (previousSize == 0 && Key(p.group, 0) == start))
            else previousSize == 0
  {
  }

  lemma ChunkKeeps(m: Groups, start: Key, w: Line, out: seq<Message>, c: Store, found: Found, n: nat)
    requires Invariant(m, start, w, out) && Stocked(m, c) && found == Locate(w.publisher, c)
    requires !IsOver(c.final, Key(w.publisher.group, w.publisher.id)) && found.publisher.current.Some?
    requires !Unsendable(found.publisher.current.value)
    requires n <= Remaining(found.publisher) && (n > 0 || found.publisher.current.value.data == [])
    ensures var (p1, s1) := (found.publisher, Regrouped(w.sender, found.isNewGroup));
            var (data, p2) := Copy(p1, c, n);
            var f := p1.current.value;
            var previousSize := if found.isNewGroup then w.sender.id else 0;
            var s2 := if s1.offset + n >= f.objectLength then PassedObject(s1) else s1.(offset := s1.offset + n);
            && |data| == n
            && Invariant(m, start, Line(p2, s2),
                         out + [Chunk(Fragment(s1.At(), s1.offset, f.flags, previousSize, f.objectLength, data))])
  {
    hide *;
    var (p1, s1) := (found.publisher, Regrouped(w.sender, found.isNewGroup));
    var f := p1.current.value;
    var previousSize := if found.isNewGroup then w.sender.id else 0;
    InvariantParts(m, start, w, out);
    LocateIsRight(m, w.publisher, w.sender, c);
    RightParts(m, w.publisher, w.sender, found);
    CopyIsExact(m, p1, s1, c, n);
    AdvanceAgrees(m, p1, s1, n);
    PreviousSizeIsRight(m, start, w, found);
    ChunkIsTrue(m, start, p1, previousSize, n);
    var s2 := if s1.offset + n >= f.objectLength then PassedObject(s1) else s1.(offset := s1.offset + n);
    var chunk := Fragment(s1.At(), s1.offset, f.flags, previousSize, f.objectLength, f.data[p1.lengthSent..p1.lengthSent + n]);
    NextIsIt(m, w, found, chunk);
    StepOverSame(f.key, s1.offset, chunk, f.(data := chunk.data));
    SettledAfter(start, Advanced(p1, n));
    SpokenKeeps(m, start, w, out, Line(Advanced(p1, n), s2), Chunk(chunk));
  }

  lemma InvariantParts(m: Groups, start: Key, w: Line, out: seq<Message>)
    requires Invariant(m, start, w, out)
    ensures WellFormed(m) && IsCursor(m, w.sender.At()) && Agree(m, w.publisher, w.sender) && Settled(start, w.publisher)
    ensures w.publisher.current.Some? && !w.publisher.isSkipped && w.publisher.lengthSent > 0 ==>
              !Unsendable(w.publisher.current.value)
  {
  }

  lemma RightParts(m: Groups, p: Publisher, s: Sender, found: Found)
    requires Right(m, p, s, found)
    ensures Agree(m, found.publisher, Regrouped(s, found.isNewGroup))
    ensures found.publisher.current.Some? && !found.publisher.isSkipped ==>
              var (now, s1) := (found.publisher, Regrouped(s, found.isNewGroup));
              && InHand(m, now, now.current.value) && now.current.value.key == s1.At() == Key(now.group, now.id)
              && s1.offset == now.offset + now.lengthSent && now.lengthSent <= |now.current.value.data|
              && Remaining(now) == |now.current.value.data| - now.lengthSent
  {
  }

  lemma NextIsIt(m: Groups, w: Line, found: Found, f: Fragment)
    requires Right(m, w.publisher, w.sender, found)
    requires var s1 := Regrouped(w.sender, found.isNewGroup); f.key == s1.At() && f.offset == s1.offset
    ensures Next(m, w.sender.At(), w.sender.offset, Chunk(f)) == Some(FragmentCache.StepOver(f.key, f.offset, f))
  {
  }

  lemma StepOverSame(k: Key, o: nat, f: Fragment, g: Fragment)
    requires f.data == g.data && f.objectLength == g.objectLength
    ensures FragmentCache.StepOver(k, o, f) == FragmentCache.StepOver(k, o, g)
  {
  }

  lemma SettledAfter(start: Key, p: Publisher)
    requires !p.isSkipped && (p.current.Some? ==> p.lengthSent > 0) && (p.id > 0 || p.offset > 0 || p.current.Some?)
    ensures Settled(start, p)
  {
  }

  lemma AnnounceUnfold(p: Publisher, c: Store, space: nat)
    ensures var (r, now) := (Announce(p, c, space), Locate(p, c).publisher);
            && r.found == Locate(p, c)
            && (r.isActive <==> !IsOver(c.final, Key(p.group, p.id)) && now.current.Some?)
            && (!r.isActive ==> r.available == 0 && r.flags == 0)
            && (r.isActive ==>
                  && r.flags == now.current.value.flags && r.objectLength == now.current.value.objectLength
                  && r.available == if space >= Remaining(now) then Remaining(now) else space)
  {
    hide Locate;
  }

  /** An offer of space keeps the invariant, if a verdict to skip is harmless; and what goes out,
      header and data, fits into the space. */
  lemma OfferKeeps(m: Groups, start: Key, w: Line, out: seq<Message>, c: Store, space: nat, verdict: bool, header: Label -> nat)
    requires Invariant(m, start, w, out) && Stocked(m, c) && HasRoom(w, c, space, header)
    requires Harmless(w, c, space, verdict, header)
    ensures var (w', message) := Offer(w, c, space, verdict, header);
            && Invariant(m, start, w', out + Listed(message))
            && (message.Some? && message.value.Chunk? ==>
                  var f := message.value.fragment;
                  header(Label(f.key, f.offset, f.previousSize, f.objectLength, |f.data|)) + |f.data| <= space)
  {
    hide *;
    var guess := Guess(w.sender, space, header);
    RoomParts(w, c, space, header);
    HarmlessSkips(w, c, space, verdict, header);
    OfferUnfold(w, c, space, verdict, header);
    AnnounceUnfold(w.publisher, c, space - guess);
    InvariantParts(m, start, w, out);
    LocateIsRight(m, w.publisher, w.sender, c);
    var r := Announce(w.publisher, c, space - guess);
    var p1, s1 := r.found.publisher, Regrouped(w.sender, r.found.isNewGroup);
    RightParts(m, w.publisher, w.sender, r.found);
    assert out + [] == out;
    Nothing();
    if r.isActive {
      var f := p1.current.value;
      if verdict && Remaining(p1) > 0 && f.key.id != 0 && w.sender.id != 0 {
        SkipKeeps(m, start, w, out, r.found);
      } else if r.available == 0 && r.flags != 255 {
        NothingRemains(m, p1);
        StuckKeeps(m, start, w, out, r.found);
      } else {
        var l := Intended(w, c, space, header);
        FittedBounds(l, guess, space, header);
        NothingRemains(m, p1);
        ChunkKeeps(m, start, w, out, c, r.found, Fitted(l, guess, space, header));
      }
    } else {
      IdleKeeps(m, start, w, out, c, r.found);
    }
  }

  lemma Nothing()
    ensures Listed(None) == [] && forall x :: Listed(Some(x)) == [x]
  {
  }

  lemma RoomParts(w: Line, c: Store, space: nat, header: Label -> nat)
    requires HasRoom(w, c, space, header)
    ensures var guess := Guess(w.sender, space, header);
            var r := Announce(w.publisher, c, space - guess);
            var s1 := Regrouped(w.sender, r.found.isNewGroup);
            && Shrinks(header) && guess < space && (r.isActive ==> header(Intended(w, c, space, header)) < space)
            && Intended(w, c, space, header) ==
                 Label(s1.At(), s1.offset, if r.found.isNewGroup then w.sender.id else 0, r.objectLength, r.available)
  {
  }

  lemma HarmlessSkips(w: Line, c: Store, space: nat, verdict: bool, header: Label -> nat)
    requires Harmless(w, c, space, verdict, header)
    ensures var message := Offer(w, c, space, verdict, header).1;
            message.Some? && message.value.Skipped? ==> w.sender.offset == 0
  {
    hide Offer;
  }

  lemma NothingRemains(m: Groups, p: Publisher)
    requires p.current.Some? && InHand(m, p, p.current.value)
    ensures Remaining(p) == 0 <==> p.current.value.data == []
    ensures Remaining(p) == 0 && p.current.value.flags != 255 <==> Unsendable(p.current.value)
  {
  }

  lemma SkipKeeps(m: Groups, start: Key, w: Line, out: seq<Message>, found: Found)
    requires Invariant(m, start, w, out) && Right(m, w.publisher, w.sender, found) && w.sender.offset == 0
    requires var p := found.publisher; p.current.Some? && !p.isSkipped && Remaining(p) > 0 && p.current.value.key.id != 0
    requires w.publisher.current.Some? && !w.publisher.isSkipped ==> found.publisher == w.publisher
    ensures var s1 := Regrouped(w.sender, found.isNewGroup);
            Invariant(m, start, Line(found.publisher.(isSkipped := true), PassedObject(s1)), out + [Skipped(s1.At())])
  {
    hide Follow, AllTrue, WellFormed;
    var s1 := Regrouped(w.sender, found.isNewGroup);
    SpokenKeeps(m, start, w, out, Line(found.publisher.(isSkipped := true), PassedObject(s1)), Skipped(s1.At()));
  }

  lemma StuckKeeps(m: Groups, start: Key, w: Line, out: seq<Message>, found: Found)
    requires Invariant(m, start, w, out) && Right(m, w.publisher, w.sender, found)
    requires found.publisher.current.Some? && !found.publisher.isSkipped && Unsendable(found.publisher.current.value)
    requires w.publisher.current.Some? && !w.publisher.isSkipped ==> found.publisher == w.publisher && !found.isNewGroup
    ensures Invariant(m, start, Line(found.publisher, Regrouped(w.sender, found.isNewGroup)), out)
  {
    hide Follow, AllTrue, WellFormed;
    if found.isNewGroup {
      QuietKeeps(m, start, w, out, found);
    }
  }

  lemma IdleKeeps(m: Groups, start: Key, w: Line, out: seq<Message>, c: Store, found: Found)
    requires Invariant(m, start, w, out) && Stocked(m, c) && found == Locate(w.publisher, c)
    requires IsOver(c.final, Key(w.publisher.group, w.publisher.id)) || found.publisher.current.None?
    ensures var w' := Line(found.publisher, Regrouped(w.sender, found.isNewGroup));
            if found.isFinished then Invariant(m, start, w', out + [Fin(w'.sender.At())]) else Invariant(m, start, w', out)
  {
    LocateIsRight(m, w.publisher, w.sender, c);
    IdleSettles(start, w.publisher, c);
    hide Follow, AllTrue, WellFormed, Locate, Settled, Stocked, IsOver;
    QuietKeeps(m, start, w, out, found);
    if found.isFinished {
      FinKeeps(m, start, Line(found.publisher, w.sender), out);
    }
  }

  lemma IdleSettles(start: Key, p: Publisher, c: Store)
    requires Settled(start, p) && (IsOver(c.final, Key(p.group, p.id)) || Locate(p, c).publisher.current.None?)
    ensures Settled(start, Locate(p, c).publisher)
  {
  }

  // ----- Whole runs -----

  /** The cache changes in any way, or the transport offers space on the stream. */
  datatype Step = CacheIs(store: Store) | Space(space: nat, verdict: bool)

  datatype World = World(line: Line, store: Store, out: seq<Message>)

  function NewWorld(start: Key): World {
    World(Line(Publisher(start.group, start.id, 0, 0, false, None), Sender(start.group, start.id, 0)), Store([], Key(0, 0)), [])
  }

  function After(w: World, step: Step, header: Label -> nat): World {
    match step
    case CacheIs(store) => w.(store := store)
    case Space(space, verdict) =>
      var (line, message) := Offer(w.line, w.store, space, verdict, header);
      World(line, w.store, w.out + Listed(message))
  }

  function Run(start: Key, steps: seq<Step>, header: Label -> nat): World {
    if steps == [] then NewWorld(start) else After(Run(start, steps[..|steps| - 1], header), steps[|steps| - 1], header)
  }

  /** The cache holds slices of the media; an offer has room for its headers and a byte; and an
      object is only skipped before any of it was sent. */
  ghost predicate Legal(m: Groups, w: World, step: Step, header: Label -> nat) {
    match step
    case CacheIs(store) => Stocked(m, store)
    case Space(space, verdict) => HasRoom(w.line, w.store, space, header) && Harmless(w.line, w.store, space, verdict, header)
  }

  ghost predicate AllLegal(m: Groups, start: Key, steps: seq<Step>, header: Label -> nat) {
    steps == [] ||
    (AllLegal(m, start, steps[..|steps| - 1], header) &&
     Legal(m, Run(start, steps[..|steps| - 1], header), steps[|steps| - 1], header))
  }

  lemma NewWorldIsSound(m: Groups, start: Key)
    requires WellFormed(m) && IsCursor(m, start)
    ensures var w := NewWorld(start); Invariant(m, start, w.line, w.out) && Stocked(m, w.store)
  {
  }

  lemma {:induction false} RunKeepsInvariant(m: Groups, start: Key, steps: seq<Step>, header: Label -> nat)
    requires WellFormed(m) && IsCursor(m, start) && AllLegal(m, start, steps, header)
    ensures var w := Run(start, steps, header); Invariant(m, start, w.line, w.out) && Stocked(m, w.store)
  {
    hide Invariant, Offer, Stocked, HasRoom, Harmless, NewWorld, WellFormed, IsCursor;
    if steps == [] {
      NewWorldIsSound(m, start);
    } else {
      RunKeepsInvariant(m, start, steps[..|steps| - 1], header);
      var w, step := Run(start, steps[..|steps| - 1], header), steps[|steps| - 1];
      if step.Space? {
        OfferKeeps(m, start, w.line, w.out, w.store, step.space, step.verdict, header);
      }
    }
  }

  lemma ReachedRank(m: Groups, w: Line, k: Key, o: nat)
    requires WellFormed(m) && IsCursor(m, k) && IsCursor(m, w.sender.At()) && Reached(m, w, k, o)
    ensures Rank(m, k) == Rank(m, w.sender.At()) && o == w.sender.offset
  {
    Boundary(m, k);
  }

  /** Up to the sender's position every object from the start was sent whole and in order, or was
      replaced by exactly one placeholder; of the object at the position exactly the bytes before
      it were sent; and of all others nothing. */
  lemma SentInSequence(m: Groups, start: Key, steps: seq<Step>, header: Label -> nat, x: Key)
    requires WellFormed(m) && IsCursor(m, start) && AllLegal(m, start, steps, header) && InMedia(m, x)
    ensures var w := Run(start, steps, header);
            var s := w.line.sender;
            IsCursor(m, s.At()) && Tells(m, w.out, Rank(m, start), Rank(m, s.At()), s.offset, x)
  {
    hide Run, AllLegal, Tells, Follow, AllTrue, Agree, Settled, Reached, Rank;
    RunKeepsInvariant(m, start, steps, header);
    var w := Run(start, steps, header);
    FollowedIsComplete(m, start, w.out, x);
    var (k, o) := Follow(m, start, w.out).value;
    ReachedRank(m, w.line, k, o);
  }

  /** A group is left only when every object of it, from the start on, was sent or replaced. */
  lemma GroupIsLeftComplete(m: Groups, start: Key, steps: seq<Step>, header: Label -> nat, x: Key)
    requires WellFormed(m) && IsCursor(m, start) && AllLegal(m, start, steps, header) && InMedia(m, x)
    requires !Before(x, start) && x.group < Run(start, steps, header).line.sender.group
    ensures Complete(m, Run(start, steps, header).out, x)
  {
    hide Run, AllLegal, Complete, Untold, Begun;
    SentInSequence(m, start, steps, header, x);
    var at := Run(start, steps, header).line.sender.At();
    RankOrders(m, at, x);
    AtCursor(m, start, x);
  }

  /** The sender and the publisher agree on the position; a skip that the publisher has not acted
      upon is the only difference. */
  lemma SenderAgreesWithPublisher(m: Groups, start: Key, steps: seq<Step>, header: Label -> nat)
    requires WellFormed(m) && IsCursor(m, start) && AllLegal(m, start, steps, header)
    ensures var (p, s) := (Run(start, steps, header).line.publisher, Run(start, steps, header).line.sender);
            s == if p.isSkipped then Sender(p.group, p.id + 1, 0) else Sender(p.group, p.id, p.offset + p.lengthSent)
  {
    hide Run, AllLegal;
    RunKeepsInvariant(m, start, steps, header);
  }

  /** Every header that goes out is true of the media. */
  lemma HeadersAreTrue(m: Groups, start: Key, steps: seq<Step>, header: Label -> nat, i: nat)
    requires WellFormed(m) && IsCursor(m, start) && AllLegal(m, start, steps, header)
    requires i < |Run(start, steps, header).out| && Run(start, steps, header).out[i].Chunk?
    ensures TrueFrom(m, start, Run(start, steps, header).out[i].fragment)
  {
    hide Run, AllLegal, TrueFrom;
    RunKeepsInvariant(m, start, steps, header);
  }

  lemma NothingAfterEnd(m: Groups, start: Key, message: Message)
    requires message.Chunk? ==> TrueFrom(m, start, message.fragment)
    requires Next(m, EndOf(m), 0, message).Some?
    ensures Next(m, EndOf(m), 0, message) == Some((EndOf(m), 0))
  {
  }

  lemma {:induction false} FinStays(m: Groups, start: Key, out: seq<Message>, i: nat)
    requires AllTrue(m, start, out) && Follow(m, start, out).Some? && i < |out| && out[i].Fin?
    ensures out[i].key == EndOf(m) && Follow(m, start, out) == Some((EndOf(m), 0))
  {
    hide TrueFrom;
    if i < |out| - 1 {
      FinStays(m, start, out[..|out| - 1], i);
      NothingAfterEnd(m, start, out[|out| - 1]);
    }
  }

  /** The final point is only sent at the end of the media, when everything from the start on was
      sent or replaced. */
  lemma FinIsTheEnd(m: Groups, start: Key, steps: seq<Step>, header: Label -> nat, i: nat, x: Key)
    requires WellFormed(m) && IsCursor(m, start) && AllLegal(m, start, steps, header) && InMedia(m, x) && !Before(x, start)
    requires i < |Run(start, steps, header).out| && Run(start, steps, header).out[i].Fin?
    ensures Run(start, steps, header).out[i].key == EndOf(m) && Complete(m, Run(start, steps, header).out, x)
  {
    hide Run, AllLegal, Complete, Untold, Begun, Follow, Agree, Settled, Reached;
    RunKeepsInvariant(m, start, steps, header);
    var out := Run(start, steps, header).out;
    FinStays(m, start, out, i);
    FollowedIsComplete(m, start, out, x);
    RankOfEnd(m);
    RankBelowCount(m, x);
    AtCursor(m, start, x);
  }

  // ----- A verdict to skip in the middle of an object -----

  /** A verdict to skip falls inside an object of which something is left to send; the first object
      of a group is never skipped. */
  ghost predicate SkipsInside(m: Groups, w: Line, c: Store, verdict: bool) {
    verdict && w.sender.offset > 0 && w.sender.id != 0 && HasWork(m, w, c)
  }

  /** Under any verdict, an offer keeps the invariant, and what it sends is in sequence, if and
      only if the verdict does not fall inside an object; that is when a placeholder would replace an
      object of which something was already sent. */
  lemma SkipIsRightIff(m: Groups, start: Key, w: Line, out: seq<Message>, c: Store, space: nat, verdict: bool, header: Label -> nat)
    requires Invariant(m, start, w, out) && Stocked(m, c) && HasRoom(w, c, space, header)
    ensures var (w', message) := Offer(w, c, space, verdict, header);
            && (Follow(m, start, out + Listed(message)).Some? <==> !SkipsInside(m, w, c, verdict))
            && (Invariant(m, start, w', out + Listed(message)) <==> !SkipsInside(m, w, c, verdict))
            && (SkipsInside(m, w, c, verdict) <==> message.Some? && message.value.Skipped? && w.sender.offset > 0)
  {
    hide *;
    var (w', message) := Offer(w, c, space, verdict, header);
    Nothing();
    SkipsInsideIff(m, start, w, out, c, space, verdict, header);
    if message.Some? && message.value.Skipped? && w.sender.offset > 0 {
      LateSkipIsLost(m, start, w, out, message.value);
      InvariantFollows(m, start, w', out + [message.value]);
    } else {
      IsHarmless(w, c, space, verdict, header);
      OfferKeeps(m, start, w, out, c, space, verdict, header);
      InvariantFollows(m, start, w', out + Listed(message));
    }
  }

  /** Inside an object, a fragment to send has data. */
  lemma InsideHasData(m: Groups, p: Publisher, s: Sender)
    requires Agree(m, p, s) && s.offset > 0
    ensures !p.isSkipped && InMedia(m, s.At()) && s.At() == Key(p.group, p.id)
    ensures p.current.Some? ==>
              Remaining(p) > 0 && !Unsendable(p.current.value) && p.current.value.key.id == s.id
  {
  }

  lemma SkipsInsideIff(m: Groups, start: Key, w: Line, out: seq<Message>, c: Store, space: nat, verdict: bool, header: Label -> nat)
    requires Invariant(m, start, w, out) && Stocked(m, c) && HasRoom(w, c, space, header)
    ensures var message := Offer(w, c, space, verdict, header).1;
            SkipsInside(m, w, c, verdict) <==> message.Some? && message.value.Skipped? && w.sender.offset > 0
  {
    hide *;
    SkipsInsideUnfold(m, w, c, verdict);
    if w.sender.offset > 0 {
      var (p, s) := (w.publisher, w.sender);
      RoomParts(w, c, space, header);
      InvariantParts(m, start, w, out);
      OfferUnfold(w, c, space, verdict, header);
      AnnounceUnfold(p, c, space - Guess(s, space, header));
      LocateIsRight(m, p, s, c);
      var found := Locate(p, c);
      InsideHasData(m, p, s);
      OverIsEnd(m, c, s.At());
      NoNewGroupInside(m, p, s, found);
      InsideHasData(m, found.publisher, s);
      if p.current.None? {
        LocateFinds(m, p, s, c);
        WorkIff(m, w, c, found.publisher);
      } else {
        WorkInHand(m, w, c);
      }
    }
  }

  lemma SkipsInsideUnfold(m: Groups, w: Line, c: Store, verdict: bool)
    ensures SkipsInside(m, w, c, verdict) <==> verdict && w.sender.offset > 0 && w.sender.id != 0 && HasWork(m, w, c)
  {
    hide HasWork;
  }

  lemma NoNewGroupInside(m: Groups, p: Publisher, s: Sender, found: Found)
    requires Right(m, p, s, found) && s.offset > 0
    ensures !found.isNewGroup && Agree(m, found.publisher, s)
  {
    hide Agree;
  }

  lemma IsHarmless(w: Line, c: Store, space: nat, verdict: bool, header: Label -> nat)
    requires var message := Offer(w, c, space, verdict, header).1;
             message.Some? && message.value.Skipped? ==> w.sender.offset == 0
    ensures Harmless(w, c, space, verdict, header)
  {
    hide Offer;
  }

  lemma InvariantFollows(m: Groups, start: Key, w: Line, out: seq<Message>)
    ensures Invariant(m, start, w, out) ==> Follow(m, start, out).Some?
  {
  }

  /** A placeholder cannot follow a part of an object. */
  lemma LateSkipIsLost(m: Groups, start: Key, w: Line, out: seq<Message>, message: Message)
    requires Invariant(m, start, w, out) && message.Skipped? && w.sender.offset > 0
    ensures Follow(m, start, out + [message]).None?
  {
    hide AllTrue, WellFormed, Agree, Settled;
    FollowUnfold(m, start, out, message);
  }

  /** Where the sender is, as the publisher sees it once it has left a skipped object. */
  predicate SamePlace(p: Publisher, s: Sender) {
    s == Sender(p.group, p.id, p.offset + p.lengthSent)
  }

  /** Behind an object that was skipped, publisher and sender find each other again if and only if
      the fragment in hand was not begun when the verdict fell: its count of bytes stays when the
      publisher moves on. */
  lemma MeetAgainIff(m: Groups, start: Key, w: Line, out: seq<Message>, c: Store, space: nat, header: Label -> nat, later: Store)
    requires Invariant(m, start, w, out) && Stocked(m, c) && Stocked(m, later) && HasRoom(w, c, space, header)
    requires var message := Offer(w, c, space, true, header).1; message.Some? && message.value.Skipped?
    requires var w' := Offer(w, c, space, true, header).0;
             Locate(w'.publisher, later).publisher.current.Some? && !IsOver(later.final, Key(w'.publisher.group, w'.publisher.id))
    ensures var w' := Offer(w, c, space, true, header).0;
            var found := Locate(w'.publisher, later);
            SamePlace(found.publisher, Regrouped(w'.sender, found.isNewGroup)) <==> w.publisher.lengthSent == 0
  {
    hide *;
    RoomParts(w, c, space, header);
    OfferUnfold(w, c, space, true, header);
    AnnounceUnfold(w.publisher, c, space - Guess(w.sender, space, header));
    InvariantParts(m, start, w, out);
    LocateIsRight(m, w.publisher, w.sender, c);
    var found := Locate(w.publisher, c);
    RightParts(m, w.publisher, w.sender, found);
    CountStays(w.publisher, c);
    PlaceBehindSkip(m, found.publisher, Regrouped(w.sender, found.isNewGroup), later);
  }

  /** Wherever the publisher moves, it keeps its count of bytes. */
  lemma CountStays(p: Publisher, c: Store)
    ensures Locate(p, c).publisher.lengthSent == p.lengthSent
  {
  }

  lemma PlaceBehindSkip(m: Groups, p: Publisher, s: Sender, c: Store)
    requires p.current.Some? && !p.isSkipped && Agree(m, p, s) && WellFormed(m) && Stocked(m, c)
    requires !IsOver(c.final, Key(p.group, p.id)) && Locate(p.(isSkipped := true), c).publisher.current.Some?
    ensures var found := Locate(p.(isSkipped := true), c);
            SamePlace(found.publisher, Regrouped(PassedObject(s), found.isNewGroup)) <==> p.lengthSent == 0
  {
  }

  const TWO := [[MediaObject([1], 0), MediaObject([2, 3], 0)]]
  const FIRST := Fragment(Key(0, 0), 0, 0, 0, 1, [1])
  const SECOND := Fragment(Key(0, 1), 0, 0, 0, 2, [2, 3])
  const BOTH := Store([FIRST, SECOND], Key(0, 0))
  const BEHIND_FIRST := Line(Publisher(0, 1, 0, 0, false, None), Sender(0, 1, 0))
  const INSIDE_SECOND := Line(Publisher(0, 1, 0, 1, false, Some(SECOND)), Sender(0, 1, 1))

  lemma BothAreThere()
    ensures Get(BOTH.tree, Key(0, 0), 0) == Some(FIRST) && Get(BOTH.tree, Key(0, 1), 0) == Some(SECOND)
    ensures Stocked(TWO, BOTH)
  {
    assert BOTH.tree[..1] == [FIRST];
    assert BOTH.tree[1] == SECOND;
    assert TWO[0][0].data[0..1] == [1] && TWO[0][1].data[0..2] == [2, 3];
    assert IsSolidSlice(TWO, FIRST) && IsSolidSlice(TWO, SECOND);
  }

  lemma FirstIsSent(header: Label -> nat)
    requires forall l :: header(l) == 10
    ensures Offer(NewWorld(Key(0, 0)).line, BOTH, 11, false, header) == (BEHIND_FIRST, Some(Chunk(FIRST)))
  {
    BothAreThere();
    hide Get;
    assert FIRST.data[0..1] == [1];
  }

  lemma SecondIsBegun(header: Label -> nat)
    requires forall l :: header(l) == 10
    ensures Offer(BEHIND_FIRST, BOTH, 11, false, header) == (INSIDE_SECOND, Some(Chunk(Fragment(Key(0, 1), 0, 0, 0, 2, [2]))))
  {
    BothAreThere();
    hide Get;
    assert SECOND.data[0..1] == [2];
  }

  lemma SecondIsReplaced(header: Label -> nat)
    requires forall l :: header(l) == 10
    ensures Offer(INSIDE_SECOND, BOTH, 11, true, header) ==
            (Line(INSIDE_SECOND.publisher.(isSkipped := true), Sender(0, 2, 0)), Some(Skipped(Key(0, 1))))
  {
    hide Get;
  }

  lemma NotFollowed()
    ensures Follow(TWO, Key(0, 0), [Chunk(FIRST), Chunk(Fragment(Key(0, 1), 0, 0, 0, 2, [2])), Skipped(Key(0, 1))]).None?
  {
    var (a, b, x) := (Chunk(FIRST), Chunk(Fragment(Key(0, 1), 0, 0, 0, 2, [2])), Skipped(Key(0, 1)));
    assert [] + [a] == [a] && [a] + [b] == [a, b] && [a, b] + [x] == [a, b, x];
    FollowUnfold(TWO, Key(0, 0), [], a);
    FollowUnfold(TWO, Key(0, 0), [a], b);
    FollowUnfold(TWO, Key(0, 0), [a, b], x);
    hide Follow;
    assert Next(TWO, Key(0, 0), 0, a) == Some((Key(0, 1), 0));
    assert Next(TWO, Key(0, 1), 0, b) == Some((Key(0, 1), 1));
  }

  /** The smallest run in which it goes wrong: of an object of two bytes one is sent, then a verdict
      replaces the object, and what was sent cannot be followed any more. */
  lemma LateSkipIsWrong(header: Label -> nat)
    requires forall l :: header(l) == 10
    ensures var (w1, first) := Offer(NewWorld(Key(0, 0)).line, BOTH, 11, false, header);
            var (w2, second) := Offer(w1, BOTH, 11, false, header);
            var (w3, third) := Offer(w2, BOTH, 11, true, header);
            && Stocked(TWO, BOTH)
            && first == Some(Chunk(FIRST)) && second == Some(Chunk(Fragment(Key(0, 1), 0, 0, 0, 2, [2])))
            && w2.sender == Sender(0, 1, 1) && third == Some(Skipped(Key(0, 1)))
            && Follow(TWO, Key(0, 0), [first.value, second.value, third.value]).None?
            && w3.publisher.lengthSent == 1
  {
    BothAreThere();
    FirstIsSent(header);
    SecondIsBegun(header);
    SecondIsReplaced(header);
    NotFollowed();
    hide Offer, Stocked, Follow;
  }

  // ----- When nothing goes out -----

  /** f begins where the sender is, under either name of the position. */
  predicate Begins(m: Groups, f: Fragment, s: Sender) {
    || (f.key == s.At() && f.offset == s.offset)
    || (f.key == Key(s.group + 1, 0) && f.offset == 0 && s.offset == 0 && AtGroupEnd(m, s.At()))
  }

  lemma NoneBegins(m: Groups, c: Store, s: Sender)
    requires Stocked(m, c) && IsCursor(m, s.At())
    requires Get(c.tree, s.At(), s.offset).None?
    requires s.offset == 0 ==> Get(c.tree, Key(s.group + 1, 0), 0).None? || !AtGroupEnd(m, s.At())
    ensures forall f :: f in c.tree ==> !Begins(m, f, s)
  {
  }

  lemma FirstOfNext(m: Groups, c: Store, s: Sender)
    requires WellFormed(m) && Stocked(m, c) && IsCursor(m, s.At())
    ensures var first := Get(c.tree, Key(s.group + 1, 0), 0);
            first.Some? ==> (s.id >= first.value.previousSize <==> AtGroupEnd(m, s.At()))
  {
    var first := Get(c.tree, Key(s.group + 1, 0), 0);
    if first.Some? {
      assert IsSolidSlice(m, first.value);
    }
  }

  /** The publisher finds a fragment that begins at the position, if the cache has one. */
  lemma LocateFinds(m: Groups, p: Publisher, s: Sender, c: Store)
    requires WellFormed(m) && Stocked(m, c) && IsCursor(m, s.At()) && Agree(m, p, s) && (p.current.None? || p.isSkipped)
    requires !IsOver(c.final, Key(p.group, p.id))
    ensures var now := Locate(p, c).publisher;
            if now.current.Some? then now.current.value in c.tree && Begins(m, now.current.value, s)
            else forall f :: f in c.tree ==> !Begins(m, f, s)
    ensures Locate(p, c).publisher.current.None? ==>
              (Locate(p, c).isFinished <==> c.final != Key(0, 0) && s.At() == EndOf(m))
  {
    FirstOfNext(m, c, s);
    OverIsEnd(m, c, s.At());
    EndIsOver(m, c, s.At());
    hide Stocked, WellFormed, AtGroupEnd, IsCursor, InHand, EndOf, IsOver;
    if Locate(p, c).publisher.current.None? {
      NoneBegins(m, c, s);
    }
  }

  lemma EndIsOver(m: Groups, c: Store, k: Key)
    requires Stocked(m, c)
    ensures c.final != Key(0, 0) && k == EndOf(m) ==> IsOver(c.final, k)
    ensures IsOver(c.final, k) ==> c.final != Key(0, 0)
  {
  }

  lemma UnsendableIff(m: Groups, f: Fragment)
    requires IsSolidSlice(m, f)
    ensures InMedia(m, f.key)
    ensures Unsendable(f) <==> |ObjectAt(m, f.key).data| == 0 && ObjectAt(m, f.key).flags != 255
  {
  }

  lemma OneObjectBegins(m: Groups, f: Fragment, g: Fragment, s: Sender)
    requires InMedia(m, f.key) && InMedia(m, g.key) && Begins(m, f, s) && Begins(m, g, s)
    ensures f.key == g.key
  {
  }

  lemma SameObjectSameFate(m: Groups, f: Fragment, g: Fragment, s: Sender)
    requires IsSolidSlice(m, f) && IsSolidSlice(m, g) && Begins(m, f, s) && Begins(m, g, s)
    ensures Unsendable(f) <==> Unsendable(g)
  {
    hide *;
    UnsendableIff(m, f);
    UnsendableIff(m, g);
    OneObjectBegins(m, f, g, s);
  }

  /** A fragment to send: one in hand, or one in the cache at the position. */
  ghost predicate HasWork(m: Groups, w: Line, c: Store) {
    if w.publisher.current.Some? && !w.publisher.isSkipped then !Unsendable(w.publisher.current.value)
    else exists f :: f in c.tree && Begins(m, f, w.sender) && !Unsendable(f)
  }

  lemma OverIsIdle(m: Groups, w: Line, c: Store)
    requires WellFormed(m) && Stocked(m, c) && IsCursor(m, w.sender.At()) && Agree(m, w.publisher, w.sender)
    requires IsOver(c.final, Key(w.publisher.group, w.publisher.id)) && w.publisher.current.None? && !w.publisher.isSkipped
    ensures !HasWork(m, w, c) && c.final != Key(0, 0) && w.sender.At() == EndOf(m)
  {
    OverIsEnd(m, c, w.sender.At());
    forall f | f in c.tree ensures !Begins(m, f, w.sender) {
      assert IsSolidSlice(m, f);
    }
  }

  lemma NotAtEnd(m: Groups, p: Publisher, s: Sender, found: Found)
    requires Right(m, p, s, found) && found.publisher.current.Some? && !found.publisher.isSkipped
    ensures s.At() != EndOf(m)
  {
  }

  lemma WorkIff(m: Groups, w: Line, c: Store, now: Publisher)
    requires Stocked(m, c) && (w.publisher.current.None? || w.publisher.isSkipped)
    requires if now.current.Some? then now.current.value in c.tree && Begins(m, now.current.value, w.sender)
             else forall f :: f in c.tree ==> !Begins(m, f, w.sender)
    ensures HasWork(m, w, c) <==> now.current.Some? && !Unsendable(now.current.value)
  {
    hide IsSolidSlice, Begins, Unsendable;
    if now.current.Some? {
      assert IsSolidSlice(m, now.current.value);
      forall f | f in c.tree && Begins(m, f, w.sender) ensures Unsendable(f) <==> Unsendable(now.current.value) {
        SameObjectSameFate(m, f, now.current.value, w.sender);
      }
    }
  }

  /** An offer goes unused if and only if there is no fragment at the position that can be sent,
      and the position is not the known end: it then waits for the cache, or sits for ever on an
      empty object that is not a placeholder. */
  lemma UnusedIff(m: Groups, start: Key, w: Line, out: seq<Message>, c: Store, space: nat, verdict: bool, header: Label -> nat)
    requires Invariant(m, start, w, out) && Stocked(m, c) && HasRoom(w, c, space, header)
    ensures Offer(w, c, space, verdict, header).1.None? <==>
            !HasWork(m, w, c) && !(c.final != Key(0, 0) && w.sender.At() == EndOf(m))
  {
    hide *;
    var (p, s) := (w.publisher, w.sender);
    var guess := Guess(s, space, header);
    InvariantParts(m, start, w, out);
    RoomParts(w, c, space, header);
    OfferUnfold(w, c, space, verdict, header);
    AnnounceUnfold(p, c, space - guess);
    LocateIsRight(m, p, s, c);
    var found := Locate(p, c);
    RightParts(m, p, s, found);
    if IsOver(c.final, Key(p.group, p.id)) {
      OverIsIdle(m, w, c);
    } else {
      if found.publisher.current.Some? {
        NothingRemains(m, found.publisher);
        NotAtEnd(m, p, s, found);
      }
      if p.current.None? || p.isSkipped {
        LocateFinds(m, p, s, c);
        WorkIff(m, w, c, found.publisher);
      } else {
        WorkInHand(m, w, c);
      }
    }
  }

  // ----- How much goes out -----

  /** An offer that sends a chunk sends all that is left of a fragment of the cache, or fills the
      space: either together with the header that was guessed, or, when the true header is of another
      size, together with the header for all that was announced. */
  lemma ChunkIsFull(m: Groups, start: Key, w: Line, out: seq<Message>, c: Store, space: nat, verdict: bool, header: Label -> nat)
    returns (g: Fragment)
    requires Invariant(m, start, w, out) && Stocked(m, c) && HasRoom(w, c, space, header)
    requires var message := Offer(w, c, space, verdict, header).1; message.Some? && message.value.Chunk?
    ensures var f := Offer(w, c, space, verdict, header).1.value.fragment;
            var guess := header(Label(Key(w.sender.group, w.sender.id), w.sender.offset, 0, w.sender.offset, space));
            && (g in c.tree || w.publisher.current == Some(g))
            && guess <= space && g.key == f.key && g.offset <= f.offset && f.End() <= g.End()
            && var announced := if g.End() - f.offset <= space - guess then g.End() - f.offset else space - guess;
               || f.End() == g.End()
               || |f.data| == space - guess
               || |f.data| + header(Label(f.key, f.offset, f.previousSize, f.objectLength, announced)) == space
  {
    g := ChunkParts(m, start, w, out, c, space, verdict, header);
    GuessIs(w.sender, space, header);
    hide *;
    FittedIs(Intended(w, c, space, header), Guess(w.sender, space, header), space, header);
  }

  lemma GuessIs(s: Sender, space: nat, header: Label -> nat)
    ensures Guess(s, space, header) == header(Label(Key(s.group, s.id), s.offset, 0, s.offset, space))
  {
  }

  /** The chunk that an offer sends, by the fragment that it is taken from. */
  lemma ChunkParts(m: Groups, start: Key, w: Line, out: seq<Message>, c: Store, space: nat, verdict: bool, header: Label -> nat)
    returns (g: Fragment)
    requires Invariant(m, start, w, out) && Stocked(m, c) && HasRoom(w, c, space, header)
    requires var message := Offer(w, c, space, verdict, header).1; message.Some? && message.value.Chunk?
    ensures var f := Offer(w, c, space, verdict, header).1.value.fragment;
            var guess := Guess(w.sender, space, header);
            && (g in c.tree || w.publisher.current == Some(g))
            && guess < space && g.key == f.key && g.offset <= f.offset && f.offset <= g.offset + |g.data|
            && var rest := g.offset + |g.data| - f.offset;
               && Intended(w, c, space, header) ==
                    Label(f.key, f.offset, f.previousSize, f.objectLength, if rest <= space - guess then rest else space - guess)
               && |f.data| == Fitted(Intended(w, c, space, header), guess, space, header) <= rest
  {
    var guess := Guess(w.sender, space, header);
    hide *;
    RoomParts(w, c, space, header);
    OfferUnfold(w, c, space, verdict, header);
    AnnounceUnfold(w.publisher, c, space - guess);
    InvariantParts(m, start, w, out);
    LocateIsRight(m, w.publisher, w.sender, c);
    var r := Announce(w.publisher, c, space - guess);
    var (p, s1) := (r.found.publisher, Regrouped(w.sender, r.found.isNewGroup));
    RightParts(m, w.publisher, w.sender, r.found);
    ComesFromCache(w.publisher, c);
    g := p.current.value;
    var n := Fitted(Intended(w, c, space, header), guess, space, header);
    FittedBounds(Intended(w, c, space, header), guess, space, header);
    CopyIsExact(m, p, s1, c, n);
  }

  lemma FittedIs(l: Label, guess: nat, space: nat, header: Label -> nat)
    ensures var n := Fitted(l, guess, space, header); n == l.length || (n == space - header(l) && header(l) <= space)
  {
  }

  lemma ComesFromCache(p: Publisher, c: Store)
    ensures var now := Locate(p, c).publisher;
            now.current.Some? && !now.isSkipped ==> now.current.value in c.tree || p.current == now.current
  {
  }

  /** An offer replaces an object exactly when the verdict says so, the object at the position has data
      and is not the first of its group, and a fragment of it is there. */
  lemma SkippedIff(m: Groups, start: Key, w: Line, out: seq<Message>, c: Store, space: nat, verdict: bool, header: Label -> nat)
    requires Invariant(m, start, w, out) && Stocked(m, c) && HasRoom(w, c, space, header)
    ensures var (k, message) := (w.sender.At(), Offer(w, c, space, verdict, header).1);
            && (message.Some? && message.value.Skipped? <==>
                verdict && k.id != 0 && InMedia(m, k) && ObjectAt(m, k).data != [] && HasWork(m, w, c))
            && (message.Some? && message.value.Skipped? ==> message.value.key == k)
  {
    hide *;
    var (p, s) := (w.publisher, w.sender);
    var guess := Guess(s, space, header);
    InvariantParts(m, start, w, out);
    RoomParts(w, c, space, header);
    OfferUnfold(w, c, space, verdict, header);
    AnnounceUnfold(p, c, space - guess);
    LocateIsRight(m, p, s, c);
    var found := Locate(p, c);
    RightParts(m, p, s, found);
    if IsOver(c.final, Key(p.group, p.id)) {
      OverIsIdle(m, w, c);
    } else {
      if p.current.None? || p.isSkipped {
        LocateFinds(m, p, s, c);
        WorkIff(m, w, c, found.publisher);
      } else {
        WorkInHand(m, w, c);
      }
      if found.publisher.current.Some? {
        NothingRemains(m, found.publisher);
        WhichObject(m, p, s, found);
      }
    }
  }

  lemma WhichObject(m: Groups, p: Publisher, s: Sender, found: Found)
    requires Right(m, p, s, found) && found.publisher.current.Some? && !found.publisher.isSkipped
    ensures var f := found.publisher.current.value;
            && s.At().id == s.id && (found.isNewGroup ==> f.key.id == 0 && !InMedia(m, s.At()))
            && (!found.isNewGroup ==>
                  && Regrouped(s, found.isNewGroup).At() == s.At() == f.key && InMedia(m, s.At())
                  && (f.data == [] <==> ObjectAt(m, s.At()).data == []))
            && (f.data != [] ==> !Unsendable(f))
  {
  }

  /** The smallest media on which a sender waits for ever: of one empty object that is not a
      placeholder nothing is sent, and the offer changes nothing any more. */
  lemma StuckOnEmpty(space: nat, verdict: bool, header: Label -> nat)
    requires forall l :: header(l) < space
    ensures var c := Store([Fragment(Key(0, 0), 0, 0, 0, 0, [])], Key(0, 1));
            var w := Offer(NewWorld(Key(0, 0)).line, c, space, verdict, header).0;
            && Stocked([[MediaObject([], 0)]], c)
            && Offer(NewWorld(Key(0, 0)).line, c, space, verdict, header).1.None?
            && Offer(w, c, space, verdict, header) == (w, None)
  {
    var f := Fragment(Key(0, 0), 0, 0, 0, 0, []);
    var c := Store([f], Key(0, 1));
    assert c.tree[..0] == [];
    assert Get(c.tree, Key(0, 0), 0) == Some(f);
    assert IsSolidSlice([[MediaObject([], 0)]], f);
  }

  lemma WorkInHand(m: Groups, w: Line, c: Store)
    requires w.publisher.current.Some? && !w.publisher.isSkipped
    ensures HasWork(m, w, c) <==> !Unsendable(w.publisher.current.value)
  {
  }
}
