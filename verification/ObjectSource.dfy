/** The numbering rules of an object source: which identifiers an application may publish next,
    and why what it publishes is always a well formed media. */
module ObjectSource {
  import opened Media
  import opened StreamPublisher
  import opened StreamReading
  import FragmentCache

  /** next_group_id and next_object_id. */
  datatype Source = Source(group: nat, id: nat)

  /** quicrq_publish_object_source: numbering begins at the start point of the properties, (0, 0) if
      there is none. */
  function NewSource(start: Key): Source {
    Source(start.group, start.id)
  }

  /** The identifiers that quicrq_publish_object accepts. */
  predicate Accepts(s: Source, k: Key) {
    if k.group != s.group then k.group == s.group + 1 && k.id == 0 && s.id != 0 else k.id == s.id
  }

  function Passed(k: Key): Source {
    Source(k.group, k.id + 1)
  }

  /** The single fragment that a published object becomes. */
  function Whole(s: Source, k: Key, content: MediaObject): Fragment {
    Fragment(k, 0, content.flags, if k.group != s.group then s.id else 0, |content.data|, content.data)
  }

  datatype Call = Publish(key: Key, content: MediaObject)

  /** The source, the media it has published, its objects in the order of their publication,
      and the fragments it proposed to the cache. */
  datatype World = World(source: Source, media: Groups, items: seq<Item>, out: seq<Message>)

  /** The part of the media before the start point, of which the source says nothing: any objects
      will do. */
  function Unpublished(start: Key): Groups {
    seq(start.group, _ => [BLANK]) + if start.id > 0 then [seq(start.id, _ => BLANK)] else []
  }

  function NewWorld(start: Key): World {
    World(NewSource(start), Unpublished(start), [], [])
  }

  /** The media with one more object, in a new group or at the end of the last one. */
  function Extended(m: Groups, k: Key, content: MediaObject): Groups {
    if m == [] || k.group == |m| then m + [[content]] else m[|m| - 1 := m[|m| - 1] + [content]]
  }

  /** quicrq_publish_object: a call that breaks the rules changes nothing. */
  function Published(w: World, call: Call): World {
    var k := call.key;
    if !Accepts(w.source, k) then w
    else
      World(Passed(k), Extended(w.media, k, call.content), w.items + [Item(k, call.content)],
            w.out + [Chunk(Whole(w.source, k, call.content))])
  }

  function Run(start: Key, calls: seq<Call>): World {
    if calls == [] then NewWorld(start) else Published(Run(start, calls[..|calls| - 1]), calls[|calls| - 1])
  }

  // ----- A media that grows -----

  ghost predicate Extends(m: Groups, m': Groups) {
    && |m| <= |m'|
    && (forall g :: 0 <= g < |m| - 1 ==> m'[g] == m[g])
    && (m != [] ==> m[|m| - 1] <= m'[|m| - 1])
  }

  lemma SliceExtends(m: Groups, m': Groups, f: Fragment)
    requires Extends(m, m') && IsSolidSlice(m, f)
    ensures IsSolidSlice(m', f)
  {
    var g := f.key.group;
    assert m[g] <= m'[g];
    assert ObjectAt(m', f.key) == ObjectAt(m, f.key);
    assert g > 0 ==> m'[g - 1] == m[g - 1];
  }

  lemma TrueExtends(m: Groups, m': Groups, start: Key, f: Fragment)
    requires Extends(m, m') && TrueFrom(m, start, f)
    ensures TrueFrom(m', start, f) && InMedia(m, f.key)
  {
    if IsSolidSlice(m, f) {
      SliceExtends(m, m', f);
    } else {
      SliceExtends(m, m', f.(previousSize := SizeOfPrevious(m, start.group)));
      assert start.group > 0 ==> m'[start.group - 1] == m[start.group - 1];
    }
  }

  /** Read from the very start of the media, a true header is exactly a slice. */
  lemma TrueIsSlice(m: Groups, f: Fragment)
    requires TrueFrom(m, Key(0, 0), f)
    ensures IsSolidSlice(m, f)
  {
    assert f.(previousSize := 0) == f || IsSolidSlice(m, f);
  }

  lemma NextExtends(m: Groups, m': Groups, k: Key, o: nat, f: Fragment)
    requires Extends(m, m') && InMedia(m, f.key) && Next(m, k, o, Chunk(f)).Some?
    ensures Next(m', k, o, Chunk(f)) == Next(m, k, o, Chunk(f))
  {
  }

  ghost predicate OnlyChunks(out: seq<Message>) {
    forall i :: 0 <= i < |out| ==> out[i].Chunk?
  }

  lemma {:induction false} FollowExtends(m: Groups, m': Groups, start: Key, out: seq<Message>)
    requires Extends(m, m') && OnlyChunks(out) && AllTrue(m, start, out) && Follow(m, start, out).Some?
    ensures AllTrue(m', start, out) && Follow(m', start, out) == Follow(m, start, out)
  {
    hide TrueFrom, Next, Extends, InMedia;
    if out != [] {
      var (before, last) := (out[..|out| - 1], out[|out| - 1]);
      FollowExtends(m, m', start, before);
      TrueExtends(m, m', start, last.fragment);
      var (k, o) := Follow(m, start, before).value;
      NextExtends(m, m', k, o, last.fragment);
      forall i | 0 <= i < |out| ensures TrueFrom(m', start, out[i].fragment) {
        assert i < |before| ==> out[i] == before[i];
      }
    }
  }

  // ----- The invariant of a source -----

  /** The source stands at the end of the media; or nothing was published, and it opens a group. */
  ghost predicate AtEnd(start: Key, w: World) {
    || Key(w.source.group, w.source.id) == EndOf(w.media)
    || (w.out == [] && w.source == Source(|w.media|, 0) && start == Key(|w.media|, 0))
  }

  ghost predicate Invariant(start: Key, w: World) {
    && WellFormed(w.media) && AtEnd(start, w)
    && Count(Unpublished(start)) <= Count(w.media) && w.items == Items(w.media)[Count(Unpublished(start))..]
    && OnlyChunks(w.out) && AllTrue(w.media, start, w.out)
    && Follow(w.media, start, w.out) == Some((Key(w.source.group, w.source.id), 0))
  }

  lemma ExtendedMedia(start: Key, w: World, k: Key, content: MediaObject)
    requires WellFormed(w.media) && AtEnd(start, w) && Accepts(w.source, k)
    ensures var m' := Extended(w.media, k, content);
            && WellFormed(m') && Extends(w.media, m') && m' != []
            && InMedia(m', k) && ObjectAt(m', k) == content && EndOf(m') == After(k)
            && TrueFrom(m', start, Whole(w.source, k, content))
  {
    if w.media != [] && k.group == |w.media| && w.source.group == |w.media| {
      var m' := Extended(w.media, k, content);
      assert IsSolidSlice(m', Whole(w.source, k, content).(previousSize := SizeOfPrevious(m', k.group)));
    }
  }

  lemma {:induction false} ItemsUpToSame(m: Groups, m': Groups, h: nat)
    requires h <= |m| && h <= |m'| && forall g :: 0 <= g < h ==> m[g] == m'[g]
    ensures ItemsUpTo(m, h) == ItemsUpTo(m', h)
  {
    if h > 0 {
      ItemsUpToSame(m, m', h - 1);
      assert GroupItems(m, h - 1) == GroupItems(m', h - 1);
    }
  }

  lemma ExtendedItems(start: Key, w: World, k: Key, content: MediaObject)
    requires WellFormed(w.media) && AtEnd(start, w) && Accepts(w.source, k)
    ensures Items(Extended(w.media, k, content)) == Items(w.media) + [Item(k, content)]
  {
    var (m, m') := (w.media, Extended(w.media, k, content));
    if |m'| == |m| {
      var g := |m| - 1;
      ItemsUpToSame(m, m', g);
      assert GroupItems(m', g) == GroupItems(m, g) + [Item(k, content)];
    } else {
      ItemsUpToSame(m, m', |m|);
      assert GroupItems(m', |m|) == [Item(k, content)];
    }
  }

  lemma PublishedFollows(start: Key, w: World, k: Key, content: MediaObject)
    requires Invariant(start, w) && Accepts(w.source, k)
    ensures var w' := Published(w, Publish(k, content));
            && OnlyChunks(w'.out) && AllTrue(w'.media, start, w'.out)
            && Follow(w'.media, start, w'.out) == Some((EndOf(w'.media), 0))
  {
    var (m', f) := (Extended(w.media, k, content), Whole(w.source, k, content));
    ExtendedMedia(start, w, k, content);
    FollowExtends(w.media, m', start, w.out);
    FollowUnfold(m', start, w.out, Chunk(f));
    NextPublished(start, w, k, content);
    hide Follow, TrueFrom;
  }

  lemma SliceIsTrue(m: Groups, f: Fragment)
    requires IsSolidSlice(m, f)
    ensures TrueFrom(m, Key(0, 0), f)
  {
  }

  lemma NextPublished(start: Key, w: World, k: Key, content: MediaObject)
    requires WellFormed(w.media) && AtEnd(start, w) && Accepts(w.source, k)
    ensures var m' := Extended(w.media, k, content);
            Next(m', Key(w.source.group, w.source.id), 0, Chunk(Whole(w.source, k, content))) == Some((EndOf(m'), 0))
  {
  }

  lemma PublishedKeeps(start: Key, w: World, call: Call)
    requires Invariant(start, w)
    ensures Invariant(start, Published(w, call))
  {
    if Accepts(w.source, call.key) {
      ExtendedMedia(start, w, call.key, call.content);
      ExtendedItems(start, w, call.key, call.content);
      PublishedFollows(start, w, call.key, call.content);
      hide Follow, TrueFrom, Items, Extended;
      var (n, more) := (Count(Unpublished(start)), [Item(call.key, call.content)]);
      assert (Items(w.media) + more)[n..] == Items(w.media)[n..] + more;
    }
  }

  /** Whatever calls an application makes, those that are accepted build a well formed media whose
      objects from the start point on, in order, are exactly the accepted ones under their own
      identifiers; and the fragments proposed to the cache are true of it and follow each other. */
  lemma {:induction false} RunKeepsInvariant(start: Key, calls: seq<Call>)
    ensures Invariant(start, Run(start, calls))
  {
    hide Invariant, Published;
    if calls == [] {
      NewIsSound(start);
    } else {
      RunKeepsInvariant(start, calls[..|calls| - 1]);
      PublishedKeeps(start, Run(start, calls[..|calls| - 1]), calls[|calls| - 1]);
    }
  }

  lemma NewIsSound(start: Key)
    ensures Invariant(start, NewWorld(start))
  {
    var m := Unpublished(start);
    assert Items(m)[Count(m)..] == [];
  }

  /** A source without a start point builds the media from its very beginning. */
  lemma FromTheStart(calls: seq<Call>)
    ensures var w := Run(Key(0, 0), calls);
            && WellFormed(w.media) && Key(w.source.group, w.source.id) == EndOf(w.media) && w.items == Items(w.media)
            && OnlyChunks(w.out) && AllTrue(w.media, Key(0, 0), w.out)
            && Follow(w.media, Key(0, 0), w.out) == Some((EndOf(w.media), 0))
  {
    hide Run, Follow, TrueFrom;
    RunKeepsInvariant(Key(0, 0), calls);
    var w := Run(Key(0, 0), calls);
    assert Items(w.media)[0..] == Items(w.media);
    assert Unpublished(Key(0, 0)) == [];
  }

  /** A call is accepted if and only if its identifier is where the source stands, which is the end
      of the media or the start point, or opens the next group when the current one has objects. */
  lemma AcceptedIffItContinues(start: Key, calls: seq<Call>, k: Key)
    ensures var (w, end) := (Run(start, calls), EndOf(Run(start, calls).media));
            if w.items == [] then Accepts(w.source, k) <==> k == start || (start.id != 0 && k == Key(start.group + 1, 0))
            else Accepts(w.source, k) <==> k == end || k == Key(end.group + 1, 0)
  {
    hide Run, Follow, TrueFrom, Items;
    RunKeepsInvariant(start, calls);
    NothingPublished(start, calls);
  }

  lemma {:induction false} NothingPublished(start: Key, calls: seq<Call>)
    ensures var w := Run(start, calls);
            && |w.out| == |w.items| && (w.items == [] ==> w.source == NewSource(start)) && (w.items != [] ==> w.source.id > 0)
  {
    if calls != [] {
      NothingPublished(start, calls[..|calls| - 1]);
    }
  }
}
