/** The other half of pipeline transparency: a chain of hops that has come to rest after its
    source finished has delivered everything, if and only if no object is empty without being a
    placeholder.  At such an object a stream sender waits for ever. */
module PipelineProgress {
  import opened Media
  import opened Arrivals
  import opened StreamPublisher
  import opened StreamReading
  import opened FragmentCache
  import opened Replacement
  import CacheCursor
  import ObjectSource
  import Delivery
  import Reassembly
  import StreamDelivery
  import Pipeline

  // ----- The cache only grows -----

  lemma InsertedIncludes(tree: seq<Fragment>, f: Fragment)
    ensures forall g :: g in tree ==> g in Inserted(tree, f)
  {
    var p := Position(tree, f.key, f.offset);
    assert tree == tree[..p] + tree[p..];
  }

  lemma {:induction false} PlaceIncludes(c: Cache, f: Fragment, j: nat)
    requires j <= |c.tree|
    ensures forall g :: g in c.tree ==> g in Place(c, f, j).0.tree
    decreases |f.data|, j
  {
    hide Position, Progress, Inserted, Place;
    PlaceUnfold(c, f, j);
    InsertedIncludes(c.tree, f);
    if !Stops(c.tree, f, j) {
      var entry := c.tree[j - 1];
      InsertedIncludes(c.tree, Front(f, Beyond(f, entry)));
      if Rest(f, entry).data != [] {
        PlaceIncludes(AddBeyond(c, f, entry), Rest(f, entry), Shifted(c, f, entry, j) - 1);
      }
    }
  }

  lemma StepIncludes(c: Cache, e: Event)
    requires !e.Start?
    ensures forall g :: g in c.tree ==> g in CacheCursor.Step(c, e).tree
  {
    if e.Arrival? {
      PlaceIncludes(c, e.fragment, UpToObject(c.tree, e.fragment.key));
    }
  }

  // ----- The publisher's position has a root in the cache -----

  /** The fragment in hand is in the cache, and where previous fragments end is where one of the
      cache ends. */
  ghost predicate Rooted(tree: seq<Fragment>, p: Publisher) {
    && (p.current.Some? ==> p.current.value in tree)
    && (p.offset > 0 ==> exists f :: f in tree && f.key == Key(p.group, p.id) && f.End() == p.offset < f.objectLength)
  }

  lemma RootedGrows(tree: seq<Fragment>, now: seq<Fragment>, p: Publisher)
    requires Rooted(tree, p) && forall f :: f in tree ==> f in now
    ensures Rooted(now, p)
  {
    if p.offset > 0 {
      var f :| f in tree && f.key == Key(p.group, p.id) && f.End() == p.offset < f.objectLength;
      assert f in now;
    }
  }

  lemma LocateRooted(p: Publisher, c: Store)
    requires Rooted(c.tree, p)
    ensures Rooted(c.tree, Locate(p, c).publisher)
  {
    var now := Locate(p, c).publisher;
    if p.offset > 0 {
      var f :| f in c.tree && f.key == Key(p.group, p.id) && f.End() == p.offset < f.objectLength;
      assert now.offset > 0 ==> f.key == Key(now.group, now.id);
    }
  }

  lemma AdvancedRooted(m: Groups, tree: seq<Fragment>, p: Publisher, n: nat)
    requires Rooted(tree, p) && p.current.Some? && StreamDelivery.InHand(m, p, p.current.value)
    ensures Rooted(tree, Advanced(p, n))
  {
    var f, now := p.current.value, Advanced(p, n);
    assert f in tree && f.key == Key(p.group, p.id);
    if now.current.Some? && p.offset > 0 {
      var g :| g in tree && g.key == Key(p.group, p.id) && g.End() == p.offset < g.objectLength;
      assert g.key == Key(now.group, now.id);
    }
  }

  /** An offer leaves the publisher rooted. */
  lemma OfferRooted(m: Groups, start: Key, w: Line, out: seq<Message>, c: Store, space: nat, verdict: bool, header: Label -> nat)
    requires StreamDelivery.Invariant(m, start, w, out) && StreamDelivery.Stocked(m, c) && StreamDelivery.HasRoom(w, c, space, header)
    requires Rooted(c.tree, w.publisher)
    ensures Rooted(c.tree, Offer(w, c, space, verdict, header).0.publisher)
  {
    hide *;
    var guess := Guess(w.sender, space, header);
    StreamDelivery.RoomParts(w, c, space, header);
    OfferUnfold(w, c, space, verdict, header);
    StreamDelivery.AnnounceUnfold(w.publisher, c, space - guess);
    StreamDelivery.InvariantParts(m, start, w, out);
    StreamDelivery.LocateIsRight(m, w.publisher, w.sender, c);
    LocateRooted(w.publisher, c);
    var r := Announce(w.publisher, c, space - guess);
    var p1, s1 := r.found.publisher, Regrouped(w.sender, r.found.isNewGroup);
    StreamDelivery.RightParts(m, w.publisher, w.sender, r.found);
    SkippedRooted(c.tree, p1);
    if r.isActive {
      StreamDelivery.NothingRemains(m, p1);
      StreamDelivery.FittedBounds(Intended(w, c, space, header), guess, space, header);
      var n := Fitted(Intended(w, c, space, header), guess, space, header);
      StreamDelivery.CopyIsExact(m, p1, s1, c, n);
      AdvancedRooted(m, c.tree, p1, n);
    }
  }

  lemma SkippedRooted(tree: seq<Fragment>, p: Publisher)
    requires Rooted(tree, p)
    ensures Rooted(tree, p.(isSkipped := true))
  {
  }

  /** No message stands for an empty object that is not a placeholder. */
  ghost predicate NoneUnsendable(out: seq<Message>) {
    forall i :: 0 <= i < |out| && out[i].Chunk? ==> !StreamDelivery.Unsendable(out[i].fragment)
  }

  /** What an offer sends has data, or is marked as a placeholder. */
  lemma OfferIsSendable(m: Groups, start: Key, w: Line, out: seq<Message>, c: Store, space: nat, verdict: bool, header: Label -> nat)
    requires StreamDelivery.Invariant(m, start, w, out) && StreamDelivery.Stocked(m, c) && StreamDelivery.HasRoom(w, c, space, header)
    ensures NoneUnsendable(StreamDelivery.Listed(Offer(w, c, space, verdict, header).1))
  {
    hide *;
    var guess := Guess(w.sender, space, header);
    StreamDelivery.RoomParts(w, c, space, header);
    OfferUnfold(w, c, space, verdict, header);
    StreamDelivery.AnnounceUnfold(w.publisher, c, space - guess);
    StreamDelivery.InvariantParts(m, start, w, out);
    StreamDelivery.LocateIsRight(m, w.publisher, w.sender, c);
    var r := Announce(w.publisher, c, space - guess);
    var p1, s1 := r.found.publisher, Regrouped(w.sender, r.found.isNewGroup);
    StreamDelivery.RightParts(m, w.publisher, w.sender, r.found);
    var message := Offer(w, c, space, verdict, header).1;
    if r.isActive {
      StreamDelivery.FittedBounds(Intended(w, c, space, header), guess, space, header);
      StreamDelivery.CopyIsExact(m, p1, s1, c, Fitted(Intended(w, c, space, header), guess, space, header));
    }
    assert message.Some? && message.value.Chunk? ==> message.value.fragment.data != [] || message.value.fragment.flags == 255;
    ListedIsSendable(message);
  }

  lemma ListedIsSendable(message: Option<Message>)
    requires message.Some? && message.value.Chunk? ==> message.value.fragment.data != [] || message.value.fragment.flags == 255
    ensures NoneUnsendable(StreamDelivery.Listed(message))
  {
  }

  /** Two entries of one object: what holds the position where the other ends, begins there. */
  lemma BeginsAtEnd(m: Groups, tree: seq<Fragment>, a: nat, b: nat, o: nat)
    requires Tidy(tree) && a < |tree| && b < |tree| && IsSolidSlice(m, tree[a]) && IsSolidSlice(m, tree[b])
    requires tree[a].key == tree[b].key && tree[a].End() == o < tree[a].objectLength
    requires tree[b].offset <= o < tree[b].End()
    ensures tree[b].offset == o
  {
    assert tree[a].data != [];
  }

  lemma HolderOf(m: Groups, tree: seq<Fragment>, k: Key, o: nat) returns (b: nat)
    requires InMedia(m, k) && CacheCursor.Complete(m, tree, k) && CacheCursor.SolidTree(m, tree)
    requires o == 0 || o < |ObjectAt(m, k).data|
    ensures b < |tree| && IsSolidSlice(m, tree[b]) && tree[b].key == k && tree[b].offset <= o
    ensures o > 0 ==> o < tree[b].End()
  {
    assert CacheCursor.Present(tree, k, o);
    b :| 0 <= b < |tree| && CacheCursor.Sits(tree[b], k, o);
    hide IsSolidSlice;
    assert IsSolidSlice(m, tree[b]);
  }

  lemma EndsInside(m: Groups, f: Fragment, o: nat)
    requires IsSolidSlice(m, f) && o < f.objectLength
    ensures InMedia(m, f.key) && o < |ObjectAt(m, f.key).data|
  {
  }

  /** In a cache that has all of an object, a fragment begins wherever another one ends. */
  lemma AnotherBegins(m: Groups, tree: seq<Fragment>, k: Key, o: nat)
    requires InMedia(m, k) && CacheCursor.Complete(m, tree, k) && Tidy(tree) && CacheCursor.SolidTree(m, tree)
    requires o > 0 ==> exists f :: f in tree && f.key == k && f.End() == o < f.objectLength
    ensures exists f :: f in tree && f.key == k && f.offset == o
  {
    hide CacheCursor.Complete, Tidy, IsSolidSlice;
    if o > 0 {
      var f :| f in tree && f.key == k && f.End() == o < f.objectLength;
      var a :| 0 <= a < |tree| && tree[a] == f;
      EndsInside(m, tree[a], o);
      var b := HolderOf(m, tree, k, o);
      BeginsAtEnd(m, tree, a, b, o);
      assert tree[b] in tree;
    } else {
      var b := HolderOf(m, tree, k, 0);
      assert tree[b] in tree;
    }
  }

  // ----- A chain at rest -----

  ghost predicate Healthy(hop: Pipeline.Hop) {
    Rooted(hop.cache.tree, hop.line.publisher) && NoneUnsendable(hop.out)
  }

  ghost predicate AllHealthy(c: Pipeline.Chain) {
    forall i :: 0 <= i < |c.hops| ==> Healthy(c.hops[i])
  }

  lemma TakingKeeps(hop: Pipeline.Hop, message: Message)
    requires Healthy(hop)
    ensures Healthy(Pipeline.Taking(hop, message))
  {
    StepIncludes(hop.cache, Pipeline.AsEvent(message));
    RootedGrows(hop.cache.tree, Pipeline.Taking(hop, message).cache.tree, hop.line.publisher);
  }

  lemma SendingKeeps(m: Groups, upstream: seq<Message>, hop: Pipeline.Hop, space: nat, verdict: bool, header: Label -> nat)
    requires WellFormed(m) && Pipeline.Faithful(m, upstream) && Pipeline.SoundHop(m, upstream, hop)
    requires StreamDelivery.HasRoom(hop.line, hop.Stock(), space, header) && Healthy(hop)
    ensures Healthy(Pipeline.Sending(hop, space, verdict, header))
  {
    hide Rooted, Offer, StreamDelivery.Invariant, StreamDelivery.Stocked, StreamDelivery.HasRoom, Pipeline.Faithful, CacheCursor.Run,
      Pipeline.Heard, Replaceable;
    Pipeline.FaithfulPrefix(m, upstream, hop.taken);
    Pipeline.FedIsStocked(m, upstream[..hop.taken]);
    OfferRooted(m, Key(0, 0), hop.line, hop.out, hop.Stock(), space, verdict, header);
    OfferIsSendable(m, Key(0, 0), hop.line, hop.out, hop.Stock(), space, verdict, header);
  }

  lemma StepKeeps(m: Groups, source: seq<Message>, c: Pipeline.Chain, step: Pipeline.Step, header: Label -> nat)
    requires WellFormed(m) && Pipeline.Faithful(m, source) && Pipeline.Sound(m, source, c) && AllHealthy(c)
    requires Pipeline.Legal(c, step, header)
    ensures AllHealthy(Pipeline.After(source, c, step, header))
  {
    hide Healthy, Pipeline.Taking, Pipeline.Sending, Pipeline.Sound, Pipeline.SoundHop, Pipeline.Faithful, Pipeline.Upstream,
      Pipeline.View, Pipeline.After, Pipeline.Legal, StreamDelivery.HasRoom, WellFormed;
    Pipeline.AfterUnfold(source, c, step, header);
    if step.i < |c.hops| {
      var (i, up) := (step.i, Pipeline.Upstream(source, c, step.i));
      if step.Offer? {
        Pipeline.UpstreamIsFaithful(m, source, c, i);
        Pipeline.ViewShape(m, c, i);
        Pipeline.HopIsSound(m, source, c, i);
        Pipeline.LegalUnfold(c, step, header);
        SendingKeeps(Pipeline.View(m, c, i), up, c.hops[i], step.space, step.verdict, header);
      } else if c.hops[i].taken < |up| {
        TakingKeeps(c.hops[i], up[c.hops[i].taken]);
      }
    }
  }

  lemma {:induction false} RunKeepsHealthy(m: Groups, source: seq<Message>, n: nat, steps: seq<Pipeline.Step>, header: Label -> nat)
    requires WellFormed(m) && Pipeline.Faithful(m, source) && Pipeline.AllLegal(source, n, steps, header)
    ensures AllHealthy(Pipeline.Run(source, n, steps, header))
  {
    hide Pipeline.Sound, Pipeline.Faithful, WellFormed, Pipeline.After, AllHealthy, Pipeline.Legal;
    if steps == [] {
      NewIsHealthy(n);
    } else {
      var before := Pipeline.Run(source, n, steps[..|steps| - 1], header);
      RunKeepsHealthy(m, source, n, steps[..|steps| - 1], header);
      Pipeline.RunKeepsSound(m, source, n, steps[..|steps| - 1], header);
      StepKeeps(m, source, before, steps[|steps| - 1], header);
    }
  }

  lemma NewIsHealthy(n: nat)
    ensures AllHealthy(Pipeline.NewChain(n))
  {
  }

  ghost predicate HasFin(out: seq<Message>) {
    exists i :: 0 <= i < |out| && out[i].Fin?
  }

  lemma WiredFin(out: seq<Message>)
    ensures HasFin(Wired(out)) <==> HasFin(out)
  {
    forall i | 0 <= i < |out| ensures Wired(out)[i].Fin? <==> out[i].Fin? {
    }
  }

  /** The hop has taken all there is, and it has sent the final point, or sends nothing when it is
      offered room for it. */
  ghost predicate Resting(upstream: seq<Message>, hop: Pipeline.Hop, space: nat, verdict: bool, header: Label -> nat) {
    && hop.taken == |upstream|
    && (HasFin(hop.out) ||
        (StreamDelivery.HasRoom(hop.line, hop.Stock(), space, header) && Offer(hop.line, hop.Stock(), space, verdict, header).1.None?))
  }

  /** No fragment in the cache can go out next, and the position is not the known end. */
  ghost predicate Idle(m: Groups, hop: Pipeline.Hop) {
    && !StreamDelivery.HasWork(m, hop.line, hop.Stock())
    && !(hop.Stock().final != Key(0, 0) && hop.line.sender.At() == EndOf(m))
  }

  /** The hop has taken all there is, and has sent the final point or has nothing to send. */
  ghost predicate Quiet(m: Groups, upstream: seq<Message>, hop: Pipeline.Hop) {
    hop.taken == |upstream| && (HasFin(hop.out) || Idle(m, hop))
  }

  /** Everything was passed on, and no hop has anything to send. */
  ghost predicate AtRest(m: Groups, source: seq<Message>, c: Pipeline.Chain) {
    && c.received == |Pipeline.Upstream(source, c, |c.hops|)|
    && forall j: nat :: j < |c.hops| ==> Quiet(Pipeline.View(m, c, j), Pipeline.Upstream(source, c, j), c.hops[j])
  }

  /** A hop that sends nothing when it is offered room has nothing to send, whatever the room and the
      verdict. */
  lemma RestingIsQuiet(m: Groups, upstream: seq<Message>, hop: Pipeline.Hop, space: nat, verdict: bool, header: Label -> nat)
    requires WellFormed(m) && Pipeline.Faithful(m, upstream) && Pipeline.SoundHop(m, upstream, hop)
    requires Resting(upstream, hop, space, verdict, header)
    ensures Quiet(m, upstream, hop)
  {
    hide Pipeline.Faithful, StreamDelivery.Invariant, StreamDelivery.HasRoom, Offer, StreamDelivery.HasWork, CacheCursor.Run, WellFormed,
      StreamDelivery.Stocked, HasFin, Pipeline.Heard, Replaceable;
    if !HasFin(hop.out) {
      assert upstream[..hop.taken] == upstream;
      Pipeline.FedIsStocked(m, upstream);
      StreamDelivery.UnusedIff(m, Key(0, 0), hop.line, hop.out, hop.Stock(), space, verdict, header);
    }
  }

  /** Every object has data, or is a placeholder. */
  ghost predicate Sendable(m: Groups) {
    forall k :: InMedia(m, k) ==> ObjectAt(m, k).data != [] || ObjectAt(m, k).flags == 255
  }

  /** A hop whose cache has everything, and that does not stand at the end, has work to do. */
  lemma FullCacheHasWork(m: Groups, w: Line, out: seq<Message>, c: Store)
    requires StreamDelivery.Invariant(m, Key(0, 0), w, out) && StreamDelivery.Stocked(m, c)
    requires Rooted(c.tree, w.publisher) && w.sender.At() != EndOf(m)
    requires forall k :: InMedia(m, k) ==> CacheCursor.Complete(m, c.tree, k)
    requires Tidy(c.tree) && CacheCursor.SolidTree(m, c.tree) && Sendable(m)
    ensures StreamDelivery.HasWork(m, w, c)
  {
    hide CacheCursor.Complete, Tidy, IsSolidSlice, StreamDelivery.Stocked, StreamDelivery.Reached, Follow, AllTrue, WellFormed, Sendable,
      StreamDelivery.Unsendable, StreamDelivery.InHand;
    var (p, s) := (w.publisher, w.sender);
    Boundary(m, s.At());
    if p.current.Some? && !p.isSkipped {
      InHandIsSolid(m, p);
      IsSendable(m, p.current.value);
    } else {
      var f := FragmentAt(m, w, c);
      assert f in c.tree;
      IsSendable(m, f);
    }
  }

  lemma InHandIsSolid(m: Groups, p: Publisher)
    requires p.current.Some? && StreamDelivery.InHand(m, p, p.current.value)
    ensures IsSolidSlice(m, p.current.value)
  {
  }

  lemma IsSendable(m: Groups, f: Fragment)
    requires IsSolidSlice(m, f) && Sendable(m)
    ensures !StreamDelivery.Unsendable(f)
  {
    StreamDelivery.UnsendableIff(m, f);
  }

  /** The fragment that begins where the sender is. */
  lemma FragmentAt(m: Groups, w: Line, c: Store) returns (f: Fragment)
    requires WellFormed(m) && IsCursor(m, w.sender.At()) && w.sender.At() != EndOf(m)
    requires StreamDelivery.Agree(m, w.publisher, w.sender) && Rooted(c.tree, w.publisher)
    requires w.publisher.current.None? || w.publisher.isSkipped
    requires forall k :: InMedia(m, k) ==> CacheCursor.Complete(m, c.tree, k)
    requires Tidy(c.tree) && CacheCursor.SolidTree(m, c.tree)
    ensures f in c.tree && IsSolidSlice(m, f) && StreamDelivery.Begins(m, f, w.sender)
  {
    hide CacheCursor.Complete, Tidy, IsSolidSlice, WellFormed;
    var s := w.sender;
    Boundary(m, s.At());
    var k := if InMedia(m, s.At()) then s.At() else Key(s.group + 1, 0);
    AnotherBegins(m, c.tree, k, s.offset);
    f :| f in c.tree && f.key == k && f.offset == s.offset;
    var i :| 0 <= i < |c.tree| && c.tree[i] == f;
  }

  /** A quiet hop behind a finished feed has sent the final point. */
  lemma QuietHasFin(m: Groups, upstream: seq<Message>, hop: Pipeline.Hop)
    requires WellFormed(m) && m != [] && Sendable(m)
    requires Pipeline.Faithful(m, upstream) && Pipeline.SoundHop(m, upstream, hop) && Healthy(hop)
    requires HasFin(upstream) && Quiet(m, upstream, hop)
    ensures HasFin(hop.out)
  {
    hide Pipeline.Faithful, StreamDelivery.Invariant, StreamDelivery.HasWork, CacheCursor.Complete, Tidy, CacheCursor.SolidTree,
      CacheCursor.Run, Rooted, Sendable, WellFormed, StreamDelivery.Stocked, HasFin, Pipeline.Heard, Replaceable;
    if !HasFin(hop.out) {
      assert upstream[..hop.taken] == upstream;
      Pipeline.FedIsStocked(m, upstream);
      FullCache(m, upstream);
      if hop.line.sender.At() != EndOf(m) {
        FullCacheHasWork(m, hop.line, hop.out, hop.Stock());
      }
    }
  }

  /** The cache behind a finished feed has every object, and knows the end. */
  lemma FullCache(m: Groups, upstream: seq<Message>)
    requires WellFormed(m) && m != [] && Pipeline.Faithful(m, upstream) && HasFin(upstream)
    ensures var c := CacheCursor.Run(Pipeline.AsEvents(upstream));
            && Tidy(c.tree) && CacheCursor.SolidTree(m, c.tree) && c.final != Key(0, 0)
            && forall k :: InMedia(m, k) ==> CacheCursor.Complete(m, c.tree, k)
  {
    hide Pipeline.Faithful, CacheCursor.Run, CacheCursor.Complete, Tidy, IsSolidSlice, Arrived, CacheCursor.Exact;
    var es := Pipeline.AsEvents(upstream);
    Pipeline.FaithfulIsFeed(m, upstream);
    CacheCursor.RunKeepsInvariant(m, es);
    var c := CacheCursor.Run(es);
    var i :| 0 <= i < |upstream| && upstream[i].Fin?;
    assert es[i].Final?;
    assert m[|m| - 1] != [];
    FromTheStart(es);
    forall k | InMedia(m, k) ensures CacheCursor.Complete(m, c.tree, k) {
      Pipeline.EndMeansAll(m, upstream, i, k);
      CacheCursor.CompleteIffArrived(m, es, c.tree, c.first, k);
    }
  }

  lemma FromTheStart(es: seq<Event>)
    requires NoStart(es, 0)
    ensures CacheCursor.StartOf(es) == Key(0, 0) && forall k :: !Before(k, Key(0, 0))
  {
  }

  /** Replacing objects neither makes one unsendable nor hides one that is: what is replaced has data. */
  lemma ViewIsSendable(m: Groups, source: seq<Message>, c: Pipeline.Chain, i: nat)
    requires Pipeline.Sound(m, source, c) && i <= |c.hops|
    ensures Sendable(Pipeline.View(m, c, i)) <==> Sendable(m)
    ensures Pipeline.View(m, c, i) == [] <==> m == []
  {
    hide Pipeline.Sound, Pipeline.View, SameShape, Pipeline.ReplacingBefore;
    var now := Pipeline.View(m, c, i);
    Pipeline.ViewShape(m, c, i);
    ShapeBasics(m, now);
    SameLength(m, now);
    forall k | InMedia(m, k)
      ensures (ObjectAt(now, k).data != [] || ObjectAt(now, k).flags == 255) <==> (ObjectAt(m, k).data != [] || ObjectAt(m, k).flags == 255)
    {
      Pipeline.ViewObject(m, c, i, k);
      if Pipeline.ReplacingBefore(c, i, k) {
        ReplacedBefore(c, i, k);
        Pipeline.ReplacedHadData(m, source, c, k);
      }
    }
  }

  lemma SameLength(m: Groups, now: Groups)
    requires SameShape(m, now)
    ensures m == [] <==> now == []
  {
  }

  lemma ReplacedBefore(c: Pipeline.Chain, i: nat, k: Key)
    requires i <= |c.hops| && Pipeline.ReplacingBefore(c, i, k)
    ensures Pipeline.Replacing(c, k)
  {
  }

  lemma {:induction false} AllHaveFin(m: Groups, source: seq<Message>, c: Pipeline.Chain, i: nat)
    requires WellFormed(m) && m != [] && (i == 0 || Sendable(m)) && Pipeline.Faithful(m, source) && HasFin(source)
    requires Pipeline.Sound(m, source, c) && AllHealthy(c) && AtRest(m, source, c) && i <= |c.hops|
    ensures HasFin(Pipeline.Upstream(source, c, i))
  {
    hide Pipeline.Faithful, Pipeline.Sound, Pipeline.SoundHop, Pipeline.View, Healthy, Quiet, HasFin, Sendable, WellFormed, AtRest;
    if i > 0 {
      QuietAt(m, source, c, i - 1);
      var (m', up) := (Pipeline.View(m, c, i - 1), Pipeline.Upstream(source, c, i - 1));
      AllHaveFin(m, source, c, i - 1);
      Pipeline.UpstreamIsFaithful(m, source, c, i - 1);
      Pipeline.ViewShape(m, c, i - 1);
      ViewIsSendable(m, source, c, i - 1);
      Pipeline.HopIsSound(m, source, c, i - 1);
      QuietHasFin(m', up, c.hops[i - 1]);
      WiredFin(c.hops[i - 1].out);
    }
  }

  // ----- What is delivered -----

  /** An object that arrived was carried by a message. */
  lemma ArrivedWasSent(m: Groups, out: seq<Message>, x: Key)
    requires Pipeline.Faithful(m, out) && InMedia(m, x) && Arrived(m, Pipeline.AsEvents(out), x)
    ensures exists i :: 0 <= i < |out| && out[i].Chunk? && out[i].fragment.key == x && TrueFrom(m, Key(0, 0), out[i].fragment)
  {
    hide TrueFrom, Follow;
    var es := Pipeline.AsEvents(out);
    var i :| 0 <= i < |es| && Touches(es[i], x);
    assert es[i] == Pipeline.AsEvent(out[i]) && !out[i].Skipped?;
    assert out[i].Chunk?;
  }

  lemma TrueOfEmpty(m: Groups, f: Fragment)
    requires TrueFrom(m, Key(0, 0), f) && InMedia(m, f.key) && ObjectAt(m, f.key).data == []
    ensures f.data == [] && f.flags == ObjectAt(m, f.key).flags
  {
  }

  /** Where everything has arrived by way of a hop, every object can be sent. */
  lemma ArrivedIsSendable(m: Groups, out: seq<Message>)
    requires Pipeline.Faithful(m, out) && NoneUnsendable(out)
    requires forall x :: InMedia(m, x) ==> Arrived(m, Pipeline.AsEvents(out), x)
    ensures Sendable(m)
  {
    hide Pipeline.Faithful, Arrived, TrueFrom;
    forall x | InMedia(m, x) ensures ObjectAt(m, x).data != [] || ObjectAt(m, x).flags == 255 {
      ArrivedWasSent(m, out, x);
      var i :| 0 <= i < |out| && out[i].Chunk? && out[i].fragment.key == x && TrueFrom(m, Key(0, 0), out[i].fragment);
      if ObjectAt(m, x).data == [] {
        TrueOfEmpty(m, out[i].fragment);
      }
    }
  }

  /** In order means everything only when everything arrived. */
  lemma AllDeliveredIsArrived(m: Groups, es: seq<Event>)
    requires WellFormed(m) && AllHonest(m, es) && NoStart(es, 0)
    requires Delivery.InOrder(Reassembly.Run(es).1) == Items(m)
    ensures forall x :: InMedia(m, x) ==> Arrived(m, es, x)
  {
    hide Arrived, Reassembly.Run, Delivery.InOrder, AllHonest;
    Delivery.PrefixOfTheMedia(m, es);
    Arrivals.CursorIsLeastMissing(m, es);
    forall x | InMedia(m, x) ensures Arrived(m, es, x) {
      RankBelowCount(m, x);
    }
  }

  lemma PrefixUnsendable(out: seq<Message>, n: nat)
    requires n <= |out| && NoneUnsendable(out)
    ensures NoneUnsendable(out[..n])
  {
  }

  lemma WiredUnsendable(out: seq<Message>)
    requires NoneUnsendable(out)
    ensures NoneUnsendable(Wired(out))
  {
  }

  /** A consumer behind at least one hop is handed everything only if every object can be sent. */
  lemma DeliveredIsSendable(m: Groups, source: seq<Message>, c: Pipeline.Chain)
    requires WellFormed(m) && Pipeline.Faithful(m, source) && Pipeline.Sound(m, source, c) && AllHealthy(c) && |c.hops| > 0
    requires c.received <= |Pipeline.Upstream(source, c, |c.hops|)| && Pipeline.Delivered(source, c) == Pipeline.Masked(Items(m), c)
    ensures Sendable(m)
  {
    hide Pipeline.Faithful, Pipeline.Sound, WellFormed, Sendable, NoneUnsendable, Reassembly.Run, Delivery.InOrder, Pipeline.View, Items,
      Pipeline.Masked;
    var n := |c.hops|;
    var m' := Pipeline.View(m, c, n);
    assert Healthy(c.hops[n - 1]);
    var out := Pipeline.Upstream(source, c, n)[..c.received];
    WiredUnsendable(c.hops[n - 1].out);
    PrefixUnsendable(Wired(c.hops[n - 1].out), c.received);
    Pipeline.ConsumerIsFaithful(m, source, c);
    Pipeline.ViewShape(m, c, n);
    Pipeline.FaithfulIsHonest(m', out);
    Pipeline.MaskedItems(m, c);
    AllDeliveredIsArrived(m', Pipeline.AsEvents(out));
    ArrivedIsSendable(m', out);
    ViewIsSendable(m, source, c, n);
  }

  lemma NothingToSend(m: Groups, c: Pipeline.Chain)
    requires m == []
    ensures Sendable(m) && Pipeline.Masked(Items(m), c) == []
  {
  }

  /** Nothing is lost on the way: when the publisher has finished, everything was passed on, and no
      hop has anything to send, the consumer has been handed exactly the list of published objects,
      those that were skipped as placeholders, if and only if none of them is empty without being a
      placeholder (or there is no hop that could get stuck on it). */
  lemma QuietMeansDelivered(calls: seq<ObjectSource.Call>, n: nat, steps: seq<Pipeline.Step>, header: Label -> nat)
    requires Pipeline.AllLegal(Pipeline.Finished(calls), n, steps, header)
    requires var source := Pipeline.Finished(calls);
             AtRest(ObjectSource.Run(Key(0, 0), calls).media, source, Pipeline.Run(source, n, steps, header))
    ensures var c := Pipeline.Run(Pipeline.Finished(calls), n, steps, header);
            && c.received <= |Pipeline.Upstream(Pipeline.Finished(calls), c, |c.hops|)|
            && (Pipeline.Delivered(Pipeline.Finished(calls), c) == Pipeline.Masked(ObjectSource.Run(Key(0, 0), calls).items, c) <==>
                n == 0 || Sendable(ObjectSource.Run(Key(0, 0), calls).media))
  {
    var (source, m) := (Pipeline.Finished(calls), ObjectSource.Run(Key(0, 0), calls).media);
    var c := Pipeline.Run(source, n, steps, header);
    RestParts(m, source, c);
    hide *;
    Pipeline.FinishedIsFaithful(calls);
    Pipeline.PublishedItems(calls);
    FinishedHasFin(calls);
    Pipeline.RunKeepsSound(m, source, n, steps, header);
    RunKeepsHealthy(m, source, n, steps, header);
    Pipeline.Transparency(calls, n, steps, header);
    if m == [] {
      NothingToSend(m, c);
    } else if n == 0 || Sendable(m) {
      AllHaveFin(m, source, c, n);
      FinIsSeen(source, c);
    } else if Pipeline.Delivered(source, c) == Pipeline.Masked(Items(m), c) {
      DeliveredIsSendable(m, source, c);
    }
  }

  lemma QuietAt(m: Groups, source: seq<Message>, c: Pipeline.Chain, j: nat)
    requires AtRest(m, source, c) && j < |c.hops|
    ensures Quiet(Pipeline.View(m, c, j), Pipeline.Upstream(source, c, j), c.hops[j])
  {
    hide Quiet, Pipeline.View, Pipeline.Upstream;
  }

  lemma RestParts(m: Groups, source: seq<Message>, c: Pipeline.Chain)
    requires AtRest(m, source, c)
    ensures c.received == |Pipeline.Upstream(source, c, |c.hops|)|
  {
    hide Quiet;
  }

  /** The same in terms of offers: it is enough that no hop sends anything new when it is offered
      room once. */
  lemma RestMeansDelivered(calls: seq<ObjectSource.Call>, n: nat, steps: seq<Pipeline.Step>, space: nat, verdict: bool, header: Label -> nat)
    requires Pipeline.AllLegal(Pipeline.Finished(calls), n, steps, header)
    requires var source := Pipeline.Finished(calls);
             var c := Pipeline.Run(source, n, steps, header);
             && |c.hops| == n && c.received == |Pipeline.Upstream(source, c, n)|
             && forall j :: 0 <= j < n ==> Resting(Pipeline.Upstream(source, c, j), c.hops[j], space, verdict, header)
    ensures var c := Pipeline.Run(Pipeline.Finished(calls), n, steps, header);
            Pipeline.Delivered(Pipeline.Finished(calls), c) == Pipeline.Masked(ObjectSource.Run(Key(0, 0), calls).items, c) <==>
            n == 0 || Sendable(ObjectSource.Run(Key(0, 0), calls).media)
  {
    var (source, m) := (Pipeline.Finished(calls), ObjectSource.Run(Key(0, 0), calls).media);
    var c := Pipeline.Run(source, n, steps, header);
    hide Pipeline.Run, Pipeline.Finished, ObjectSource.Run, Resting, Quiet, Pipeline.View, Pipeline.Upstream, Pipeline.Sound,
      Pipeline.SoundHop, Pipeline.Faithful, WellFormed, Pipeline.Delivered, Pipeline.Masked, Pipeline.AllLegal, Sendable;
    Pipeline.FinishedIsFaithful(calls);
    Pipeline.RunKeepsSound(m, source, n, steps, header);
    forall j: nat | j < n ensures Quiet(Pipeline.View(m, c, j), Pipeline.Upstream(source, c, j), c.hops[j]) {
      Pipeline.UpstreamIsFaithful(m, source, c, j);
      Pipeline.ViewShape(m, c, j);
      Pipeline.HopIsSound(m, source, c, j);
      RestingIsQuiet(Pipeline.View(m, c, j), Pipeline.Upstream(source, c, j), c.hops[j], space, verdict, header);
    }
    QuietMeansDelivered(calls, n, steps, header);
  }

  lemma FinishedHasFin(calls: seq<ObjectSource.Call>)
    ensures HasFin(Pipeline.Finished(calls))
  {
    var source := Pipeline.Finished(calls);
    assert source[|source| - 1].Fin?;
  }

  lemma FinIsSeen(source: seq<Message>, c: Pipeline.Chain)
    requires c.received == |Pipeline.Upstream(source, c, |c.hops|)| && HasFin(Pipeline.Upstream(source, c, |c.hops|))
    ensures Pipeline.SawEnd(source, c)
  {
  }
}
