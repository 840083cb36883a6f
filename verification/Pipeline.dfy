/** The whole way from the publisher of a media to its consumer: a source, any number of hops each
    with a cache and a stream sender, and a reassembly at the end.  Passing messages on, offering
    space and delivering may interleave in any way; each hop may cut fragments anew, and may replace
    objects by placeholders when congestion control says so. */
module Pipeline {
  import opened Media
  import opened Arrivals
  import opened StreamPublisher
  import opened StreamReading
  import opened Replacement
  import FragmentCache
  import CacheCursor
  import StreamDelivery
  import ObjectSource
  import Reassembly
  import Delivery

  // ----- Messages as events for the next hop -----

  /** What a message is for the cache or the consumer that receives it. */
  function AsEvent(message: Message): Event {
    match message
    case Chunk(f) => Arrival(f)
    case Skipped(k) => Arrival(PlaceholderOf(k))
    case Fin(k) => Final(k)
  }

  function AsEvents(out: seq<Message>): (es: seq<Event>)
    ensures |es| == |out| && forall i :: 0 <= i < |out| ==> es[i] == AsEvent(out[i])
  {
    seq(|out|, i requires 0 <= i < |out| => AsEvent(out[i]))
  }

  /** Messages that carry the media from its very start: true, in sequence, and as they are on the
      wire, where a placeholder is the fragment of an empty object. */
  ghost predicate Faithful(m: Groups, out: seq<Message>) {
    && AllTrue(m, Key(0, 0), out) && Follow(m, Key(0, 0), out).Some?
    && forall i :: 0 <= i < |out| ==> !out[i].Skipped?
  }

  lemma FaithfulUnfold(m: Groups, out: seq<Message>, message: Message)
    requires Faithful(m, out + [message])
    ensures Faithful(m, out) && !message.Skipped? && (message.Chunk? ==> IsSolidSlice(m, message.fragment))
    ensures var (k, o) := Follow(m, Key(0, 0), out).value; Next(m, k, o, message).Some?
  {
    var all := out + [message];
    FollowUnfold(m, Key(0, 0), out, message);
    assert all[|out|] == message;
    assert forall i :: 0 <= i < |out| ==> all[i] == out[i];
    if message.Chunk? {
      assert TrueFrom(m, Key(0, 0), message.fragment);
      ObjectSource.TrueIsSlice(m, message.fragment);
    }
  }

  lemma {:induction false} FaithfulPrefix(m: Groups, out: seq<Message>, n: nat)
    requires Faithful(m, out) && n <= |out|
    ensures Faithful(m, out[..n])
  {
    hide Faithful;
    if n < |out| {
      var before := out[..|out| - 1];
      assert out == before + [out[|out| - 1]];
      FaithfulUnfold(m, before, out[|out| - 1]);
      FaithfulPrefix(m, before, n);
      assert before[..n] == out[..n];
    } else {
      assert out[..n] == out;
    }
  }

  lemma AsEventsUnfold(out: seq<Message>, message: Message)
    ensures AsEvents(out + [message]) == AsEvents(out) + [AsEvent(message)]
  {
  }

  lemma CoveredMore(es: seq<Event>, e: Event, k: Key)
    ensures Covered(es + [e], k) ==
            Covered(es, k) + if Touches(e, k) then Span(e.fragment.offset, |e.fragment.data|) else {}
  {
    assert (es + [e])[..|es|] == es;
  }

  lemma SpanJoin(a: nat, b: nat)
    ensures Span(0, a) + Span(a, b) == Span(0, a + b)
  {
  }

  /** A message in sequence continues the bytes that its object already has. */
  lemma ContinuesBytes(m: Groups, out: seq<Message>, f: Fragment)
    requires WellFormed(m) && Faithful(m, out + [Chunk(f)])
    ensures InMedia(m, f.key) && f.offset == |BytesOf(out, f.key)|
  {
    FaithfulUnfold(m, out, Chunk(f));
    var (k, o) := Follow(m, Key(0, 0), out).value;
    FollowedIsComplete(m, Key(0, 0), out, f.key);
    ObjectSource.SliceIsTrue(m, f);
    StepRank(m, Key(0, 0), k, f);
  }

  /** What has arrived of an object is what the messages carry of it, from its front. */
  lemma {:induction false} CoveredIsBytes(m: Groups, out: seq<Message>, x: Key)
    requires WellFormed(m) && Faithful(m, out)
    ensures Covered(AsEvents(out), x) == Span(0, |BytesOf(out, x)|)
  {
    if out != [] {
      var (before, last) := (out[..|out| - 1], out[|out| - 1]);
      assert out == before + [last];
      hide Faithful, Covered, Span;
      FaithfulUnfold(m, before, last);
      CoveredIsBytes(m, before, x);
      AsEventsUnfold(before, last);
      CoveredMore(AsEvents(before), AsEvent(last), x);
      OneMore(before, last, x);
      if last.Chunk? && last.fragment.key == x {
        ContinuesBytes(m, before, last.fragment);
        SpanJoin(|BytesOf(before, x)|, |last.fragment.data|);
      }
    }
  }

  // ----- Every hop feeds the next one well -----

  lemma NextIsWelcome(m: Groups, out: seq<Message>, message: Message)
    requires WellFormed(m) && Faithful(m, out + [message])
    requires NoStart(AsEvents(out), 0)
    ensures CacheCursor.Welcome(m, AsEvents(out), AsEvent(message))
  {
    FaithfulUnfold(m, out, message);
    if message.Chunk? {
      var f := message.fragment;
      ContinuesBytes(m, out, f);
      CoveredIsBytes(m, out, f.key);
    }
  }

  /** In sequence delivery, however it was cut, is what a cache is made for. */
  lemma FaithfulIsFeed(m: Groups, out: seq<Message>)
    requires WellFormed(m) && Faithful(m, out)
    ensures CacheCursor.Feed(m, AsEvents(out)) && NoStart(AsEvents(out), 0)
  {
    var es := AsEvents(out);
    forall i | 0 <= i < |es| ensures CacheCursor.Welcome(m, es[..i], es[i]) {
      hide CacheCursor.Welcome, Faithful;
      FaithfulPrefix(m, out, i + 1);
      assert out[..i + 1] == out[..i] + [out[i]];
      assert es[..i] == AsEvents(out[..i]);
      NextIsWelcome(m, out[..i], out[i]);
    }
  }

  lemma FaithfulIsHonest(m: Groups, out: seq<Message>)
    requires WellFormed(m) && Faithful(m, out)
    ensures AllHonest(m, AsEvents(out)) && NoStart(AsEvents(out), 0)
  {
    var es := AsEvents(out);
    FaithfulIsFeed(m, out);
    forall i | 0 <= i < |es| ensures Honest(m, es[i]) {
      assert CacheCursor.Welcome(m, es[..i], es[i]);
    }
  }

  /** What the publisher finds in such a cache. */
  lemma FedIsStocked(m: Groups, out: seq<Message>)
    requires WellFormed(m) && Faithful(m, out)
    ensures var c := CacheCursor.Run(AsEvents(out)); StreamDelivery.Stocked(m, Store(c.tree, c.final))
  {
    FaithfulIsFeed(m, out);
    CacheCursor.RunKeepsInvariant(m, AsEvents(out));
  }

  lemma SomeMessage(out: seq<Message>, x: Key)
    ensures Touched(AsEvents(out), x) ==> Chunks(out, x) + Skips(out, x) > 0
  {
    if Touched(AsEvents(out), x) {
      var i :| 0 <= i < |out| && Touches(AsEvents(out)[i], x);
      SkipsOf(out, i);
    }
  }

  lemma SameEvents(out: seq<Message>)
    ensures AsEvents(Wired(out)) == AsEvents(out)
  {
  }

  lemma TouchedMore(es: seq<Event>, now: seq<Event>, x: Key)
    requires es <= now && Touched(es, x)
    ensures Touched(now, x)
  {
    var i :| 0 <= i < |es| && Touches(es[i], x);
    assert Touches(now[i], x);
  }

  /** What lies in such a cache was mentioned by the messages. */
  lemma FedIsHeard(m: Groups, out: seq<Message>, f: Fragment)
    requires WellFormed(m) && Faithful(m, out) && f in CacheCursor.Run(AsEvents(out)).tree
    ensures Touched(AsEvents(out), f.key)
  {
    FaithfulIsFeed(m, out);
    CacheCursor.RunKeepsInvariant(m, AsEvents(out));
    var c := CacheCursor.Run(AsEvents(out));
    assert CacheCursor.HasEntry(c.tree, f.key) && !Before(f.key, c.first);
  }

  // ----- A chain of hops -----

  /** A cache and the stream sender that reads it; what it sent, and how many of the messages of
      the hop before it have come in. */
  datatype Hop = Hop(cache: FragmentCache.Cache, line: Line, out: seq<Message>, taken: nat)
  {
    function Stock(): Store { Store(cache.tree, cache.final) }
  }

  /** The hops in order, and how many messages of the last one the consumer has received. */
  datatype Chain = Chain(hops: seq<Hop>, received: nat)

  function NewHop(): Hop {
    Hop(FragmentCache.EMPTY, StreamDelivery.NewWorld(Key(0, 0)).line, [], 0)
  }

  function NewChain(n: nat): Chain {
    Chain(seq(n, i => NewHop()), 0)
  }

  /** The messages on their way to hop i: those of the source, or of the hop before. */
  function Upstream(source: seq<Message>, c: Chain, i: nat): seq<Message>
    requires i <= |c.hops|
  {
    if i == 0 then source else Wired(c.hops[i - 1].out)
  }

  /** The media as hop i sees it. */
  function View(m: Groups, c: Chain, i: nat): Groups
    requires i <= |c.hops|
  {
    if i == 0 then m else Replaced(View(m, c, i - 1), c.hops[i - 1].out)
  }

  /** Message by message: the next one comes in at hop i, or at the consumer when i is the number
      of hops; or the transport offers space to the sender of hop i, under a verdict of its
      congestion control. */
  datatype Step = Pass(i: nat) | Offer(i: nat, space: nat, verdict: bool)

  function Taking(hop: Hop, message: Message): Hop {
    hop.(cache := CacheCursor.Step(hop.cache, AsEvent(message)), taken := hop.taken + 1)
  }

  function Sending(hop: Hop, space: nat, verdict: bool, header: Label -> nat): Hop {
    var (line, message) := StreamPublisher.Offer(hop.line, hop.Stock(), space, verdict, header);
    hop.(line := line, out := hop.out + StreamDelivery.Listed(message))
  }

  function After(source: seq<Message>, c: Chain, step: Step, header: Label -> nat): Chain {
    match step
    case Pass(i) =>
      if i < |c.hops| && c.hops[i].taken < |Upstream(source, c, i)| then
        c.(hops := c.hops[i := Taking(c.hops[i], Upstream(source, c, i)[c.hops[i].taken])])
      else if i == |c.hops| && c.received < |Upstream(source, c, i)| then c.(received := c.received + 1)
      else c
    case Offer(i, space, verdict) =>
      if i < |c.hops| then c.(hops := c.hops[i := Sending(c.hops[i], space, verdict, header)]) else c
  }

  function Run(source: seq<Message>, n: nat, steps: seq<Step>, header: Label -> nat): Chain {
    if steps == [] then NewChain(n) else After(source, Run(source, n, steps[..|steps| - 1], header), steps[|steps| - 1], header)
  }

  /** An offer has room for its headers and a byte, and only replaces an object of which nothing was
      sent. */
  ghost predicate Legal(c: Chain, step: Step, header: Label -> nat) {
    step.Offer? && step.i < |c.hops| ==>
      var hop := c.hops[step.i];
      && StreamDelivery.HasRoom(hop.line, hop.Stock(), step.space, header)
      && StreamDelivery.Harmless(hop.line, hop.Stock(), step.space, step.verdict, header)
  }

  ghost predicate AllLegal(source: seq<Message>, n: nat, steps: seq<Step>, header: Label -> nat) {
    steps == [] ||
    (AllLegal(source, n, steps[..|steps| - 1], header) &&
     Legal(Run(source, n, steps[..|steps| - 1], header), steps[|steps| - 1], header))
  }

  // ----- The invariant of a hop -----

  /** A hop only speaks of objects that it heard of. */
  ghost predicate Heard(upstream: seq<Message>, hop: Hop)
    requires hop.taken <= |upstream|
  {
    && (forall x :: Touched(AsEvents(hop.out), x) ==> Touched(AsEvents(upstream[..hop.taken]), x))
    && (hop.line.publisher.current.Some? ==> Touched(AsEvents(upstream[..hop.taken]), hop.line.publisher.current.value.key))
  }

  ghost predicate SoundHop(m: Groups, upstream: seq<Message>, hop: Hop) {
    && hop.taken <= |upstream| && hop.cache == CacheCursor.Run(AsEvents(upstream[..hop.taken]))
    && StreamDelivery.Invariant(m, Key(0, 0), hop.line, hop.out)
    && Replaceable(m, hop.out) && Heard(upstream, hop)
  }

  lemma CacheStep(out: seq<Message>, n: nat)
    requires n < |out|
    ensures CacheCursor.Run(AsEvents(out[..n + 1])) == CacheCursor.Step(CacheCursor.Run(AsEvents(out[..n])), AsEvent(out[n]))
  {
    var es := AsEvents(out[..n + 1]);
    assert out[..n + 1] == out[..n] + [out[n]];
    assert es[..n] == AsEvents(out[..n]) && es[n] == AsEvent(out[n]);
  }

  lemma HeardMore(upstream: seq<Message>, hop: Hop, now: Hop)
    requires hop.taken <= now.taken <= |upstream| && Heard(upstream, hop)
    requires now.out == hop.out && now.line == hop.line
    ensures Heard(upstream, now)
  {
    var (es, later) := (AsEvents(upstream[..hop.taken]), AsEvents(upstream[..now.taken]));
    assert es <= later;
    forall x | Touched(es, x) ensures Touched(later, x) {
      TouchedMore(es, later, x);
    }
  }

  lemma TakingKeeps(m: Groups, upstream: seq<Message>, hop: Hop)
    requires SoundHop(m, upstream, hop) && hop.taken < |upstream|
    ensures SoundHop(m, upstream, Taking(hop, upstream[hop.taken]))
  {
    hide CacheCursor.Run, CacheCursor.Step, StreamDelivery.Invariant, Replaceable, Heard;
    CacheStep(upstream, hop.taken);
    HeardMore(upstream, hop, Taking(hop, upstream[hop.taken]));
  }

  /** What an offer brings into play was in hand or in the cache, and an object that it replaces
      has data and is not the first of its group. */
  lemma OfferSpeaksOf(m: Groups, start: Key, w: Line, out: seq<Message>, c: Store, space: nat, verdict: bool, header: Label -> nat)
    requires StreamDelivery.Invariant(m, start, w, out) && StreamDelivery.Stocked(m, c)
    requires StreamDelivery.HasRoom(w, c, space, header)
    ensures var (w', message) := StreamPublisher.Offer(w, c, space, verdict, header);
            && (w'.publisher.current.Some? ==> InPlay(w, c, w'.publisher.current.value.key))
            && (message.Some? && message.value.Chunk? ==> InPlay(w, c, message.value.fragment.key))
            && (message.Some? && message.value.Skipped? ==>
                  var k := message.value.key;
                  InPlay(w, c, k) && InMedia(m, k) && k.id != 0 && ObjectAt(m, k).data != [])
  {
    hide *;
    StreamDelivery.RoomParts(w, c, space, header);
    OfferUnfold(w, c, space, verdict, header);
    StreamDelivery.AnnounceUnfold(w.publisher, c, space - Guess(w.sender, space, header));
    StreamDelivery.InvariantParts(m, start, w, out);
    StreamDelivery.LocateIsRight(m, w.publisher, w.sender, c);
    var r := Announce(w.publisher, c, space - Guess(w.sender, space, header));
    var p1, s1 := r.found.publisher, Regrouped(w.sender, r.found.isNewGroup);
    StreamDelivery.RightParts(m, w.publisher, w.sender, r.found);
    LocateInPlay(w, c);
    if r.isActive {
      StreamDelivery.NothingRemains(m, p1);
      StreamDelivery.InHandBounds(m, p1, p1.current.value);
      InHandHasData(m, p1);
      var n := Fitted(Intended(w, c, space, header), Guess(w.sender, space, header), space, header);
      StreamDelivery.FittedBounds(Intended(w, c, space, header), Guess(w.sender, space, header), space, header);
      StreamDelivery.CopyIsExact(m, p1, s1, c, n);
      AdvancedCurrent(p1, n);
    }
  }

  ghost predicate InPlay(w: Line, c: Store, x: Key) {
    || (w.publisher.current.Some? && w.publisher.current.value.key == x)
    || exists f :: f in c.tree && f.key == x
  }

  lemma LocateInPlay(w: Line, c: Store)
    ensures var now := Locate(w.publisher, c).publisher; now.current.Some? ==> InPlay(w, c, now.current.value.key)
  {
  }

  lemma InHandHasData(m: Groups, p: Publisher)
    requires p.current.Some? && StreamDelivery.InHand(m, p, p.current.value)
    ensures var k := p.current.value.key; p.current.value.data != [] ==> ObjectAt(m, k).data != []
  {
  }

  lemma AdvancedCurrent(p: Publisher, n: nat)
    requires p.current.Some?
    ensures Advanced(p, n).current.Some? ==> Advanced(p, n).current == p.current
  {
  }

  lemma TouchedListed(out: seq<Message>, message: Option<Message>, x: Key)
    ensures Touched(AsEvents(out + StreamDelivery.Listed(message)), x) <==>
            Touched(AsEvents(out), x) ||
            (message.Some? && ((message.value.Chunk? && message.value.fragment.key == x) || message.value == Skipped(x)))
  {
    if message.Some? {
      AsEventsUnfold(out, message.value);
      OnlyItsObject([], AsEvents(out), AsEvent(message.value), x);
    } else {
      assert out + [] == out;
    }
  }

  lemma SendingIsHeard(m: Groups, upstream: seq<Message>, hop: Hop, space: nat, verdict: bool, header: Label -> nat)
    requires WellFormed(m) && SoundHop(m, upstream, hop) && Faithful(m, upstream)
    requires StreamDelivery.HasRoom(hop.line, hop.Stock(), space, header)
    ensures Heard(upstream, Sending(hop, space, verdict, header))
  {
    hide CacheCursor.Run, CacheCursor.Step, StreamPublisher.Offer, StreamDelivery.HasRoom, WellFormed, StreamDelivery.Stocked, Faithful,
      StreamDelivery.Invariant, Replaceable, Touched;
    var heard := upstream[..hop.taken];
    FaithfulPrefix(m, upstream, hop.taken);
    FedIsStocked(m, heard);
    OfferSpeaksOf(m, Key(0, 0), hop.line, hop.out, hop.Stock(), space, verdict, header);
    forall x | InPlay(hop.line, hop.Stock(), x) ensures Touched(AsEvents(heard), x) {
      if f :| f in hop.Stock().tree && f.key == x {
        FedIsHeard(m, heard, f);
      }
    }
    var message := StreamPublisher.Offer(hop.line, hop.Stock(), space, verdict, header).1;
    forall x | Touched(AsEvents(Sending(hop, space, verdict, header).out), x) ensures Touched(AsEvents(heard), x) {
      TouchedListed(hop.out, message, x);
    }
  }

  lemma ReplaceableMore(m: Groups, out: seq<Message>, message: Option<Message>)
    requires Replaceable(m, out)
    requires message.Some? && message.value.Skipped? ==>
               var k := message.value.key; InMedia(m, k) && k.id != 0 && ObjectAt(m, k).data != []
    ensures Replaceable(m, out + StreamDelivery.Listed(message))
  {
  }

  lemma SendingKeeps(m: Groups, upstream: seq<Message>, hop: Hop, space: nat, verdict: bool, header: Label -> nat)
    requires WellFormed(m) && SoundHop(m, upstream, hop) && Faithful(m, upstream)
    requires StreamDelivery.HasRoom(hop.line, hop.Stock(), space, header)
    requires StreamDelivery.Harmless(hop.line, hop.Stock(), space, verdict, header)
    ensures SoundHop(m, upstream, Sending(hop, space, verdict, header))
  {
    hide CacheCursor.Run, CacheCursor.Step, StreamPublisher.Offer, StreamDelivery.HasRoom, StreamDelivery.Harmless, WellFormed,
      StreamDelivery.Stocked, StreamDelivery.Invariant, Faithful, Replaceable, Heard;
    FaithfulPrefix(m, upstream, hop.taken);
    FedIsStocked(m, upstream[..hop.taken]);
    var c := hop.Stock();
    StreamDelivery.OfferKeeps(m, Key(0, 0), hop.line, hop.out, c, space, verdict, header);
    OfferSpeaksOf(m, Key(0, 0), hop.line, hop.out, c, space, verdict, header);
    ReplaceableMore(m, hop.out, StreamPublisher.Offer(hop.line, c, space, verdict, header).1);
    SendingIsHeard(m, upstream, hop, space, verdict, header);
  }

  /** An object that was just replaced was not mentioned before. */
  lemma SkippedIsFresh(m: Groups, w: Line, out: seq<Message>, k: Key)
    requires StreamDelivery.Invariant(m, Key(0, 0), w, out + [Skipped(k)])
    ensures !Touched(AsEvents(out), k)
  {
    hide TrueFrom, IsSolidSlice;
    var all := out + [Skipped(k)];
    assert all[..|out|] == out;
    FollowUnfold(m, Key(0, 0), out, Skipped(k));
    assert forall i :: 0 <= i < |out| ==> all[i] == out[i];
    FollowedIsComplete(m, Key(0, 0), out, k);
    SomeMessage(out, k);
  }

  lemma HopIsFaithful(m: Groups, upstream: seq<Message>, hop: Hop)
    requires SoundHop(m, upstream, hop)
    ensures Faithful(Replaced(m, hop.out), Wired(hop.out))
  {
    hide CacheCursor.Run, Heard, Replaceable, StreamDelivery.Reached, TrueFrom;
    WiredIsTrue(m, Key(0, 0), hop.out);
  }

  /** A hop that has not heard of some objects does not notice when the media changes there. */
  lemma HopElsewhere(m: Groups, now: Groups, ks: set<Key>, upstream: seq<Message>, longer: seq<Message>, hop: Hop)
    requires SoundHop(m, upstream, hop) && SameExcept(m, now, ks) && upstream <= longer
    requires forall k :: k in ks ==> !Touched(AsEvents(upstream[..hop.taken]), k)
    ensures SoundHop(now, longer, hop)
  {
    hide CacheCursor.Run, StreamDelivery.Invariant, Replaceable, SameExcept, Touched;
    assert longer[..hop.taken] == upstream[..hop.taken];
    InvariantElsewhere(m, now, ks, hop.line, hop.out);
    ReplaceableElsewhere(m, now, ks, hop.out);
  }

  lemma MessageIsTouch(out: seq<Message>, i: nat)
    requires i < |out|
    ensures out[i].Chunk? ==> Touched(AsEvents(out), out[i].fragment.key)
    ensures out[i].Skipped? ==> Touched(AsEvents(out), out[i].key)
  {
    assert AsEvents(out)[i] == AsEvent(out[i]);
    assert out[i].Chunk? ==> Touches(AsEvents(out)[i], out[i].fragment.key);
    assert out[i].Skipped? ==> Touches(AsEvents(out)[i], out[i].key);
  }

  lemma ReplaceableElsewhere(m: Groups, now: Groups, ks: set<Key>, out: seq<Message>)
    requires Replaceable(m, out) && SameExcept(m, now, ks) && forall k :: k in ks ==> !Touched(AsEvents(out), k)
    ensures Replaceable(now, out)
  {
    hide Touched, AsEvents;
    forall i | 0 <= i < |out| && out[i].Skipped? ensures InMedia(now, out[i].key) && ObjectAt(now, out[i].key).data != [] {
      MessageIsTouch(out, i);
    }
  }

  lemma InvariantElsewhere(m: Groups, now: Groups, ks: set<Key>, w: Line, out: seq<Message>)
    requires StreamDelivery.Invariant(m, Key(0, 0), w, out) && SameExcept(m, now, ks)
    requires forall k :: k in ks ==> !Touched(AsEvents(out), k)
    requires w.publisher.current.Some? ==> w.publisher.current.value.key !in ks
    ensures StreamDelivery.Invariant(now, Key(0, 0), w, out)
  {
    ShapeBasics(m, now);
    ShapeFollow(m, now, Key(0, 0), out);
    hide SameExcept, SameShape, TrueFrom, Follow, WellFormed, IsSolidSlice, Touched, AsEvents, IsCursor, InMedia, AtGroupEnd;
    forall i | 0 <= i < |out| && out[i].Chunk? ensures TrueFrom(now, Key(0, 0), out[i].fragment) {
      MessageIsTouch(out, i);
      TrueElsewhere(m, now, ks, Key(0, 0), out[i].fragment);
    }
    var p := w.publisher;
    if !p.isSkipped && p.current.Some? {
      SliceElsewhere(m, now, ks, p.current.value);
    }
  }

  // ----- The invariant of a chain -----

  ghost predicate Sound(m: Groups, source: seq<Message>, c: Chain) {
    && (forall i: nat :: i < |c.hops| ==> SoundHop(View(m, c, i), Upstream(source, c, i), c.hops[i]))
    && c.received <= |Upstream(source, c, |c.hops|)|
  }

  lemma {:induction false} ViewShape(m: Groups, c: Chain, i: nat)
    requires i <= |c.hops|
    ensures SameShape(m, View(m, c, i)) && (WellFormed(m) ==> WellFormed(View(m, c, i)))
  {
    hide SameShape, WellFormed;
    if i > 0 {
      ViewShape(m, c, i - 1);
      ReplacedObject(View(m, c, i - 1), c.hops[i - 1].out);
      ShapeTwice(m, View(m, c, i - 1), View(m, c, i));
    } else {
      ShapeTwice(m, m, m);
    }
  }

  lemma ShapeTwice(m: Groups, mid: Groups, now: Groups)
    requires (SameShape(m, mid) && SameShape(mid, now)) || m == mid == now
    ensures SameShape(m, now) && (WellFormed(m) ==> WellFormed(now))
  {
    ShapeBasics(m, now);
  }

  lemma HopIsSound(m: Groups, source: seq<Message>, c: Chain, i: nat)
    requires Sound(m, source, c) && i < |c.hops|
    ensures SoundHop(View(m, c, i), Upstream(source, c, i), c.hops[i])
  {
    hide SoundHop;
  }

  lemma UpstreamIsFaithful(m: Groups, source: seq<Message>, c: Chain, i: nat)
    requires Faithful(m, source) && Sound(m, source, c) && i <= |c.hops|
    ensures Faithful(View(m, c, i), Upstream(source, c, i))
  {
    hide Faithful, SoundHop, Sound;
    if i > 0 {
      HopIsSound(m, source, c, i - 1);
      HopIsFaithful(View(m, c, i - 1), Upstream(source, c, i - 1), c.hops[i - 1]);
    }
  }

  lemma ReceivedInBounds(m: Groups, source: seq<Message>, c: Chain)
    requires Sound(m, source, c)
    ensures c.received <= |Upstream(source, c, |c.hops|)|
  {
  }

  lemma SoundFrom(m: Groups, source: seq<Message>, c: Chain)
    requires forall j: nat :: j < |c.hops| ==> SoundHop(View(m, c, j), Upstream(source, c, j), c.hops[j])
    requires c.received <= |Upstream(source, c, |c.hops|)|
    ensures Sound(m, source, c)
  {
    hide SoundHop, Upstream, View;
  }

  /** What the hops behind hop i have not heard of, when it has not mentioned it. */
  lemma {:induction false} SilentBehind(m: Groups, source: seq<Message>, c: Chain, i: nat, j: nat, k: Key)
    requires Sound(m, source, c) && i < j < |c.hops| && !Touched(AsEvents(c.hops[i].out), k)
    ensures !Touched(AsEvents(Upstream(source, c, j)[..c.hops[j].taken]), k) && !Touched(AsEvents(c.hops[j].out), k)
  {
    hide Sound, StreamDelivery.Invariant, Replaceable, Touched, CacheCursor.Run;
    HopIsSound(m, source, c, j);
    if j > i + 1 {
      SilentBehind(m, source, c, i, j - 1, k);
    }
    var up := Upstream(source, c, j);
    SameEvents(c.hops[j - 1].out);
    assert AsEvents(up[..c.hops[j].taken]) <= AsEvents(up);
    if Touched(AsEvents(up[..c.hops[j].taken]), k) {
      TouchedMore(AsEvents(up[..c.hops[j].taken]), AsEvents(up), k);
    }
  }

  /** The object that a message replaces. */
  function NewlyReplaced(message: Option<Message>): set<Key> {
    if message.Some? && message.value.Skipped? then {message.value.key} else {}
  }

  lemma {:induction false} ViewAfter(m: Groups, c: Chain, i: nat, hop: Hop, message: Option<Message>, j: nat)
    requires i < |c.hops| && hop.out == c.hops[i].out + StreamDelivery.Listed(message) && j <= |c.hops|
    ensures var c' := c.(hops := c.hops[i := hop]);
            && (j <= i ==> View(m, c', j) == View(m, c, j))
            && (j > i ==> SameExcept(View(m, c, j), View(m, c', j), NewlyReplaced(message)))
  {
    hide Replaced, SameExcept;
    var c' := c.(hops := c.hops[i := hop]);
    if j > 0 {
      ViewAfter(m, c, i, hop, message, j - 1);
      if j == i + 1 {
        var out := c.hops[i].out;
        if message.Some? {
          ReplacedMore(View(m, c, i), out, message.value);
        } else {
          assert hop.out == out;
          SameAgain(View(m, c, j));
        }
      } else if j > i + 1 {
        ReplacedElsewhere(View(m, c, j - 1), View(m, c', j - 1), NewlyReplaced(message), c.hops[j - 1].out);
      }
    }
  }

  lemma SameAgain(m: Groups)
    ensures SameExcept(m, m, {})
  {
  }

  lemma UpstreamAfter(source: seq<Message>, c: Chain, i: nat, hop: Hop, j: nat)
    requires i < |c.hops| && c.hops[i].out <= hop.out && j <= |c.hops|
    ensures var c' := c.(hops := c.hops[i := hop]); Upstream(source, c, j) <= Upstream(source, c', j)
    ensures j <= i ==> Upstream(source, c.(hops := c.hops[i := hop]), j) == Upstream(source, c, j)
  {
  }

  /** A hop may change in any sound way that adds at most one message, if an object that the message
      replaces was not mentioned before. */
  lemma ReplaceKeeps(m: Groups, source: seq<Message>, c: Chain, i: nat, hop: Hop, message: Option<Message>)
    requires Sound(m, source, c) && i < |c.hops|
    requires SoundHop(View(m, c, i), Upstream(source, c, i), hop) && hop.out == c.hops[i].out + StreamDelivery.Listed(message)
    requires forall k :: k in NewlyReplaced(message) ==> !Touched(AsEvents(c.hops[i].out), k)
    ensures Sound(m, source, c.(hops := c.hops[i := hop]))
  {
    hide *;
    var c' := c.(hops := c.hops[i := hop]);
    ReceivedInBounds(m, source, c);
    UpstreamAfter(source, c, i, hop, |c.hops|);
    forall j: nat | j < |c'.hops| ensures SoundHop(View(m, c', j), Upstream(source, c', j), c'.hops[j]) {
      UpstreamAfter(source, c, i, hop, j);
      ViewAfter(m, c, i, hop, message, j);
      if j != i {
        HopIsSound(m, source, c, j);
      }
      if j > i {
        TakenInBounds(View(m, c, j), Upstream(source, c, j), c.hops[j]);
        forall k | k in NewlyReplaced(message) ensures !Touched(AsEvents(Upstream(source, c, j)[..c.hops[j].taken]), k) {
          SilentBehind(m, source, c, i, j, k);
        }
        HopElsewhere(View(m, c, j), View(m, c', j), NewlyReplaced(message), Upstream(source, c, j), Upstream(source, c', j), c.hops[j]);
      }
    }
    SoundFrom(m, source, c');
  }

  lemma TakenInBounds(m: Groups, upstream: seq<Message>, hop: Hop)
    requires SoundHop(m, upstream, hop)
    ensures hop.taken <= |upstream|
  {
  }

  lemma AfterUnfold(source: seq<Message>, c: Chain, step: Step, header: Label -> nat)
    ensures var (i, c') := (step.i, After(source, c, step, header));
            if i > |c.hops| || (i == |c.hops| && step.Offer?) then c' == c
            else if step.Offer? then c' == c.(hops := c.hops[i := Sending(c.hops[i], step.space, step.verdict, header)])
            else if i < |c.hops| then
              c' == if c.hops[i].taken < |Upstream(source, c, i)| then
                      c.(hops := c.hops[i := Taking(c.hops[i], Upstream(source, c, i)[c.hops[i].taken])])
                    else c
            else c' == if c.received < |Upstream(source, c, i)| then c.(received := c.received + 1) else c
  {
    hide Taking, Sending, Upstream;
  }

  lemma LegalUnfold(c: Chain, step: Step, header: Label -> nat)
    requires Legal(c, step, header) && step.Offer? && step.i < |c.hops|
    ensures var hop := c.hops[step.i];
            && StreamDelivery.HasRoom(hop.line, hop.Stock(), step.space, header)
            && StreamDelivery.Harmless(hop.line, hop.Stock(), step.space, step.verdict, header)
  {
    hide StreamDelivery.HasRoom, StreamDelivery.Harmless;
  }

  /** The message that an offer adds. */
  function Added(hop: Hop, space: nat, verdict: bool, header: Label -> nat): Option<Message> {
    StreamPublisher.Offer(hop.line, hop.Stock(), space, verdict, header).1
  }

  lemma SendingIsFresh(m: Groups, upstream: seq<Message>, hop: Hop, space: nat, verdict: bool, header: Label -> nat)
    requires SoundHop(m, upstream, Sending(hop, space, verdict, header))
    ensures var message := Added(hop, space, verdict, header);
            && Sending(hop, space, verdict, header).out == hop.out + StreamDelivery.Listed(message)
            && forall k :: k in NewlyReplaced(message) ==> !Touched(AsEvents(hop.out), k)
  {
    hide StreamPublisher.Offer, StreamDelivery.Invariant, Replaceable, Heard, CacheCursor.Run, Touched;
    var message := Added(hop, space, verdict, header);
    if message.Some? && message.value.Skipped? {
      SkippedIsFresh(m, Sending(hop, space, verdict, header).line, hop.out, message.value.key);
    }
  }

  lemma OfferStepKeeps(m: Groups, source: seq<Message>, c: Chain, step: Step, header: Label -> nat)
    requires WellFormed(m) && Faithful(m, source) && Sound(m, source, c) && Legal(c, step, header)
    requires step.Offer? && step.i < |c.hops|
    ensures Sound(m, source, c.(hops := c.hops[step.i := Sending(c.hops[step.i], step.space, step.verdict, header)]))
  {
    hide *;
    var (i, up) := (step.i, Upstream(source, c, step.i));
    var hop := c.hops[i];
    UpstreamIsFaithful(m, source, c, i);
    ViewShape(m, c, i);
    HopIsSound(m, source, c, i);
    LegalUnfold(c, step, header);
    SendingKeeps(View(m, c, i), up, hop, step.space, step.verdict, header);
    SendingIsFresh(View(m, c, i), up, hop, step.space, step.verdict, header);
    ReplaceKeeps(m, source, c, i, Sending(hop, step.space, step.verdict, header), Added(hop, step.space, step.verdict, header));
  }

  lemma PassStepKeeps(m: Groups, source: seq<Message>, c: Chain, i: nat)
    requires Sound(m, source, c) && i < |c.hops| && c.hops[i].taken < |Upstream(source, c, i)|
    ensures Sound(m, source, c.(hops := c.hops[i := Taking(c.hops[i], Upstream(source, c, i)[c.hops[i].taken])]))
  {
    hide *;
    var up := Upstream(source, c, i);
    HopIsSound(m, source, c, i);
    TakingKeeps(View(m, c, i), up, c.hops[i]);
    TakingSends(c.hops[i], up[c.hops[i].taken]);
    NothingListed();
    ReplaceKeeps(m, source, c, i, Taking(c.hops[i], up[c.hops[i].taken]), None);
  }

  lemma NothingListed()
    ensures NewlyReplaced(None) == {} && StreamDelivery.Listed(None) == []
    ensures forall out: seq<Message> :: out + [] == out
  {
  }

  lemma StepKeeps(m: Groups, source: seq<Message>, c: Chain, step: Step, header: Label -> nat)
    requires WellFormed(m) && Faithful(m, source) && Sound(m, source, c) && Legal(c, step, header)
    ensures Sound(m, source, After(source, c, step, header)) && |After(source, c, step, header).hops| == |c.hops|
  {
    hide *;
    AfterUnfold(source, c, step, header);
    if step.i < |c.hops| {
      if step.Offer? {
        OfferStepKeeps(m, source, c, step, header);
      } else if c.hops[step.i].taken < |Upstream(source, c, step.i)| {
        PassStepKeeps(m, source, c, step.i);
      }
    } else if step.i == |c.hops| {
      ReceivedMore(m, source, c);
    }
  }

  lemma ReceivedMore(m: Groups, source: seq<Message>, c: Chain)
    requires Sound(m, source, c)
    ensures c.received < |Upstream(source, c, |c.hops|)| ==> Sound(m, source, c.(received := c.received + 1))
  {
    hide SoundHop;
    var c' := c.(received := c.received + 1);
    forall j: nat | j < |c.hops|
      ensures Upstream(source, c', j) == Upstream(source, c, j) && View(m, c', j) == View(m, c, j)
    {
      ViewOfHops(m, c, c', j);
    }
  }

  lemma {:induction false} ViewOfHops(m: Groups, c: Chain, c': Chain, i: nat)
    requires c.hops == c'.hops && i <= |c.hops|
    ensures View(m, c, i) == View(m, c', i)
  {
    if i > 0 {
      ViewOfHops(m, c, c', i - 1);
    }
  }

  lemma TakingSends(hop: Hop, message: Message)
    ensures Taking(hop, message).out == hop.out
  {
  }

  lemma NewHopIsSound(m: Groups)
    requires WellFormed(m)
    ensures SoundHop(m, [], NewHop())
  {
    StreamDelivery.NewWorldIsSound(m, Key(0, 0));
    assert AsEvents([]) == [];
  }

  lemma NewChainIsSound(m: Groups, source: seq<Message>, n: nat)
    requires WellFormed(m)
    ensures Sound(m, source, NewChain(n))
  {
    hide SoundHop, WellFormed;
    var c := NewChain(n);
    forall j: nat | j < n ensures SoundHop(View(m, c, j), Upstream(source, c, j), c.hops[j]) {
      ViewShape(m, c, j);
      NewHopIsSound(View(m, c, j));
      NothingYet(View(m, c, j), Upstream(source, c, j));
    }
  }

  lemma NothingYet(m: Groups, upstream: seq<Message>)
    requires SoundHop(m, [], NewHop())
    ensures SoundHop(m, upstream, NewHop())
  {
    SameAgain(m);
    HopElsewhere(m, m, {}, [], upstream, NewHop());
  }

  lemma {:induction false} RunKeepsSound(m: Groups, source: seq<Message>, n: nat, steps: seq<Step>, header: Label -> nat)
    requires WellFormed(m) && Faithful(m, source) && AllLegal(source, n, steps, header)
    ensures Sound(m, source, Run(source, n, steps, header)) && |Run(source, n, steps, header).hops| == n
  {
    hide Sound, Faithful, WellFormed, After, Legal;
    if steps == [] {
      NewChainIsSound(m, source, n);
    } else {
      RunKeepsSound(m, source, n, steps[..|steps| - 1], header);
      StepKeeps(m, source, Run(source, n, steps[..|steps| - 1], header), steps[|steps| - 1], header);
    }
  }

  // ----- What was replaced -----

  /** Some hop replaced object k. */
  ghost predicate Replacing(c: Chain, k: Key) {
    exists i :: 0 <= i < |c.hops| && Skips(c.hops[i].out, k) > 0
  }

  /** The published objects, with those that were replaced as placeholders. */
  ghost function Masked(items: seq<Item>, c: Chain): (r: seq<Item>)
    ensures |r| == |items|
  {
    seq(|items|, i requires 0 <= i < |items| => if Replacing(c, items[i].key) then Item(items[i].key, BLANK) else items[i])
  }

  ghost predicate ReplacingBefore(c: Chain, i: nat, k: Key)
    requires i <= |c.hops|
  {
    exists j :: 0 <= j < i && Skips(c.hops[j].out, k) > 0
  }

  lemma ReplacingUnfold(c: Chain, i: nat, k: Key)
    requires 0 < i <= |c.hops|
    ensures ReplacingBefore(c, i, k) <==> ReplacingBefore(c, i - 1, k) || Skips(c.hops[i - 1].out, k) > 0
  {
  }

  lemma {:induction false} ViewObject(m: Groups, c: Chain, i: nat, k: Key)
    requires i <= |c.hops| && InMedia(m, k)
    ensures InMedia(View(m, c, i), k)
    ensures ObjectAt(View(m, c, i), k) == if ReplacingBefore(c, i, k) then BLANK else ObjectAt(m, k)
  {
    if i > 0 {
      hide Replaced, ReplacingBefore;
      ViewObject(m, c, i - 1, k);
      ReplacedObject(View(m, c, i - 1), c.hops[i - 1].out);
      ReplacingUnfold(c, i, k);
    }
  }

  lemma MaskedItems(m: Groups, c: Chain)
    ensures Items(View(m, c, |c.hops|)) == Masked(Items(m), c)
  {
    hide SameShape, Items, View;
    var now := View(m, c, |c.hops|);
    ViewShape(m, c, |c.hops|);
    ItemsCount(m, now);
    forall i | 0 <= i < Count(m) ensures Items(now)[i] == Masked(Items(m), c)[i] {
      ReplacedItem(m, now, i);
      ViewObject(m, c, |c.hops|, Items(m)[i].key);
    }
  }

  lemma ItemsCount(m: Groups, now: Groups)
    requires SameShape(m, now)
    ensures |Items(m)| == |Items(now)| == Count(m)
  {
    ShapeStarts(m, now, |m|);
  }

  /** What was replaced had data, and was not the first object of its group. */
  lemma ReplacedHadData(m: Groups, source: seq<Message>, c: Chain, k: Key)
    requires Sound(m, source, c) && InMedia(m, k) && Replacing(c, k)
    ensures k.id != 0 && ObjectAt(m, k).data != []
  {
    hide StreamDelivery.Invariant, Heard, CacheCursor.Run, View, Sound;
    var i :| 0 <= i < |c.hops| && Skips(c.hops[i].out, k) > 0;
    HopIsSound(m, source, c, i);
    var j := SkipAt(c.hops[i].out, k);
    ViewObject(m, c, i, k);
  }

  lemma {:induction false} SkipAt(out: seq<Message>, k: Key) returns (i: nat)
    requires Skips(out, k) > 0
    ensures i < |out| && out[i] == Skipped(k)
  {
    if out[|out| - 1] == Skipped(k) {
      i := |out| - 1;
    } else {
      i := SkipAt(out[..|out| - 1], k);
    }
  }

  // ----- Transparency -----

  /** What the consumer at the end has been handed in order. */
  ghost function Delivered(source: seq<Message>, c: Chain): seq<Item>
    requires c.received <= |Upstream(source, c, |c.hops|)|
  {
    Delivery.InOrder(Reassembly.Run(AsEvents(Upstream(source, c, |c.hops|)[..c.received])).1)
  }

  /** All the messages of a publisher that has finished: the objects, and the final point. */
  function Finished(calls: seq<ObjectSource.Call>): seq<Message> {
    var w := ObjectSource.Run(Key(0, 0), calls);
    w.out + [Fin(Key(w.source.group, w.source.id))]
  }

  lemma FinishedIsFaithful(calls: seq<ObjectSource.Call>)
    ensures var m := ObjectSource.Run(Key(0, 0), calls).media; WellFormed(m) && Faithful(m, Finished(calls))
  {
    hide ObjectSource.Run;
    ObjectSource.FromTheStart(calls);
    var w := ObjectSource.Run(Key(0, 0), calls);
    FollowUnfold(w.media, Key(0, 0), w.out, Fin(EndOf(w.media)));
  }

  /** The consumer has received the final point. */
  ghost predicate SawEnd(source: seq<Message>, c: Chain)
    requires c.received <= |Upstream(source, c, |c.hops|)|
  {
    exists i :: 0 <= i < c.received && Upstream(source, c, |c.hops|)[i].Fin?
  }

  lemma EndMeansAll(m: Groups, out: seq<Message>, i: nat, x: Key)
    requires WellFormed(m) && Faithful(m, out) && i < |out| && out[i].Fin? && InMedia(m, x)
    ensures Arrived(m, AsEvents(out), x)
  {
    StreamDelivery.FinStays(m, Key(0, 0), out, i);
    FollowedIsComplete(m, Key(0, 0), out, x);
    CoveredIsBytes(m, out, x);
    RankOfEnd(m);
    RankBelowCount(m, x);
    NoSkips(out, x);
    ChunksTouch(out, x);
  }

  lemma {:induction false} NoSkips(out: seq<Message>, x: Key)
    requires forall i :: 0 <= i < |out| ==> !out[i].Skipped?
    ensures Skips(out, x) == 0
  {
    if out != [] {
      NoSkips(out[..|out| - 1], x);
    }
  }

  lemma {:induction false} ChunksTouch(out: seq<Message>, x: Key)
    requires Chunks(out, x) > 0
    ensures Touched(AsEvents(out), x)
  {
    var (before, last) := (out[..|out| - 1], out[|out| - 1]);
    if last.Chunk? && last.fragment.key == x {
      assert Touches(AsEvents(out)[|out| - 1], x);
    } else {
      ChunksTouch(before, x);
      var i :| 0 <= i < |before| && Touches(AsEvents(before)[i], x);
      assert AsEvents(out)[i] == AsEvents(before)[i];
    }
  }

  lemma AllArrivedMeansAll(m: Groups, es: seq<Event>)
    requires WellFormed(m) && AllHonest(m, es) && NoStart(es, 0) && forall x :: InMedia(m, x) ==> Arrived(m, es, x)
    ensures Delivery.InOrder(Reassembly.Run(es).1) == Items(m)
  {
    hide Arrived;
    Delivery.PrefixOfTheMedia(m, es);
    Arrivals.CursorIsLeastMissing(m, es);
    if Cursor(m, es) < Count(m) {
      var k := KeyAt(m, Cursor(m, es));
    }
  }

  lemma ConsumerIsFaithful(m: Groups, source: seq<Message>, c: Chain)
    requires Faithful(m, source) && Sound(m, source, c)
    ensures c.received <= |Upstream(source, c, |c.hops|)|
    ensures Faithful(View(m, c, |c.hops|), Upstream(source, c, |c.hops|)[..c.received])
  {
    hide Faithful, Sound, View, Upstream;
    ReceivedInBounds(m, source, c);
    UpstreamIsFaithful(m, source, c, |c.hops|);
    FaithfulPrefix(View(m, c, |c.hops|), Upstream(source, c, |c.hops|), c.received);
  }

  /** What the consumer is handed is a front part of the media as it sees it, and all of it once the
      final point is in. */
  lemma DeliveredInOrder(m: Groups, source: seq<Message>, c: Chain)
    requires WellFormed(m) && Faithful(m, source) && Sound(m, source, c)
    ensures c.received <= |Upstream(source, c, |c.hops|)|
    ensures Delivered(source, c) <= Items(View(m, c, |c.hops|))
    ensures SawEnd(source, c) ==> Delivered(source, c) == Items(View(m, c, |c.hops|))
  {
    hide Faithful, WellFormed, Sound, View, Upstream, Arrived, Reassembly.Run, Delivery.InOrder, Items, Cursor;
    var now := View(m, c, |c.hops|);
    ViewShape(m, c, |c.hops|);
    ConsumerIsFaithful(m, source, c);
    var up := Upstream(source, c, |c.hops|);
    var out := up[..c.received];
    FaithfulIsHonest(now, out);
    Delivery.PrefixOfTheMedia(now, AsEvents(out));
    if SawEnd(source, c) {
      var i :| 0 <= i < c.received && up[i].Fin?;
      assert out[i].Fin?;
      forall x | InMedia(now, x) ensures Arrived(now, AsEvents(out), x) {
        EndMeansAll(now, out, i, x);
      }
      AllArrivedMeansAll(now, AsEvents(out));
    }
  }

  /** Pipeline transparency.  Whatever an application publishes, through any number of hops, with
      any interleaving, any sizes of the space offered and any verdicts to skip that fall on the
      front of an object, what the consumer is handed in order is always a front part of the list of
      published objects, with the same identifiers, bytes and flags, in which exactly the objects
      that some hop skipped are placeholders; and once it has received the final point it has been
      handed all of them.  What was skipped had data and was not the first object of a group. */
  lemma Transparency(calls: seq<ObjectSource.Call>, n: nat, steps: seq<Step>, header: Label -> nat)
    requires AllLegal(Finished(calls), n, steps, header)
    ensures var source := Finished(calls);
            var c := Run(source, n, steps, header);
            var published := ObjectSource.Run(Key(0, 0), calls).items;
            && |c.hops| == n && c.received <= |Upstream(source, c, n)|
            && Delivered(source, c) <= Masked(published, c)
            && (SawEnd(source, c) ==> Delivered(source, c) == Masked(published, c))
            && forall i :: 0 <= i < |published| && Replacing(c, published[i].key) ==>
                 published[i].key.id != 0 && published[i].content.data != []
  {
    hide *;
    var (source, m) := (Finished(calls), ObjectSource.Run(Key(0, 0), calls).media);
    FinishedIsFaithful(calls);
    PublishedItems(calls);
    RunKeepsSound(m, source, n, steps, header);
    var c := Run(source, n, steps, header);
    DeliveredInOrder(m, source, c);
    MaskedItems(m, c);
    var published := ObjectSource.Run(Key(0, 0), calls).items;
    forall i | 0 <= i < |published| && Replacing(c, published[i].key)
      ensures published[i].key.id != 0 && published[i].content.data != []
    {
      ItemAt(m, i);
      ReplacedHadData(m, source, c, published[i].key);
    }
  }

  lemma ItemAt(m: Groups, i: nat)
    requires i < |Items(m)|
    ensures InMedia(m, Items(m)[i].key) && Items(m)[i].content == ObjectAt(m, Items(m)[i].key)
  {
    var k := KeyAt(m, i);
  }

  lemma PublishedItems(calls: seq<ObjectSource.Call>)
    ensures ObjectSource.Run(Key(0, 0), calls).items == Items(ObjectSource.Run(Key(0, 0), calls).media)
  {
    ObjectSource.FromTheStart(calls);
  }

  // ----- Without verdicts -----

  ghost predicate NothingSkipped(c: Chain) {
    forall i :: 0 <= i < |c.hops| ==> NoneSkipped(c.hops[i].out)
  }

  ghost predicate NoneSkipped(out: seq<Message>) {
    forall i :: 0 <= i < |out| ==> !out[i].Skipped?
  }

  lemma OfferWithoutVerdict(w: Line, c: Store, space: nat, header: Label -> nat)
    ensures var message := StreamPublisher.Offer(w, c, space, false, header).1; message.Some? ==> !message.value.Skipped?
  {
  }

  lemma StepWithoutVerdict(source: seq<Message>, c: Chain, step: Step, header: Label -> nat)
    requires NothingSkipped(c) && (step.Offer? ==> !step.verdict)
    ensures NothingSkipped(After(source, c, step, header))
  {
    AfterUnfold(source, c, step, header);
    hide After, Upstream, StreamPublisher.Offer, CacheCursor.Step;
    if step.i < |c.hops| && step.Offer? {
      OfferWithoutVerdict(c.hops[step.i].line, c.hops[step.i].Stock(), step.space, header);
    }
  }

  /** When no verdict is ever to skip, nothing is replaced, and the consumer is handed a front part
      of the very list that was published. */
  lemma {:induction false} WithoutVerdicts(source: seq<Message>, n: nat, steps: seq<Step>, header: Label -> nat, items: seq<Item>)
    requires forall i :: 0 <= i < |steps| && steps[i].Offer? ==> !steps[i].verdict
    ensures NothingSkipped(Run(source, n, steps, header)) && Masked(items, Run(source, n, steps, header)) == items
  {
    if steps != [] {
      hide After, NothingSkipped;
      WithoutVerdicts(source, n, steps[..|steps| - 1], header, items);
      StepWithoutVerdict(source, Run(source, n, steps[..|steps| - 1], header), steps[|steps| - 1], header);
    }
    NoMask(Run(source, n, steps, header), items);
  }

  lemma NoMask(c: Chain, items: seq<Item>)
    requires NothingSkipped(c)
    ensures Masked(items, c) == items
  {
    forall k ensures !Replacing(c, k) {
      if Replacing(c, k) {
        var i :| 0 <= i < |c.hops| && Skips(c.hops[i].out, k) > 0;
        var j := SkipAt(c.hops[i].out, k);
      }
    }
  }
}
