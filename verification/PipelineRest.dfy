/** A chain of hops comes to rest.  Every message moves its sender's position forward, so that no
    hop ever sends more messages than the media has bytes and objects, and one for the end.  Passing
    messages on and offering space, in any order, is therefore useful only so many times; and as
    long as every hop is served again and again, what is not useful any more is rest. */
module PipelineRest {
  import opened Media
  import opened StreamPublisher
  import opened StreamReading
  import opened Replacement
  import opened Pipeline
  import opened PipelineProgress
  import FragmentCache
  import ObjectSource
  import StreamDelivery
  import CacheCursor

  // ----- How many messages there can be -----

  /** The bytes of some objects, and one for each object. */
  function Volume(items: seq<Item>): nat {
    if items == [] then 0 else Volume(items[..|items| - 1]) + |items[|items| - 1].content.data| + 1
  }

  lemma VolumeMore(items: seq<Item>, n: nat)
    requires n < |items|
    ensures Volume(items[..n + 1]) == Volume(items[..n]) + |items[n].content.data| + 1
  {
    assert items[..n + 1][..n] == items[..n];
  }

  lemma {:induction false} VolumeGrows(items: seq<Item>, a: nat, b: nat)
    requires a <= b <= |items|
    ensures Volume(items[..a]) <= Volume(items[..b])
  {
    if a < b {
      VolumeGrows(items, a, b - 1);
      VolumeMore(items, b - 1);
    }
  }

  lemma {:induction false} VolumeShrinks(a: seq<Item>, b: seq<Item>)
    requires |a| == |b| && forall i :: 0 <= i < |a| ==> |a[i].content.data| <= |b[i].content.data|
    ensures Volume(a) <= Volume(b)
  {
    if a != [] {
      VolumeShrinks(a[..|a| - 1], b[..|b| - 1]);
    }
  }

  /** How much of the media is behind a position. */
  function Value(m: Groups, k: Key, o: nat): nat
    requires IsCursor(m, k)
  {
    RankBelowCount(m, k);
    Volume(Items(m)[..Rank(m, k)]) + o
  }

  /** An offset inside an object. */
  predicate Within(m: Groups, k: Key, o: nat) {
    o == 0 || (InMedia(m, k) && o < |ObjectAt(m, k).data|)
  }

  lemma ValueOf(m: Groups, k: Key, o: nat)
    requires InMedia(m, k)
    ensures IsCursor(m, k) && IsCursor(m, Media.After(k)) && Value(m, Media.After(k), 0) == Value(m, k, o) - o + |ObjectAt(m, k).data| + 1
    ensures Value(m, k, o) == Value(m, k, 0) + o
  {
    hide Items;
    ItemsAt(m, k);
    RankAfter(m, k);
    VolumeMore(Items(m), Rank(m, k));
  }

  lemma SameValue(m: Groups, a: Key, b: Key, o: nat)
    requires IsCursor(m, a) && IsCursor(m, b) && Rank(m, a) == Rank(m, b)
    ensures Value(m, a, o) == Value(m, b, o)
  {
  }

  lemma ValueIsBounded(m: Groups, k: Key, o: nat)
    requires IsCursor(m, k) && Within(m, k, o)
    ensures Value(m, k, o) <= Volume(Items(m))
  {
    hide Items, Value;
    RankBelowCount(m, k);
    assert Items(m)[..Count(m)] == Items(m);
    if o > 0 {
      ValueOf(m, k, o);
      ValueIs(m, Media.After(k));
      RankBelowCount(m, Media.After(k));
      VolumeGrows(Items(m), Rank(m, Media.After(k)), Count(m));
    } else {
      ValueIs(m, k);
      VolumeGrows(Items(m), Rank(m, k), Count(m));
    }
  }

  lemma ValueIs(m: Groups, k: Key)
    requires IsCursor(m, k)
    ensures Rank(m, k) <= |Items(m)| && Value(m, k, 0) == Volume(Items(m)[..Rank(m, k)])
  {
    RankBelowCount(m, k);
  }

  /** A message moves the position forward, unless it is the final point. */
  lemma NextIsWorth(m: Groups, start: Key, k: Key, o: nat, message: Message)
    requires WellFormed(m) && IsCursor(m, k) && Within(m, k, o) && Next(m, k, o, message).Some?
    requires message.Chunk? ==> TrueFrom(m, start, message.fragment)
    ensures var (k', o') := Next(m, k, o, message).value;
            IsCursor(m, k') && Within(m, k', o') && Value(m, k', o') >= Value(m, k, o) + if message.Fin? then 0 else 1
  {
    hide Value, TrueFrom, WellFormed, Rank;
    match message {
      case Chunk(f) =>
        SliceBytes(m, start, f);
        StepRank(m, start, k, f);
        ValueOf(m, f.key, o);
        SameValue(m, k, f.key, o);
        ValueOf(m, f.key, o + |f.data|);
      case Skipped(_) => ValueOf(m, k, o);
      case Fin(_) =>
    }
  }

  function Fins(out: seq<Message>): nat {
    if out == [] then 0 else Fins(out[..|out| - 1]) + if out[|out| - 1].Fin? then 1 else 0
  }

  lemma {:induction false} MessagesAreFew(m: Groups, start: Key, out: seq<Message>)
    requires WellFormed(m) && IsCursor(m, start) && AllTrue(m, start, out) && Follow(m, start, out).Some?
    ensures var (k, o) := Follow(m, start, out).value;
            IsCursor(m, k) && Within(m, k, o) && |out| <= Value(m, k, o) + Fins(out)
  {
    if out != [] {
      hide WellFormed, IsCursor, Within, Value, TrueFrom, Next;
      var (before, last) := (out[..|out| - 1], out[|out| - 1]);
      assert out == before + [last];
      FollowUnfold(m, start, before, last);
      MessagesAreFew(m, start, before);
      var (k, o) := Follow(m, start, before).value;
      NextIsWorth(m, start, k, o, last);
    }
  }

  /** So there are no more messages than bytes and objects, and final points. */
  lemma MessagesAreBounded(m: Groups, start: Key, w: Line, out: seq<Message>)
    requires StreamDelivery.Invariant(m, start, w, out)
    ensures |out| <= Volume(Items(m)) + Fins(out)
  {
    hide Items, Value, Within;
    MessagesAreFew(m, start, out);
    var (k, o) := Follow(m, start, out).value;
    ValueIsBounded(m, k, o);
  }

  /** Replacing objects does not make the media larger. */
  lemma ViewIsSmaller(m: Groups, c: Chain, i: nat)
    requires i <= |c.hops|
    ensures Volume(Items(View(m, c, i))) <= Volume(Items(m))
  {
    hide Items, View, SameShape, ReplacingBefore;
    var now := View(m, c, i);
    ViewShape(m, c, i);
    ItemsCount(m, now);
    forall x | 0 <= x < Count(m) ensures |Items(now)[x].content.data| <= |Items(m)[x].content.data| {
      ReplacedItem(m, now, x);
      ViewObject(m, c, i, Items(m)[x].key);
    }
    VolumeShrinks(Items(now), Items(m));
  }

  // ----- One final point each -----

  /** A stream that has sent the final point is closed: it is offered no more space. */
  ghost predicate Open(c: Chain, step: Step) {
    step.Offer? && step.i < |c.hops| ==> !HasFin(c.hops[step.i].out)
  }

  ghost predicate AllOpen(source: seq<Message>, n: nat, steps: seq<Step>, header: Label -> nat) {
    steps == [] ||
    (AllOpen(source, n, steps[..|steps| - 1], header) && Open(Run(source, n, steps[..|steps| - 1], header), steps[|steps| - 1]))
  }

  ghost predicate EachOnce(c: Chain) {
    forall i :: 0 <= i < |c.hops| ==> Fins(c.hops[i].out) <= 1
  }

  lemma {:induction false} FinsIff(out: seq<Message>)
    ensures Fins(out) == 0 <==> !HasFin(out)
  {
    if out != [] {
      var (before, last) := (out[..|out| - 1], out[|out| - 1]);
      FinsIff(before);
      if HasFin(before) {
        var i :| 0 <= i < |before| && before[i].Fin?;
        assert out[i].Fin?;
      }
    }
  }

  lemma FinsMore(out: seq<Message>, message: Option<Message>)
    ensures Fins(out + StreamDelivery.Listed(message)) <= Fins(out) + 1
    ensures HasFin(out) ==> HasFin(out + StreamDelivery.Listed(message))
  {
    if message.Some? {
      assert (out + [message.value])[..|out|] == out;
    } else {
      assert out + [] == out;
    }
    if HasFin(out) {
      var i :| 0 <= i < |out| && out[i].Fin?;
      assert (out + StreamDelivery.Listed(message))[i].Fin?;
    }
  }

  lemma StepOnce(source: seq<Message>, c: Chain, step: Step, header: Label -> nat)
    requires EachOnce(c) && Open(c, step)
    ensures EachOnce(Pipeline.After(source, c, step, header))
  {
    AfterUnfold(source, c, step, header);
    hide Pipeline.After, Upstream, StreamPublisher.Offer, HasFin;
    if step.Offer? && step.i < |c.hops| {
      var hop := c.hops[step.i];
      FinsIff(hop.out);
      FinsMore(hop.out, Added(hop, step.space, step.verdict, header));
    }
  }

  lemma {:induction false} RunOnce(source: seq<Message>, n: nat, steps: seq<Step>, header: Label -> nat)
    requires AllOpen(source, n, steps, header)
    ensures EachOnce(Run(source, n, steps, header))
  {
    hide Open, EachOnce, Pipeline.After;
    if steps == [] {
      NoFins(n);
    } else {
      RunOnce(source, n, steps[..|steps| - 1], header);
      StepOnce(source, Run(source, n, steps[..|steps| - 1], header), steps[|steps| - 1], header);
    }
  }

  lemma NoFins(n: nat)
    ensures EachOnce(NewChain(n))
  {
  }

  // ----- Useful steps -----

  /** The step passes a message on, or makes a hop send one. */
  predicate Useful(source: seq<Message>, c: Chain, step: Step, header: Label -> nat) {
    match step
    case Pass(i) => i <= |c.hops| && (if i < |c.hops| then c.hops[i].taken else c.received) < |Upstream(source, c, i)|
    case Offer(i, space, verdict) => i < |c.hops| && Added(c.hops[i], space, verdict, header).Some?
  }

  function WorkUpTo(c: Chain, i: nat): nat
    requires i <= |c.hops|
  {
    if i == 0 then 0 else WorkUpTo(c, i - 1) + c.hops[i - 1].taken + |c.hops[i - 1].out|
  }

  /** Everything that was passed on and sent so far. */
  function Work(c: Chain): nat {
    WorkUpTo(c, |c.hops|) + c.received
  }

  lemma {:induction false} WorkChanges(c: Chain, i: nat, hop: Hop, j: nat)
    requires i < |c.hops| && j <= |c.hops|
    ensures WorkUpTo(c.(hops := c.hops[i := hop]), j) ==
            WorkUpTo(c, j) + if i < j then hop.taken + |hop.out| - c.hops[i].taken - |c.hops[i].out| else 0
  {
    if j > 0 {
      WorkChanges(c, i, hop, j - 1);
    }
  }

  lemma {:induction false} WorkOfHops(c: Chain, c': Chain, j: nat)
    requires c.hops == c'.hops && j <= |c.hops|
    ensures WorkUpTo(c, j) == WorkUpTo(c', j)
  {
    if j > 0 {
      WorkOfHops(c, c', j - 1);
    }
  }

  /** The hop once an offer made it send nothing: at most its position has changed its name. */
  function Unused(hop: Hop, space: nat, verdict: bool, header: Label -> nat): Hop {
    hop.(line := StreamPublisher.Offer(hop.line, hop.Stock(), space, verdict, header).0)
  }

  lemma UnusedIs(hop: Hop, space: nat, verdict: bool, header: Label -> nat)
    requires Added(hop, space, verdict, header).None?
    ensures Sending(hop, space, verdict, header) == Unused(hop, space, verdict, header)
  {
    hide StreamPublisher.Offer;
    assert hop.out + [] == hop.out;
  }

  /** Every useful step does one piece of work, and no other step does any. */
  lemma StepWorks(source: seq<Message>, c: Chain, step: Step, header: Label -> nat)
    ensures var c' := Pipeline.After(source, c, step, header);
            && |c'.hops| == |c.hops|
            && Work(c') == Work(c) + (if Useful(source, c, step, header) then 1 else 0)
            && (!Useful(source, c, step, header) ==>
                  if step.Offer? && step.i < |c.hops| then
                    c' == c.(hops := c.hops[step.i := Unused(c.hops[step.i], step.space, step.verdict, header)])
                  else c' == c)
  {
    AfterUnfold(source, c, step, header);
    hide Pipeline.After, Upstream, Unused, StreamPublisher.Offer, WorkUpTo, Taking, Sending, Added;
    if step.i < |c.hops| {
      var hop := c.hops[step.i];
      if step.Offer? {
        WorkChanges(c, step.i, Sending(hop, step.space, step.verdict, header), |c.hops|);
        SendingWorks(hop, step.space, step.verdict, header);
      } else if hop.taken < |Upstream(source, c, step.i)| {
        var message := Upstream(source, c, step.i)[hop.taken];
        WorkChanges(c, step.i, Taking(hop, message), |c.hops|);
        TakingWorks(hop, message);
      }
    } else {
      WorkOfHops(c, c.(received := c.received + 1), |c.hops|);
    }
  }

  lemma SendingWorks(hop: Hop, space: nat, verdict: bool, header: Label -> nat)
    ensures var (now, message) := (Sending(hop, space, verdict, header), Added(hop, space, verdict, header));
            && now.taken == hop.taken && |now.out| == |hop.out| + (if message.Some? then 1 else 0)
            && (message.None? ==> now == Unused(hop, space, verdict, header))
  {
    hide StreamPublisher.Offer, Unused;
    if Added(hop, space, verdict, header).None? {
      UnusedIs(hop, space, verdict, header);
    }
  }

  lemma TakingWorks(hop: Hop, message: Message)
    ensures Taking(hop, message).taken == hop.taken + 1 && Taking(hop, message).out == hop.out
  {
  }

  /** The most work that a chain of n hops can do. */
  function Bound(m: Groups, source: seq<Message>, n: nat): nat {
    |source| + n * (2 * Volume(Items(m)) + 2)
  }

  lemma BoundNext(m: Groups, source: seq<Message>, i: nat)
    ensures Bound(m, source, i + 1) == Bound(m, source, i) + 2 * Volume(Items(m)) + 2
    ensures Bound(m, source, 0) == |source|
  {
  }

  lemma HopIsBounded(m: Groups, source: seq<Message>, c: Chain, i: nat)
    requires Sound(m, source, c) && EachOnce(c) && i < |c.hops|
    ensures c.hops[i].taken <= |Upstream(source, c, i)| && |c.hops[i].out| <= Volume(Items(m)) + 1
  {
    hide Sound, View, Upstream, StreamDelivery.Invariant, Items, Replaceable, Heard;
    HopIsSound(m, source, c, i);
    MessagesAreBounded(View(m, c, i), Key(0, 0), c.hops[i].line, c.hops[i].out);
    ViewIsSmaller(m, c, i);
  }

  lemma {:induction false} WorkIsBoundedUpTo(m: Groups, source: seq<Message>, c: Chain, i: nat)
    requires Sound(m, source, c) && EachOnce(c) && i <= |c.hops|
    ensures WorkUpTo(c, i) + |Upstream(source, c, i)| <= Bound(m, source, i)
  {
    hide Sound, EachOnce, Bound, Items;
    if i == 0 {
      BoundNext(m, source, 0);
    } else {
      WorkIsBoundedUpTo(m, source, c, i - 1);
      HopIsBounded(m, source, c, i - 1);
      BoundNext(m, source, i - 1);
    }
  }

  /** Over any run, no more messages are passed on and sent than that. */
  lemma WorkIsBounded(m: Groups, source: seq<Message>, n: nat, steps: seq<Step>, header: Label -> nat)
    requires WellFormed(m) && Faithful(m, source) && AllLegal(source, n, steps, header) && AllOpen(source, n, steps, header)
    ensures Work(Run(source, n, steps, header)) <= Bound(m, source, n)
  {
    hide *;
    var c := Run(source, n, steps, header);
    RunKeepsSound(m, source, n, steps, header);
    RunOnce(source, n, steps, header);
    WorkIsBoundedUpTo(m, source, c, n);
    ReceivedInBounds(m, source, c);
    WorkIs(c);
  }

  lemma WorkIs(c: Chain)
    ensures Work(c) == WorkUpTo(c, |c.hops|) + c.received
  {
  }

  // ----- What a useless step says -----

  /** Nothing more of the kind of this step can be done. */
  ghost predicate Spent(m: Groups, source: seq<Message>, c: Chain, step: Step) {
    match step
    case Pass(i) => i <= |c.hops| ==> (if i < |c.hops| then c.hops[i].taken else c.received) == |Upstream(source, c, i)|
    case Offer(i, _, _) => i < |c.hops| ==> HasFin(c.hops[i].out) || Idle(View(m, c, i), c.hops[i])
  }

  lemma RestIff(m: Groups, source: seq<Message>, c: Chain)
    ensures AtRest(m, source, c) <==>
            (forall i: nat :: i <= |c.hops| ==> Spent(m, source, c, Pass(i))) &&
            (forall i: nat :: i < |c.hops| ==> Spent(m, source, c, Offer(i, 0, false)))
  {
    hide HasFin, Idle, View, Upstream;
    var n := |c.hops|;
    forall i: nat | i < n
      ensures Quiet(View(m, c, i), Upstream(source, c, i), c.hops[i]) <==>
              Spent(m, source, c, Pass(i)) && Spent(m, source, c, Offer(i, 0, false))
    {
    }
    assert Spent(m, source, c, Pass(n)) <==> c.received == |Upstream(source, c, n)|;
  }

  /** A position at which nothing can be sent stays one when it is offered space. */
  lemma IdleStays(m: Groups, start: Key, w: Line, out: seq<Message>, c: Store, space: nat, verdict: bool, header: Label -> nat)
    requires StreamDelivery.Invariant(m, start, w, out) && StreamDelivery.Stocked(m, c) && StreamDelivery.HasRoom(w, c, space, header)
    requires StreamPublisher.Offer(w, c, space, verdict, header).1.None?
    ensures var w' := StreamPublisher.Offer(w, c, space, verdict, header).0;
            !StreamDelivery.HasWork(m, w', c) && !(c.final != Key(0, 0) && w'.sender.At() == EndOf(m))
  {
    hide *;
    var (p, s) := (w.publisher, w.sender);
    var guess := Guess(s, space, header);
    StreamDelivery.UnusedIff(m, start, w, out, c, space, verdict, header);
    StreamDelivery.InvariantParts(m, start, w, out);
    StreamDelivery.RoomParts(w, c, space, header);
    OfferUnfold(w, c, space, verdict, header);
    StreamDelivery.AnnounceUnfold(p, c, space - guess);
    StreamDelivery.LocateIsRight(m, p, s, c);
    var r := Announce(p, c, space - guess);
    var found := r.found;
    StreamDelivery.RightParts(m, p, s, found);
    if r.isActive {
      StreamDelivery.NothingRemains(m, found.publisher);
      StreamDelivery.WorkInHand(m, Line(found.publisher, Regrouped(s, found.isNewGroup)), c);
      StandsBefore(m, found.publisher, Regrouped(s, found.isNewGroup));
    } else {
      StaysUnlocated(m, p, s, c);
    }
  }

  /** With a fragment in hand the position is not the end. */
  lemma StandsBefore(m: Groups, p: Publisher, s: Sender)
    requires p.current.Some? && StreamDelivery.InHand(m, p, p.current.value) && p.current.value.key == s.At()
    ensures s.At() != EndOf(m)
  {
  }

  lemma StaysUnlocated(m: Groups, p: Publisher, s: Sender, c: Store)
    requires WellFormed(m) && StreamDelivery.Stocked(m, c) && IsCursor(m, s.At()) && StreamDelivery.Agree(m, p, s)
    requires !IsOver(c.final, Key(p.group, p.id)) && Locate(p, c).publisher.current.None?
    requires !StreamDelivery.HasWork(m, Line(p, s), c)
    ensures Regrouped(s, Locate(p, c).isNewGroup) == s && !StreamDelivery.HasWork(m, Line(Locate(p, c).publisher, s), c)
  {
    hide IsSolidSlice, StreamDelivery.Begins, StreamDelivery.Unsendable;
  }

  /** An offer that a hop leaves unused leaves it with nothing to send. */
  lemma UnusedIsIdle(m: Groups, upstream: seq<Message>, hop: Hop, space: nat, verdict: bool, header: Label -> nat)
    requires WellFormed(m) && Faithful(m, upstream) && SoundHop(m, upstream, hop)
    requires StreamDelivery.HasRoom(hop.line, hop.Stock(), space, header) && Added(hop, space, verdict, header).None?
    ensures Idle(m, Unused(hop, space, verdict, header))
  {
    hide WellFormed, Faithful, StreamDelivery.HasRoom, StreamDelivery.Invariant, StreamDelivery.Stocked, StreamDelivery.HasWork,
      StreamPublisher.Offer, Replaceable, Heard, CacheCursor.Run;
    FaithfulPrefix(m, upstream, hop.taken);
    FedIsStocked(m, upstream[..hop.taken]);
    IdleStays(m, Key(0, 0), hop.line, hop.out, hop.Stock(), space, verdict, header);
  }

  /** The same messages make the same view. */
  lemma {:induction false} ViewOfOuts(m: Groups, c: Chain, c': Chain, i: nat)
    requires i <= |c.hops| == |c'.hops| && forall j :: 0 <= j < |c.hops| ==> c.hops[j].out == c'.hops[j].out
    ensures View(m, c, i) == View(m, c', i)
  {
    hide Replaced;
    if i > 0 {
      ViewOfOuts(m, c, c', i - 1);
    }
  }

  /** What is spent stays spent when only the position of a hop changes its name. */
  lemma SpentStays(m: Groups, source: seq<Message>, c: Chain, i: nat, hop: Hop, step: Step)
    requires i < |c.hops| && hop == c.hops[i].(line := hop.line) && Idle(View(m, c, i), hop)
    requires Spent(m, source, c, step)
    ensures Spent(m, source, c.(hops := c.hops[i := hop]), step)
  {
    hide Idle, HasFin, View;
    var c' := c.(hops := c.hops[i := hop]);
    if step.i <= |c.hops| {
      ViewOfOuts(m, c, c', step.i);
    }
  }

  lemma OfferIsSpent(m: Groups, source: seq<Message>, c: Chain, i: nat, hop: Hop, step: Step)
    requires i < |c.hops| && hop == c.hops[i].(line := hop.line) && Idle(View(m, c, i), hop)
    requires step.Offer? && step.i == i
    ensures Spent(m, source, c.(hops := c.hops[i := hop]), step)
  {
    hide Idle, HasFin, View;
    ViewOfOuts(m, c, c.(hops := c.hops[i := hop]), i);
  }

  lemma PassIsSpent(m: Groups, source: seq<Message>, c: Chain, step: Step, header: Label -> nat)
    requires Sound(m, source, c) && !Useful(source, c, step, header)
    requires step.Pass? || step.i >= |c.hops|
    ensures Spent(m, source, c, step)
  {
    hide Sound, View, Upstream;
    if step.i < |c.hops| {
      HopIsSound(m, source, c, step.i);
      TakenInBounds(View(m, c, step.i), Upstream(source, c, step.i), c.hops[step.i]);
    } else if step.i == |c.hops| {
      ReceivedInBounds(m, source, c);
    }
  }

  lemma IsUnused(source: seq<Message>, c: Chain, step: Step, header: Label -> nat)
    requires step.Offer? && step.i < |c.hops|
    ensures Useful(source, c, step, header) <==> Added(c.hops[step.i], step.space, step.verdict, header).Some?
    ensures var hop := Unused(c.hops[step.i], step.space, step.verdict, header); hop == c.hops[step.i].(line := hop.line)
  {
    hide StreamPublisher.Offer, Added;
  }

  /** A step that is of no use leaves nothing more to do of its kind, and changes nothing in that for
      the other kinds. */
  lemma UselessIsSpent(m: Groups, source: seq<Message>, c: Chain, step: Step, header: Label -> nat)
    requires WellFormed(m) && Faithful(m, source) && Sound(m, source, c) && Legal(c, step, header)
    requires !Useful(source, c, step, header)
    ensures var c' := Pipeline.After(source, c, step, header);
            Spent(m, source, c', step) && forall s :: Spent(m, source, c, s) ==> Spent(m, source, c', s)
  {
    hide *;
    StepWorks(source, c, step, header);
    if step.Offer? && step.i < |c.hops| {
      var i := step.i;
      var hop := Unused(c.hops[i], step.space, step.verdict, header);
      IsUnused(source, c, step, header);
      UpstreamIsFaithful(m, source, c, i);
      ViewShape(m, c, i);
      HopIsSound(m, source, c, i);
      LegalUnfold(c, step, header);
      UnusedIsIdle(View(m, c, i), Upstream(source, c, i), c.hops[i], step.space, step.verdict, header);
      OfferIsSpent(m, source, c, i, hop, step);
      forall s | Spent(m, source, c, s) ensures Spent(m, source, Pipeline.After(source, c, step, header), s) {
        SpentStays(m, source, c, i, hop, s);
      }
    } else {
      PassIsSpent(m, source, c, step, header);
    }
  }

  // ----- Rest stays -----

  /** At rest no step is of any use. */
  lemma RestIsUseless(m: Groups, source: seq<Message>, c: Chain, step: Step, header: Label -> nat)
    requires WellFormed(m) && Faithful(m, source) && Sound(m, source, c) && Legal(c, step, header) && Open(c, step)
    requires Spent(m, source, c, step)
    ensures !Useful(source, c, step, header)
  {
    hide WellFormed, Faithful, Sound, Legal, StreamPublisher.Offer, View, Upstream, HasFin, StreamDelivery.HasRoom, StreamDelivery.Harmless,
      StreamDelivery.HasWork, StreamDelivery.Invariant, StreamDelivery.Stocked, Replaceable, Heard, CacheCursor.Run;
    if step.Offer? && step.i < |c.hops| {
      var (i, hop) := (step.i, c.hops[step.i]);
      UpstreamIsFaithful(m, source, c, i);
      ViewShape(m, c, i);
      HopIsSound(m, source, c, i);
      LegalUnfold(c, step, header);
      FaithfulPrefix(View(m, c, i), Upstream(source, c, i), hop.taken);
      FedIsStocked(View(m, c, i), Upstream(source, c, i)[..hop.taken]);
      StreamDelivery.UnusedIff(View(m, c, i), Key(0, 0), hop.line, hop.out, hop.Stock(), step.space, step.verdict, header);
    }
  }

  lemma RestSpends(m: Groups, source: seq<Message>, c: Chain, step: Step)
    requires AtRest(m, source, c)
    ensures Spent(m, source, c, step)
  {
    RestIff(m, source, c);
    hide AtRest, Idle, HasFin, View, Upstream;
    if step.Offer? && step.i < |c.hops| {
      assert Spent(m, source, c, Offer(step.i, 0, false));
    }
  }

  lemma RestStaysOnce(m: Groups, source: seq<Message>, c: Chain, step: Step, header: Label -> nat)
    requires WellFormed(m) && Faithful(m, source) && Sound(m, source, c) && Legal(c, step, header) && Open(c, step)
    requires AtRest(m, source, c)
    ensures AtRest(m, source, Pipeline.After(source, c, step, header))
  {
    hide *;
    RestSpends(m, source, c, step);
    RestIsUseless(m, source, c, step, header);
    UselessIsSpent(m, source, c, step, header);
    StepWorks(source, c, step, header);
    RestIff(m, source, c);
    RestIff(m, source, Pipeline.After(source, c, step, header));
  }

  // ----- Rounds -----

  /** Every offer has room, replaces nothing that was begun, and goes to an open stream. */
  ghost predicate Live(source: seq<Message>, n: nat, steps: seq<Step>, header: Label -> nat) {
    AllLegal(source, n, steps, header) && AllOpen(source, n, steps, header)
  }

  lemma LiveUnfold(source: seq<Message>, n: nat, steps: seq<Step>, more: seq<Step>, header: Label -> nat)
    requires Live(source, n, steps + more, header) && more != []
    ensures var (rest, last) := (more[..|more| - 1], more[|more| - 1]);
            var c := Run(source, n, steps + rest, header);
            && Live(source, n, steps + rest, header) && Legal(c, last, header) && Open(c, last)
            && Run(source, n, steps + more, header) == Pipeline.After(source, c, last, header)
  {
    hide Legal, Open, Pipeline.After;
    assert (steps + more)[..|steps + more| - 1] == steps + more[..|more| - 1];
  }

  /** Work is never undone, and what was closed stays closed. */
  lemma {:induction false} WorkGrows(m: Groups, source: seq<Message>, n: nat, steps: seq<Step>, more: seq<Step>, header: Label -> nat)
    requires WellFormed(m) && Faithful(m, source) && Live(source, n, steps + more, header)
    ensures Live(source, n, steps, header) && |Run(source, n, steps, header).hops| == n == |Run(source, n, steps + more, header).hops|
    ensures Work(Run(source, n, steps, header)) <= Work(Run(source, n, steps + more, header))
    ensures forall i :: 0 <= i < n && HasFin(Run(source, n, steps, header).hops[i].out) ==> HasFin(Run(source, n, steps + more, header).hops[i].out)
  {
    hide WellFormed, Faithful, Live, Run, Work, HasFin, Pipeline.After, Useful, Legal, Open, Unused;
    if more == [] {
      assert steps + more == steps;
      LiveIsSound(m, source, n, steps, header);
    } else {
      LiveUnfold(source, n, steps, more, header);
      WorkGrows(m, source, n, steps, more[..|more| - 1], header);
      var c := Run(source, n, steps + more[..|more| - 1], header);
      StepWorks(source, c, more[|more| - 1], header);
      FinsStay(source, c, more[|more| - 1], header);
    }
  }

  lemma LiveIsSound(m: Groups, source: seq<Message>, n: nat, steps: seq<Step>, header: Label -> nat)
    requires WellFormed(m) && Faithful(m, source) && Live(source, n, steps, header)
    ensures Sound(m, source, Run(source, n, steps, header)) && |Run(source, n, steps, header).hops| == n
  {
    RunKeepsSound(m, source, n, steps, header);
  }

  lemma FinsStay(source: seq<Message>, c: Chain, step: Step, header: Label -> nat)
    ensures var c' := Pipeline.After(source, c, step, header);
            |c'.hops| == |c.hops| && forall i :: 0 <= i < |c.hops| && HasFin(c.hops[i].out) ==> HasFin(c'.hops[i].out)
  {
    AfterUnfold(source, c, step, header);
    hide Pipeline.After, Upstream, StreamPublisher.Offer, HasFin;
    if step.Offer? && step.i < |c.hops| {
      FinsMore(c.hops[step.i].out, Added(c.hops[step.i], step.space, step.verdict, header));
    }
  }

  /** When no step of a round was of any use, nothing more can be done of any kind that was tried. */
  lemma {:induction false} IdleRoundSpends(m: Groups, source: seq<Message>, n: nat, steps: seq<Step>, round: seq<Step>, header: Label -> nat, x: nat)
    requires WellFormed(m) && Faithful(m, source) && Live(source, n, steps + round, header) && x < |round|
    requires Work(Run(source, n, steps, header)) == Work(Run(source, n, steps + round, header))
    ensures Spent(m, source, Run(source, n, steps + round, header), round[x])
  {
    hide *;
    var (rest, last) := (round[..|round| - 1], round[|round| - 1]);
    var c := Run(source, n, steps + rest, header);
    LiveUnfold(source, n, steps, round, header);
    WorkGrows(m, source, n, steps, rest, header);
    LiveIsSound(m, source, n, steps + rest, header);
    StepWorks(source, c, last, header);
    UselessIsSpent(m, source, c, last, header);
    if x < |rest| {
      IdleRoundSpends(m, source, n, steps, rest, header, x);
    }
  }

  /** The round passes messages on everywhere, and offers space to every hop that is open. */
  ghost predicate Serves(c: Chain, round: seq<Step>) {
    && (forall i: nat :: i <= |c.hops| ==> Pass(i) in round)
    && forall i: nat :: i < |c.hops| ==> HasFin(c.hops[i].out) || OffersTo(round, i)
  }

  ghost predicate OffersTo(round: seq<Step>, i: nat) {
    exists x :: 0 <= x < |round| && round[x].Offer? && round[x].i == i
  }

  lemma ServesAll(m: Groups, source: seq<Message>, c: Chain, c': Chain, round: seq<Step>)
    requires |c.hops| == |c'.hops| && Serves(c, round) && forall x :: 0 <= x < |round| ==> Spent(m, source, c', round[x])
    requires forall i :: 0 <= i < |c.hops| && HasFin(c.hops[i].out) ==> HasFin(c'.hops[i].out)
    ensures AtRest(m, source, c')
  {
    hide HasFin, Idle, View, Upstream, AtRest;
    forall i: nat | i <= |c'.hops| ensures Spent(m, source, c', Pass(i)) {
      var x :| 0 <= x < |round| && round[x] == Pass(i);
    }
    forall i: nat | i < |c'.hops| ensures Spent(m, source, c', Offer(i, 0, false)) {
      if OffersTo(round, i) {
        var x :| 0 <= x < |round| && round[x].Offer? && round[x].i == i;
        assert Spent(m, source, c', round[x]);
      }
    }
    RestIff(m, source, c');
  }

  /** A round that serves everyone and is of no use leaves the chain at rest. */
  lemma IdleRoundRests(m: Groups, source: seq<Message>, n: nat, steps: seq<Step>, round: seq<Step>, header: Label -> nat)
    requires WellFormed(m) && Faithful(m, source) && Live(source, n, steps + round, header)
    requires Work(Run(source, n, steps, header)) == Work(Run(source, n, steps + round, header))
    requires Serves(Run(source, n, steps, header), round)
    ensures AtRest(m, source, Run(source, n, steps + round, header))
  {
    hide *;
    WorkGrows(m, source, n, steps, round, header);
    forall x | 0 <= x < |round| ensures Spent(m, source, Run(source, n, steps + round, header), round[x]) {
      IdleRoundSpends(m, source, n, steps, round, header, x);
    }
    ServesAll(m, source, Run(source, n, steps, header), Run(source, n, steps + round, header), round);
  }

  lemma {:induction false} RestStays(m: Groups, source: seq<Message>, n: nat, steps: seq<Step>, more: seq<Step>, header: Label -> nat)
    requires WellFormed(m) && Faithful(m, source) && Live(source, n, steps + more, header)
    requires AtRest(m, source, Run(source, n, steps, header))
    ensures AtRest(m, source, Run(source, n, steps + more, header))
  {
    hide *;
    if more == [] {
      assert steps + more == steps;
    } else {
      var rest := more[..|more| - 1];
      LiveUnfold(source, n, steps, more, header);
      RestStays(m, source, n, steps, rest, header);
      LiveIsSound(m, source, n, steps + rest, header);
      RestStaysOnce(m, source, Run(source, n, steps + rest, header), more[|more| - 1], header);
    }
  }

  /** The steps of some rounds, one after the other. */
  function Flat(rounds: seq<seq<Step>>): seq<Step> {
    if rounds == [] then [] else Flat(rounds[..|rounds| - 1]) + rounds[|rounds| - 1]
  }

  ghost predicate AllServe(source: seq<Message>, n: nat, rounds: seq<seq<Step>>, header: Label -> nat) {
    rounds == [] ||
    (AllServe(source, n, rounds[..|rounds| - 1], header) &&
     Serves(Run(source, n, Flat(rounds[..|rounds| - 1]), header), rounds[|rounds| - 1]))
  }

  /** As long as the chain is not at rest, every round does some work. */
  lemma {:induction false} RoundsWork(m: Groups, source: seq<Message>, n: nat, rounds: seq<seq<Step>>, header: Label -> nat)
    requires WellFormed(m) && Faithful(m, source)
    requires Live(source, n, Flat(rounds), header) && AllServe(source, n, rounds, header)
    ensures AtRest(m, source, Run(source, n, Flat(rounds), header)) || Work(Run(source, n, Flat(rounds), header)) >= |rounds|
  {
    if rounds != [] {
      var (before, last) := (rounds[..|rounds| - 1], rounds[|rounds| - 1]);
      var steps := Flat(before);
      hide WellFormed, Faithful, Live, Run, Work, Serves, AtRest;
      WorkGrows(m, source, n, steps, last, header);
      RoundsWork(m, source, n, before, header);
      if AtRest(m, source, Run(source, n, steps, header)) {
        RestStays(m, source, n, steps, last, header);
      } else if Work(Run(source, n, steps, header)) == Work(Run(source, n, steps + last, header)) {
        IdleRoundRests(m, source, n, steps, last, header);
      }
    }
  }

  /** More rounds than there can be work leave the chain at rest: each may pass and offer in any
      order, with any space and any verdict, as long as it serves everyone. */
  lemma EnoughRoundsRest(m: Groups, source: seq<Message>, n: nat, rounds: seq<seq<Step>>, header: Label -> nat)
    requires WellFormed(m) && Faithful(m, source)
    requires Live(source, n, Flat(rounds), header) && AllServe(source, n, rounds, header)
    requires |rounds| > Bound(m, source, n)
    ensures AtRest(m, source, Run(source, n, Flat(rounds), header))
  {
    hide WellFormed, Faithful, Run, Work, AtRest, AllServe, Bound, AllLegal, AllOpen;
    RoundsWork(m, source, n, rounds, header);
    WorkIsBounded(m, source, n, Flat(rounds), header);
  }

  /** Everything is delivered.  When a publisher has finished and the hops were served often enough,
      in any order, with any sizes of the space offered and any verdicts that fall on the front of an
      object, the consumer has been handed exactly the list of published objects, those that were
      skipped as placeholders, if and only if none of them is empty without being a placeholder (or
      there is no hop). */
  lemma EverythingIsDelivered(calls: seq<ObjectSource.Call>, n: nat, rounds: seq<seq<Step>>, header: Label -> nat)
    requires Live(Finished(calls), n, Flat(rounds), header) && AllServe(Finished(calls), n, rounds, header)
    requires |rounds| > Bound(ObjectSource.Run(Key(0, 0), calls).media, Finished(calls), n)
    ensures var c := Run(Finished(calls), n, Flat(rounds), header);
            && c.received <= |Upstream(Finished(calls), c, |c.hops|)|
            && (Delivered(Finished(calls), c) == Masked(ObjectSource.Run(Key(0, 0), calls).items, c) <==>
                n == 0 || Sendable(ObjectSource.Run(Key(0, 0), calls).media))
  {
    hide WellFormed, Faithful, Run, AtRest, AllServe, Bound, AllLegal, AllOpen, Upstream, Sendable, Delivered, Masked, ObjectSource.Run,
      Finished;
    FinishedIsFaithful(calls);
    EnoughRoundsRest(ObjectSource.Run(Key(0, 0), calls).media, Finished(calls), n, rounds, header);
    QuietMeansDelivered(calls, n, Flat(rounds), header);
  }
}
