/** Sending a media in sequence on one stream: the publisher that reads the cache, and the
    sender that frames what it reads.  Each keeps its own idea of the position. */
module StreamPublisher {
  import opened Media

  // ----- The publisher -----

  /** The publisher context: the expected object, how far the previous fragments of it reach,
      the fragment in hand and how much of that was sent. */
  datatype Publisher = Publisher(
    group: nat, id: nat, offset: nat, lengthSent: nat, isSkipped: bool, current: Option<Fragment>)

  /** The cache, as far as a reader sees it. */
  datatype Store = Store(tree: seq<Fragment>, final: Key)

  /** quicrq_fragment_cache_get_fragment. */
  function Get(tree: seq<Fragment>, k: Key, offset: nat): (r: Option<Fragment>)
    ensures r.Some? ==> r.value in tree && r.value.key == k && r.value.offset == offset
    ensures r.None? ==> forall f :: f in tree ==> f.key != k || f.offset != offset
  {
    if tree == [] then None
    else
      var f := tree[|tree| - 1];
      if f.key == k && f.offset == offset then Some(f) else Get(tree[..|tree| - 1], k, offset)
  }

  /** The final point is known and k is not before it. */
  predicate IsOver(final: Key, k: Key) {
    final != Key(0, 0) && !Before(k, final)
  }

  datatype Found = Found(publisher: Publisher, isNewGroup: bool, isFinished: bool)

  function EnterGroup(p: Publisher, f: Fragment): Publisher {
    p.(group := p.group + 1, id := 0, offset := 0, isSkipped := false, current := Some(f))
  }

  /** The object after a skipped one. */
  function PastSkipped(p: Publisher, c: Store): Found {
    match Get(c.tree, Key(p.group, p.id + 1), 0)
    case Some(f) => Found(p.(id := p.id + 1, offset := 0, isSkipped := false, current := Some(f)), false, false)
    case None =>
      var first := Get(c.tree, Key(p.group + 1, 0), 0);
      if first.Some? && p.id + 1 >= first.value.previousSize then Found(EnterGroup(p, first.value), true, false)
      else Found(p.(current := None), false, IsOver(c.final, Key(p.group, p.id + 1)))
  }

  /** The fragment that the position expects, or else the first one of the next group. */
  function Expected(p: Publisher, c: Store): Found {
    match Get(c.tree, Key(p.group, p.id), p.offset)
    case Some(f) => Found(p.(current := Some(f)), false, false)
    case None =>
      var first := Get(c.tree, Key(p.group + 1, 0), 0);
      if p.offset == 0 && first.Some? && p.id >= first.value.previousSize then Found(EnterGroup(p, first.value), true, false)
      else Found(p, false, false)
  }

  function Locate(p: Publisher, c: Store): Found {
    if IsOver(c.final, Key(p.group, p.id)) then Found(p, false, true)
    else if p.isSkipped then PastSkipped(p, c)
    else if p.current.None? then Expected(p, c)
    else Found(p, false, false)
  }

  /** What a call of the publisher answers, whether it copies data or only announces it. */
  datatype Reply = Reply(found: Found, isActive: bool, available: nat, flags: Byte, objectLength: nat)

  function Remaining(p: Publisher): nat {
    if p.current.Some? && p.lengthSent <= |p.current.value.data| then |p.current.value.data| - p.lengthSent else 0
  }

  /** quicrq_fragment_publisher_fn without a buffer. */
  function Announce(p: Publisher, c: Store, space: nat): Reply {
    var found := Locate(p, c);
    var now := found.publisher;
    if IsOver(c.final, Key(p.group, p.id)) || now.current.None? then Reply(found, false, 0, 0, 0)
    else
      var f := now.current.value;
      Reply(found, true, if space >= Remaining(now) then Remaining(now) else space, f.flags, f.objectLength)
  }

  /** The publisher once it has copied that many bytes. */
  function Advanced(p: Publisher, copied: nat): Publisher
    requires p.current.Some?
  {
    var f := p.current.value;
    if copied < Remaining(p) then p.(lengthSent := p.lengthSent + copied)
    else if p.offset + |f.data| >= f.objectLength then p.(id := p.id + 1, offset := 0, lengthSent := 0, current := None)
    else p.(offset := p.offset + |f.data|, lengthSent := 0, current := None)
  }

  /** quicrq_fragment_publisher_fn with a buffer: the bytes copied, and the new state. */
  function Copy(p: Publisher, c: Store, space: nat): (seq<Byte>, Publisher) {
    var r := Announce(p, c, space);
    var now := r.found.publisher;
    if !r.isActive || now.current.None? || now.lengthSent + r.available > |now.current.value.data| then ([], now)
    else (now.current.value.data[now.lengthSent..now.lengthSent + r.available], Advanced(now, r.available))
  }

  // ----- The sender -----

  /** next_group_id, next_object_id, next_object_offset of the stream context. */
  datatype Sender = Sender(group: nat, id: nat, offset: nat)
  {
    function At(): Key { Key(group, id) }
  }

  /** What goes out: a fragment message, a placeholder for an object, or the final point. */
  datatype Message = Chunk(fragment: Fragment) | Skipped(key: Key) | Fin(key: Key)

  /** The fields of a fragment message that its size depends on. */
  datatype Label = Label(key: Key, offset: nat, previousSize: nat, objectLength: nat, length: nat)

  datatype Line = Line(publisher: Publisher, sender: Sender)

  /** The size of the header that is prepared before anything is known about the data. */
  function Guess(s: Sender, space: nat, header: Label -> nat): nat {
    header(Label(s.At(), s.offset, 0, s.offset, space))
  }

  /** What the header would say if everything that is announced went along. */
  function Intended(w: Line, c: Store, space: nat, header: Label -> nat): Label
    requires Guess(w.sender, space, header) <= space
  {
    var r := Announce(w.publisher, c, space - Guess(w.sender, space, header));
    var s1 := Regrouped(w.sender, r.found.isNewGroup);
    Label(s1.At(), s1.offset, if r.found.isNewGroup then w.sender.id else 0, r.objectLength, r.available)
  }

  /** How much of the data goes along, once the true header is known. */
  function Fitted(l: Label, guess: nat, space: nat, header: Label -> nat): nat {
    if header(l) != guess && header(l) + l.length > space && header(l) <= space then space - header(l) else l.length
  }

  /** The sender once the publisher has moved on to the next group. */
  function Regrouped(s: Sender, isNewGroup: bool): Sender {
    if isNewGroup then Sender(s.group + 1, 0, 0) else s
  }

  function PassedObject(s: Sender): Sender {
    s.(id := s.id + 1, offset := 0)
  }

  /** quicrq_prepare_to_send_media_to_stream, under a congestion verdict that only counts for
      the later objects of a group. */
  function Offer(w: Line, c: Store, space: nat, verdict: bool, header: Label -> nat): (Line, Option<Message>) {
    var (p, s) := (w.publisher, w.sender);
    var guess := Guess(s, space, header);
    if guess > space then (w, None)
    else
      var r := Announce(p, c, space - guess);
      var p1 := r.found.publisher;
      var s1 := Regrouped(s, r.found.isNewGroup);
      var previousSize := if r.found.isNewGroup then s.id else 0;
      var skip := verdict && r.isActive && Remaining(p1) > 0 && p1.current.value.key.id != 0 && s.id != 0;
      if skip then (Line(p1.(isSkipped := true), PassedObject(s1)), Some(Skipped(s1.At())))
      else if r.available == 0 && r.flags != 255 then
        (Line(p1, s1), if r.found.isFinished then Some(Fin(s1.At())) else None)
      else
        var n := Fitted(Label(s1.At(), s1.offset, previousSize, r.objectLength, r.available), guess, space, header);
        var (data, p2) := Copy(p1, c, n);
        var message := Fragment(s1.At(), s1.offset, r.flags, previousSize, r.objectLength, data);
        var s2 := if s1.offset + n >= r.objectLength then PassedObject(s1) else s1.(offset := s1.offset + n);
        (Line(p2, s2), Some(Chunk(message)))
  }

  /** The parts of an offer. */
  lemma OfferUnfold(w: Line, c: Store, space: nat, verdict: bool, header: Label -> nat)
    requires Guess(w.sender, space, header) <= space
    ensures var (p, s) := (w.publisher, w.sender);
            var guess := Guess(s, space, header);
            var r := Announce(p, c, space - guess);
            var p1 := r.found.publisher;
            var s1 := Regrouped(s, r.found.isNewGroup);
            var previousSize := if r.found.isNewGroup then s.id else 0;
            var skip := verdict && r.isActive && Remaining(p1) > 0 && p1.current.value.key.id != 0 && s.id != 0;
            var n := Fitted(Label(s1.At(), s1.offset, previousSize, r.objectLength, r.available), guess, space, header);
            var (data, p2) := Copy(p1, c, n);
            Offer(w, c, space, verdict, header) ==
            if skip then (Line(p1.(isSkipped := true), PassedObject(s1)), Some(Skipped(s1.At())))
            else if r.available == 0 && r.flags != 255 then
              (Line(p1, s1), if r.found.isFinished then Some(Fin(s1.At())) else None)
            else
              (Line(p2, if s1.offset + n >= r.objectLength then PassedObject(s1) else s1.(offset := s1.offset + n)),
               Some(Chunk(Fragment(s1.At(), s1.offset, r.flags, previousSize, r.objectLength, data))))
  {
    hide Announce, Fitted, Copy;
  }
}
