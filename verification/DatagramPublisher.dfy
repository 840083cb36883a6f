/** The datagram publisher: it reads the cache in order of arrival, sends each fragment in as
    many datagrams as it takes, and may replace a whole object by a placeholder.  Its memory
    of what was sent is a pruned list of objects whose first entry is a low-water mark. */
module DatagramPublisher {
  import opened Media

  /** One datagram, as its header describes it. */
  datatype Datagram = Datagram(
    key: Key, offset: nat, flags: Byte, previousSize: nat, objectLength: nat, data: seq<Byte>)

  /** What became of one fragment of the cache: the datagrams sent for it so far, or the
      placeholder sent for its whole object, or nothing at all. */
  datatype Fate = Pieces(sent: seq<Datagram>) | Placeheld(placeholder: Datagram) | Silent

  /** quicrq_fragment_publisher_object_state_t. */
  datatype SentObject = SentObject(
    key: Key, previousSize: nat, length: nat, bytesSent: nat, isDropped: bool, isSent: bool)

  /** The publisher context: the index of the current fragment (-1 before the first), how much
      of it was sent, the list of objects, and the record of what was sent. */
  datatype Reader = Reader(
    current: int, lengthSent: nat, isCurrentSent: bool, objects: seq<SentObject>, log: seq<Fate>)

  const NEW_READER := Reader(-1, 0, false, [], [])

  predicate WellPlaced(r: Reader, arrivals: seq<Fragment>) {
    -1 <= r.current < |arrivals| && |r.log| == r.current + 1
  }

  // ----- Choosing the fragment to send -----

  function Find(objects: seq<SentObject>, k: Key): (i: int)
    ensures -1 <= i < |objects|
    ensures i >= 0 ==> objects[i].key == k
    ensures i < 0 ==> forall j :: 0 <= j < |objects| ==> objects[j].key != k
  {
    if objects == [] then -1
    else if objects[|objects| - 1].key == k then |objects| - 1
    else Find(objects[..|objects| - 1], k)
  }

  /** quicrq_evaluate_datagram_congestion never replaces the first object of a group, nor an empty
      one; beyond that its verdict is arbitrary here. */
  predicate MaySkip(f: Fragment) {
    f.key.id != 0 && f.data != []
  }

  datatype Judgement = Skipped | New | Known

  /** What the publisher thinks of the next fragment: an object it no longer remembers and that
      lies below its first entry counts as sent. */
  function Judge(objects: seq<SentObject>, k: Key, start: Key): Judgement {
    var i := Find(objects, k);
    if i < 0 then
      if objects != [] && Before(k, objects[0].key) then Skipped else New
    else if objects[i].isDropped || Before(k, start) then Skipped
    else Known
  }

  function FirstFrom(arrivals: seq<Fragment>, start: Key, i: nat): (j: nat)
    requires i <= |arrivals|
    ensures i <= j <= |arrivals|
    ensures forall x :: i <= x < j ==> Before(arrivals[x].key, start)
    ensures j < |arrivals| ==> !Before(arrivals[j].key, start)
    decreases |arrivals| - i
  {
    if i < |arrivals| && Before(arrivals[i].key, start) then FirstFrom(arrivals, start, i + 1) else i
  }

  function Silence(n: nat): (r: seq<Fate>)
    ensures |r| == n && forall i :: 0 <= i < n ==> r[i] == Silent
  {
    seq(n, i => Silent)
  }

  /** The very first fragment: the first one in order of arrival at or past the start. */
  function Begin(r: Reader, arrivals: seq<Fragment>, start: Key): Reader {
    var i := FirstFrom(arrivals, start, 0);
    if i == |arrivals| then r.(isCurrentSent := false)
    else r.(current := i, isCurrentSent := false, log := Silence(i) + [Pieces([])])
  }

  /** The step to the next fragment in order of arrival. */
  function Onward(r: Reader): Reader {
    r.(current := r.current + 1, lengthSent := 0, isCurrentSent := false, log := r.log + [Pieces([])])
  }

  function PassOver(r: Reader): Reader
    requires r.log != []
  {
    r.(isCurrentSent := true, log := r.log[|r.log| - 1 := Silent])
  }

  /** Find the next fragment to send; the flag says that it begins a new object. */
  function Seek(r: Reader, arrivals: seq<Fragment>, start: Key): (Reader, bool)
    requires -1 <= r.current
    decreases |arrivals| - r.current
  {
    if !r.isCurrentSent || r.current + 1 >= |arrivals| then (r, false)
    else
      var r' := Onward(r);
      match Judge(r.objects, arrivals[r'.current].key, start)
      case Skipped => Seek(PassOver(r'), arrivals, start)
      case New => (r', true)
      case Known => (r', false)
  }

  lemma SeekUnfold(r: Reader, arrivals: seq<Fragment>, start: Key)
    requires r.current >= 0
    ensures !r.isCurrentSent || r.current + 1 >= |arrivals| ==> Seek(r, arrivals, start) == (r, false)
    ensures r.isCurrentSent && r.current + 1 < |arrivals| ==>
              var j := Judge(r.objects, arrivals[r.current + 1].key, start);
              Seek(r, arrivals, start) ==
              if j.Skipped? then Seek(PassOver(Onward(r)), arrivals, start) else (Onward(r), j.New?)
  {
  }

  // ----- Remembering what was sent -----

  /** Whether the second entry is the object right after the first. */
  predicate InSequence(a: SentObject, b: SentObject) {
    || (b.key.group == a.key.group && b.key.id == a.key.id + 1)
    || (b.key.group == a.key.group + 1 && b.key.id == 0 && b.previousSize == a.key.id + 1)
  }

  /** quicrq_fragment_datagram_publisher_object_prune. */
  function Prune(objects: seq<SentObject>): seq<SentObject> {
    if |objects| >= 2 && objects[0].isSent && InSequence(objects[0], objects[1]) then Prune(objects[1..]) else objects
  }

  /** Where a new entry goes in the list. */
  function Place(objects: seq<SentObject>, k: Key): (p: nat)
    ensures p <= |objects|
    ensures forall i :: p <= i < |objects| ==> Before(k, objects[i].key)
    ensures p > 0 ==> !Before(k, objects[p - 1].key)
  {
    if objects == [] then 0
    else if Before(k, objects[|objects| - 1].key) then Place(objects[..|objects| - 1], k)
    else |objects|
  }

  /** The entry for an object, added if it is not there. */
  function WithEntry(objects: seq<SentObject>, f: Fragment): (r: seq<SentObject>)
    ensures Find(r, f.key) >= 0
  {
    var p := Place(objects, f.key);
    if Find(objects, f.key) >= 0 then objects
    else
      var r := objects[..p] + [SentObject(f.key, 0, f.objectLength, 0, false, false)] + objects[p..];
      assert r[p].key == f.key;
      r
  }

  /** What a datagram of that many bytes, ending at nextOffset, changes in the entry. */
  function Noted(o: SentObject, f: Fragment, skip: bool, nextOffset: nat, copied: nat): SentObject {
    var isLast := nextOffset >= o.length;
    var o := o.(bytesSent := o.bytesSent + copied, isDropped := skip,
                previousSize := if f.previousSize > 0 then f.previousSize else o.previousSize);
    if (isLast && copied >= nextOffset) || o.bytesSent >= o.length then o.(isSent := true) else o
  }

  /** Whether the update marks the object as sent, which is when the list is pruned. */
  predicate Finishes(o: SentObject, nextOffset: nat, copied: nat) {
    (nextOffset >= o.length && copied >= nextOffset) || o.bytesSent + copied >= o.length
  }

  /** quicrq_fragment_datagram_publisher_object_update. */
  function Updated(objects: seq<SentObject>, f: Fragment, skip: bool, nextOffset: nat, copied: nat): seq<SentObject> {
    var objects := WithEntry(objects, f);
    var i := Find(objects, f.key);
    var o := objects[i];
    var now := objects[i := Noted(o, f, skip, nextOffset, copied)];
    if Finishes(o, nextOffset, copied) then Prune(now) else now
  }

  // ----- Sending -----

  /** A header carries the size of the previous group at the front of a group only. */
  function OnWire(k: Key, offset: nat, previousSize: nat): nat {
    if k.id == 0 && offset == 0 then previousSize else 0
  }

  /** The datagram that carries bytes a to b of a fragment. */
  function PieceOf(f: Fragment, a: nat, b: nat): Datagram
    requires a <= b <= |f.data|
  {
    Datagram(f.key, f.offset + a, f.flags, OnWire(f.key, f.offset + a, f.previousSize), f.objectLength, f.data[a..b])
  }

  function PlaceholderFor(f: Fragment): Datagram {
    Datagram(f.key, 0, 255, OnWire(f.key, 0, f.previousSize), 0, [])
  }

  /** quicrq_fragment_datagram_publisher_send_fragment; room is the space that the header
      leaves in the datagram, negative when not even the header fits. */
  function Send(r: Reader, f: Fragment, room: int, skip: bool): Reader
    requires r.log != [] && r.log[|r.log| - 1].Pieces? && r.lengthSent <= |f.data|
  {
    var sent := r.log[|r.log| - 1].sent;
    var available := |f.data| - r.lengthSent;
    var copied := if skip || room < 0 then 0 else if room < available then room else available;
    if room < 0 || (copied == 0 && !skip && f.data != []) then r
    else
      var offset := if skip then 0 else f.offset + r.lengthSent;
      var fate := if skip then Placeheld(PlaceholderFor(f))
                  else Pieces(sent + [PieceOf(f, r.lengthSent, r.lengthSent + copied)]);
      r.(lengthSent := r.lengthSent + copied,
         isCurrentSent := skip || r.lengthSent + copied >= |f.data|,
         objects := Updated(r.objects, f, skip, offset + copied, copied),
         log := r.log[|r.log| - 1 := fate])
  }

  /** The fields are consistent: enough for every access to be defined. */
  predicate Ready(r: Reader, arrivals: seq<Fragment>) {
    && WellPlaced(r, arrivals)
    && (r.current < 0 ==> r.lengthSent == 0)
    && (r.current >= 0 && !r.isCurrentSent ==>
          r.log[r.current].Pieces? && r.lengthSent <= |arrivals[r.current].data|)
  }

  lemma {:induction false} SeekReady(r: Reader, arrivals: seq<Fragment>, start: Key)
    requires Ready(r, arrivals)
    ensures r.current < 0 ==> Ready(Begin(r, arrivals, start), arrivals)
    ensures r.current >= 0 ==> Ready(Seek(r, arrivals, start).0, arrivals)
    decreases |arrivals| - r.current
  {
    if r.current >= 0 && r.isCurrentSent && r.current + 1 < |arrivals| {
      var r' := Onward(r);
      if Judge(r.objects, arrivals[r'.current].key, start).Skipped? {
        SeekReady(PassOver(r'), arrivals, start);
      }
    }
  }

  /** quicrq_fragment_datagram_publisher_check_fragment: the reader once it has settled on a
      fragment to send, and whether that fragment begins a new object. */
  function Choice(r: Reader, arrivals: seq<Fragment>, start: Key): (c: (Reader, bool))
    requires Ready(r, arrivals)
    ensures Ready(c.0, arrivals)
  {
    SeekReady(r, arrivals, start);
    if r.current < 0 then (Begin(r, arrivals, start), false) else Seek(r, arrivals, start)
  }

  /** quicrq_fragment_datagram_publisher_prepare, under any congestion verdict. */
  function Poll(r: Reader, arrivals: seq<Fragment>, start: Key, verdict: bool, room: int): (r': Reader)
    requires Ready(r, arrivals)
    ensures Ready(r', arrivals)
  {
    var (r1, isNew) := Choice(r, arrivals, start);
    if r1.current < 0 || r1.isCurrentSent then r1
    else Send(r1, arrivals[r1.current], room, isNew && verdict && MaySkip(arrivals[r1.current]))
  }
}
