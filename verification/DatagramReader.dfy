/** The datagram publisher as the original writes it: fields that are updated in place, a loop
    over the fragments in order of arrival, and a loop that prunes the list of objects. */
module DatagramReader {
  import opened Media
  import opened DatagramPublisher

  /** The last thing recorded is the sending of d. */
  ghost predicate EndsWith(log: seq<Fate>, d: Datagram) {
    log != [] &&
    match log[|log| - 1]
    case Pieces(ds) => ds != [] && ds[|ds| - 1] == d
    case Placeheld(p) => p == d
    case Silent => false
  }

  class Publisher {
    var current: int
    var lengthSent: nat
    var isCurrentSent: bool
    var objects: seq<SentObject>
    /** What became of each fragment so far. */
    ghost var log: seq<Fate>

    ghost function Model(): Reader
      reads this
    {
      Reader(current, lengthSent, isCurrentSent, objects, log)
    }

    constructor ()
      ensures Model() == NEW_READER
    {
      current, lengthSent, isCurrentSent, objects, log := -1, 0, false, [], [];
    }

    /** The very first fragment to send. */
    method FindFirst(arrivals: seq<Fragment>, start: Key)
      requires Ready(Model(), arrivals) && current < 0
      modifies this
      ensures Model() == Begin(old(Model()), arrivals, start)
    {
      var i := 0;
      while i < |arrivals| && Before(arrivals[i].key, start)
        invariant 0 <= i <= |arrivals|
        invariant FirstFrom(arrivals, start, i) == FirstFrom(arrivals, start, 0)
      {
        i := i + 1;
      }
      if i < |arrivals| {
        current := i;
        log := Silence(i) + [Pieces([])];
      }
      isCurrentSent := false;
    }

    /** One step on: what to think of the next fragment. */
    method StepOnward(arrivals: seq<Fragment>, start: Key) returns (judgement: Judgement)
      requires Ready(Model(), arrivals) && 0 <= current < |arrivals| - 1
      modifies this
      ensures judgement == Judge(old(objects), arrivals[old(current) + 1].key, start)
      ensures Model() == if judgement.Skipped? then PassOver(Onward(old(Model()))) else Onward(old(Model()))
    {
      lengthSent, isCurrentSent, current := 0, false, current + 1;
      log := log + [Pieces([])];
      var k := arrivals[current].key;
      var i := Find(objects, k);
      if i < 0 {
        judgement := if objects != [] && Before(k, objects[0].key) then Skipped else New;
      } else {
        judgement := if objects[i].isDropped || Before(k, start) then Skipped else Known;
      }
      if judgement.Skipped? {
        isCurrentSent := true;
        log := log[|log| - 1 := Silent];
      }
    }

    /** The next fragment in order, passing over those of objects that need no more. */
    method FindNext(arrivals: seq<Fragment>, start: Key, verdict: bool) returns (skip: bool)
      requires Ready(Model(), arrivals) && current >= 0
      modifies this
      ensures var (r, isNew) := Seek(old(Model()), arrivals, start);
              Model() == r && 0 <= current < |arrivals| && skip == (isNew && verdict && MaySkip(arrivals[current]))
    {
      hide Seek, Judge;
      skip := false;
      SeekUnfold(Model(), arrivals, start);
      if isCurrentSent {
        while current + 1 < |arrivals|
          invariant 0 <= current < |arrivals| && isCurrentSent && !skip && Ready(Model(), arrivals)
          invariant Seek(Model(), arrivals, start) == Seek(old(Model()), arrivals, start)
          decreases |arrivals| - current
        {
          SeekUnfold(Model(), arrivals, start);
          var judgement := StepOnward(arrivals, start);
          if !judgement.Skipped? {
            skip := judgement.New? && verdict && arrivals[current].key.id != 0 && |arrivals[current].data| > 0;
            break;
          }
        }
        SeekUnfold(Model(), arrivals, start);
      }
    }

    /** Evaluate, and if necessary move, the current fragment. */
    method CheckFragment(arrivals: seq<Fragment>, start: Key, verdict: bool) returns (skip: bool)
      requires Ready(Model(), arrivals)
      modifies this
      ensures var (r, isNew) := Choice(old(Model()), arrivals, start);
              Model() == r && skip == (isNew && verdict && 0 <= current < |arrivals| && MaySkip(arrivals[current]))
    {
      hide Seek, Begin;
      if current < 0 {
        FindFirst(arrivals, start);
        skip := false;
      } else {
        skip := FindNext(arrivals, start, verdict);
      }
    }

    method PruneObjects()
      modifies this`objects
      ensures objects == Prune(old(objects))
    {
      while |objects| >= 2 && objects[0].isSent
        invariant Prune(objects) == Prune(old(objects))
        decreases |objects|
      {
        if !InSequence(objects[0], objects[1]) {
          break;
        }
        objects := objects[1..];
      }
    }

    method UpdateObject(f: Fragment, skip: bool, nextOffset: nat, copied: nat)
      modifies this`objects
      ensures objects == Updated(old(objects), f, skip, nextOffset, copied)
    {
      var i := Find(objects, f.key);
      if i < 0 {
        objects := WithEntry(objects, f);
        i := Find(objects, f.key);
      }
      var o := objects[i];
      var isLast := nextOffset >= o.length;
      o := o.(bytesSent := o.bytesSent + copied, isDropped := skip);
      if f.previousSize > 0 {
        o := o.(previousSize := f.previousSize);
      }
      if (isLast && copied >= nextOffset) || o.bytesSent >= o.length {
        objects := objects[i := o.(isSent := true)];
        PruneObjects();
      } else {
        objects := objects[i := o];
      }
    }

    /** Send the next piece of the current fragment, or a placeholder for its whole object. */
    method SendFragment(f: Fragment, room: int, skip: bool) returns (datagram: Option<Datagram>)
      requires log != [] && log[|log| - 1].Pieces? && lengthSent <= |f.data| && !isCurrentSent
      modifies this
      ensures Model() == Send(old(Model()), f, room, skip)
      ensures log == old(log) <==> datagram.None?
      ensures datagram.Some? && !skip ==> log == old(log[|log| - 1 := Pieces(log[|log| - 1].sent + [datagram.value])])
      ensures datagram.Some? && skip ==> log == old(log[|log| - 1 := Placeheld(datagram.value)])
    {
      hide Updated;
      datagram := None;
      var offset := if skip then 0 else f.offset + lengthSent;
      var flags: Byte := if skip then 255 else f.flags;
      var objectLength := if skip then 0 else f.objectLength;
      if room >= 0 {
        var copied := 0;
        if !skip && |f.data| > 0 {
          var available := |f.data| - lengthSent;
          copied := room;
          if copied >= available {
            copied := available;
          }
        }
        if copied > 0 || skip || |f.data| == 0 {
          var payload := if skip then [] else f.data[lengthSent..lengthSent + copied];
          var d := Datagram(f.key, offset, flags, OnWire(f.key, offset, f.previousSize), objectLength, payload);
          datagram := Some(d);
          ghost var sent := log[|log| - 1].sent;
          log := log[|log| - 1 := if skip then Placeheld(d) else Pieces(sent + [d])];
          lengthSent := lengthSent + copied;
          isCurrentSent := skip || lengthSent >= |f.data|;
          UpdateObject(f, skip, offset + copied, copied);
          assert |sent + [d]| > |sent|;
        }
      }
    }

    /** quicrq_fragment_datagram_publisher_prepare. */
    method Prepare(arrivals: seq<Fragment>, start: Key, verdict: bool, room: int) returns (datagram: Option<Datagram>)
      requires Ready(Model(), arrivals)
      modifies this
      ensures Model() == Poll(old(Model()), arrivals, start, verdict, room)
      ensures datagram.Some? ==> EndsWith(log, datagram.value)
    {
      hide Choice, Send;
      datagram := None;
      var skip := CheckFragment(arrivals, start, verdict);
      if current >= 0 && !isCurrentSent {
        datagram := SendFragment(arrivals[current], room, skip);
      }
    }
  }
}
