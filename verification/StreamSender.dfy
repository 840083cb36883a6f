/** The stream publisher and the media sender as the original writes them: two contexts whose
    fields are updated in place, and a sender that asks the publisher twice, first how much there
    is and then for the data. */
module StreamSender {
  import opened Media
  import opened StreamPublisher

  class Reader {
    var group: nat
    var id: nat
    var offset: nat
    var lengthSent: nat
    var isSkipped: bool
    var current: Option<Fragment>

    ghost function Model(): Publisher
      reads this
    {
      Publisher(group, id, offset, lengthSent, isSkipped, current)
    }

    constructor (start: Key)
      ensures Model() == Publisher(start.group, start.id, 0, 0, false, None)
    {
      group, id, offset, lengthSent, isSkipped, current := start.group, start.id, 0, 0, false, None;
    }

    /** Point at the fragment to send next: quicrq_fragment_publisher_fn up to the test for a
        fragment in hand. */
    method Find(c: Store) returns (isNewGroup: bool, isFinished: bool)
      modifies this
      ensures Locate(old(Model()), c) == Found(Model(), isNewGroup, isFinished)
    {
      isNewGroup, isFinished := false, false;
      if IsOver(c.final, Key(group, id)) {
        isFinished := true;
      } else if isSkipped {
        current := Get(c.tree, Key(group, id + 1), 0);
        if current.Some? {
          id, offset, isSkipped := id + 1, 0, false;
        } else {
          var first := Get(c.tree, Key(group + 1, 0), 0);
          if first.Some? && id + 1 >= first.value.previousSize {
            group, id, offset, isSkipped, current := group + 1, 0, 0, false, first;
            isNewGroup := true;
          } else if IsOver(c.final, Key(group, id + 1)) {
            isFinished := true;
          }
        }
      } else if current.None? {
        current := Get(c.tree, Key(group, id), offset);
        if current.None? && offset == 0 {
          var first := Get(c.tree, Key(group + 1, 0), 0);
          if first.Some? && id >= first.value.previousSize {
            group, id, offset, current := group + 1, 0, 0, first;
            isNewGroup := true;
          }
        }
      }
    }

    /** The call that announces what there is. */
    method AnnounceData(c: Store, space: nat) returns (r: Reply)
      modifies this
      ensures r == Announce(old(Model()), c, space) && Model() == r.found.publisher
    {
      hide Locate;
      var wasOver := IsOver(c.final, Key(group, id));
      var isNewGroup, isFinished := Find(c);
      var found := Found(Publisher(group, id, offset, lengthSent, isSkipped, current), isNewGroup, isFinished);
      if wasOver || current.None? {
        r := Reply(found, false, 0, 0, 0);
      } else {
        var available := Remaining(found.publisher);
        var copied := space;
        if space >= available {
          copied := available;
        }
        r := Reply(found, true, copied, current.value.flags, current.value.objectLength);
      }
    }

    /** The call that copies data. */
    method CopyData(c: Store, space: nat) returns (data: seq<Byte>)
      modifies this
      ensures (data, Model()) == Copy(old(Model()), c, space)
    {
      hide Locate, Announce;
      var r := AnnounceData(c, space);
      data := [];
      if r.isActive && current.Some? && lengthSent + r.available <= |current.value.data| {
        var f := current.value;
        var available := |f.data| - lengthSent;
        data := f.data[lengthSent..lengthSent + r.available];
        if r.available >= available {
          var nextOffset := offset + |f.data|;
          if nextOffset >= f.objectLength {
            id := id + 1;
            offset := 0;
          } else {
            offset := nextOffset;
          }
          lengthSent, current := 0, None;
        } else {
          lengthSent := lengthSent + r.available;
        }
      }
    }

    method Skip()
      modifies this`isSkipped
      ensures Model() == old(Model()).(isSkipped := true)
    {
      isSkipped := true;
    }
  }

  class Stream {
    const publisher: Reader
    var nextGroup: nat
    var nextId: nat
    var nextOffset: nat

    ghost function Model(): Line
      reads this, publisher
    {
      Line(publisher.Model(), Sender(nextGroup, nextId, nextOffset))
    }

    constructor (start: Key)
      ensures fresh(publisher)
      ensures Model() == Line(Publisher(start.group, start.id, 0, 0, false, None), Sender(start.group, start.id, 0))
    {
      publisher := new Reader(start);
      nextGroup, nextId, nextOffset := start.group, start.id, 0;
    }

    /** Frame and copy what was announced, with the header that is now known. */
    method SendChunk(c: Store, r: Reply, previousSize: nat, guess: nat, space: nat, header: Label -> nat)
      returns (chunk: Fragment)
      modifies this, publisher
      ensures var (p, s) := (old(publisher.Model()), Sender(old(nextGroup), old(nextId), old(nextOffset)));
              var n := Fitted(Label(s.At(), s.offset, previousSize, r.objectLength, r.available), guess, space, header);
              var (data, p2) := Copy(p, c, n);
              && Model() == Line(p2, if s.offset + n >= r.objectLength then PassedObject(s) else s.(offset := s.offset + n))
              && chunk == Fragment(s.At(), s.offset, r.flags, previousSize, r.objectLength, data)
    {
      hide Copy;
      var available := r.available;
      var size := header(Label(Key(nextGroup, nextId), nextOffset, previousSize, r.objectLength, available));
      if size != guess && size + available > space && size <= space {
        available := space - size;
      }
      var data := publisher.CopyData(c, available);
      chunk := Fragment(Key(nextGroup, nextId), nextOffset, r.flags, previousSize, r.objectLength, data);
      nextOffset := nextOffset + available;
      if nextOffset >= r.objectLength {
        nextId, nextOffset := nextId + 1, 0;
      }
    }

    /** quicrq_prepare_to_send_media_to_stream. */
    method PrepareToSend(c: Store, space: nat, verdict: bool, header: Label -> nat) returns (message: Option<Message>)
      modifies this, publisher
      ensures (Model(), message) == Offer(old(Model()), c, space, verdict, header)
    {
      hide Announce, Copy, Offer, Fitted;
      message := None;
      var guess := header(Label(Key(nextGroup, nextId), nextOffset, 0, nextOffset, space));
      OfferShort(Model(), c, space, verdict, header);
      if guess <= space {
        OfferUnfold(Model(), c, space, verdict, header);
        AnnounceActive(publisher.Model(), c, space - guess);
        var r := publisher.AnnounceData(c, space - guess);
        var previousSize, wasFront := 0, nextId == 0;
        if r.found.isNewGroup {
          nextGroup, previousSize, nextId, nextOffset := nextGroup + 1, nextId, 0, 0;
        }
        if verdict && r.isActive && Remaining(r.found.publisher) > 0 && publisher.current.value.key.id != 0 && !wasFront {
          publisher.Skip();
          message := Some(Skipped(Key(nextGroup, nextId)));
          nextId, nextOffset := nextId + 1, 0;
        } else if r.available == 0 && r.flags != 255 {
          if r.found.isFinished {
            message := Some(Fin(Key(nextGroup, nextId)));
          }
        } else {
          var chunk := SendChunk(c, r, previousSize, guess, space, header);
          message := Some(Chunk(chunk));
        }
      }
    }
  }

  lemma OfferShort(w: Line, c: Store, space: nat, verdict: bool, header: Label -> nat)
    ensures Guess(w.sender, space, header) > space ==> Offer(w, c, space, verdict, header) == (w, None)
  {
  }

  lemma AnnounceActive(p: Publisher, c: Store, space: nat)
    ensures Announce(p, c, space).isActive ==> Announce(p, c, space).found.publisher.current.Some?
  {
  }
}
