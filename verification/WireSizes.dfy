/** The sizes of real headers meet what the theorems about senders ask of a header size. */
module WireSizes {
  import opened Media
  import opened Varint
  import Messages
  import StreamPublisher
  import StreamDelivery
  import AckHorizon
  import AckRuns

  /** The size of any number; identifiers and lengths are below 2^62. */
  function SizeOf(v: nat): (n: nat)
    ensures 1 <= n <= 8
  {
    if v < 0x4000_0000_0000_0000 then Size(v) else 8
  }

  /** The header of a fragment message on a stream, with its two bytes of length. */
  function LabelSize(l: StreamPublisher.Label): nat {
    2 + 1 + SizeOf(l.key.group) + SizeOf(l.key.id) + SizeOf(l.offset) + SizeOf(l.objectLength) + 1 +
    (if l.key.id == 0 && l.offset == 0 then SizeOf(l.previousSize) else 0) + SizeOf(l.length)
  }

  predicate Numbers(l: StreamPublisher.Label) {
    && l.key.group < 0x4000_0000_0000_0000 && l.key.id < 0x4000_0000_0000_0000 && l.offset < 0x4000_0000_0000_0000
    && l.objectLength < 0x4000_0000_0000_0000 && l.previousSize < 0x4000_0000_0000_0000 && l.length < 0x4000_0000_0000_0000
  }

  function MessageOf(l: StreamPublisher.Label, flags: Byte, data: seq<Byte>): Messages.Message
    requires Numbers(l)
  {
    Messages.FragmentMessage(l.key.group, l.key.id, l.previousSize, l.offset, l.objectLength, flags, data)
  }

  /** It is the size of what is encoded, less the data. */
  lemma LabelSizeIsEncoded(l: StreamPublisher.Label, flags: Byte, data: seq<Byte>)
    requires Numbers(l) && |data| == l.length && (l.key.id != 0 || l.offset != 0 ==> l.previousSize == 0)
    ensures var m := MessageOf(l, flags, data);
            Messages.Writable(Messages.Fields(m)) && 2 + |Messages.EncodeMessage(m)| == LabelSize(l) + |data|
  {
    hide Size, Messages.Fields, Messages.AllWritten;
    Messages.EncodingFitsReserve(MessageOf(l, flags, data));
  }

  /** Less data never takes a longer header, and any offer above 52 bytes has room for one. */
  lemma StreamHeadersFit(w: StreamPublisher.Line, c: StreamPublisher.Store, space: nat)
    ensures StreamDelivery.Shrinks(LabelSize)
    ensures space > 52 ==> StreamDelivery.HasRoom(w, c, space, LabelSize)
  {
    forall l: StreamPublisher.Label, n: nat | n <= l.length ensures LabelSize(l.(length := n)) <= LabelSize(l) {
      hide LabelSize;
      SizeGrows(n, l.length);
      OnlyLength(l, n);
    }
    assert forall l: StreamPublisher.Label :: LabelSize(l) <= 52;
    hide LabelSize, StreamPublisher.Announce;
  }

  lemma SizeGrows(a: nat, b: nat)
    requires a <= b
    ensures SizeOf(a) <= SizeOf(b)
  {
  }

  lemma OnlyLength(l: StreamPublisher.Label, n: nat)
    ensures LabelSize(l) - LabelSize(l.(length := n)) == SizeOf(l.length) - SizeOf(n)
  {
    hide SizeOf;
  }

  /** A placeholder goes out in a frame of the size that was guessed for data.  It always fits,
      and whatever fills the frame behind it does not change what is read. */
  lemma PlaceholderIsRead(k: Key, offset: nat, space: nat, rest: seq<Byte>)
    requires k.id != 0 && Numbers(StreamPublisher.Label(k, offset, 0, offset, space))
    ensures var placeholder := Messages.FragmentMessage(k.group, k.id, 0, 0, 0, 255, []);
            var guess := StreamPublisher.Guess(StreamPublisher.Sender(k.group, k.id, offset), space, LabelSize);
            && 2 + |Messages.EncodeMessage(placeholder)| <= guess
            && Messages.DecodeMessage(Messages.EncodeMessage(placeholder) + rest) == Some((placeholder, rest))
  {
    hide SizeOf;
    LabelSizeIsEncoded(StreamPublisher.Label(k, 0, 0, 0, 0), 255, []);
    SizeGrows(0, offset);
    SizeGrows(0, space);
    Messages.MessageRoundTrip(Messages.FragmentMessage(k.group, k.id, 0, 0, 0, 255, []), rest);
  }

  /** The header of a datagram, for a media and a queue delay. */
  function ShipmentHeader(mediaId: Int62, queueDelay: Int62): AckHorizon.Shipment -> nat {
    (d: AckHorizon.Shipment) =>
      Size(mediaId) + SizeOf(d.key.group) + SizeOf(d.key.id) + SizeOf(d.offset) + SizeOf(d.objectLength) + Size(queueDelay) + 1 +
      if d.key.id == 0 && d.offset == 0 then SizeOf(d.previousSize) else 0
  }

  /** Datagrams may be queued again as long as the limit is above the longest header. */
  lemma DatagramHeadersFit(mediaId: Int62, queueDelay: Int62, longest: nat)
    requires longest > 57
    ensures AckRuns.Regular(AckHorizon.Limits(ShipmentHeader(mediaId, queueDelay), longest))
  {
    assert Size(mediaId) <= 8 && Size(queueDelay) <= 8;
  }
}
