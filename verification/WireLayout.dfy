/** The very bytes of the wire: integers as in section 16 of RFC 9000, the eleven control messages,
    the datagram header, and which numbers stand for what.  The round trips of module Messages hold of
    any numbering on which both ends agree; this is the one that the peers speak. */
module WireLayout {
  import opened Media
  import opened Varint
  import opened Messages
  import Framing

  // ----- Integers -----

  /** Two bytes as a number, most significant first. */
  function Two(a: int, b: int): int {
    a * 0x100 + b
  }

  function Four(a: int, b: int, c: int, d: int): int {
    a * 0x100_0000 + b * 0x1_0000 + Two(c, d)
  }

  function Eight(a: int, b: int, c: int, d: int, e: int, f: int, g: int, h: int): int {
    a * 0x100_0000_0000_0000 + b * 0x1_0000_0000_0000 + c * 0x100_0000_0000 + d * 0x1_0000_0000 + Four(e, f, g, h)
  }

  lemma ValueOfTwo(bs: seq<Byte>)
    requires |bs| == 2
    ensures Value(bs) == Two(bs[0], bs[1])
  {
    Powers();
    var tail := bs[1..];
    assert Value(tail) == tail[0] * Power(0) + Value(tail[1..]);
  }

  lemma ValueOfFour(bs: seq<Byte>)
    requires |bs| == 4
    ensures Value(bs) == Four(bs[0], bs[1], bs[2], bs[3])
  {
    Powers();
    ValueOfTwo(bs[2..]);
    assert bs[1..][1..] == bs[2..];
    assert Value(bs[1..]) == bs[1] * Power(2) + Value(bs[2..]);
  }

  lemma ValueOfEight(bs: seq<Byte>)
    requires |bs| == 8
    ensures Value(bs) == Eight(bs[0], bs[1], bs[2], bs[3], bs[4], bs[5], bs[6], bs[7])
  {
    Powers();
    assert Power(5) == 256 * Power(4) && Power(6) == 256 * Power(5);
    ValueOfFour(bs[4..]);
    assert bs[3..][1..] == bs[4..] && bs[2..][1..] == bs[3..] && bs[1..][1..] == bs[2..];
    assert Value(bs[3..]) == bs[3] * Power(4) + Value(bs[4..]);
    assert Value(bs[2..]) == bs[2] * Power(5) + Value(bs[3..]);
    assert Value(bs[1..]) == bs[1] * Power(6) + Value(bs[2..]);
  }

  /** The value of the bytes of an integer, with the mark of its length in the two top bits. */
  lemma ValueOfEncoded(v: Int62)
    ensures Value(Encode(v)) == Mark(Tag(v)) + v
  {
    MarkedFits(v);
    ValueOfBig(Mark(Tag(v)) + v, Size(v));
  }

  lemma Marks()
    ensures Mark(0) == 0 && Mark(1) == 0x4000 && Mark(2) == 0x8000_0000 && Mark(3) == 0xC000_0000_0000_0000
  {
    Powers();
  }

  /** The bytes of an integer: one, two, four or eight, told apart by the two top bits of the first one,
      most significant byte first. */
  lemma IntegerBytes(v: Int62)
    ensures var bs := Encode(v);
            if v < 64 then bs == [v]
            else if v < 0x4000 then |bs| == 2 && Two(bs[0], bs[1]) == 0x4000 + v
            else if v < 0x4000_0000 then |bs| == 4 && Four(bs[0], bs[1], bs[2], bs[3]) == 0x8000_0000 + v
            else |bs| == 8 && Eight(bs[0], bs[1], bs[2], bs[3], bs[4], bs[5], bs[6], bs[7]) == 0xC000_0000_0000_0000 + v
  {
    var bs := Encode(v);
    ValueOfEncoded(v);
    Marks();
    hide Encode, Value, Mark, Two, Four, Eight;
    if v < 64 {
      OneByte(v);
    } else if v < 0x4000 {
      ValueOfTwo(bs);
    } else if v < 0x4000_0000 {
      ValueOfFour(bs);
    } else {
      ValueOfEight(bs);
    }
  }

  lemma OneByte(v: Int62)
    requires v < 64
    ensures Encode(v) == [v]
  {
    Powers();
    assert Big(v, 1) == [v];
  }

  // ----- Control messages -----

  /** A text goes out behind its length. */
  function Counted(data: seq<Byte>): seq<Byte>
    requires |data| < 0x4000_0000_0000_0000
  {
    Encode(|data|) + data
  }

  lemma SmallNumbers()
    ensures forall v: Int62 :: v < 64 ==> Encode(v) == [v]
  {
    forall v: Int62 | v < 64 ensures Encode(v) == [v] {
      OneByte(v);
    }
  }

  /** What is written from field number i on. */
  ghost function From(fields: seq<Field>, i: nat): seq<Byte>
    requires Writable(fields) && i <= |fields|
  {
    AllWritten(fields[i..])
  }

  lemma FromUnfold(fields: seq<Field>, i: nat)
    requires Writable(fields) && i < |fields|
    ensures From(fields, i) == Written(fields[i]) + From(fields, i + 1)
  {
    assert fields[i..][1..] == fields[i + 1..];
  }

  lemma FromAll(fields: seq<Field>)
    requires Writable(fields)
    ensures AllWritten(fields) == From(fields, 0) && From(fields, |fields|) == []
    ensures forall i :: 0 <= i < |fields| ==> From(fields, i) == Written(fields[i]) + From(fields, i + 1)
  {
    assert fields[0..] == fields;
    forall i | 0 <= i < |fields| ensures From(fields, i) == Written(fields[i]) + From(fields, i + 1) {
      FromUnfold(fields, i);
    }
  }

  /** The ends of what is written. */
  lemma FromEnds(fields: seq<Field>)
    requires Writable(fields)
    ensures AllWritten(fields) == From(fields, 0) && From(fields, |fields|) == []
  {
    assert fields[0..] == fields;
  }

  lemma RequestFields(m: Message)
    requires Canonical(m) && m.Request?
    ensures Short(m.url)
    ensures var fields := Fields(m);
            && |fields| == (if m.intent == 2 then 7 else 5)
            && fields[0] == Number(1) && fields[1] == Text(m.url) && fields[2] == Number(m.mediaId)
            && fields[3] == Number(m.mode) && fields[4] == Number(m.intent)
            && (m.intent == 2 ==> fields[5] == Number(m.group) && fields[6] == Number(m.id))
  {
  }

  lemma RequestBytes(m: Message)
    requires Canonical(m) && m.Request? && Writable(Fields(m))
    ensures Short(m.url) && EncodeMessage(m) ==
            [1] + (Counted(m.url) + (Encode(m.mediaId) + (Encode(m.mode) + (Encode(m.intent) +
            if m.intent == 2 then Encode(m.group) + Encode(m.id) else []))))
  {
    OneByte(1);
    RequestFields(m);
    hide Canonical, Fields, Encode, Next, AllWritten, From;
    var fields := Fields(m);
    FromEnds(fields);
    if m.intent == 2 {
      FromUnfold(fields, 6);
      FromUnfold(fields, 5);
      assert Encode(m.id) + [] == Encode(m.id);
    }
    FromUnfold(fields, 4);
    FromUnfold(fields, 3);
    FromUnfold(fields, 2);
    FromUnfold(fields, 1);
    FromUnfold(fields, 0);
  }

  lemma FragmentFields(m: Message)
    requires Canonical(m) && m.FragmentMessage?
    ensures Short(m.data)
    ensures var fields := Fields(m);
            && |fields| == (if m.id == 0 && m.offset == 0 then 8 else 7)
            && fields[0] == Number(5) && fields[1] == Number(m.group) && fields[2] == Number(m.id)
            && fields[3] == Number(m.offset) && fields[4] == Number(m.objectLength) && fields[5] == Octet(m.flags)
            && (if m.id == 0 && m.offset == 0 then fields[6] == Number(m.previousSize) && fields[7] == Text(m.data)
                else fields[6] == Text(m.data))
  {
  }

  /** What follows the flags of a fragment. */
  lemma FragmentTail(m: Message)
    requires Canonical(m) && m.FragmentMessage? && Writable(Fields(m))
    ensures Short(m.data) && |Fields(m)| > 6
    ensures From(Fields(m), 6) == (if m.id == 0 && m.offset == 0 then Encode(m.previousSize) else []) + Counted(m.data)
  {
    FragmentFields(m);
    hide Canonical, Fields, Encode, Next, AllWritten, From;
    var fields := Fields(m);
    FromEnds(fields);
    FromUnfold(fields, 6);
    assert Counted(m.data) + [] == Counted(m.data) && [] + Counted(m.data) == Counted(m.data);
    if m.id == 0 && m.offset == 0 {
      FromUnfold(fields, 7);
    }
  }

  lemma FragmentBytes(m: Message)
    requires Canonical(m) && m.FragmentMessage? && Writable(Fields(m))
    ensures Short(m.data) && EncodeMessage(m) ==
            [5] + (Encode(m.group) + (Encode(m.id) + (Encode(m.offset) + (Encode(m.objectLength) + ([m.flags] +
            ((if m.id == 0 && m.offset == 0 then Encode(m.previousSize) else []) + Counted(m.data)))))))
  {
    OneByte(5);
    FragmentFields(m);
    FragmentTail(m);
    hide Canonical, Fields, Encode, Next, AllWritten, From, Counted;
    var fields := Fields(m);
    FromEnds(fields);
    FromUnfold(fields, 5);
    FromUnfold(fields, 4);
    FromUnfold(fields, 3);
    FromUnfold(fields, 2);
    FromUnfold(fields, 1);
    FromUnfold(fields, 0);
  }

  lemma PostBytes(m: Message)
    requires Canonical(m) && m.Post? && Writable(Fields(m))
    ensures Short(m.url) && EncodeMessage(m) ==
            [6] + (Counted(m.url) + (Encode(m.mode) + ([m.policy] + (Encode(m.group) + Encode(m.id)))))
  {
    SmallNumbers();
    var fields := Fields(m);
    FromAll(fields);
    hide Encode, Next, AllWritten, From;
    assert From(fields, 5) == Encode(m.id) + [] == Encode(m.id);
    assert From(fields, 4) == Encode(m.group) + From(fields, 5) && From(fields, 3) == [m.policy] + From(fields, 4);
    assert From(fields, 2) == Encode(m.mode) + From(fields, 3) && From(fields, 1) == Counted(m.url) + From(fields, 2);
  }

  lemma HeaderFields(m: Message)
    requires m.ObjectHeader?
    ensures var fields := Fields(m);
            && fields[0] == Number(13) && fields[1] == Number(m.id)
            && (if m.id == 0 then |fields| == 5 && fields[2..] == [Number(m.previousSize), Octet(m.flags), Number(m.objectLength)]
                else |fields| == 4 && fields[2..] == [Octet(m.flags), Number(m.objectLength)])
  {
  }

  /** Flags and length, the end of an object header. */
  lemma LastTwo(fields: seq<Field>, flags: Byte, objectLength: Int62)
    requires Writable(fields) && |fields| >= 2 && fields[|fields| - 2..] == [Octet(flags), Number(objectLength)]
    ensures From(fields, |fields| - 2) == [flags] + Encode(objectLength)
  {
    hide Encode, Next, AllWritten, From;
    var n := |fields|;
    assert fields[n - 2] == fields[n - 2..][0] && fields[n - 1] == fields[n - 2..][1];
    FromEnds(fields);
    FromUnfold(fields, n - 1);
    FromUnfold(fields, n - 2);
    assert Encode(objectLength) + [] == Encode(objectLength);
  }

  lemma ObjectHeaderBytes(m: Message)
    requires Canonical(m) && m.ObjectHeader? && Writable(Fields(m))
    ensures EncodeMessage(m) ==
            [13] + (Encode(m.id) + ((if m.id == 0 then Encode(m.previousSize) else []) + ([m.flags] + Encode(m.objectLength))))
  {
    OneByte(13);
    HeaderFields(m);
    hide Canonical, Fields, Encode, Next, AllWritten, From;
    var fields := Fields(m);
    FromEnds(fields);
    var tail := [m.flags] + Encode(m.objectLength);
    if m.id == 0 {
      assert fields[2] == fields[2..][0] && fields[3..] == fields[2..][1..] == [Octet(m.flags), Number(m.objectLength)];
      LastTwo(fields, m.flags, m.objectLength);
      FromUnfold(fields, 2);
    } else {
      LastTwo(fields, m.flags, m.objectLength);
      assert [] + tail == tail;
    }
    FromUnfold(fields, 1);
    FromUnfold(fields, 0);
  }

  predicate Fits(f: Field) {
    f.Text? ==> Short(f.data)
  }

  lemma TwoFields(a: Field, b: Field)
    requires Fits(a) && Fits(b)
    ensures Writable([a, b]) && AllWritten([a, b]) == Written(a) + Written(b)
  {
    hide Written;
    FromEnds([a, b]);
    FromUnfold([a, b], 0);
    FromUnfold([a, b], 1);
    assert Written(b) + [] == Written(b);
  }

  lemma ThreeFields(a: Field, b: Field, c: Field)
    requires Fits(a) && Fits(b) && Fits(c)
    ensures Writable([a, b, c]) && AllWritten([a, b, c]) == Written(a) + (Written(b) + Written(c))
  {
    hide Written;
    FromEnds([a, b, c]);
    FromUnfold([a, b, c], 0);
    FromUnfold([a, b, c], 1);
    FromUnfold([a, b, c], 2);
    assert Written(c) + [] == Written(c);
  }

  lemma AcceptBytes(m: Message)
    requires Canonical(m) && m.Accept? && Writable(Fields(m))
    ensures EncodeMessage(m) == [7] + (Encode(m.mode) + if m.mode != 1 then Encode(m.mediaId) else [])
  {
    OneByte(7);
    hide Encode, AllWritten, Canonical;
    if m.mode != 1 {
      assert Fields(m) == [Number(7), Number(m.mode), Number(m.mediaId)];
      ThreeFields(Number(7), Number(m.mode), Number(m.mediaId));
    } else {
      assert Fields(m) == [Number(7), Number(m.mode)];
      TwoFields(Number(7), Number(m.mode));
      assert Encode(m.mode) + [] == Encode(m.mode);
    }
  }

  lemma ShortBytes(m: Message)
    requires Canonical(m) && !m.Request? && !m.FragmentMessage? && !m.Post? && !m.ObjectHeader? && Writable(Fields(m))
    ensures var bs := EncodeMessage(m);
            && (m.FinDatagram? ==> bs == [3] + (Encode(m.group) + Encode(m.id)))
            && (m.Accept? ==> bs == [7] + (Encode(m.mode) + if m.mode != 1 then Encode(m.mediaId) else []))
            && (m.StartPoint? ==> bs == [8] + (Encode(m.group) + Encode(m.id)))
            && (m.Subscribe? ==> Short(m.url) && bs == [9] + Counted(m.url))
            && (m.Notify? ==> Short(m.url) && bs == [10] + Counted(m.url))
            && (m.CachePolicy? ==> bs == [11, m.policy])
            && (m.WarpHeader? ==> bs == [12] + (Encode(m.mediaId) + Encode(m.group)))
  {
    SmallNumbers();
    hide Encode, AllWritten;
    match m {
      case FinDatagram(group, id) => ThreeFields(Number(3), Number(group), Number(id));
      case Accept(_, _) => AcceptBytes(m);
      case StartPoint(group, id) => ThreeFields(Number(8), Number(group), Number(id));
      case Subscribe(url) => TwoFields(Number(9), Text(url));
      case Notify(url) => TwoFields(Number(10), Text(url));
      case CachePolicy(policy) => TwoFields(Number(11), Octet(policy));
      case WarpHeader(mediaId, group) => ThreeFields(Number(12), Number(mediaId), Number(group));
      case _ =>
    }
  }

  /** Every message, field by field, behind its number. */
  lemma MessageBytes(m: Message)
    requires Canonical(m)
    ensures Writable(Fields(m))
    ensures var bs := EncodeMessage(m);
            match m
            case Request(url, mediaId, mode, intent, group, id) =>
              Short(url) && bs == [1] + (Counted(url) + (Encode(mediaId) + (Encode(mode) + (Encode(intent) +
                                  if intent == 2 then Encode(group) + Encode(id) else []))))
            case FinDatagram(group, id) => bs == [3] + (Encode(group) + Encode(id))
            case FragmentMessage(group, id, previousSize, offset, objectLength, flags, data) =>
              Short(data) && bs == [5] + (Encode(group) + (Encode(id) + (Encode(offset) + (Encode(objectLength) + ([flags] +
                                   ((if id == 0 && offset == 0 then Encode(previousSize) else []) + Counted(data)))))))
            case Post(url, mode, policy, group, id) =>
              Short(url) && bs == [6] + (Counted(url) + (Encode(mode) + ([policy] + (Encode(group) + Encode(id)))))
            case Accept(mode, mediaId) => bs == [7] + (Encode(mode) + if mode != 1 then Encode(mediaId) else [])
            case StartPoint(group, id) => bs == [8] + (Encode(group) + Encode(id))
            case Subscribe(url) => Short(url) && bs == [9] + Counted(url)
            case Notify(url) => Short(url) && bs == [10] + Counted(url)
            case CachePolicy(policy) => bs == [11, policy]
            case WarpHeader(mediaId, group) => bs == [12] + (Encode(mediaId) + Encode(group))
            case ObjectHeader(id, previousSize, flags, objectLength) =>
              bs == [13] + (Encode(id) + ((if id == 0 then Encode(previousSize) else []) + ([flags] + Encode(objectLength))))
  {
    NothingMoreIsAskedFor(m);
    hide Encode, Next, AllWritten, From;
    match m {
      case Request(_, _, _, _, _, _) => RequestBytes(m);
      case FragmentMessage(_, _, _, _, _, _, _) => FragmentBytes(m);
      case Post(_, _, _, _, _) => PostBytes(m);
      case ObjectHeader(_, _, _, _) => ObjectHeaderBytes(m);
      case _ => ShortBytes(m);
    }
  }

  // ----- What is accepted -----

  /** The fields meet, one after the other, the demands of the decoder. */
  ghost predicate Leads(before: seq<Field>, fields: seq<Field>)
    decreases |fields|
  {
    fields == [] || (Meets(Next(before), fields[0]) && Leads(before + [fields[0]], fields[1..]))
  }

  lemma {:induction false} LeadsAll(before: seq<Field>, fields: seq<Field>)
    requires forall i :: 0 <= i < |fields| ==> Meets(Next(before + fields[..i]), fields[i])
    ensures Leads(before, fields)
    decreases |fields|
  {
    hide Next, Meets;
    if fields != [] {
      var (next, rest) := (before + [fields[0]], fields[1..]);
      assert before + fields[..0] == before;
      forall i | 0 <= i < |rest| ensures Meets(Next(next + rest[..i]), rest[i]) {
        assert next + rest[..i] == before + fields[..i + 1];
      }
      LeadsAll(next, rest);
    }
  }

  /** Such fields are consumed, whatever comes behind them. */
  lemma {:induction false} ParseReadsOn(before: seq<Field>, fields: seq<Field>, rest: seq<Byte>)
    requires Leads(before, fields) && Writable(fields)
    ensures Parse(before, AllWritten(fields) + rest) == Parse(before + fields, rest)
    decreases |fields|
  {
    hide Next, Read, Meets, Written;
    if fields == [] {
      assert before + fields == before && AllWritten(fields) + rest == rest;
    } else {
      var f := fields[0];
      var tail := AllWritten(fields[1..]) + rest;
      NotDone(Next(before), f);
      ReadWritten(Next(before), f, tail);
      assert AllWritten(fields) + rest == Written(f) + tail;
      ParseReadsOn(before + [f], fields[1..], rest);
      assert before + [f] + fields[1..] == before + fields;
    }
  }

  /** Fields that meet the demands and then lead to a refusal are refused, whatever comes behind them. */
  lemma Refused(fields: seq<Field>, rest: seq<Byte>)
    requires Writable(fields) && Next(fields) == Reject
    requires forall i :: 0 <= i < |fields| ==> Meets(Next(fields[..i]), fields[i])
    ensures DecodeMessage(AllWritten(fields) + rest) == None
  {
    hide Meets, AllWritten, Next, Leads;
    forall i | 0 <= i < |fields| ensures Meets(Next([] + fields[..i]), fields[i]) {
      assert [] + fields[..i] == fields[..i];
    }
    assert [] + fields == fields;
    LeadsAll([], fields);
    ParseReadsOn([], fields, rest);
  }

  /** A subscription that asks for a start point is read back with its group and object, whichever
      they are; it is the intent that applications get by default. */
  lemma StartPointIsRead(url: seq<Byte>, mediaId: Int62, mode: Int62, group: Int62, id: Int62, rest: seq<Byte>)
    requires Short(url) && mode < 5
    ensures var m := Request(url, mediaId, mode, 2, group, id);
            Writable(Fields(m)) && DecodeMessage(EncodeMessage(m) + rest) == Some((m, rest))
  {
    MessageRoundTrip(Request(url, mediaId, mode, 2, group, id), rest);
  }

  /** The other two intents, 0 and 1, carry no start point: the bytes are those of a request for
      group 0, object 0, and that is what is read. */
  lemma OtherIntentsCarryNoPoint(url: seq<Byte>, mediaId: Int62, mode: Int62, intent: Int62, group: Int62, id: Int62, rest: seq<Byte>)
    requires Short(url) && mode < 5 && intent < 2
    ensures var m := Request(url, mediaId, mode, intent, group, id);
            && Writable(Fields(m))
            && DecodeMessage(EncodeMessage(m) + rest) == Some((Request(url, mediaId, mode, intent, 0, 0), rest))
  {
    var bare := Request(url, mediaId, mode, intent, 0, 0);
    MessageRoundTrip(bare, rest);
    assert Fields(Request(url, mediaId, mode, intent, group, id)) == Fields(bare);
  }

  /** Any other intent is refused, and so is any mode from 5 on, whatever follows. */
  lemma RequestIsRefused(url: seq<Byte>, mediaId: Int62, mode: Int62, intent: Int62, rest: seq<Byte>)
    requires Short(url) && (mode >= 5 || intent >= 3)
    ensures DecodeMessage([1] + Counted(url) + Encode(mediaId) + Encode(mode) + Encode(intent) + rest) == None
  {
    var fields := [Number(1), Text(url), Number(mediaId), Number(mode), Number(intent)];
    Refused(fields, rest);
    OneByte(1);
    hide Encode, AllWritten, Counted, From;
    FromEnds(fields);
    FromUnfold(fields, 4);
    FromUnfold(fields, 3);
    FromUnfold(fields, 2);
    FromUnfold(fields, 1);
    FromUnfold(fields, 0);
    assert Counted(url) == Written(fields[1]) by { CountedIsText(url); }
    assert AllWritten(fields) == [1] + Counted(url) + Encode(mediaId) + Encode(mode) + Encode(intent) by {
      FiveInARow([1], Counted(url), Encode(mediaId), Encode(mode), Encode(intent));
    }
  }

  lemma CountedIsText(url: seq<Byte>)
    requires Short(url)
    ensures Counted(url) == Written(Text(url))
  {
  }

  lemma FiveInARow(a: seq<Byte>, b: seq<Byte>, c: seq<Byte>, d: seq<Byte>, e: seq<Byte>)
    ensures a + (b + (c + (d + (e + [])))) == a + b + c + d + e
  {
  }

  lemma PostIsRefused(url: seq<Byte>, mode: Int62, policy: Byte, group: Int62, id: Int62, rest: seq<Byte>)
    requires Short(url) && mode >= 5
    ensures Writable(Fields(Post(url, mode, policy, group, id)))
    ensures DecodeMessage(EncodeMessage(Post(url, mode, policy, group, id)) + rest) == None
  {
    Refused(Fields(Post(url, mode, policy, group, id)), rest);
  }

  lemma AcceptIsRefused(mode: Int62, rest: seq<Byte>)
    requires mode >= 5
    ensures DecodeMessage([7] + Encode(mode) + rest) == None
  {
    var fields := [Number(7), Number(mode)];
    Refused(fields, rest);
    OneByte(7);
    hide Encode, AllWritten, From;
    FromEnds(fields);
    FromUnfold(fields, 1);
    FromUnfold(fields, 0);
    assert Encode(mode) + [] == Encode(mode);
  }

  /** No other action code is accepted. */
  lemma UnknownIsRefused(action: Int62, rest: seq<Byte>)
    requires action !in {1, 3, 5, 6, 7, 8, 9, 10, 11, 12, 13}
    ensures DecodeMessage(Encode(action) + rest) == None
  {
    var fields := [Number(action)];
    Refused(fields, rest);
    hide Encode, AllWritten, From;
    FromEnds(fields);
    FromUnfold(fields, 0);
    assert Encode(action) + [] == Encode(action);
  }

  // ----- Datagrams and frames -----

  /** The header of a datagram, all of whose numbers fit in a byte: the delay in the queues comes
      behind the length of the object, and the flags before the size of the previous group. */
  lemma HeaderBytes(h: Header)
    requires h.mediaId < 64 && h.group < 64 && h.id < 64 && h.offset < 64
    requires h.objectLength < 64 && h.queueDelay < 64 && h.previousSize < 64
    ensures EncodeHeader(h) ==
            [h.mediaId, h.group, h.id, h.offset, h.objectLength, h.queueDelay, h.flags] +
            if h.id == 0 && h.offset == 0 then [h.previousSize] else []
  {
    SmallNumbers();
    hide Encode;
  }

  /** A frame is its length in two bytes, most significant first, and the message. */
  lemma FrameBytes(message: Framing.Text)
    ensures var bs := Framing.Frame(message);
            |bs| >= 2 && Two(bs[0], bs[1]) == |message| && bs[2..] == message
  {
  }
}
