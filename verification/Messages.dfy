/** The control messages and the datagram header on the wire.  The decoder reads field after field;
    what it reads next depends on the message type and on the fields read so far. */
module Messages {
  import opened Media
  import opened Varint

  // ----- Messages -----

  /** The transport modes and subscribe intents are numbers on the wire. */
  const TRANSPORT_MODE_SINGLE_STREAM := 1
  const TRANSPORT_MODE_MAX := 5
  const INTENT_START_POINT := 2

  datatype Message =
    | Request(url: seq<Byte>, mediaId: Int62, mode: Int62, intent: Int62, group: Int62, id: Int62)
    | FinDatagram(group: Int62, id: Int62)
    | FragmentMessage(group: Int62, id: Int62, previousSize: Int62, offset: Int62, objectLength: Int62, flags: Byte, data: seq<Byte>)
    | Post(url: seq<Byte>, mode: Int62, policy: Byte, group: Int62, id: Int62)
    | Accept(mode: Int62, mediaId: Int62)
    | StartPoint(group: Int62, id: Int62)
    | Subscribe(url: seq<Byte>)
    | Notify(url: seq<Byte>)
    | CachePolicy(policy: Byte)
    | WarpHeader(mediaId: Int62, group: Int62)
    | ObjectHeader(id: Int62, previousSize: Int62, flags: Byte, objectLength: Int62)

  // ----- Fields -----

  datatype Field = Number(v: Int62) | Octet(b: Byte) | Text(data: seq<Byte>)

  /** What the decoder does after some fields: read one more, stop, or reject. */
  datatype Demand = ReadNumber | ReadOctet | ReadText | Done | Reject

  predicate Meets(demand: Demand, f: Field) {
    match demand
    case ReadNumber => f.Number?
    case ReadOctet => f.Octet?
    case ReadText => f.Text? && |f.data| < 0x4000_0000_0000_0000
    case Done => false
    case Reject => false
  }

  /** The number in a field, or zero. */
  function N(fields: seq<Field>, i: nat): Int62 {
    if i < |fields| && fields[i].Number? then fields[i].v else 0
  }

  /** The layouts of the messages, in the order in which their decoders read. */
  function Next(fields: seq<Field>): Demand {
    var n := |fields|;
    if n == 0 then ReadNumber
    else
      match N(fields, 0)
      case 1 =>
        if n == 1 then ReadText
        else if n <= 4 then ReadNumber
        else if N(fields, 4) > INTENT_START_POINT || N(fields, 3) >= TRANSPORT_MODE_MAX then Reject
        else if N(fields, 4) == INTENT_START_POINT && n <= 6 then ReadNumber
        else Done
      case 3 => if n <= 2 then ReadNumber else Done
      case 5 =>
        var hasSize := N(fields, 2) == 0 && N(fields, 3) == 0;
        if n <= 4 then ReadNumber
        else if n == 5 then ReadOctet
        else if n == 6 then if hasSize then ReadNumber else ReadText
        else if n == 7 && hasSize then ReadText
        else Done
      case 6 =>
        if n == 1 then ReadText
        else if n == 2 then ReadNumber
        else if n == 3 then ReadOctet
        else if n <= 5 then ReadNumber
        else if N(fields, 2) >= TRANSPORT_MODE_MAX then Reject
        else Done
      case 7 =>
        if n == 1 then ReadNumber
        else if N(fields, 1) >= TRANSPORT_MODE_MAX then Reject
        else if N(fields, 1) != TRANSPORT_MODE_SINGLE_STREAM && n == 2 then ReadNumber
        else Done
      case 8 => if n <= 2 then ReadNumber else Done
      case 9 => if n == 1 then ReadText else Done
      case 10 => if n == 1 then ReadText else Done
      case 11 => if n == 1 then ReadOctet else Done
      case 12 => if n <= 2 then ReadNumber else Done
      case 13 =>
        var k := if N(fields, 1) == 0 then 1 else 0;
        if n == 1 then ReadNumber
        else if n == 2 && k == 1 then ReadNumber
        else if n == 2 + k then ReadOctet
        else if n == 3 + k then ReadNumber
        else Done
      case _ => Reject
  }

  // ----- Decoding -----

  /** One field and what follows it. */
  function Read(demand: Demand, bs: seq<Byte>): (r: Option<(Field, seq<Byte>)>)
    ensures r.Some? ==> Meets(demand, r.value.0) && |r.value.1| < |bs|
  {
    match demand
    case ReadNumber =>
      (match Decode(bs)
       case None => None
       case Some((v, rest)) => DecodeShortens(bs); Some((Number(v), rest)))
    case ReadOctet => if bs == [] then None else Some((Octet(bs[0]), bs[1..]))
    case ReadText =>
      (match Decode(bs)
       case None => None
       case Some((length, rest)) =>
         DecodeShortens(bs);
         if |rest| < length then None else Some((Text(rest[..length]), rest[length..])))
    case Done => None
    case Reject => None
  }

  lemma DecodeShortens(bs: seq<Byte>)
    ensures Decode(bs).Some? ==> |Decode(bs).value.1| < |bs|
  {
  }

  function Parse(fields: seq<Field>, bs: seq<Byte>): Option<(seq<Field>, seq<Byte>)>
    decreases |bs|
  {
    var demand := Next(fields);
    if demand == Done then Some((fields, bs))
    else
      match Read(demand, bs)
      case None => None
      case Some((f, rest)) => Parse(fields + [f], rest)
  }

  // ----- Encoding -----

  function Written(f: Field): seq<Byte>
    requires f.Text? ==> |f.data| < 0x4000_0000_0000_0000
  {
    match f
    case Number(v) => Encode(v)
    case Octet(b) => [b]
    case Text(data) => Encode(|data|) + data
  }

  ghost predicate Writable(fields: seq<Field>) {
    forall i :: 0 <= i < |fields| && fields[i].Text? ==> |fields[i].data| < 0x4000_0000_0000_0000
  }

  function AllWritten(fields: seq<Field>): seq<Byte>
    requires Writable(fields)
  {
    if fields == [] then [] else Written(fields[0]) + AllWritten(fields[1..])
  }

  // ----- Reading what was written -----

  lemma ReadWritten(demand: Demand, f: Field, rest: seq<Byte>)
    requires Meets(demand, f)
    ensures Read(demand, Written(f) + rest) == Some((f, rest))
  {
    match f {
      case Number(v) => RoundTrip(v, rest);
      case Octet(b) =>
      case Text(data) =>
        RoundTrip(|data|, data + rest);
        assert Encode(|data|) + data + rest == Encode(|data|) + (data + rest);
    }
  }

  /** The fields answer, one after the other, what the decoder asks for, and then it is done. */
  ghost predicate Answers(before: seq<Field>, fields: seq<Field>)
    decreases |fields|
  {
    if fields == [] then Next(before) == Done
    else Meets(Next(before), fields[0]) && Answers(before + [fields[0]], fields[1..])
  }

  lemma {:induction false} ParseWritten(before: seq<Field>, fields: seq<Field>, rest: seq<Byte>)
    requires Answers(before, fields) && Writable(fields)
    ensures Parse(before, AllWritten(fields) + rest) == Some((before + fields, rest))
    decreases |fields|
  {
    hide Next, Read, Meets, Written;
    if fields == [] {
      assert before + fields == before && AllWritten(fields) + rest == rest;
    } else {
      var f := fields[0];
      var tail := AllWritten(fields[1..]) + rest;
      NotDone(Next(before), f);
      ReadWritten(Next(before), f, tail);
      assert AllWritten(fields) + rest == Written(f) + tail;
      ParseWritten(before + [f], fields[1..], rest);
      assert before + [f] + fields[1..] == before + fields;
    }
  }

  lemma NotDone(demand: Demand, f: Field)
    requires Meets(demand, f)
    ensures demand != Done
  {
  }

  lemma ReadStable(demand: Demand, bs: seq<Byte>, more: seq<Byte>)
    requires Read(demand, bs).Some?
    ensures Read(demand, bs + more) == Some((Read(demand, bs).value.0, Read(demand, bs).value.1 + more))
  {
    match demand {
      case ReadNumber => Stable(bs, more);
      case ReadOctet => assert (bs + more)[1..] == bs[1..] + more;
      case ReadText =>
        Stable(bs, more);
        var (length, rest) := Decode(bs).value;
        assert (rest + more)[..length] == rest[..length] && (rest + more)[length..] == rest[length..] + more;
      case Done =>
      case Reject =>
    }
  }

  /** More bytes at the end change nothing but the rest. */
  lemma {:induction false} ParseStable(fields: seq<Field>, bs: seq<Byte>, more: seq<Byte>)
    requires Parse(fields, bs).Some?
    ensures Parse(fields, bs + more) == Some((Parse(fields, bs).value.0, Parse(fields, bs).value.1 + more))
    decreases |bs|
  {
    hide Next, Read;
    if Next(fields) != Done {
      ReadStable(Next(fields), bs, more);
      var (f, rest) := Read(Next(fields), bs).value;
      ParseStable(fields + [f], rest, more);
    }
  }

  // ----- Messages and their fields -----

  function Fields(m: Message): seq<Field> {
    match m
    case Request(url, mediaId, mode, intent, group, id) =>
      [Number(1), Text(url), Number(mediaId), Number(mode), Number(intent)] +
      if intent == INTENT_START_POINT then [Number(group), Number(id)] else []
    case FinDatagram(group, id) => [Number(3), Number(group), Number(id)]
    case FragmentMessage(group, id, previousSize, offset, objectLength, flags, data) =>
      [Number(5), Number(group), Number(id), Number(offset), Number(objectLength), Octet(flags)] +
      (if id == 0 && offset == 0 then [Number(previousSize)] else []) + [Text(data)]
    case Post(url, mode, policy, group, id) =>
      [Number(6), Text(url), Number(mode), Octet(policy), Number(group), Number(id)]
    case Accept(mode, mediaId) =>
      [Number(7), Number(mode)] + if mode != TRANSPORT_MODE_SINGLE_STREAM then [Number(mediaId)] else []
    case StartPoint(group, id) => [Number(8), Number(group), Number(id)]
    case Subscribe(url) => [Number(9), Text(url)]
    case Notify(url) => [Number(10), Text(url)]
    case CachePolicy(policy) => [Number(11), Octet(policy)]
    case WarpHeader(mediaId, group) => [Number(12), Number(mediaId), Number(group)]
    case ObjectHeader(id, previousSize, flags, objectLength) =>
      [Number(13), Number(id)] + (if id == 0 then [Number(previousSize)] else []) + [Octet(flags), Number(objectLength)]
  }

  /** The octet in a field, or zero; the text in a field, or none. */
  function O(fields: seq<Field>, i: nat): Byte {
    if i < |fields| && fields[i].Octet? then fields[i].b else 0
  }

  function T(fields: seq<Field>, i: nat): seq<Byte> {
    if i < |fields| && fields[i].Text? then fields[i].data else []
  }

  /** What a decoder stores in the message structure, which starts out as zeros. */
  function Stored(fields: seq<Field>): Option<Message> {
    match N(fields, 0)
    case 1 => Some(Request(T(fields, 1), N(fields, 2), N(fields, 3), N(fields, 4), N(fields, 5), N(fields, 6)))
    case 3 => Some(FinDatagram(N(fields, 1), N(fields, 2)))
    case 5 =>
      if N(fields, 2) == 0 && N(fields, 3) == 0 then
        Some(FragmentMessage(N(fields, 1), N(fields, 2), N(fields, 6), N(fields, 3), N(fields, 4), O(fields, 5), T(fields, 7)))
      else
        Some(FragmentMessage(N(fields, 1), N(fields, 2), 0, N(fields, 3), N(fields, 4), O(fields, 5), T(fields, 6)))
    case 6 => Some(Post(T(fields, 1), N(fields, 2), O(fields, 3), N(fields, 4), N(fields, 5)))
    case 7 => Some(Accept(N(fields, 1), N(fields, 2)))
    case 8 => Some(StartPoint(N(fields, 1), N(fields, 2)))
    case 9 => Some(Subscribe(T(fields, 1)))
    case 10 => Some(Notify(T(fields, 1)))
    case 11 => Some(CachePolicy(O(fields, 1)))
    case 12 => Some(WarpHeader(N(fields, 1), N(fields, 2)))
    case 13 =>
      if N(fields, 1) == 0 then Some(ObjectHeader(0, N(fields, 2), O(fields, 3), N(fields, 4)))
      else Some(ObjectHeader(N(fields, 1), 0, O(fields, 2), N(fields, 3)))
    case _ => None
  }

  /** quicrq_msg_decode: the message, and what follows it. */
  function DecodeMessage(bs: seq<Byte>): Option<(Message, seq<Byte>)> {
    match Parse([], bs)
    case None => None
    case Some((fields, rest)) =>
      match Stored(fields)
      case None => None
      case Some(m) => Some((m, rest))
  }

  /** quicrq_msg_encode, given enough room. */
  function EncodeMessage(m: Message): seq<Byte>
    requires Writable(Fields(m))
  {
    AllWritten(Fields(m))
  }

  /** The fields that are not sent have the value that the decoder gives them, and the numbers of
      modes and intents exist. */
  predicate Canonical(m: Message) {
    match m
    case Request(url, _, mode, intent, group, id) =>
      mode < TRANSPORT_MODE_MAX && intent <= INTENT_START_POINT && (intent < INTENT_START_POINT ==> group == id == 0) && Short(url)
    case FragmentMessage(_, id, previousSize, offset, _, _, data) =>
      (id != 0 || offset != 0 ==> previousSize == 0) && Short(data)
    case Post(url, mode, _, _, _) => mode < TRANSPORT_MODE_MAX && Short(url)
    case Accept(mode, mediaId) => mode < TRANSPORT_MODE_MAX && (mode == TRANSPORT_MODE_SINGLE_STREAM ==> mediaId == 0)
    case Subscribe(url) => Short(url)
    case Notify(url) => Short(url)
    case ObjectHeader(id, previousSize, _, _) => id != 0 ==> previousSize == 0
    case _ => true
  }

  predicate Short(data: seq<Byte>) {
    |data| < 0x4000_0000_0000_0000
  }

  // ----- The round trip -----

  lemma {:induction false} AnswersAll(before: seq<Field>, fields: seq<Field>)
    requires Next(before + fields) == Done
    requires forall i :: 0 <= i < |fields| ==> Meets(Next(before + fields[..i]), fields[i])
    ensures Answers(before, fields)
    decreases |fields|
  {
    hide Next, Meets;
    if fields == [] {
      assert before + fields == before;
    } else {
      var (next, rest) := (before + [fields[0]], fields[1..]);
      assert before + fields[..0] == before;
      assert next + rest == before + fields;
      forall i | 0 <= i < |rest| ensures Meets(Next(next + rest[..i]), rest[i]) {
        assert next + rest[..i] == before + fields[..i + 1];
      }
      AnswersAll(next, rest);
    }
  }

  /** Field i of a message is what the decoder asks for after the fields before it. */
  lemma FieldIsAskedFor(m: Message, i: nat)
    requires Canonical(m) && i < |Fields(m)|
    ensures Meets(Next(Fields(m)[..i]), Fields(m)[i])
  {
    hide Next, Meets, Canonical, Fields;
    match m {
      case Request(_, _, _, _, _, _) => LongFieldIsAskedFor(m, i);
      case Post(_, _, _, _, _) => LongFieldIsAskedFor(m, i);
      case FragmentMessage(_, _, _, _, _, _, _) => FragmentFieldIsAskedFor(m, i);
      case _ => ShortFieldIsAskedFor(m, i);
    }
  }

  lemma Known(fields: seq<Field>, i: nat)
    requires i <= |fields|
    ensures forall j :: 0 <= j < i ==> N(fields[..i], j) == N(fields, j)
  {
  }

  lemma LongFieldIsAskedFor(m: Message, i: nat)
    requires Canonical(m) && i < |Fields(m)| && (m.Request? || m.Post?)
    ensures Meets(Next(Fields(m)[..i]), Fields(m)[i])
  {
    Known(Fields(m), i);
  }

  lemma FragmentFieldIsAskedFor(m: Message, i: nat)
    requires Canonical(m) && i < |Fields(m)| && m.FragmentMessage?
    ensures Meets(Next(Fields(m)[..i]), Fields(m)[i])
  {
    Known(Fields(m), i);
  }

  lemma ShortFieldIsAskedFor(m: Message, i: nat)
    requires Canonical(m) && i < |Fields(m)| && !m.Request? && !m.Post? && !m.FragmentMessage?
    ensures Meets(Next(Fields(m)[..i]), Fields(m)[i])
  {
    Known(Fields(m), i);
  }

  lemma NothingMoreIsAskedFor(m: Message)
    requires Canonical(m)
    ensures Next(Fields(m)) == Done && Stored(Fields(m)) == Some(m) && Writable(Fields(m))
  {
  }

  /** Decoding what was encoded gives the message back and leaves exactly what follows it. */
  lemma MessageRoundTrip(m: Message, rest: seq<Byte>)
    requires Canonical(m)
    ensures Writable(Fields(m)) && DecodeMessage(EncodeMessage(m) + rest) == Some((m, rest))
  {
    hide Next, Meets, Fields, Stored, Parse;
    NothingMoreIsAskedFor(m);
    var fields := Fields(m);
    assert [] + fields == fields;
    forall i | 0 <= i < |fields| ensures Meets(Next([] + fields[..i]), fields[i]) {
      FieldIsAskedFor(m, i);
      assert [] + fields[..i] == fields[..i];
    }
    AnswersAll([], fields);
    ParseWritten([], fields, rest);
  }

  /** No strict prefix of an encoded message is accepted. */
  lemma PrefixIsRejected(m: Message, n: nat)
    requires Canonical(m) && Writable(Fields(m)) && n < |EncodeMessage(m)|
    ensures DecodeMessage(EncodeMessage(m)[..n]).None?
  {
    hide Next, Fields, Stored, Parse;
    var bs := EncodeMessage(m);
    if Parse([], bs[..n]).Some? {
      ParseStable([], bs[..n], bs[n..]);
      assert bs[..n] + bs[n..] == bs == bs + [];
      MessageRoundTrip(m, []);
    }
  }

  // ----- Room for encoding -----

  /** The buffer sizes that the senders reserve. */
  function Reserve(m: Message): nat {
    match m
    case Request(url, _, _, intent, _, _) => 8 + 2 + |url| + 8 + 1 + if intent == INTENT_START_POINT then 17 else 1
    case FinDatagram(group, id) => 1 + Size(group) + Size(id)
    case FragmentMessage(group, id, previousSize, offset, objectLength, _, data) =>
      FragmentReserve(group, id, previousSize, offset, objectLength, |data|)
    case Post(url, _, _, _, _) => 1 + 2 + |url| + 1 + 1 + 8 + 8
    case Accept(mode, mediaId) => 1 + Size(mode) + if mode != TRANSPORT_MODE_SINGLE_STREAM then Size(mediaId) else 0
    case StartPoint(group, id) => 1 + Size(group) + Size(id)
    case Subscribe(url) => 8 + 2 + |url|
    case Notify(url) => 8 + 2 + |url|
    case CachePolicy(_) => 2
    case WarpHeader(mediaId, group) => 1 + Size(mediaId) + Size(group)
    case ObjectHeader(id, previousSize, _, objectLength) => ObjectHeaderReserve(id, previousSize, objectLength)
  }

  /** quicrq_fragment_msg_reserve counts the header, not the data. */
  function FragmentReserve(group: Int62, id: Int62, previousSize: Int62, offset: Int62, objectLength: Int62, length: nat): nat {
    1 + Size(group) + Size(id) + Size(offset) + Size(objectLength) + 1 +
    (if id == 0 && offset == 0 then Size(previousSize) else 0) +
    if length < 0x4000_0000_0000_0000 then Size(length) else 8
  }

  function ObjectHeaderReserve(id: Int62, previousSize: Int62, objectLength: Int62): nat {
    1 + Size(id) + (if id == 0 then Size(previousSize) else 0) + 1 + Size(objectLength)
  }

  function FieldSize(f: Field): nat
    requires f.Text? ==> |f.data| < 0x4000_0000_0000_0000
  {
    match f
    case Number(v) => Size(v)
    case Octet(_) => 1
    case Text(data) => Size(|data|) + |data|
  }

  /** The size of the fields from number i on. */
  ghost function SizeFrom(fields: seq<Field>, i: nat): nat
    requires Writable(fields)
    decreases |fields| - i
  {
    if i >= |fields| then 0 else FieldSize(fields[i]) + SizeFrom(fields, i + 1)
  }

  lemma {:induction false} WrittenSize(fields: seq<Field>, i: nat)
    requires Writable(fields) && i <= |fields|
    ensures |AllWritten(fields[i..])| == SizeFrom(fields, i)
    decreases |fields| - i
  {
    if i < |fields| {
      WrittenSize(fields, i + 1);
      assert fields[i..][1..] == fields[i + 1..];
    }
  }

  ghost function SizeAt(fields: seq<Field>, i: nat): nat
    requires Writable(fields)
  {
    if i < |fields| then FieldSize(fields[i]) else 0
  }

  lemma SizeOfFew(fields: seq<Field>)
    requires Writable(fields) && |fields| <= 8
    ensures |AllWritten(fields)| ==
            SizeAt(fields, 0) + SizeAt(fields, 1) + SizeAt(fields, 2) + SizeAt(fields, 3) +
            SizeAt(fields, 4) + SizeAt(fields, 5) + SizeAt(fields, 6) + SizeAt(fields, 7)
  {
    WrittenSize(fields, 0);
    assert fields[0..] == fields;
    assert SizeFrom(fields, 7) == SizeAt(fields, 7) && SizeFrom(fields, 6) == SizeAt(fields, 6) + SizeFrom(fields, 7);
    assert SizeFrom(fields, 5) == SizeAt(fields, 5) + SizeFrom(fields, 6);
    assert SizeFrom(fields, 4) == SizeAt(fields, 4) + SizeFrom(fields, 5);
    assert SizeFrom(fields, 3) == SizeAt(fields, 3) + SizeFrom(fields, 4);
    assert SizeFrom(fields, 2) == SizeAt(fields, 2) + SizeFrom(fields, 3);
    assert SizeFrom(fields, 1) == SizeAt(fields, 1) + SizeFrom(fields, 2);
  }

  /** The text that a message carries behind a length of one or two bytes. */
  function TextOf(m: Message): seq<Byte> {
    match m
    case Request(url, _, _, _, _, _) => url
    case Post(url, _, _, _, _) => url
    case Subscribe(url) => url
    case Notify(url) => url
    case _ => []
  }

  lemma RequestFits(m: Message)
    requires Canonical(m) && m.Request? && |m.url| < 0x4000 && Writable(Fields(m))
    ensures |EncodeMessage(m)| <= Reserve(m)
  {
    TypeSize();
    SizesAre(m);
    hide Canonical, Next, Encode, Size, AllWritten;
    SizeOfFew(Fields(m));
  }

  lemma PostFits(m: Message)
    requires Canonical(m) && m.Post? && |m.url| < 0x4000 && Writable(Fields(m))
    ensures |EncodeMessage(m)| <= Reserve(m)
  {
    TypeSize();
    SizesAre(m);
    hide Canonical, Next, Encode, Size, AllWritten;
    SizeOfFew(Fields(m));
  }

  lemma FragmentFits(m: Message)
    requires Canonical(m) && m.FragmentMessage? && Writable(Fields(m))
    ensures |EncodeMessage(m)| == Reserve(m) + |m.data|
  {
    TypeSize();
    ShortData(m);
    hide Canonical, Next, Encode, Size, AllWritten;
    SizeOfFew(Fields(m));
  }

  lemma ShortData(m: Message)
    requires Canonical(m) && m.FragmentMessage?
    ensures Short(m.data)
  {
  }

  lemma OthersFit(m: Message)
    requires Canonical(m) && !m.Request? && !m.Post? && !m.FragmentMessage? && |TextOf(m)| < 0x4000 && Writable(Fields(m))
    ensures |EncodeMessage(m)| <= Reserve(m)
  {
    TypeSize();
    SizesAre(m);
    hide Canonical, Next, Encode, Size, AllWritten;
    SizeOfFew(Fields(m));
  }

  /** Every encoded message fits into the buffer that is reserved for it, when its URL has a length
      below 2^14; the reserve of a fragment is exactly its header. */
  lemma EncodingFitsReserve(m: Message)
    requires Canonical(m) && |TextOf(m)| < 0x4000
    ensures Writable(Fields(m))
    ensures !m.FragmentMessage? ==> |EncodeMessage(m)| <= Reserve(m)
    ensures m.FragmentMessage? ==> |EncodeMessage(m)| == Reserve(m) + |m.data|
  {
    NothingMoreIsAskedFor(m);
    hide Canonical, Next, Fields, Reserve, AllWritten;
    match m {
      case Request(_, _, _, _, _, _) => RequestFits(m);
      case Post(_, _, _, _, _) => PostFits(m);
      case FragmentMessage(_, _, _, _, _, _, _) => FragmentFits(m);
      case _ => OthersFit(m);
    }
  }

  /** Nor is much room wasted: a message without a text gets exactly what it takes, and the others at
      most 29 bytes more. */
  lemma ReserveIsTight(m: Message)
    requires Canonical(m) && |TextOf(m)| < 0x4000
    ensures Writable(Fields(m))
    ensures m.Request? || m.Post? || m.Subscribe? || m.Notify? ==> Reserve(m) <= |EncodeMessage(m)| + 29
    ensures !m.FragmentMessage? && !m.Request? && !m.Post? && !m.Subscribe? && !m.Notify? ==> Reserve(m) == |EncodeMessage(m)|
  {
    NothingMoreIsAskedFor(m);
    hide Canonical, Next, Fields, Reserve, AllWritten;
    match m {
      case Request(_, _, _, _, _, _) => RequestIsTight(m);
      case Post(_, _, _, _, _) => PostIsTight(m);
      case FragmentMessage(_, _, _, _, _, _, _) =>
      case _ => OthersAreTight(m);
    }
  }

  lemma RequestIsTight(m: Message)
    requires Canonical(m) && m.Request? && |m.url| < 0x4000 && Writable(Fields(m))
    ensures Reserve(m) <= |EncodeMessage(m)| + 29
  {
    TypeSize();
    AtLeastOne(m);
    hide Canonical, Next, Encode, Size, AllWritten;
    SizeOfFew(Fields(m));
  }

  lemma PostIsTight(m: Message)
    requires Canonical(m) && m.Post? && |m.url| < 0x4000 && Writable(Fields(m))
    ensures Reserve(m) <= |EncodeMessage(m)| + 29
  {
    TypeSize();
    AtLeastOne(m);
    hide Canonical, Next, Encode, Size, AllWritten;
    SizeOfFew(Fields(m));
  }

  lemma OthersAreTight(m: Message)
    requires Canonical(m) && !m.Request? && !m.Post? && !m.FragmentMessage? && |TextOf(m)| < 0x4000 && Writable(Fields(m))
    ensures m.Subscribe? || m.Notify? ==> Reserve(m) <= |EncodeMessage(m)| + 29
    ensures !m.Subscribe? && !m.Notify? ==> Reserve(m) == |EncodeMessage(m)|
  {
    TypeSize();
    AtLeastOne(m);
    hide Canonical, Next, Encode, Size, AllWritten;
    SizeOfFew(Fields(m));
  }

  lemma AtLeastOne(m: Message)
    ensures |TextOf(m)| < 0x4000 ==> Size(|TextOf(m)|) >= 1
    ensures m.Request? ==> Size(m.mediaId) >= 1 && Size(m.mode) >= 1 && Size(m.intent) >= 1 && Size(m.group) >= 1 && Size(m.id) >= 1
    ensures m.Post? ==> Size(m.mode) >= 1 && Size(m.group) >= 1 && Size(m.id) >= 1
  {
  }

  lemma TypeSize()
    ensures forall v: Int62 :: v < 64 ==> Size(v) == 1
  {
  }

  /** The numbers whose size is not counted when room is reserved. */
  lemma SizesAre(m: Message)
    requires Canonical(m) && |TextOf(m)| < 0x4000
    ensures |TextOf(m)| < 0x4000_0000_0000_0000 && Size(|TextOf(m)|) <= 2
    ensures m.Request? ==> Size(m.mediaId) <= 8 && Size(m.mode) == 1 && Size(m.intent) == 1
    ensures m.Request? ==> Size(m.group) + Size(m.id) <= 16
    ensures m.Post? ==> Size(m.mode) == 1 && Size(m.group) + Size(m.id) <= 16
  {
  }

  /** The reserve for the header of an object that opens a group is made as if the previous group
      were empty: the header fits exactly when that changes nothing. */
  lemma ObjectHeaderFitsIff(id: Int62, previousSize: Int62, flags: Byte, objectLength: Int62)
    requires id != 0 ==> previousSize == 0
    ensures var m := ObjectHeader(id, previousSize, flags, objectLength);
            && Writable(Fields(m))
            && (|EncodeMessage(m)| <= ObjectHeaderReserve(id, 0, objectLength) <==> id != 0 || previousSize < 64)
            && |EncodeMessage(m)| == ObjectHeaderReserve(id, 0, objectLength) + if id != 0 then 0 else Size(previousSize) - 1
  {
    var m := ObjectHeader(id, previousSize, flags, objectLength);
    NothingMoreIsAskedFor(m);
    SizeOfFew(Fields(m));
  }

  /** The smallest group behind which a header does not fit. */
  lemma ObjectHeaderDoesNotFit()
    ensures var m := ObjectHeader(0, 64, 0, 5);
            && Writable(Fields(m))
            && |EncodeMessage(m)| == 6 && ObjectHeaderReserve(0, 0, 5) == 5
  {
    ObjectHeaderFitsIff(0, 64, 0, 5);
  }

  // ----- The datagram header -----

  datatype Header = Header(
    mediaId: Int62, group: Int62, id: Int62, offset: Int62, objectLength: Int62, queueDelay: Int62, flags: Byte, previousSize: Int62)

  /** quicrq_datagram_header_encode, given enough room. */
  function EncodeHeader(h: Header): seq<Byte> {
    Encode(h.mediaId) + (Encode(h.group) + (Encode(h.id) + (Encode(h.offset) + (Encode(h.objectLength) +
    (Encode(h.queueDelay) + ([h.flags] + if h.id == 0 && h.offset == 0 then Encode(h.previousSize) else []))))))
  }

  function DecodeNumbers(bs: seq<Byte>, n: nat): Option<(seq<Int62>, seq<Byte>)> {
    if n == 0 then Some(([], bs))
    else
      match Decode(bs)
      case None => None
      case Some((v, rest)) =>
        match DecodeNumbers(rest, n - 1)
        case None => None
        case Some((vs, rest)) => Some(([v] + vs, rest))
  }

  /** quicrq_datagram_header_decode: the header, and the data behind it. */
  function DecodeHeader(bs: seq<Byte>): Option<(Header, seq<Byte>)> {
    match DecodeNumbers(bs, 6)
    case None => None
    case Some((vs, rest)) =>
      if |vs| != 6 || rest == [] then None
      else
        var h := Header(vs[0], vs[1], vs[2], vs[3], vs[4], vs[5], rest[0], 0);
        if h.id == 0 && h.offset == 0 then
          match Decode(rest[1..])
          case None => None
          case Some((previousSize, data)) => Some((h.(previousSize := previousSize), data))
        else Some((h, rest[1..]))
  }

  lemma OneNumber(v: Int62, tail: seq<Byte>, n: nat)
    requires n > 0
    ensures DecodeNumbers(Encode(v) + tail, n) ==
            match DecodeNumbers(tail, n - 1) case None => None case Some((vs, rest)) => Some(([v] + vs, rest))
  {
    RoundTrip(v, tail);
  }

  /** A datagram header is read back exactly, and what follows it is the data. */
  lemma HeaderRoundTrip(h: Header, data: seq<Byte>)
    requires h.id != 0 || h.offset != 0 ==> h.previousSize == 0
    ensures DecodeHeader(EncodeHeader(h) + data) == Some((h, data))
  {
    hide Encode, Decode, DecodeNumbers;
    var last := (if h.id == 0 && h.offset == 0 then Encode(h.previousSize) else []) + data;
    var t6 := [h.flags] + last;
    var t5 := Encode(h.queueDelay) + t6;
    var t4 := Encode(h.objectLength) + t5;
    var t3 := Encode(h.offset) + t4;
    var t2 := Encode(h.id) + t3;
    var t1 := Encode(h.group) + t2;
    assert EncodeHeader(h) + data == Encode(h.mediaId) + t1;
    NoNumber(t6);
    OneNumber(h.queueDelay, t6, 1);
    OneNumber(h.objectLength, t5, 2);
    OneNumber(h.offset, t4, 3);
    OneNumber(h.id, t3, 4);
    OneNumber(h.group, t2, 5);
    OneNumber(h.mediaId, t1, 6);
    assert [h.mediaId] + ([h.group] + ([h.id] + ([h.offset] + ([h.objectLength] + ([h.queueDelay] + []))))) ==
           [h.mediaId, h.group, h.id, h.offset, h.objectLength, h.queueDelay];
    assert DecodeNumbers(EncodeHeader(h) + data, 6) ==
           Some(([h.mediaId, h.group, h.id, h.offset, h.objectLength, h.queueDelay], t6));
    assert t6[1..] == last;
    HeaderTail(h, data);
  }

  lemma HeaderTail(h: Header, data: seq<Byte>)
    ensures var last := (if h.id == 0 && h.offset == 0 then Encode(h.previousSize) else []) + data;
            if h.id == 0 && h.offset == 0 then Decode(last) == Some((h.previousSize, data)) else last == data
  {
    if h.id == 0 && h.offset == 0 {
      RoundTrip(h.previousSize, data);
    }
  }

  lemma NoNumber(bs: seq<Byte>)
    ensures DecodeNumbers(bs, 0) == Some(([], bs))
  {
  }

  /** A header never takes more than 57 bytes, and its size depends on its numbers only. */
  function HeaderSize(h: Header): nat {
    Size(h.mediaId) + Size(h.group) + Size(h.id) + Size(h.offset) + Size(h.objectLength) + Size(h.queueDelay) + 1 +
    if h.id == 0 && h.offset == 0 then Size(h.previousSize) else 0
  }

  lemma HeaderSizeIsRight(h: Header)
    ensures |EncodeHeader(h)| == HeaderSize(h) <= 57
  {
  }
}
