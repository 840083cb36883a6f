/** The bytes of a unidirectional stream: the warp header, and then the header and the data of one
    object after the other.  Each message goes out in pieces, as Framing describes; the sender moves
    to the data of an object as soon as the header is prepared, whether or not it is out. */
module WarpWire {
  import opened Media
  import opened Varint
  import opened Framing
  import Messages
  import WireLayout
  import WarpSender
  import FragmentCache
  import CacheCursor

  /** An object as the stream carries it: its header message, and its bytes. */
  datatype Carried = Carried(header: Text, data: seq<Byte>)

  /** All that is to be sent: the warp header, and the objects of the group. */
  datatype Plan = Plan(opening: Text, objects: seq<Carried>)

  /** quicrq_sending_open, quicrq_sending_warp_header_sent, quicrq_sending_object_data. */
  datatype Phase = Opening | Between | InData

  /** send_state, the message in the buffer and how much of its frame is out, current_object_id and
      current_object_offset. */
  datatype Sender = Sender(phase: Phase, message: Option<Text>, sent: nat, index: nat, offset: nat)

  /** The transport offers space; the cache knows the next object or not, and has the current one
      without a gap up to that point. */
  datatype Offer = Offer(space: nat, isKnown: bool, reach: nat)

  const NEW_SENDER := Sender(Opening, None, 0, 0, 0)

  /** The sender once a message was prepared, if there was none in the buffer. */
  function Prepared(x: Plan, s: Sender, o: Offer): Sender {
    if s.message.Some? || s.phase == InData then s
    else if s.phase == Opening then s.(phase := Between, message := Some(x.opening), sent := 0)
    else if !o.isKnown || s.index >= |x.objects| then s
    else
      var next := x.objects[s.index];
      if next.data == [] then s.(message := Some(next.header), sent := 0, index := s.index + 1)
      else s.(message := Some(next.header), sent := 0, phase := InData)
  }

  /** The next piece of the message in the buffer. */
  function SendMessage(s: Sender, space: nat): (Sender, seq<Byte>)
    requires s.message.Some? ==> s.sent <= |Frame(s.message.value)|
  {
    match s.message
    case None => (s, [])
    case Some(message) =>
      var out := Portion(Frame(message), s.sent, space);
      (if s.sent + |out| == |Frame(message)| then s.(message := None, sent := 0) else s.(sent := s.sent + |out|), out)
  }

  /** How many bytes of the object go out. */
  function Chunk(s: Sender, length: nat, o: Offer): (n: nat)
    ensures s.offset <= length ==> s.offset + n <= length
  {
    var reach := if o.reach < length then o.reach else length;
    if reach <= s.offset then 0 else if reach - s.offset <= o.space then reach - s.offset else o.space
  }

  function SendData(data: seq<Byte>, s: Sender, o: Offer): (Sender, seq<Byte>)
    requires s.offset <= |data|
  {
    var n := Chunk(s, |data|, o);
    (if n > 0 && s.offset + n == |data| then s.(phase := Between, index := s.index + 1, offset := 0)
     else s.(offset := s.offset + n),
     data[s.offset..s.offset + n])
  }

  predicate Ready(x: Plan, s: Sender) {
    && (s.message.Some? ==> s.sent < |Frame(s.message.value)|)
    && s.index <= |x.objects|
    && if s.phase == InData then s.index < |x.objects| && s.offset < |x.objects[s.index].data| else s.offset == 0
  }

  /** quicrq_prepare_to_send_on_unistream. */
  function Step(x: Plan, s: Sender, o: Offer): (r: (Sender, seq<Byte>))
    requires Ready(x, s)
    ensures Ready(x, r.0)
  {
    if s.phase == InData then SendData(x.objects[s.index].data, s, o) else SendMessage(Prepared(x, s, o), o.space)
  }

  /** The sender, and the bytes of the stream so far. */
  function Run(x: Plan, offers: seq<Offer>): (r: (Sender, seq<Byte>))
    ensures Ready(x, r.0)
  {
    if offers == [] then (NEW_SENDER, [])
    else
      var (s, wire) := Run(x, offers[..|offers| - 1]);
      var (t, out) := Step(x, s, offers[|offers| - 1]);
      (t, wire + out)
  }

  class UniStream {
    var phase: Phase
    var message: Option<Text>
    var sent: nat
    var index: nat
    var offset: nat

    ghost function Model(): Sender
      reads this
    {
      Sender(phase, message, sent, index, offset)
    }

    constructor ()
      ensures Model() == NEW_SENDER
    {
      phase, message, sent, index, offset := Opening, None, 0, 0, 0;
    }

    /** quicrq_prepare_warp_header and quicrq_prepare_warp_object_header. */
    method PrepareMessage(x: Plan, o: Offer)
      requires message.None? && phase != InData
      modifies this
      ensures Model() == Prepared(x, old(Model()), o)
    {
      if phase == Opening {
        message, sent, phase := Some(x.opening), 0, Between;
      } else if o.isKnown && index < |x.objects| {
        message, sent := Some(x.objects[index].header), 0;
        if x.objects[index].data == [] {
          index := index + 1;
        } else {
          phase := InData;
        }
      }
    }

    /** quicrq_prepare_to_send_on_unistream. */
    method PrepareToSend(x: Plan, o: Offer) returns (out: seq<Byte>)
      requires Ready(x, Model())
      modifies this
      ensures Ready(x, Model()) && (Model(), out) == Step(x, old(Model()), o)
    {
      hide Frame;
      out := [];
      if phase == InData {
        var data := x.objects[index].data;
        var n := Chunk(Sender(phase, message, sent, index, offset), |data|, o);
        out := data[offset..offset + n];
        if n > 0 {
          offset := offset + n;
          if offset == |data| {
            index, offset, phase := index + 1, 0, Between;
          }
        }
      } else {
        if message.None? {
          PrepareMessage(x, o);
        }
        if message.Some? {
          var frame := Frame(message.value);
          out := Portion(frame, sent, o.space);
          sent := sent + |out|;
          if sent >= |frame| {
            message, sent := None, 0;
          }
        }
      }
    }
  }

  // ----- What the stream is meant to be -----

  /** The warp header and the first n objects. */
  function Meant(x: Plan, n: nat): seq<Byte>
    requires n <= |x.objects|
  {
    if n == 0 then Frame(x.opening) else Meant(x, n - 1) + Frame(x.objects[n - 1].header) + x.objects[n - 1].data
  }

  /** The rest of the message in the buffer. */
  function Rest(s: Sender): seq<Byte>
    requires s.message.Some? ==> s.sent <= |Frame(s.message.value)|
  {
    match s.message
    case None => []
    case Some(message) => Frame(message)[s.sent..]
  }

  /** What is due, with what is out, is what is meant up to the position of the sender; no data went
      out before its header. */
  ghost predicate Sound(x: Plan, s: Sender, wire: seq<Byte>)
    requires Ready(x, s)
  {
    match s.phase
    case Opening => s.message.None? && s.index == 0 && wire == []
    case Between => wire + Rest(s) == Meant(x, s.index)
    case InData =>
      var c := x.objects[s.index];
      && (s.message.Some? ==> s.offset == 0 && s.message == Some(c.header))
      && wire + Rest(s) == Meant(x, s.index) + Frame(c.header) + c.data[..s.offset]
  }

  /** Data goes out while a part of its header is still in the buffer. */
  predicate Mixes(x: Plan, s: Sender, o: Offer)
    requires Ready(x, s)
  {
    s.phase == InData && s.message.Some? && Chunk(s, |x.objects[s.index].data|, o) > 0
  }

  lemma PieceMoves(wire: seq<Byte>, frame: seq<Byte>, sent: nat, space: nat)
    requires sent <= |frame|
    ensures var out := Portion(frame, sent, space);
            && wire + frame[sent..] == wire + out + frame[sent + |out|..]
            && (sent + |out| == |frame| ==> wire + frame[sent..] == wire + out + [])
  {
    DropPortion(frame, [], sent, space);
    assert frame + [] == frame;
  }

  lemma MessageKeeps(x: Plan, s: Sender, wire: seq<Byte>, space: nat)
    requires Ready(x, s) && s.message.Some? && Sound(x, s, wire)
    ensures var (t, out) := SendMessage(s, space); Ready(x, t) && Sound(x, t, wire + out)
  {
    PieceMoves(wire, Frame(s.message.value), s.sent, space);
    hide Meant, Frame, Portion;
  }

  lemma PreparedKeeps(x: Plan, s: Sender, wire: seq<Byte>, o: Offer)
    requires Ready(x, s) && Sound(x, s, wire)
    ensures Ready(x, Prepared(x, s, o)) && Sound(x, Prepared(x, s, o), wire)
  {
    hide Frame;
    var t := Prepared(x, s, o);
    if s.message.None? && s.phase == Between && o.isKnown && s.index < |x.objects| {
      var c := x.objects[s.index];
      assert wire + [] == wire && Frame(c.header)[0..] == Frame(c.header);
      assert c.data[..0] == [] && Meant(x, s.index) + Frame(c.header) + [] == Meant(x, s.index) + Frame(c.header);
      assert Meant(x, s.index + 1) == Meant(x, s.index) + Frame(c.header) + c.data;
    } else if s.message.None? && s.phase == Opening {
      assert [] + Frame(x.opening)[0..] == Frame(x.opening);
    }
  }

  lemma DataKeeps(x: Plan, s: Sender, wire: seq<Byte>, o: Offer)
    requires Ready(x, s) && Sound(x, s, wire) && s.phase == InData && !Mixes(x, s, o)
    ensures var (t, out) := SendData(x.objects[s.index].data, s, o); Ready(x, t) && Sound(x, t, wire + out)
  {
    hide Frame;
    var c := x.objects[s.index];
    var n := Chunk(s, |c.data|, o);
    var out := c.data[s.offset..s.offset + n];
    if n == 0 {
      assert wire + out == wire;
    } else {
      var before := Meant(x, s.index) + Frame(c.header);
      assert wire + [] == wire;
      assert before + c.data[..s.offset] + out == before + c.data[..s.offset + n];
      assert s.offset + n == |c.data| ==> c.data[..s.offset + n] == c.data;
      assert Meant(x, s.index + 1) == before + c.data;
      assert wire + out + [] == wire + out;
    }
  }

  lemma StepKeeps(x: Plan, s: Sender, wire: seq<Byte>, o: Offer)
    requires Ready(x, s) && Sound(x, s, wire) && !Mixes(x, s, o)
    ensures Sound(x, Step(x, s, o).0, wire + Step(x, s, o).1)
  {
    hide Sound, Ready, Mixes;
    if s.phase == InData {
      DataKeeps(x, s, wire, o);
    } else {
      PreparedKeeps(x, s, wire, o);
      if Prepared(x, s, o).message.Some? {
        MessageKeeps(x, Prepared(x, s, o), wire, o.space);
      } else {
        assert wire + [] == wire;
      }
    }
  }

  // ----- When the stream is right -----

  /** Some offer of the run sends data behind a part of its header. */
  ghost predicate Mixed(x: Plan, offers: seq<Offer>) {
    exists i :: 0 <= i < |offers| && Mixes(x, Run(x, offers[..i]).0, offers[i])
  }

  lemma MixedFirst(x: Plan, offers: seq<Offer>)
    requires offers != []
    ensures Mixed(x, offers) <==>
            Mixed(x, offers[..|offers| - 1]) || Mixes(x, Run(x, offers[..|offers| - 1]).0, offers[|offers| - 1])
  {
    hide Mixes, Run;
    var n := |offers| - 1;
    assert forall i :: 0 <= i < n ==> offers[..n][..i] == offers[..i] && offers[..n][i] == offers[i];
    if Mixed(x, offers) {
      var i :| 0 <= i < |offers| && Mixes(x, Run(x, offers[..i]).0, offers[i]);
      if i < n {
        assert Mixes(x, Run(x, offers[..n][..i]).0, offers[..n][i]);
      }
    }
    if Mixed(x, offers[..n]) {
      var i :| 0 <= i < n && Mixes(x, Run(x, offers[..n][..i]).0, offers[..n][i]);
      assert Mixes(x, Run(x, offers[..i]).0, offers[i]);
    }
  }

  lemma {:induction false} SoundUnlessMixed(x: Plan, offers: seq<Offer>)
    requires !Mixed(x, offers)
    ensures Sound(x, Run(x, offers).0, Run(x, offers).1)
  {
    if offers != [] {
      MixedFirst(x, offers);
      hide Sound, Mixes, Mixed;
      var before := offers[..|offers| - 1];
      SoundUnlessMixed(x, before);
      StepKeeps(x, Run(x, before).0, Run(x, before).1, offers[|offers| - 1]);
    }
  }

  lemma {:induction false} MeantGrows(x: Plan, i: nat, n: nat)
    requires i <= n <= |x.objects|
    ensures Meant(x, i) <= Meant(x, n)
    ensures i < n ==> Meant(x, i) + Frame(x.objects[i].header) + x.objects[i].data <= Meant(x, n)
    decreases n - i
  {
    hide Frame;
    if i < n {
      assert Meant(x, i + 1) == Meant(x, i) + Frame(x.objects[i].header) + x.objects[i].data;
      MeantGrows(x, i + 1, n);
    }
  }

  lemma SoundIsFront(x: Plan, s: Sender, wire: seq<Byte>)
    requires Ready(x, s) && Sound(x, s, wire)
    ensures wire <= Meant(x, |x.objects|)
  {
    hide Frame, Meant;
    MeantGrows(x, s.index, |x.objects|);
    if s.phase == Opening {
      assert wire == [];
    } else if s.phase == InData {
      var c := x.objects[s.index];
      var (before, due) := (Meant(x, s.index) + Frame(c.header), Meant(x, s.index) + Frame(c.header) + c.data[..s.offset]);
      assert due <= before + c.data;
      assert wire <= wire + Rest(s) == due;
    } else {
      assert wire <= wire + Rest(s);
    }
  }

  /** The same messages, and as many bytes in each object. */
  ghost predicate SameShape(x: Plan, y: Plan) {
    && x.opening == y.opening && |x.objects| == |y.objects|
    && forall i :: 0 <= i < |x.objects| ==> x.objects[i].header == y.objects[i].header && |x.objects[i].data| == |y.objects[i].data|
  }

  /** What the sender does depends on the shape only. */
  lemma {:induction false} ShapeDecides(x: Plan, y: Plan, offers: seq<Offer>)
    requires SameShape(x, y)
    ensures Run(x, offers).0 == Run(y, offers).0 && |Run(x, offers).1| == |Run(y, offers).1|
    ensures Mixed(x, offers) <==> Mixed(y, offers)
  {
    if offers != [] {
      var (before, last) := (offers[..|offers| - 1], offers[|offers| - 1]);
      ShapeDecides(x, y, before);
      MixedFirst(x, offers);
      MixedFirst(y, offers);
      hide Mixed, Frame;
      StepShape(x, y, Run(x, before).0, last);
    }
  }

  lemma StepShape(x: Plan, y: Plan, s: Sender, o: Offer)
    requires SameShape(x, y) && Ready(x, s) && Ready(y, s)
    ensures Step(x, s, o).0 == Step(y, s, o).0 && |Step(x, s, o).1| == |Step(y, s, o).1|
    ensures Mixes(x, s, o) <==> Mixes(y, s, o)
  {
    hide Frame, Portion, Chunk;
    var i := s.index;
    if i < |x.objects| {
      assert x.objects[i].data == [] <==> y.objects[i].data == [];
    }
  }

  lemma {:induction false} WireGrows(x: Plan, offers: seq<Offer>, i: nat)
    requires i <= |offers|
    ensures Run(x, offers[..i]).1 <= Run(x, offers).1
  {
    if i == |offers| {
      assert offers[..i] == offers;
    } else {
      var before := offers[..|offers| - 1];
      assert before[..i] == offers[..i];
      WireGrows(x, before, i);
    }
  }

  /** Where a header is cut and data follows, the next byte of the header is due. */
  lemma NextIsDue(x: Plan, s: Sender, wire: seq<Byte>, o: Offer)
    requires Ready(x, s) && Sound(x, s, wire) && Mixes(x, s, o)
    ensures var (frame, all) := (Frame(x.objects[s.index].header), Meant(x, |x.objects|));
            && s.sent < |frame| && |wire| < |all| && all[|wire|] == frame[s.sent]
            && Step(x, s, o).1 != [] && Step(x, s, o).1[0] == x.objects[s.index].data[0]
  {
    hide Frame;
    var (c, n) := (x.objects[s.index], |x.objects|);
    MeantGrows(x, s.index, n);
    var due := Meant(x, s.index) + Frame(c.header);
    hide Meant;
    assert c.data[..0] == [] && due + [] == due;
    assert wire + Frame(c.header)[s.sent..] == due <= due + c.data <= Meant(x, n);
    assert (wire + Frame(c.header)[s.sent..])[|wire|] == Frame(c.header)[s.sent];
  }

  /** The first offer that mixes. */
  lemma {:induction false} FirstMix(x: Plan, offers: seq<Offer>) returns (i: nat)
    requires Mixed(x, offers)
    ensures i < |offers| && !Mixed(x, offers[..i]) && Mixes(x, Run(x, offers[..i]).0, offers[i])
  {
    var n := |offers| - 1;
    MixedFirst(x, offers);
    hide Mixes, Run, Mixed;
    if Mixed(x, offers[..n]) {
      i := FirstMix(x, offers[..n]);
      assert offers[..n][..i] == offers[..i] && offers[..n][i] == offers[i];
    } else {
      i := n;
    }
  }

  /** The plan with another first byte in object number i. */
  function Altered(x: Plan, i: nat, b: Byte): Plan
    requires i < |x.objects| && x.objects[i].data != []
  {
    var c := x.objects[i];
    x.(objects := x.objects[i := c.(data := c.data[0 := b])])
  }

  lemma RunUnfold(x: Plan, offers: seq<Offer>, i: nat)
    requires i < |offers|
    ensures var (s, wire) := Run(x, offers[..i]);
            Run(x, offers[..i + 1]) == (Step(x, s, offers[i]).0, wire + Step(x, s, offers[i]).1)
  {
    assert offers[..i + 1][..i] == offers[..i];
  }

  lemma AlteredShape(x: Plan, i: nat, b: Byte)
    requires i < |x.objects| && x.objects[i].data != []
    ensures SameShape(x, Altered(x, i, b)) && Altered(x, i, b).objects[i].header == x.objects[i].header
    ensures Altered(x, i, b).objects[i].data != [] && Altered(x, i, b).objects[i].data[0] == b
  {
    hide Frame;
  }

  /** A byte of data goes out where another byte of the header is due. */
  lemma MixBreaks(x: Plan, offers: seq<Offer>, i: nat)
    requires i < |offers| && !Mixed(x, offers[..i]) && Mixes(x, Run(x, offers[..i]).0, offers[i])
    requires var s := Run(x, offers[..i]).0;
             s.sent < |Frame(x.objects[s.index].header)| && x.objects[s.index].data[0] != Frame(x.objects[s.index].header)[s.sent]
    ensures !(Run(x, offers).1 <= Meant(x, |x.objects|))
  {
    var (s, wire) := Run(x, offers[..i]);
    SoundUnlessMixed(x, offers[..i]);
    NextIsDue(x, s, wire, offers[i]);
    WireGrows(x, offers, i + 1);
    RunUnfold(x, offers, i);
    hide Run, Mixed, Mixes, Frame, Meant, Step;
    var out := Step(x, s, offers[i]).1;
    assert Run(x, offers).1[|wire|] == (wire + out)[|wire|] == out[0];
  }

  lemma MixHasData(x: Plan, s: Sender, o: Offer)
    requires Ready(x, s) && Mixes(x, s, o)
    ensures s.index < |x.objects| && x.objects[s.index].data != []
  {
    hide Frame;
  }

  /** With another first byte in the object, it breaks. */
  lemma AlteredBreaks(x: Plan, offers: seq<Offer>, i: nat, b: Byte)
    requires i < |offers| && !Mixed(x, offers[..i]) && Mixes(x, Run(x, offers[..i]).0, offers[i])
    requires var s := Run(x, offers[..i]).0;
             s.index < |x.objects| && x.objects[s.index].data != [] && s.sent < |Frame(x.objects[s.index].header)| &&
             b != Frame(x.objects[s.index].header)[s.sent]
    ensures var y := Altered(x, Run(x, offers[..i]).0.index, b); SameShape(x, y) && !(Run(y, offers).1 <= Meant(y, |y.objects|))
  {
    hide Mixed, Mixes, Frame, Meant, Altered, Step, Run, Sound, SameShape;
    var s := Run(x, offers[..i]).0;
    var y := Altered(x, s.index, b);
    AlteredShape(x, s.index, b);
    ShapeDecides(x, y, offers[..i]);
    StepShape(x, y, s, offers[i]);
    assert Mixes(y, Run(y, offers[..i]).0, offers[i]);
    SameCount(x, y);
    MixBreaks(y, offers, i);
  }

  lemma SameCount(x: Plan, y: Plan)
    requires SameShape(x, y)
    ensures |x.objects| == |y.objects|
  {
  }

  lemma MixedIsWrong(x: Plan, offers: seq<Offer>) returns (y: Plan)
    requires Mixed(x, offers)
    ensures SameShape(x, y) && !(Run(y, offers).1 <= Meant(y, |y.objects|))
  {
    hide Mixed, Mixes, Frame, Meant, Altered, Step, Run, Sound, SameShape, Ready;
    var i := FirstMix(x, offers);
    var s := Run(x, offers[..i]).0;
    SoundUnlessMixed(x, offers[..i]);
    NextIsDue(x, s, Run(x, offers[..i]).1, offers[i]);
    MixHasData(x, s, offers[i]);
    var due := Frame(x.objects[s.index].header)[s.sent];
    var b := if due == 0 then 1 else 0;
    y := Altered(x, s.index, b);
    AlteredBreaks(x, offers, i, b);
  }

  /** The stream is in order, whatever the bytes of the objects, if and only if no offer sends data
      behind a header of which a part is still in the buffer. */
  lemma WireIsRightIff(x: Plan, offers: seq<Offer>)
    ensures (forall y :: SameShape(x, y) ==> Run(y, offers).1 <= Meant(y, |y.objects|)) <==> !Mixed(x, offers)
  {
    if Mixed(x, offers) {
      var y := MixedIsWrong(x, offers);
    } else {
      forall y | SameShape(x, y) ensures Run(y, offers).1 <= Meant(y, |y.objects|) {
        ShapeDecides(x, y, offers);
        SoundUnlessMixed(y, offers);
        SoundIsFront(y, Run(y, offers).0, Run(y, offers).1);
      }
    }
  }

  /** An offer that takes up the header of an object with data has room for the whole of it. */
  ghost predicate HasRoom(x: Plan, s: Sender, o: Offer) {
    s.message.None? && Prepared(x, s, o).phase == InData && s.phase != InData ==>
      o.space >= |Frame(Prepared(x, s, o).message.value)|
  }

  ghost predicate AllHaveRoom(x: Plan, offers: seq<Offer>) {
    forall i :: 0 <= i < |offers| ==> HasRoom(x, Run(x, offers[..i]).0, offers[i])
  }

  lemma RoomIsEnough(x: Plan, s: Sender, o: Offer)
    requires Ready(x, s) && (s.phase == InData ==> s.message.None?) && HasRoom(x, s, o)
    ensures var t := Step(x, s, o).0; t.phase == InData ==> t.message.None?
    ensures !Mixes(x, s, o)
  {
    hide Frame;
  }

  lemma RoomBefore(x: Plan, offers: seq<Offer>)
    requires AllHaveRoom(x, offers) && offers != []
    ensures AllHaveRoom(x, offers[..|offers| - 1]) && HasRoom(x, Run(x, offers[..|offers| - 1]).0, offers[|offers| - 1])
  {
    hide Run, HasRoom;
    var before := offers[..|offers| - 1];
    forall i | 0 <= i < |before| ensures HasRoom(x, Run(x, before[..i]).0, before[i]) {
      assert before[..i] == offers[..i];
      assert HasRoom(x, Run(x, offers[..i]).0, offers[i]);
    }
  }

  lemma {:induction false} NothingIsCut(x: Plan, offers: seq<Offer>)
    requires AllHaveRoom(x, offers)
    ensures !Mixed(x, offers) && (Run(x, offers).0.phase == InData ==> Run(x, offers).0.message.None?)
  {
    if offers != [] {
      var (before, last) := (offers[..|offers| - 1], offers[|offers| - 1]);
      RoomBefore(x, offers);
      MixedFirst(x, offers);
      hide Mixed, Mixes, HasRoom, AllHaveRoom, Step;
      NothingIsCut(x, before);
      RoomIsEnough(x, Run(x, before).0, last);
    }
  }

  /** Where each of these offers has room for the header that it takes up, no header is cut, and the
      stream is a front part of what is meant, and all of it up to the object in hand when no message
      waits. */
  lemma RoomForHeaders(x: Plan, offers: seq<Offer>)
    requires AllHaveRoom(x, offers)
    ensures !Mixed(x, offers) && Run(x, offers).1 <= Meant(x, |x.objects|)
    ensures var (s, wire) := Run(x, offers);
            && (s.phase == InData ==> s.message.None?)
            && (s.phase == Between && s.message.None? ==> wire == Meant(x, s.index))
  {
    NothingIsCut(x, offers);
    SoundUnlessMixed(x, offers);
    hide Mixed, Mixes, Run, HasRoom, AllHaveRoom;
    var (s, wire) := Run(x, offers);
    SoundIsFront(x, s, wire);
    assert s.message.None? ==> wire + Rest(s) == wire + [] == wire;
  }

  /** A part of a header stays in the buffer until all data of the object is out. */
  lemma HeaderWaits(x: Plan, s: Sender, o: Offer)
    requires Ready(x, s) && s.phase == InData
    ensures Step(x, s, o).0.message == s.message && Step(x, s, o).0.sent == s.sent
    ensures var data := x.objects[s.index].data; Step(x, s, o).1 <= data[s.offset..]
  {
  }

  /** An offer of space sends nothing if and only if the data in hand has not come yet, or all messages
      are out and the next object is not known; otherwise it fills the space, or sends all that is left
      of a message, or of the data that is there. */
  lemma IdleIff(x: Plan, s: Sender, o: Offer)
    requires Ready(x, s) && o.space > 0 && (s.phase == Opening ==> s.message.None?)
    ensures var (t, out) := Step(x, s, o);
            && (out == [] <==> if s.phase == InData then o.reach <= s.offset
                               else s.phase == Between && s.message.None? && (!o.isKnown || s.index == |x.objects|))
            && (out != [] ==>
                  || |out| == o.space
                  || (if s.phase == InData then s.offset + |out| == |x.objects[s.index].data| || s.offset + |out| == o.reach
                      else t.message.None?))
  {
    var p := Prepared(x, s, o);
    if p.message.Some? {
      PortionFills(Frame(p.message.value), p.sent, o.space);
    }
    hide Frame, Portion;
  }

  /** The data goes out as module WarpSender says: the cache reaches as far as the offer tells. */
  lemma DataIsSent(m: Groups, tree: seq<Fragment>, k: Key, x: Plan, s: Sender, o: Offer)
    requires FragmentCache.Tidy(tree) && CacheCursor.SolidTree(m, tree) && InMedia(m, k)
    requires Ready(x, s) && s.phase == InData && x.objects[s.index].data == ObjectAt(m, k).data
    requires o.reach == WarpSender.Reach(tree, k, 0, |ObjectAt(m, k).data|)
    ensures var data := ObjectAt(m, k).data;
            var (chunk, w, failed) := WarpSender.Send(WarpSender.Sender(s.offset, false), tree, k, |data|, o.space);
            && !failed && Step(x, s, o).1 == chunk
            && (Step(x, s, o).0.phase == Between <==> w.isDone) && Step(x, s, o).0.offset == w.offset
  {
    hide FragmentCache.Tidy, CacheCursor.SolidTree, WarpSender.Available, WarpSender.Reach;
    var (data, n) := (ObjectAt(m, k).data, o.reach);
    WarpSender.AvailableIsExact(m, tree, k, s.offset, o.space);
    WarpSender.LimitAgain(s.offset, o.space, n);
    WarpSender.AvailableIsExact(m, tree, k, s.offset, WarpSender.Limit(s.offset, o.space, n) - s.offset);
  }

  /** The smallest case: an offer of five bytes cuts a header of seven, and the three bytes of the object
      follow before the last two.  The receiver completes the header with the first bytes of the
      object: it reads flags 7 and eight bytes to come, where flags 0 and three bytes were meant. */
  lemma CutHeaderIsMisread()
    ensures var x := Plan([12, 0, 0], [Carried([13, 0, 0, 0, 3], [7, 8, 9])]);
            var o := Offer(5, true, 3);
            && Run(x, [o, o, o, o]).1 == [0, 3, 12, 0, 0] + [0, 5, 13, 0, 0] + [7, 8, 9] + [0, 3]
            && Messages.DecodeMessage([13, 0, 0, 0, 3]) == Some((Messages.ObjectHeader(0, 0, 0, 3), []))
            && Messages.DecodeMessage([13, 0, 0, 7, 8]) == Some((Messages.ObjectHeader(0, 0, 7, 8), []))
  {
    var x := Plan([12, 0, 0], [Carried([13, 0, 0, 0, 3], [7, 8, 9])]);
    var o := Offer(5, true, 3);
    var (opening, header) := (x.opening, x.objects[0].header);
    assert Frame(opening) == [0, 3, 12, 0, 0] && Frame(header) == [0, 5, 13, 0, 0, 0, 3];
    OpeningStep(x, o);
    HeaderStep(x, o);
    DataStep(x, o);
    RestStep(x, o);
    hide Step;
    FourOffers(x, o);
    HeaderIsRead(0, 3);
    HeaderIsRead(7, 8);
  }

  lemma OpeningStep(x: Plan, o: Offer)
    requires Frame(x.opening) == [0, 3, 12, 0, 0] && o.space == 5
    ensures Step(x, NEW_SENDER, o) == (Sender(Between, None, 0, 0, 0), [0, 3, 12, 0, 0])
  {
    assert Portion(Frame(x.opening), 0, 5) == Frame(x.opening);
    hide Frame;
  }

  lemma HeaderStep(x: Plan, o: Offer)
    requires |x.objects| == 1 && |x.objects[0].data| == 3 && Frame(x.objects[0].header) == [0, 5, 13, 0, 0, 0, 3] && o == Offer(5, true, 3)
    ensures var s := Sender(Between, None, 0, 0, 0);
            Ready(x, s) && Step(x, s, o) == (Sender(InData, Some(x.objects[0].header), 5, 0, 0), [0, 5, 13, 0, 0])
  {
    assert Portion(Frame(x.objects[0].header), 0, 5) == [0, 5, 13, 0, 0];
    hide Frame;
  }

  lemma DataStep(x: Plan, o: Offer)
    requires |x.objects| == 1 && x.objects[0].data == [7, 8, 9] && |Frame(x.objects[0].header)| == 7 && o == Offer(5, true, 3)
    ensures var s := Sender(InData, Some(x.objects[0].header), 5, 0, 0);
            Ready(x, s) && Step(x, s, o) == (Sender(Between, Some(x.objects[0].header), 5, 1, 0), [7, 8, 9])
  {
    assert x.objects[0].data[0..3] == [7, 8, 9];
    hide Frame;
  }

  lemma RestStep(x: Plan, o: Offer)
    requires |x.objects| == 1 && Frame(x.objects[0].header) == [0, 5, 13, 0, 0, 0, 3] && o == Offer(5, true, 3)
    ensures var s := Sender(Between, Some(x.objects[0].header), 5, 1, 0);
            Ready(x, s) && Step(x, s, o) == (Sender(Between, None, 0, 1, 0), [0, 3])
  {
    assert Portion(Frame(x.objects[0].header), 5, 5) == [0, 3];
    hide Frame;
  }

  lemma OneMoreOffer(x: Plan, offers: seq<Offer>, o: Offer, more: seq<Offer>)
    requires more == offers + [o]
    ensures var (s, wire) := Run(x, offers);
            Run(x, more) == (Step(x, s, o).0, wire + Step(x, s, o).1)
  {
    assert (offers + [o])[..|offers|] == offers;
  }

  lemma NoOffer(x: Plan)
    ensures Run(x, []) == (NEW_SENDER, [])
  {
  }

  lemma FourOffers(x: Plan, o: Offer)
    ensures var (s1, a) := Step(x, NEW_SENDER, o);
            var (s2, b) := Step(x, s1, o);
            var (s3, c) := Step(x, s2, o);
            var (s4, d) := Step(x, s3, o);
            Run(x, [o, o, o, o]) == (s4, a + b + c + d)
  {
    NoOffer(x);
    hide Step, Run;
    OneMoreOffer(x, [], o, [o]);
    OneMoreOffer(x, [o], o, [o, o]);
    OneMoreOffer(x, [o, o], o, [o, o, o]);
    OneMoreOffer(x, [o, o, o], o, [o, o, o, o]);
    assert [] + Step(x, NEW_SENDER, o).1 == Step(x, NEW_SENDER, o).1;
  }

  /** The header of the first object of the first group. */
  lemma HeaderIsRead(flags: Byte, length: Int62)
    requires length < 64
    ensures Messages.DecodeMessage([13, 0, 0, flags, length]) == Some((Messages.ObjectHeader(0, 0, flags, length), []))
  {
    var m := Messages.ObjectHeader(0, 0, flags, length);
    Messages.MessageRoundTrip(m, []);
    HeaderIsWritten(m);
    hide *;
    assert [13, 0, 0, flags, length] + [] == [13, 0, 0, flags, length];
  }

  lemma HeaderIsWritten(m: Messages.Message)
    requires m.ObjectHeader? && m.id == 0 && m.previousSize == 0 && m.objectLength < 64
    ensures Messages.Writable(Messages.Fields(m)) && Messages.EncodeMessage(m) == [13, 0, 0, m.flags, m.objectLength]
  {
    hide *;
    HeaderIsCanonical(m);
    Messages.NothingMoreIsAskedFor(m);
    WireLayout.OneByte(m.previousSize);
    WireLayout.OneByte(m.objectLength);
    WireLayout.ObjectHeaderBytes(m);
    assert [13] + ([0] + ([0] + ([m.flags] + [m.objectLength]))) == [13, 0, 0, m.flags, m.objectLength];
  }

  lemma HeaderIsCanonical(m: Messages.Message)
    requires m.ObjectHeader? && m.id == 0
    ensures Messages.Canonical(m)
  {
  }
}
