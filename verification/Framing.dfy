/** Messages on a stream: each is preceded by its length in two bytes, and both ends work with
    whatever piece the transport takes or delivers. */
module Framing {
  import opened Media
  import Messages

  type Text = s: seq<Byte> | |s| < 65536 witness []

  function Frame(message: Text): (bs: seq<Byte>)
    ensures |bs| == 2 + |message|
  {
    [|message| / 256, |message| % 256] + message
  }

  function Frames(messages: seq<Text>): seq<Byte> {
    if messages == [] then [] else Frame(messages[0]) + Frames(messages[1..])
  }

  // ----- What a receiver makes of the bytes so far -----

  /** message_size after the first bytes of a frame. */
  function SizeSoFar(raw: seq<Byte>): nat {
    if raw == [] then 0 else if |raw| == 1 then raw[0] else TwoBytes(raw[0], raw[1])
  }

  function TwoBytes(high: int, low: int): int {
    256 * high + low
  }

  predicate IsWhole(raw: seq<Byte>) {
    |raw| >= 2 && |raw| >= 2 + SizeSoFar(raw)
  }

  /** The messages that are complete, and what remains of the next one. */
  function Split(raw: seq<Byte>): (seq<Text>, seq<Byte>)
    decreases |raw|
  {
    if !IsWhole(raw) then ([], raw)
    else
      var n := 2 + SizeSoFar(raw);
      var (messages, rest) := Split(raw[n..]);
      ([raw[2..n]] + messages, rest)
  }

  lemma WholeStays(raw: seq<Byte>, more: seq<Byte>)
    ensures IsWhole(raw) ==> IsWhole(raw + more) && SizeSoFar(raw + more) == SizeSoFar(raw)
    ensures |raw| >= 2 ==> SizeSoFar(raw + more) == SizeSoFar(raw)
  {
  }

  /** It does not matter where the bytes are cut. */
  lemma {:induction false} SplitConcat(raw: seq<Byte>, more: seq<Byte>)
    ensures var (messages, rest) := Split(raw);
            Split(raw + more) == (messages + Split(rest + more).0, Split(rest + more).1)
    decreases |raw|
  {
    if IsWhole(raw) {
      WholeStays(raw, more);
      var n := 2 + SizeSoFar(raw);
      assert (raw + more)[2..n] == raw[2..n] && (raw + more)[n..] == raw[n..] + more;
      SplitConcat(raw[n..], more);
      var (messages, rest) := Split(raw[n..]);
      assert [raw[2..n]] + (messages + Split(rest + more).0) == [raw[2..n]] + messages + Split(rest + more).0;
    } else {
      assert [] + Split(raw + more).0 == Split(raw + more).0;
    }
  }

  lemma {:induction false} SplitFrames(messages: seq<Text>)
    ensures Split(Frames(messages)) == (messages, [])
  {
    if messages != [] {
      var bs := Frames(messages);
      var n := 2 + |messages[0]|;
      assert bs == Frame(messages[0]) + Frames(messages[1..]);
      assert SizeSoFar(bs) == |messages[0]|;
      assert bs[2..n] == messages[0] && bs[n..] == Frames(messages[1..]);
      SplitFrames(messages[1..]);
      assert [messages[0]] + messages[1..] == messages;
    }
  }

  /** The messages received from a list of pieces, and the beginning of the next one. */
  function Received(pieces: seq<seq<Byte>>): (seq<Text>, seq<Byte>) {
    if pieces == [] then ([], [])
    else
      var (messages, raw) := Received(pieces[..|pieces| - 1]);
      var (more, rest) := Split(raw + pieces[|pieces| - 1]);
      (messages + more, rest)
  }

  lemma {:induction false} ReceivedIsSplit(pieces: seq<seq<Byte>>)
    ensures Received(pieces) == Split(Concat(pieces))
  {
    if pieces != [] {
      var before, last := pieces[..|pieces| - 1], pieces[|pieces| - 1];
      ReceivedIsSplit(before);
      SplitConcat(Concat(before), last);
    }
  }

  // ----- Sending -----

  /** What goes out of a frame when that many bytes of it are out already. */
  function Portion(frame: seq<Byte>, sent: nat, space: nat): (out: seq<Byte>)
    requires sent <= |frame|
    ensures sent + |out| <= |frame|
  {
    frame[sent..if sent + space <= |frame| then sent + space else |frame|]
  }

  /** The pieces that go out when the transport offers these spaces: a message is followed by the
      next one once it is out. */
  function Pieces(messages: seq<Text>, sent: nat, spaces: seq<nat>): (seq<seq<Byte>>, seq<Text>, nat)
    requires messages == [] ==> sent == 0
    requires messages != [] ==> sent < |Frame(messages[0])|
    decreases |spaces|
  {
    if spaces == [] || messages == [] then ([], messages, sent)
    else
      var frame := Frame(messages[0]);
      var out := Portion(frame, sent, spaces[0]);
      var (more, left, n) :=
        if sent + |out| == |frame| then Pieces(messages[1..], 0, spaces[1..])
        else Pieces(messages, sent + |out|, spaces[1..]);
      ([out] + more, left, n)
  }

  lemma {:induction false} ConcatFirst(first: seq<Byte>, pieces: seq<seq<Byte>>)
    ensures Concat([first] + pieces) == first + Concat(pieces)
  {
    var all := [first] + pieces;
    if pieces == [] {
      assert all[..0] == [];
    } else {
      ConcatFirst(first, pieces[..|pieces| - 1]);
      assert all[..|all| - 1] == [first] + pieces[..|pieces| - 1];
      assert first + Concat(pieces[..|pieces| - 1]) + pieces[|pieces| - 1] == first + Concat(pieces);
    }
  }

  lemma PiecesUnfold(messages: seq<Text>, sent: nat, spaces: seq<nat>)
    requires messages != [] && sent < |Frame(messages[0])| && spaces != []
    ensures var frame := Frame(messages[0]);
            var out := Portion(frame, sent, spaces[0]);
            var (more, left, n) := if sent + |out| == |frame| then Pieces(messages[1..], 0, spaces[1..])
                                   else Pieces(messages, sent + |out|, spaces[1..]);
            Pieces(messages, sent, spaces) == ([out] + more, left, n)
  {
  }

  lemma DropPortion(frame: seq<Byte>, tail: seq<Byte>, sent: nat, space: nat)
    requires sent <= |frame|
    ensures var out := Portion(frame, sent, space);
            (frame + tail)[sent..] == out + (frame + tail)[sent + |out|..]
    ensures (frame + tail)[|frame|..] == tail
  {
  }

  /** For any spaces, the pieces concatenate to the frames of all messages, up to the one that is
      still going out. */
  lemma {:induction false} PiecesJoin(messages: seq<Text>, sent: nat, spaces: seq<nat>)
    requires messages == [] ==> sent == 0
    requires messages != [] ==> sent < |Frame(messages[0])|
    ensures var (pieces, left, n) := Pieces(messages, sent, spaces);
            && (left == [] ==> n == 0) && (left != [] ==> n < |Frame(left[0])|) && n <= |Frames(left)|
            && Frames(messages)[sent..] == Concat(pieces) + Frames(left)[n..]
    decreases |spaces|
  {
    hide *;
    if spaces == [] || messages == [] {
      PiecesNone(messages, sent, spaces);
    } else {
      var frame, tail := Frame(messages[0]), Frames(messages[1..]);
      var out := Portion(frame, sent, spaces[0]);
      FramesUnfold(messages);
      PiecesUnfold(messages, sent, spaces);
      DropPortion(frame, tail, sent, spaces[0]);
      if sent + |out| == |frame| {
        PiecesJoin(messages[1..], 0, spaces[1..]);
        assert tail[0..] == tail;
        Rejoin(out, Pieces(messages[1..], 0, spaces[1..]));
      } else {
        PiecesJoin(messages, sent + |out|, spaces[1..]);
        Rejoin(out, Pieces(messages, sent + |out|, spaces[1..]));
      }
    }
  }

  lemma PiecesNone(messages: seq<Text>, sent: nat, spaces: seq<nat>)
    requires (messages == [] ==> sent == 0) && (messages != [] ==> sent < |Frame(messages[0])|)
    requires spaces == [] || messages == []
    ensures Pieces(messages, sent, spaces) == ([], messages, sent) && sent <= |Frames(messages)|
    ensures Concat([]) + Frames(messages)[sent..] == Frames(messages)[sent..]
  {
  }

  lemma FramesUnfold(messages: seq<Text>)
    requires messages != []
    ensures Frames(messages) == Frame(messages[0]) + Frames(messages[1..])
  {
  }

  lemma Rejoin(out: seq<Byte>, p: (seq<seq<Byte>>, seq<Text>, nat))
    requires p.2 <= |Frames(p.1)|
    ensures out + (Concat(p.0) + Frames(p.1)[p.2..]) == Concat([out] + p.0) + Frames(p.1)[p.2..]
  {
    hide *;
    ConcatFirst(out, p.0);
    assert out + (Concat(p.0) + Frames(p.1)[p.2..]) == (out + Concat(p.0)) + Frames(p.1)[p.2..];
  }

  /** So many bytes are the first frames of these messages, whole. */
  ghost predicate EndsFrame(messages: seq<Text>, n: nat) {
    exists j :: 0 <= j <= |messages| && n == |Frames(messages[..j])|
  }

  lemma EndsLater(messages: seq<Text>, n: nat)
    requires messages != [] && EndsFrame(messages[1..], n)
    ensures EndsFrame(messages, |Frame(messages[0])| + n)
  {
    var j :| 0 <= j <= |messages[1..]| && n == |Frames(messages[1..][..j])|;
    assert messages[..j + 1][1..] == messages[1..][..j];
    FramesUnfold(messages[..j + 1]);
    assert |Frame(messages[0])| + n == |Frames(messages[..j + 1])|;
  }

  lemma EndsFirst(messages: seq<Text>)
    requires messages != []
    ensures EndsFrame(messages, |Frame(messages[0])|)
  {
    assert messages[..1][1..] == [];
    FramesUnfold(messages[..1]);
    assert |Frame(messages[0])| == |Frames(messages[..1])|;
  }

  lemma PortionFills(frame: seq<Byte>, sent: nat, space: nat)
    requires sent <= |frame|
    ensures var out := Portion(frame, sent, space);
            |out| <= space && (|out| == space || sent + |out| == |frame|)
  {
  }

  /** Piece number i fills its space, unless it ends a frame. */
  ghost predicate Fills(messages: seq<Text>, sent: nat, spaces: seq<nat>, pieces: seq<seq<Byte>>, i: nat)
    requires i < |pieces| && i < |spaces|
  {
    |pieces[i]| <= spaces[i] && (|pieces[i]| == spaces[i] || EndsFrame(messages, sent + |Concat(pieces[..i + 1])|))
  }

  lemma FillsLater(messages: seq<Text>, sent: nat, spaces: seq<nat>, rest: seq<Text>, first: seq<Byte>, more: seq<seq<Byte>>, i: nat)
    requires messages != [] && spaces != [] && 0 < i <= |more| && i < |spaces|
    requires rest == messages || (rest == messages[1..] && sent + |first| == |Frame(messages[0])|)
    requires Fills(rest, if rest == messages then sent + |first| else 0, spaces[1..], more, i - 1)
    ensures Fills(messages, sent, spaces, [first] + more, i)
  {
    hide Frame, Frames, EndsFrame;
    ConcatFirst(first, more[..i]);
    assert ([first] + more)[..i + 1] == [first] + more[..i];
    assert ([first] + more)[i] == more[i - 1] && spaces[i] == spaces[1..][i - 1];
    if rest != messages && EndsFrame(rest, |Concat(more[..i])|) {
      EndsLater(messages, |Concat(more[..i])|);
    }
  }

  lemma FillsFirst(messages: seq<Text>, sent: nat, spaces: seq<nat>, first: seq<Byte>, more: seq<seq<Byte>>)
    requires messages != [] && spaces != [] && |first| <= spaces[0]
    requires |first| == spaces[0] || sent + |first| == |Frame(messages[0])|
    ensures Fills(messages, sent, spaces, [first] + more, 0)
  {
    hide Frame, Frames, EndsFrame;
    assert ([first] + more)[..1] == [first];
    ConcatFirst(first, []);
    assert first + Concat([]) == first;
    EndsFirst(messages);
  }

  /** Nothing is held back: every space that the transport offers is filled or ends a message, and
      none is left unused while there is something to send. */
  lemma {:induction false} PiecesFill(messages: seq<Text>, sent: nat, spaces: seq<nat>)
    requires messages == [] ==> sent == 0
    requires messages != [] ==> sent < |Frame(messages[0])|
    ensures var (pieces, left, n) := Pieces(messages, sent, spaces);
            && |pieces| <= |spaces| && (left != [] ==> |pieces| == |spaces|)
            && forall i :: 0 <= i < |pieces| ==> Fills(messages, sent, spaces, pieces, i)
    decreases |spaces|
  {
    hide *;
    if spaces == [] || messages == [] {
      PiecesNone(messages, sent, spaces);
    } else {
      var frame := Frame(messages[0]);
      var out := Portion(frame, sent, spaces[0]);
      PortionFills(frame, sent, spaces[0]);
      PiecesUnfold(messages, sent, spaces);
      var whole := sent + |out| == |frame|;
      var (rest, start) := if whole then (messages[1..], 0) else (messages, sent + |out|);
      PiecesFill(rest, start, spaces[1..]);
      var more := Pieces(rest, start, spaces[1..]).0;
      FillsFirst(messages, sent, spaces, out, more);
      forall i | 0 < i < |[out] + more| ensures Fills(messages, sent, spaces, [out] + more, i) {
        FillsLater(messages, sent, spaces, rest, out, more, i);
      }
    }
  }

  /** Any list of messages, sent through any spaces until all are out, and cut into any other
      pieces on the way, is received as the same list with nothing left over. */
  lemma FramingRoundTrip(messages: seq<Text>, spaces: seq<nat>, pieces: seq<seq<Byte>>)
    requires Pieces(messages, 0, spaces).1 == []
    requires Concat(pieces) == Concat(Pieces(messages, 0, spaces).0)
    ensures Received(pieces) == (messages, [])
  {
    PiecesJoin(messages, 0, spaces);
    assert Frames(messages)[0..] == Frames(messages);
    assert Frames([])[0..] == [] && Concat(pieces) + [] == Concat(pieces);
    ReceivedIsSplit(pieces);
    SplitFrames(messages);
  }

  /** The same for control messages: what is decoded is what was encoded. */
  lemma ControlRoundTrip(ms: seq<Messages.Message>, texts: seq<Text>, spaces: seq<nat>, pieces: seq<seq<Byte>>)
    requires |texts| == |ms|
    requires forall i :: 0 <= i < |ms| ==>
               Messages.Canonical(ms[i]) && Messages.Writable(Messages.Fields(ms[i])) && texts[i] == Messages.EncodeMessage(ms[i])
    requires Pieces(texts, 0, spaces).1 == [] && Concat(pieces) == Concat(Pieces(texts, 0, spaces).0)
    ensures var received := Received(pieces).0;
            |received| == |ms| && forall i :: 0 <= i < |ms| ==> Messages.DecodeMessage(received[i]) == Some((ms[i], []))
  {
    FramingRoundTrip(texts, spaces, pieces);
    forall i | 0 <= i < |ms| ensures Messages.DecodeMessage(texts[i]) == Some((ms[i], [])) {
      Messages.MessageRoundTrip(ms[i], []);
      assert texts[i] + [] == texts[i];
    }
  }
}
