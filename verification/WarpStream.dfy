/** Both ends of a unidirectional stream while it carries the data of an object: the sender's copy
    loop and state as the original writes them, and what the receiver makes of the pieces. */
module WarpStream {
  import opened Media
  import W = WarpSender

  class UniStream {
    var currentOffset: nat
    var isObjectSent: bool

    ghost function Model(): W.Sender
      reads this
    {
      W.Sender(currentOffset, isObjectSent)
    }

    constructor ()
      ensures Model() == W.Sender(0, false)
    {
      currentOffset, isObjectSent := 0, false;
    }

    /** quicrq_fragment_object_copy_available_data. */
    static method CopyAvailable(tree: seq<Fragment>, k: Key, offset: nat, available: nat) returns (buffer: seq<Byte>)
      ensures buffer == W.Available(tree, k, offset, available)
    {
      hide W.Walk;
      buffer := [];
      var node := W.IndexOf(tree, k, 0);
      if node >= 0 {
        var currentOffset := 0;
        while node < |tree| && |buffer| < available
          invariant 0 <= node <= |tree| && currentOffset >= 0
          invariant W.Walk(tree, node, k, currentOffset, offset, available, buffer) == W.Available(tree, k, offset, available)
          decreases |tree| - node
        {
          W.WalkUnfold(tree, node, k, currentOffset, offset, available, buffer);
          var fragment := tree[node];
          if fragment.key != k || fragment.offset != currentOffset {
            break;
          }
          if currentOffset + |fragment.data| > offset {
            var from := if currentOffset < offset then offset - currentOffset else 0;
            var copied := |fragment.data| - from;
            if |buffer| + copied > available {
              copied := available - |buffer|;
            }
            buffer := buffer + fragment.data[from..from + copied];
          } else {
            assert buffer == buffer + [];
          }
          currentOffset := currentOffset + |fragment.data|;
          node := node + 1;
        }
        W.WalkUnfold(tree, node, k, currentOffset, offset, available, buffer);
      }
    }

    /** The sending of data in quicrq_prepare_to_send_on_unistream. */
    method SendData(tree: seq<Fragment>, k: Key, length: nat, space: nat) returns (chunk: seq<Byte>, failed: bool)
      modifies this
      ensures (chunk, Model(), failed) == W.Send(old(Model()), tree, k, length, space)
    {
      chunk, failed := [], false;
      if !isObjectSent {
        var sized := CopyAvailable(tree, k, currentOffset, space);
        var size := |sized|;
        if size > 0 {
          var copied := CopyAvailable(tree, k, currentOffset, size);
          if |copied| != size {
            failed := true;
          } else {
            chunk := copied;
            currentOffset := currentOffset + |copied|;
            if currentOffset == length {
              currentOffset, isObjectSent := 0, true;
            } else if currentOffset > length {
              failed := true;
            }
          }
        }
      }
    }
  }

  // ----- The receiver -----

  /** The fields of a receiving stream in its data state. */
  datatype Receiver = Receiver(key: Key, flags: Byte, previousSize: nat, objectLength: nat, offset: nat)

  predicate Expects(r: Receiver) {
    r.offset < r.objectLength
  }

  /** How many bytes of a piece belong to the object. */
  function Copied(r: Receiver, piece: seq<Byte>): (n: nat)
    requires Expects(r)
    ensures n <= |piece| && r.offset + n <= r.objectLength
  {
    if r.offset + |piece| > r.objectLength then r.objectLength - r.offset else |piece|
  }

  /** The fragment for the consumer, and the receiver behind it. */
  function Take(r: Receiver, piece: seq<Byte>): (Fragment, Receiver)
    requires Expects(r)
  {
    var n := Copied(r, piece);
    (Fragment(r.key, r.offset, r.flags, r.previousSize, r.objectLength, piece[..n]), r.(offset := r.offset + n))
  }

  /** What is left of the piece for the next message, as the receiver computes it: the count goes
      down but the pointer stays.  And what should be left. */
  function LeftOver(r: Receiver, piece: seq<Byte>): seq<Byte>
    requires Expects(r)
  {
    piece[..|piece| - Copied(r, piece)]
  }

  function Meant(r: Receiver, piece: seq<Byte>): seq<Byte>
    requires Expects(r)
  {
    piece[Copied(r, piece)..]
  }

  /** What is left over is right, whatever the bytes, exactly when the piece does not run past the
      end of the object. */
  lemma LeftOverIsRightIff(r: Receiver, n: nat)
    requires Expects(r)
    ensures (forall piece: seq<Byte> :: |piece| == n ==> LeftOver(r, piece) == Meant(r, piece)) <==>
            r.offset + n <= r.objectLength
  {
    if r.offset + n > r.objectLength {
      var piece: seq<Byte> := seq(n, i => if i == 0 then 1 else 0);
      assert LeftOver(r, piece)[0] == 1 && Meant(r, piece)[0] == 0;
    }
  }

  /** The smallest piece for which it is not. */
  lemma LeftOverIsWrong(r: Receiver)
    requires r.objectLength == 1 && r.offset == 0
    ensures LeftOver(r, [7, 8]) == [7] && Meant(r, [7, 8]) == [8]
  {
    assert Copied(r, [7, 8]) == 1;
  }

  /** The fragments from a list of pieces, none of which runs past the end. */
  function Taken(r: Receiver, pieces: seq<seq<Byte>>): (t: (seq<Fragment>, Receiver))
    requires r.offset + |Concat(pieces)| <= r.objectLength
    requires forall i :: 0 <= i < |pieces| ==> pieces[i] != []
    ensures |t.0| == |pieces| && t.1 == r.(offset := r.offset + |Concat(pieces)|)
  {
    if pieces == [] then ([], r)
    else
      var (fs, now) := Taken(r, pieces[..|pieces| - 1]);
      var (f, next) := Take(now, pieces[|pieces| - 1]);
      (fs + [f], next)
  }

  /** However the sender's bytes are cut on the way, the consumer gets fragments that tile the
      object: each holds the bytes of its range under the header of the stream, and together they
      are all of them. */
  lemma {:induction false} ReceivedTiles(data: seq<Byte>, r: Receiver, pieces: seq<seq<Byte>>, i: nat)
    requires r.offset == 0 && r.objectLength == |data| && Concat(pieces) <= data && i < |pieces|
    requires forall j :: 0 <= j < |pieces| ==> pieces[j] != []
    ensures var (fs, now) := Taken(r, pieces);
            var o := |Concat(pieces[..i])|;
            && |fs| == |pieces| && now.offset == |Concat(pieces)|
            && o + |pieces[i]| == |Concat(pieces[..i + 1])| <= |data|
            && fs[i] == Fragment(r.key, o, r.flags, r.previousSize, r.objectLength, data[o..o + |pieces[i]|])
  {
    var before, last := pieces[..|pieces| - 1], pieces[|pieces| - 1];
    if i < |before| {
      ReceivedTiles(data, r, before, i);
      assert before[..i] == pieces[..i] && before[..i + 1] == pieces[..i + 1];
    } else {
      assert pieces[..i] == before && pieces[..i + 1] == pieces;
      var o := |Concat(before)|;
      assert data[o..o + |last|] == Concat(pieces)[o..o + |last|] == last;
    }
  }
}
