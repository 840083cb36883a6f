/** The protocol message buffer: bytes accumulate in an array that grows when a longer message is
    announced, and leave it again piece by piece. */
module MessageBuffer {
  import opened Media
  import opened Framing

  class Buffer {
    var nbBytesRead: nat
    var messageSize: nat
    var buffer: array<Byte>
    /** The bytes of the frame that was read so far, length and all. */
    ghost var raw: seq<Byte>

    ghost predicate Reading()
      reads this, buffer
    {
      && nbBytesRead == |raw| && messageSize == SizeSoFar(raw)
      && (|raw| >= 2 ==> |raw| - 2 <= buffer.Length && buffer[..|raw| - 2] == raw[2..] && |raw| - 2 <= messageSize)
    }

    /** A message waits in the buffer, and that many bytes of its frame are out. */
    ghost predicate Sending()
      reads this, buffer
    {
      messageSize <= buffer.Length && messageSize < 65536 && nbBytesRead < 2 + messageSize
    }

    constructor ()
      ensures Reading() && raw == [] && fresh(buffer)
    {
      nbBytesRead, messageSize, raw := 0, 0, [];
      buffer := new Byte[0];
    }

    /** quicrq_msg_buffer_alloc: room for so many bytes, keeping those that are stored. */
    method Alloc(space: nat, bytesStored: nat) returns (ok: bool)
      modifies this`buffer
      ensures ok <==> bytesStored <= old(buffer.Length)
      ensures ok ==> buffer.Length >= space && buffer.Length >= old(buffer.Length)
      ensures ok ==> buffer[..bytesStored] == old(buffer[..bytesStored])
      ensures buffer == old(buffer) || fresh(buffer)
      ensures !ok ==> buffer == old(buffer)
    {
      ok := bytesStored <= buffer.Length;
      if ok && space > buffer.Length {
        var x := new Byte[space](i => 0);
        var i := 0;
        while i < bytesStored
          invariant i <= bytesStored <= buffer.Length < x.Length && fresh(x) && buffer == old(buffer)
          invariant buffer[..] == old(buffer[..]) && x[..i] == buffer[..i]
        {
          x[i] := buffer[i];
          i := i + 1;
        }
        buffer := x;
      }
    }

    method Reset()
      modifies this`nbBytesRead, this`messageSize, this`raw
      ensures nbBytesRead == 0 && messageSize == 0 && raw == []
    {
      nbBytesRead, messageSize, raw := 0, 0, [];
    }

    /** Bytes into the buffer at an offset. */
    method Copy(offset: nat, bytes: seq<Byte>)
      requires offset + |bytes| <= buffer.Length
      modifies buffer
      ensures buffer[..offset] == old(buffer[..offset])
      ensures buffer[offset..offset + |bytes|] == bytes
    {
      var i := 0;
      while i < |bytes|
        invariant i <= |bytes| && buffer[..offset] == old(buffer[..offset])
        invariant forall j :: 0 <= j < i ==> buffer[offset + j] == bytes[j]
      {
        buffer[offset + i] := bytes[i];
        i := i + 1;
      }
    }

    /** The two bytes of the length, as far as they are there. */
    method StoreLength(bytes: seq<Byte>) returns (n: nat)
      requires Reading()
      modifies this`nbBytesRead, this`messageSize, this`raw
      ensures Reading() && nbBytesRead == |raw|
      ensures n <= |bytes| && raw == old(raw) + bytes[..n]
      ensures |old(raw)| >= 2 ==> n == 0
      ensures |old(raw)| < 2 ==> |raw| <= 2
      ensures |raw| < 2 ==> n == |bytes|
      ensures |old(raw)| < 2 && bytes != [] ==> n > 0
      ensures |old(raw)| >= 2 ==> raw == old(raw) && messageSize == old(messageSize)
    {
      n := 0;
      while nbBytesRead < 2 && n < |bytes|
        invariant n <= |bytes| && raw == old(raw) + bytes[..n] && nbBytesRead == |raw| && messageSize == SizeSoFar(raw)
        invariant |old(raw)| < 2 ==> |raw| <= 2
        invariant |old(raw)| >= 2 ==> n == 0
        decreases |bytes| - n
      {
        messageSize := TwoBytes(messageSize, bytes[n]);
        nbBytesRead := nbBytesRead + 1;
        raw := raw + [bytes[n]];
        n := n + 1;
        assert bytes[..n] == bytes[..n - 1] + [bytes[n - 1]];
      }
      if |old(raw)| >= 2 {
        assert raw == old(raw);
      } else if |raw| >= 2 {
        assert raw[2..] == [];
      }
    }

    /** The body of the message, as far as it is there. */
    method StoreBody(bytes: seq<Byte>) returns (length: nat)
      requires Reading() && |raw| >= 2
      modifies this, buffer
      ensures Reading() && (buffer == old(buffer) || fresh(buffer))
      ensures length <= |bytes| && raw == old(raw) + bytes[..length]
      ensures |raw| - 2 == messageSize || length == |bytes|
      ensures |old(raw)| - 2 < old(messageSize) && bytes != [] ==> length > 0
      ensures nbBytesRead == |raw| && 2 <= |raw| <= 2 + messageSize && messageSize == SizeSoFar(raw)
    {
      var bytesStored := nbBytesRead - 2;
      var required := messageSize - bytesStored;
      length := 0;
      if required > 0 {
        ghost var stored := buffer[..bytesStored];
        var ok := Alloc(messageSize, bytesStored);
        length := |bytes|;
        if length >= required {
          length := required;
        }
        Copy(bytesStored, bytes[..length]);
        assert buffer[..bytesStored + length] == stored + bytes[..length];
        nbBytesRead := nbBytesRead + length;
        raw := raw + bytes[..length];
        assert raw[2..] == stored + bytes[..length];
      }
    }

    /** quicrq_msg_buffer_store: take bytes until the message is complete or there are no more. */
    method Store(bytes: seq<Byte>) returns (taken: nat, isFinished: bool)
      requires Reading() && !IsWhole(raw)
      modifies this, buffer
      ensures Reading() && (buffer == old(buffer) || fresh(buffer))
      ensures taken <= |bytes| && raw == old(raw) + bytes[..taken] && (bytes != [] ==> taken > 0)
      ensures isFinished <==> IsWhole(raw)
      ensures isFinished ==> |raw| == 2 + messageSize
      ensures !isFinished ==> taken == |bytes|
    {
      hide SizeSoFar, IsWhole;
      WholeIff(raw);
      taken := StoreLength(bytes);
      isFinished := false;
      if nbBytesRead >= 2 {
        hide Reading;
        var length := StoreBody(bytes[taken..]);
        Twice(bytes, taken, length);
        taken := taken + length;
        isFinished := nbBytesRead == 2 + messageSize;
      }
      WholeIff(raw);
    }

    /** Take all messages out of a piece of the stream: the loop of quicrq_receive_stream_data. */
    method Receive(bytes: seq<Byte>) returns (messages: seq<Text>)
      requires Reading() && !IsWhole(raw)
      modifies this, buffer
      ensures Reading() && !IsWhole(raw) && (buffer == old(buffer) || fresh(buffer))
      ensures (messages, raw) == Split(old(raw) + bytes)
    {
      hide Split;
      messages := [];
      var rest := bytes;
      assert [] + Split(raw + rest).0 == Split(raw + rest).0;
      while rest != []
        invariant Reading() && !IsWhole(raw) && (buffer == old(buffer) || fresh(buffer))
        invariant Split(old(raw) + bytes) == (messages + Split(raw + rest).0, Split(raw + rest).1)
        decreases |rest|
      {
        ghost var before, was := raw, rest;
        var taken, isFinished := Store(rest);
        rest := rest[taken..];
        assert raw + rest == before + was by { Moved(before, was, taken); }
        if isFinished {
          OneFrame(raw);
          SplitConcat(raw, rest);
          ghost var more := Split([] + rest).0;
          messages := messages + [buffer[..messageSize]];
          Reset();
          assert messages + more == messages[..|messages| - 1] + ([messages[|messages| - 1]] + more);
        }
      }
      assert raw + [] == raw;
      NotWhole(raw);
      assert messages + [] == messages;
    }

    /** The bytes of the length, as far as they are not out and there is room. */
    method SendLength(room: nat) returns (out: seq<Byte>)
      requires Sending() && nbBytesRead + room <= 2 + messageSize
      modifies this`nbBytesRead
      ensures |out| <= room && nbBytesRead == old(nbBytesRead) + |out|
      ensures out == Frame(buffer[..messageSize])[old(nbBytesRead)..nbBytesRead]
      ensures |out| < room ==> nbBytesRead >= 2
    {
      out := [];
      ghost var frame := Frame(buffer[..messageSize]);
      while nbBytesRead < 2 && |out| < room
        invariant nbBytesRead == old(nbBytesRead) + |out| && |out| <= room
        invariant out == frame[old(nbBytesRead)..nbBytesRead]
        decreases room - |out|
      {
        var b: Byte := if nbBytesRead == 0 then messageSize / 256 else messageSize % 256;
        out := out + [b];
        nbBytesRead := nbBytesRead + 1;
        assert frame[old(nbBytesRead)..nbBytesRead] == frame[old(nbBytesRead)..nbBytesRead - 1] + [frame[nbBytesRead - 1]];
      }
    }

    /** quicrq_msg_buffer_prepare_to_send_message: the next piece of the frame. */
    method PrepareToSend(space: nat) returns (out: seq<Byte>)
      requires Sending()
      modifies this`nbBytesRead, this`messageSize
      ensures var frame := Frame(old(buffer[..messageSize]));
              && out == Portion(frame, old(nbBytesRead), space)
              && if old(nbBytesRead) + |out| == |frame| then nbBytesRead == 0 && messageSize == 0
                 else Sending() && nbBytesRead == old(nbBytesRead) + |out| && messageSize == old(messageSize)
    {
      var totalToSend := 2 + messageSize;
      ghost var frame, start := Frame(buffer[..messageSize]), nbBytesRead;
      var available := totalToSend - nbBytesRead;
      if available > space {
        available := space;
      }
      out := SendLength(available);
      available := available - |out|;
      if available > 0 {
        var offset := nbBytesRead - 2;
        BodyOf(buffer[..messageSize], offset, available);
        assert buffer[..messageSize][offset..offset + available] == buffer[offset..offset + available];
        hide Frame;
        assert frame[start..nbBytesRead + available] == out + frame[nbBytesRead..nbBytesRead + available];
        out := out + buffer[offset..offset + available];
        nbBytesRead := nbBytesRead + available;
      }
      if nbBytesRead >= totalToSend {
        nbBytesRead := 0;
        messageSize := 0;
      }
    }
  }

  lemma BodyOf(message: Text, offset: nat, n: nat)
    requires offset + n <= |message|
    ensures Frame(message)[2 + offset..2 + offset + n] == message[offset..offset + n]
  {
  }

  lemma OneFrame(raw: seq<Byte>)
    requires IsWhole(raw) && |raw| == 2 + SizeSoFar(raw)
    ensures Split(raw) == ([raw[2..]], [])
  {
    assert raw[|raw|..] == [] && raw[2..|raw|] == raw[2..];
    assert Split([]) == ([], []);
    assert [raw[2..]] + [] == [raw[2..]];
  }

  lemma WholeIff(raw: seq<Byte>)
    ensures IsWhole(raw) <==> |raw| >= 2 && |raw| >= 2 + SizeSoFar(raw)
  {
  }

  lemma Twice(bytes: seq<Byte>, n: nat, length: nat)
    requires n + length <= |bytes|
    ensures bytes[..n] + bytes[n..][..length] == bytes[..n + length] && bytes[n..][length..] == bytes[n + length..]
  {
  }

  lemma NotWhole(raw: seq<Byte>)
    requires !IsWhole(raw)
    ensures Split(raw) == ([], raw)
  {
  }

  lemma Moved(raw: seq<Byte>, bytes: seq<Byte>, n: nat)
    requires n <= |bytes|
    ensures raw + bytes[..n] + bytes[n..] == raw + bytes
  {
  }
}
