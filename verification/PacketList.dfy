/** One object under reassembly: the doubly linked list of packets that hold its bytes, and
    the counters kept beside it.  What the list means is a partial map from positions to
    bytes; everything the rest of the project says about an object is said of that map. */
module PacketList {
  import opened Media

  // ----- The meaning of a list of packets -----

  /** The content of one packet, detached from the links. */
  datatype Chunk = Chunk(offset: nat, data: seq<Byte>)
  {
    function End(): nat { offset + |data| }
  }

  function RangeBytes(offset: nat, data: seq<Byte>): (r: map<nat, Byte>)
    ensures forall i :: i in r <==> offset <= i < offset + |data|
    ensures forall i :: i in r ==> r[i] == data[i - offset]
  {
    map i | i in Span(offset, |data|) :: data[i - offset]
  }

  function ChunkBytes(r: Chunk): map<nat, Byte> {
    RangeBytes(r.offset, r.data)
  }

  /** Sorted and pairwise disjoint. */
  ghost predicate Disjoint(rs: seq<Chunk>) {
    forall i, j :: 0 <= i < j < |rs| ==> rs[i].End() <= rs[j].offset
  }

  /** No run reaches past high: the range checks made before a packet is added. */
  ghost predicate Within(rs: seq<Chunk>, high: nat) {
    forall i :: 0 <= i < |rs| ==> rs[i].End() <= high
  }

  /** The positions a list covers, with their bytes. */
  ghost function Bytes(rs: seq<Chunk>): map<nat, Byte> {
    if rs == [] then map[] else ChunkBytes(rs[0]) + Bytes(rs[1..])
  }

  function TotalLength(rs: seq<Chunk>): nat {
    if rs == [] then 0 else |rs[0].data| + TotalLength(rs[1..])
  }

  /** The bytes of a range enter the object, but a byte that is already there wins. */
  function Merge(bytes: map<nat, Byte>, offset: nat, data: seq<Byte>): map<nat, Byte> {
    RangeBytes(offset, data) + bytes
  }

  lemma {:induction false} BytesAbove(rs: seq<Chunk>, low: nat)
    requires forall i :: 0 <= i < |rs| ==> low <= rs[i].offset
    ensures forall p :: p in Bytes(rs) ==> low <= p
  {
    if rs != [] {
      BytesAbove(rs[1..], low);
    }
  }

  lemma {:induction false} BytesAt(rs: seq<Chunk>, i: nat)
    requires Disjoint(rs) && i < |rs|
    ensures forall p :: p in ChunkBytes(rs[i]) ==> p in Bytes(rs) && Bytes(rs)[p] == ChunkBytes(rs[i])[p]
  {
    if i == 0 {
      BytesAbove(rs[1..], rs[0].End());
    } else {
      BytesAt(rs[1..], i - 1);
    }
  }

  lemma DisjointUnionSize(a: set<nat>, b: set<nat>)
    requires a !! b
    ensures |a + b| == |a| + |b|
  {
  }

  lemma {:induction false} TotalLengthCounts(rs: seq<Chunk>)
    requires Disjoint(rs)
    ensures |Bytes(rs).Keys| == TotalLength(rs)
  {
    if rs != [] {
      TotalLengthCounts(rs[1..]);
      BytesAbove(rs[1..], rs[0].End());
      SpanSize(rs[0].offset, |rs[0].data|);
      var head, tail := Span(rs[0].offset, |rs[0].data|), Bytes(rs[1..]).Keys;
      assert Bytes(rs).Keys == head + tail;
      DisjointUnionSize(head, tail);
    }
  }

  lemma {:induction false} TotalLengthInsert(rs: seq<Chunk>, i: nat, r: Chunk)
    requires i <= |rs|
    ensures TotalLength(rs[..i] + [r] + rs[i..]) == TotalLength(rs) + |r.data|
  {
    var ns := rs[..i] + [r] + rs[i..];
    if i == 0 {
      assert ns[1..] == rs;
    } else {
      TotalLengthInsert(rs[1..], i - 1, r);
      assert ns[1..] == rs[1..][..i - 1] + [r] + rs[1..][i - 1..];
    }
  }

  lemma DisjointInsert(rs: seq<Chunk>, i: nat, r: Chunk)
    requires Disjoint(rs) && i <= |rs|
    requires i > 0 ==> rs[i - 1].End() <= r.offset
    requires i < |rs| ==> r.End() <= rs[i].offset
    ensures Disjoint(rs[..i] + [r] + rs[i..])
  {
    var ns := rs[..i] + [r] + rs[i..];
    forall a, b | 0 <= a < b < |ns| ensures ns[a].End() <= ns[b].offset {
      if a < i - 1 && b >= i {
        assert rs[a].End() <= rs[i - 1].offset;
      }
      if a <= i && b > i + 1 {
        assert rs[i].End() <= rs[b - 1].offset;
      }
    }
  }

  lemma UnionCommutes(a: map<nat, Byte>, b: map<nat, Byte>, c: map<nat, Byte>)
    requires a.Keys !! b.Keys
    ensures a + (b + c) == b + (a + c)
  {
  }

  /** Where a run fits between its neighbours, the list becomes the union. */
  lemma {:induction false} BytesInsert(rs: seq<Chunk>, i: nat, r: Chunk)
    requires Disjoint(rs) && i <= |rs|
    requires i > 0 ==> rs[i - 1].End() <= r.offset
    ensures Bytes(rs[..i] + [r] + rs[i..]) == Merge(Bytes(rs), r.offset, r.data)
  {
    var ns := rs[..i] + [r] + rs[i..];
    if i == 0 {
      assert ns[1..] == rs;
    } else {
      assert rs[0].End() <= r.offset;
      assert ns[0] == rs[0] && ns[1..] == rs[1..][..i - 1] + [r] + rs[1..][i - 1..];
      BytesInsert(rs[1..], i - 1, r);
      UnionCommutes(ChunkBytes(rs[0]), ChunkBytes(r), Bytes(rs[1..]));
    }
  }

  /** Trimming bytes that the list already holds does not change the union. */
  lemma MergeTrim(bytes: map<nat, Byte>, offset: nat, data: seq<Byte>, n: nat)
    requires n <= |data|
    requires forall p :: offset <= p < offset + n ==> p in bytes
    ensures Merge(bytes, offset, data) == Merge(bytes, offset + n, data[n..])
  {
  }

  lemma MergeRedundant(bytes: map<nat, Byte>, offset: nat, data: seq<Byte>)
    requires forall p :: offset <= p < offset + |data| ==> p in bytes
    ensures Merge(bytes, offset, data) == bytes
  {
  }

  lemma MergeNothing(bytes: map<nat, Byte>, offset: nat)
    ensures Merge(bytes, offset, []) == bytes
  {
  }

  /** A range that splits in two may be merged in two steps. */
  lemma MergeSplit(bytes: map<nat, Byte>, offset: nat, data: seq<Byte>, n: nat)
    requires n <= |data|
    ensures Merge(bytes, offset, data) == Merge(Merge(bytes, offset, data[..n]), offset + n, data[n..])
  {
  }

  // ----- The linked list -----

  class Packet {
    var next: Packet?
    var previous: Packet?
    const offset: nat
    const data: seq<Byte>
    ghost const owner: ReassemblyObject

    constructor (offset: nat, data: seq<Byte>, ghost owner: ReassemblyObject)
      ensures this.offset == offset && this.data == data && this.owner == owner
    {
      this.offset := offset;
      this.data := data;
      this.owner := owner;
    }

    ghost function AsChunk(): Chunk { Chunk(offset, data) }
  }

  ghost function Chunks(ps: seq<Packet>): (r: seq<Chunk>)
    ensures |r| == |ps|
    ensures forall i :: 0 <= i < |ps| ==> r[i] == ps[i].AsChunk()
  {
    seq(|ps|, i requires 0 <= i < |ps| => ps[i].AsChunk())
  }

  /** The map holds exactly the positions of an object of that length. */
  ghost predicate IsContent(bytes: map<nat, Byte>, length: nat) {
    bytes.Keys == Span(0, length)
  }

  ghost function Content(bytes: map<nat, Byte>, length: nat): seq<Byte>
    requires IsContent(bytes, length)
  {
    seq(length, i requires 0 <= i < length => bytes[i])
  }

  lemma {:induction false} Uncovered(rs: seq<Chunk>, p: nat)
    requires forall i :: 0 <= i < |rs| ==> rs[i].End() <= p || p < rs[i].offset
    ensures p !in Bytes(rs)
  {
    if rs != [] {
      Uncovered(rs[1..], p);
    }
  }

  lemma {:induction false} BytesBelow(rs: seq<Chunk>, high: nat)
    requires Within(rs, high)
    ensures forall p :: p in Bytes(rs) ==> p < high
  {
    if rs != [] {
      BytesBelow(rs[1..], high);
    }
  }

  /** Everything a list's meaning owes to one insertion. */
  lemma ChunksInsert(ps: seq<Packet>, i: nat, packet: Packet, high: nat)
    requires i <= |ps| && Disjoint(Chunks(ps))
    requires Within(Chunks(ps), high) && packet.AsChunk().End() <= high
    requires i > 0 ==> ps[i - 1].AsChunk().End() <= packet.offset
    requires i < |ps| ==> packet.AsChunk().End() <= ps[i].offset
    ensures Disjoint(Chunks(ps[..i] + [packet] + ps[i..]))
    ensures Within(Chunks(ps[..i] + [packet] + ps[i..]), high)
    ensures TotalLength(Chunks(ps[..i] + [packet] + ps[i..])) == TotalLength(Chunks(ps)) + |packet.data|
    ensures Bytes(Chunks(ps[..i] + [packet] + ps[i..])) == Merge(Bytes(Chunks(ps)), packet.offset, packet.data)
  {
    var before, r := Chunks(ps), packet.AsChunk();
    assert Chunks(ps[..i] + [packet] + ps[i..]) == before[..i] + [r] + before[i..];
    DisjointInsert(before, i, r);
    BytesInsert(before, i, r);
    TotalLengthInsert(before, i, r);
  }

  /** What an object under reassembly means, without its list structure. */
  datatype ObjectState = ObjectState(
    length: nat, flags: Byte, previousSize: nat, isLast: bool, bytes: map<nat, Byte>, reassembled: Option<seq<Byte>>)

  /** The fields set before the range check: the size of the previous group and the mark
      that the last byte was seen. */
  function Noted(o: ObjectState, f: Fragment): ObjectState {
    var o := if f.key.id == 0 && f.offset == 0 then o.(previousSize := f.previousSize) else o;
    if f.End() >= o.length then o.(isLast := true) else o
  }

  predicate Acceptable(o: ObjectState, f: Fragment) {
    if f.End() >= o.length then o.length == f.End() else o.length == f.objectLength
  }

  predicate Ready(o: ObjectState) {
    o.isLast && |o.bytes| >= o.length
  }

  class ReassemblyObject {
    const key: Key
    var first: Packet?
    var last: Packet?
    var length: nat
    var flags: Byte
    var previousSize: nat
    var isLast: bool
    var dataReceived: nat
    var reassembled: Option<seq<Byte>>
    ghost var packets: seq<Packet>

    ghost predicate Linked()
      reads this`first, this`last, this`packets, packets
    {
      && first == (if packets == [] then null else packets[0])
      && last == (if packets == [] then null else packets[|packets| - 1])
      && (forall i {:trigger packets[i].previous} :: 0 <= i < |packets| ==>
            packets[i].previous == (if i == 0 then null else packets[i - 1]))
      && (forall i {:trigger packets[i].next} :: 0 <= i < |packets| ==>
            packets[i].next == (if i == |packets| - 1 then null else packets[i + 1]))
      && (forall i, j :: 0 <= i < j < |packets| ==> packets[i] != packets[j])
    }

    /** Packets know the object they belong to, so that objects share none. */
    ghost predicate Owned()
      reads this`packets
    {
      forall i :: 0 <= i < |packets| ==> packets[i].owner == this
    }

    ghost predicate Valid()
      reads this`first, this`last, this`packets, this`dataReceived, this`length, packets
    {
      && Linked()
      && Owned()
      && Disjoint(Chunks(packets))
      && Within(Chunks(packets), length)
      && dataReceived == TotalLength(Chunks(packets))
    }

    ghost function Received(): map<nat, Byte>
      reads this`packets
    {
      Bytes(Chunks(packets))
    }

    ghost function Model(): ObjectState
      reads this
    {
      ObjectState(length, flags, previousSize, isLast, Received(), reassembled)
    }

    /** data_received is the number of positions covered. */
    lemma Counts()
      requires Valid()
      ensures dataReceived == |Received().Keys| == |Received()|
    {
      TotalLengthCounts(Chunks(packets));
    }

    constructor (key: Key, length: nat, flags: Byte)
      ensures Valid() && packets == [] && this.key == key
      ensures Model() == ObjectState(length, flags, 0, false, map[], None)
    {
      this.key := key;
      this.length, this.flags, previousSize, isLast, dataReceived := length, flags, 0, false, 0;
      first, last, reassembled, packets := null, null, None, [];
    }

    /** Splice a packet into the list after previousPacket, or first when there is none. */
    method Link(packet: Packet, previousPacket: Packet?, ghost i: nat)
      requires Linked() && i <= |packets| && packet !in packets
      requires previousPacket == (if i == 0 then null else packets[i - 1])
      modifies this`first, this`last, this`packets, packets, packet
      ensures Linked()
      ensures packets == old(packets)[..i] + [packet] + old(packets)[i..]
    {
      packet.previous := previousPacket;
      if previousPacket == null {
        packet.next := first;
        first := packet;
      } else {
        packet.next := previousPacket.next;
        previousPacket.next := packet;
      }
      if packet.next == null {
        last := packet;
      } else {
        packet.next.previous := packet;
      }
      packets := packets[..i] + [packet] + packets[i..];
    }

    /** quicrq_reassembly_object_create_packet. */
    method CreatePacket(previousPacket: Packet?, offset: nat, data: seq<Byte>, ghost i: nat) returns (packet: Packet)
      requires Valid() && i <= |packets| && offset + |data| <= length
      requires previousPacket == (if i == 0 then null else packets[i - 1])
      requires i > 0 ==> packets[i - 1].AsChunk().End() <= offset
      requires i < |packets| ==> offset + |data| <= packets[i].offset
      modifies this`first, this`last, this`dataReceived, this`packets, packets
      ensures Valid() && fresh(packet)
      ensures packets == old(packets)[..i] + [packet] + old(packets)[i..]
      ensures packet.offset == offset && packet.data == data
      ensures Received() == Merge(old(Received()), offset, data)
    {
      hide Bytes, TotalLength, Disjoint, Within, Merge;
      packet := new Packet(offset, data, this);
      Link(packet, previousPacket, i);
      dataReceived := dataReceived + |data|;
      ChunksInsert(old(packets), i, packet, length);
    }

    /** What one link of the list says: its bytes are held and its successor is next. */
    lemma Visit(i: nat)
      requires Valid() && i < |packets|
      ensures forall p :: packets[i].offset <= p < packets[i].AsChunk().End() ==> p in Received()
      ensures packets[i].next == (if i == |packets| - 1 then null else packets[i + 1])
    {
      BytesAt(Chunks(packets), i);
      assert Chunks(packets)[i] == packets[i].AsChunk();
    }

    lemma Owns()
      requires Valid()
      ensures Owned()
    {
    }

    lemma Enter()
      requires Valid()
      ensures first == (if packets == [] then null else packets[0])
    {
    }

    /** The first half of the walk, at one packet: store what falls in the hole before it. */
    method FillHole(packet: Packet, previousPacket: Packet?, data: seq<Byte>, offset: nat, ghost i: nat)
      returns (rest: seq<Byte>, start: nat, done: bool, ghost j: nat)
      requires Valid() && i < |packets| && packet == packets[i] && offset + |data| <= length
      requires previousPacket == (if i == 0 then null else packets[i - 1])
      requires i > 0 ==> packets[i - 1].AsChunk().End() <= offset
      modifies this`first, this`last, this`dataReceived, this`packets, packets
      ensures Valid() && start + |rest| <= length
      ensures forall k :: 0 <= k < |packets| ==> packets[k] in old(packets) || fresh(packets[k])
      ensures Merge(Received(), start, rest) == Merge(old(Received()), offset, data)
      ensures done ==> rest == []
      ensures !done ==> packet.offset <= start
      ensures j < |packets| && packets[j] == packet && |packets| - j == |old(packets)| - i
    {
      hide Merge, Valid, Received;
      rest, start, done, j := data, offset, false, i;
      if packet.offset >= offset {
        if offset + |data| <= packet.offset {
          var _ := CreatePacket(previousPacket, offset, data, i);
          MergeNothing(Received(), offset);
          rest, done, j := [], true, i + 1;
        } else if offset < packet.offset {
          var consumed := packet.offset - offset;
          MergeSplit(Received(), offset, data, consumed);
          var _ := CreatePacket(previousPacket, offset, data[..consumed], i);
          rest, start, j := data[consumed..], offset + consumed, i + 1;
        }
      }
    }

    /** quicrq_reassembly_object_add_packet: walk the list, filling the holes that the
        incoming range covers and dropping what is already there. */
    method AddPacket(data0: seq<Byte>, offset0: nat)
      requires Valid() && offset0 + |data0| <= length
      modifies this`first, this`last, this`dataReceived, this`packets, packets
      ensures Valid()
      ensures forall k :: 0 <= k < |packets| ==> packets[k] in old(packets) || fresh(packets[k])
      ensures Received() == Merge(old(Received()), offset0, data0)
    {
      hide Merge, Valid, Received;
      Enter();
      var data, offset: nat := data0, offset0;
      var packet, previousPacket := first, null;
      ghost var i: nat := 0;
      ghost var target := Merge(Received(), offset0, data0);
      while packet != null
        invariant Valid() && i <= |packets| && offset + |data| <= length
        invariant forall k :: 0 <= k < |packets| ==> packets[k] in old(packets) || fresh(packets[k])
        invariant packet == (if i == |packets| then null else packets[i])
        invariant previousPacket == (if i == 0 then null else packets[i - 1])
        invariant i > 0 ==> packets[i - 1].AsChunk().End() <= offset
        invariant Merge(Received(), offset, data) == target
        decreases |packets| - i
      {
        var done;
        data, offset, done, i := FillHole(packet, previousPacket, data, offset, i);
        if done {
          break;
        }
        Visit(i);
        if packet.offset + |packet.data| > offset {
          if packet.offset + |packet.data| >= offset + |data| {
            MergeRedundant(Received(), offset, data);
            data := [];
            MergeNothing(Received(), offset);
            break;
          } else {
            var consumed := packet.offset + |packet.data| - offset;
            MergeTrim(Received(), offset, data, consumed);
            data := data[consumed..];
            offset := offset + consumed;
          }
        }
        previousPacket := packet;
        packet := packet.next;
        i := i + 1;
      }
      if |data| > 0 {
        var _ := CreatePacket(previousPacket, offset, data, i);
      } else {
        assert data == [];
        MergeNothing(Received(), offset);
      }
    }

    /** Copy the packets one after the other.  The two checks on the running offset never
        fire once every position below the length is covered. */
    method Concatenate() returns (ok: bool, content: seq<Byte>)
      requires Valid() && IsContent(Received(), length)
      ensures ok && content == Content(Received(), length)
    {
      hide Valid, Received;
      Enter();
      var packet := first;
      ghost var i: nat := 0;
      ok, content := true, [];
      while packet != null && ok
        invariant ok && i <= |packets| && packet == (if i == |packets| then null else packets[i])
        invariant forall j :: 0 <= j < i ==> packets[j].AsChunk().End() <= |content|
        invariant i < |packets| ==> |content| <= packets[i].offset
        invariant |content| <= length
        invariant forall p :: 0 <= p < |content| ==> content[p] == Received()[p]
        decreases |packets| - i
      {
        Visit(i);
        NoGap(i, |content|);
        if packet.offset != |content| {
          ok := false;
        } else if |content| + |packet.data| > length {
          ok := false;
        } else {
          content := content + packet.data;
          packet := packet.next;
          i := i + 1;
        }
      }
      NoGap(i, |content|);
      if |content| != length {
        ok := false;
      }
    }

    /** In a full list the walk never meets a gap, nor an early end. */
    lemma NoGap(i: nat, at: nat)
      requires Valid() && IsContent(Received(), length)
      requires i <= |packets| && at <= length
      requires forall j :: 0 <= j < i ==> packets[j].AsChunk().End() <= at
      requires i < |packets| ==> at <= packets[i].offset
      ensures i == |packets| ==> at == length
      ensures i < |packets| ==>
                && packets[i].offset == at && packets[i].AsChunk().End() <= length
                && (forall p :: at <= p < packets[i].AsChunk().End() ==>
                      p in Received() && packets[i].data[p - at] == Received()[p])
                && (i + 1 < |packets| ==> packets[i].AsChunk().End() <= packets[i + 1].offset)
    {
      hide Bytes, TotalLength, Linked;
      var rs := Chunks(packets);
      if at < length {
        assert at in Received();
        if i == |packets| || at < packets[i].offset {
          Uncovered(rs, at);
        }
      }
      if i < |packets| {
        BytesAt(rs, i);
        assert rs[i].End() <= length;
      }
    }

    /** quicrq_reassembly_object_reassemble: once as many bytes as the length were counted,
        no later check fails, because bytes below the length that number the length leave
        no gap. */
    method Reassemble() returns (ok: bool)
      requires Valid()
      modifies this`reassembled
      ensures ok <==> (length == 0 && isLast) || (length > 0 && dataReceived == length)
      ensures ok ==> IsContent(Received(), length) && reassembled == Some(Content(Received(), length))
      ensures !ok ==> reassembled == old(reassembled)
    {
      hide Bytes, TotalLength, Merge, Disjoint, Within;
      FullByCount();
      if isLast && length == 0 && dataReceived == 0 {
        assert Content(Received(), length) == [];
        reassembled := Some([]);
        return true;
      } else if length == 0 || dataReceived != length {
        return false;
      }
      EndsMeet();
      if first == null || first.offset != 0 {
        return false;
      } else if last == null || last.offset + |last.data| != length {
        return false;
      }
      var content;
      ok, content := Concatenate();
      if ok {
        reassembled := Some(content);
      }
    }

    /** Counting implies completeness. */
    lemma FullByCount()
      requires Valid()
      ensures dataReceived <= length
      ensures dataReceived == length <==> IsContent(Received(), length)
    {
      BytesBelow(Chunks(packets), length);
      TotalLengthCounts(Chunks(packets));
      FullSpan(Received().Keys, length);
    }

    /** A full list begins at zero and ends at the length. */
    lemma EndsMeet()
      requires Valid() && length > 0 && IsContent(Received(), length)
      ensures first != null && first.offset == 0
      ensures last != null && last.offset + |last.data| == length
    {
      var rs := Chunks(packets);
      assert 0 in Received() && length - 1 in Received();
      if rs == [] || rs[0].offset > 0 {
        Uncovered(rs, 0);
      } else if rs[|rs| - 1].End() < length {
        Uncovered(rs, length - 1);
      }
    }

    /** The per-fragment part of quicrq_reassembly_input: note what the header says, check the
        range, and add the bytes. */
    method Accept(f: Fragment) returns (ok: bool)
      requires Valid()
      modifies this`previousSize, this`isLast, this`first, this`last, this`dataReceived, this`packets, packets
      ensures Valid()
      ensures forall k :: 0 <= k < |packets| ==> packets[k] in old(packets) || fresh(packets[k])
      ensures ok == Acceptable(Noted(old(Model()), f), f)
      ensures var o := Noted(old(Model()), f);
              Model() == if ok then o.(bytes := Merge(o.bytes, f.offset, f.data)) else o
    {
      hide Valid, Received, Merge;
      if f.key.id == 0 && f.offset == 0 {
        previousSize := f.previousSize;
      }
      ok := true;
      if f.offset + |f.data| >= length {
        isLast := true;
        if length != f.offset + |f.data| {
          ok := false;
        }
      } else if length != f.objectLength {
        ok := false;
      }
      if ok {
        AddPacket(f.data, f.offset);
      }
    }
  }
}
