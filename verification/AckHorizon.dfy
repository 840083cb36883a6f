/** The bookkeeping of datagrams in flight: a record for each piece sent, splitting of records
    when a lost datagram is too long to be queued again, and a horizon below which records are
    forgotten.  Acknowledgement and loss are reports about packets that carried datagrams, as in
    section 5.2 of RFC 9221: a loss may later turn out to be spurious. */
module AckHorizon {
  import opened Media

  /** What one datagram carried: a range of an object, with the rest of its header. */
  datatype Shipment = Shipment(
    key: Key, offset: nat, flags: Byte, previousSize: nat, length: nat, objectLength: nat)
  {
    function End(): nat { offset + length }
  }

  /** quicrq_datagram_ack_state_t. */
  datatype Record = Record(what: Shipment, isAcked: bool)

  /** The horizon starts at the largest 64 bit numbers, which behave as minus one in the
      original's differences and sums. */
  datatype Horizon = Horizon(group: int, id: int, offset: int, isLast: bool)

  const NO_HORIZON := Horizon(-1, -1, -1, true)

  /** The records are kept in the order of the tree.  The base is the first object ever
      collapsed: the original has no such field, the theorems need the name. */
  datatype State = State(horizon: Horizon, records: seq<Record>, base: Option<Key>)

  const INITIAL := State(NO_HORIZON, [], None)

  // ----- New records -----

  /** quicrq_datagram_check_horizon is negative. */
  predicate Below(h: Horizon, k: Key, p: int) {
    k.group < h.group || (k.group == h.group && (k.id < h.id || (k.id == h.id && p < h.offset)))
  }

  function Find(records: seq<Record>, k: Key, offset: nat): (i: int)
    ensures -1 <= i < |records|
    ensures i >= 0 ==> records[i].what.key == k && records[i].what.offset == offset
    ensures i < 0 ==> forall j :: 0 <= j < |records| ==> records[j].what.key != k || records[j].what.offset != offset
  {
    if records == [] then -1
    else
      var d := records[|records| - 1].what;
      if d.key == k && d.offset == offset then |records| - 1 else Find(records[..|records| - 1], k, offset)
  }

  predicate Precedes(k: Key, offset: nat, d: Shipment) {
    Before(k, d.key) || (k == d.key && offset < d.offset)
  }

  function Place(records: seq<Record>, k: Key, offset: nat): (p: nat)
    ensures p <= |records|
    ensures forall i :: p <= i < |records| ==> Precedes(k, offset, records[i].what)
    ensures p > 0 ==> !Precedes(k, offset, records[p - 1].what)
  {
    if records == [] then 0
    else if Precedes(k, offset, records[|records| - 1].what) then Place(records[..|records| - 1], k, offset)
    else |records|
  }

  function Inserted(records: seq<Record>, r: Record): seq<Record> {
    var p := Place(records, r.what.key, r.what.offset);
    records[..p] + [r] + records[p..]
  }

  datatype Outcome = Created | Forgotten | Duplicate

  /** quicrq_datagram_ack_init. */
  function Init(s: State, d: Shipment): (State, Outcome) {
    if Below(s.horizon, d.key, d.offset) then (s, Forgotten)
    else if Find(s.records, d.key, d.offset) >= 0 then (s, Duplicate)
    else (s.(records := Inserted(s.records, Record(d, false))), Created)
  }

  // ----- Acknowledgement -----

  /** Mark the record at index i, and those that follow it in the range that was acknowledged.
      The original follows the link to the next record without looking: None is where it would
      follow a null link. */
  function Mark(records: seq<Record>, i: nat, offset: nat, length: int): Option<seq<Record>>
    requires i < |records|
    decreases |records| - i
  {
    var d := records[i].what;
    var now := records[i := Record(d, true)];
    if length - d.length <= 0 then Some(now)
    else if i + 1 == |now| then None
    else
      var next := now[i + 1].what;
      if next.key != d.key || next.offset != offset + d.length then Some(now)
      else Mark(now, i + 1, offset + d.length, length - d.length)
  }

  /** Where the unforgotten part of an acknowledged range starts. */
  function AckedFrom(h: Horizon, d: Shipment): nat {
    if d.key.group == h.group && d.key.id == h.id && d.offset < h.offset then h.offset else d.offset
  }

  predicate IsBelow(h: Horizon, d: Shipment) {
    if d.key.group == h.group && d.key.id == h.id then d.End() < h.offset
    else d.key.group < h.group || (d.key.group == h.group && d.key.id < h.id)
  }

  predicate ShouldCheck(h: Horizon, d: Shipment) {
    if d.key.group == h.group && d.key.id == h.id then d.End() >= h.offset && d.offset <= h.offset
    else if d.key.group < h.group || (d.key.group == h.group && d.key.id < h.id) then false
    else (d.key.group == h.group && d.key.id == h.id + 1 && h.isLast && d.offset == 0) || h.group == -1
  }

  predicate JustAfter(h: Horizon, d: Shipment) {
    if d.key.group == h.group then
      if d.key.id == h.id then d.offset == h.offset
      else h.isLast && d.key.id == h.id + 1 && d.offset == 0
    else h.isLast && d.key.group == h.group + 1 && d.offset == 0 && d.previousSize == h.id + 1
  }

  function Reached(d: Shipment): Horizon {
    Horizon(d.key.group, d.key.id, d.End(), d.End() >= d.objectLength)
  }

  /** The horizon takes over the first record. */
  function CollapseOne(s: State): State
    requires s.records != []
  {
    var d := s.records[0].what;
    State(Reached(d), s.records[1..], if s.base.None? then Some(d.key) else s.base)
  }

  function Collapse(s: State): State
    decreases |s.records|
  {
    if s.records != [] && s.records[0].isAcked && JustAfter(s.horizon, s.records[0].what) then Collapse(CollapseOne(s)) else s
  }

  /** The records once the report was noted. */
  function Marked(s: State, d: Shipment): Option<seq<Record>> {
    var start := AckedFrom(s.horizon, d);
    var i := Find(s.records, d.key, start);
    if IsBelow(s.horizon, d) || i < 0 || d.End() - start <= 0 then Some(s.records)
    else Mark(s.records, i, start, d.End() - start)
  }

  /** quicrq_datagram_handle_ack. */
  function HandleAck(s: State, d: Shipment): Option<State> {
    match Marked(s, d)
    case None => None
    case Some(records) =>
      var s := s.(records := records);
      Some(if ShouldCheck(s.horizon, d) then Collapse(s) else s)
  }

  // ----- Loss and repetition -----

  /** The size of a header and the longest datagram that can be queued. */
  datatype Limits = Limits(header: Shipment -> nat, longest: nat)

  ghost predicate Roomy(limits: Limits) {
    forall d :: limits.header(d) < limits.longest
  }

  /** The first n bytes of a shipment, and the others. */
  function Head(d: Shipment, n: nat): Shipment {
    d.(length := n)
  }

  function Tail(d: Shipment, n: nat): Shipment
    requires n <= d.length
  {
    d.(offset := d.offset + n, length := d.length - n)
  }

  /** How much of a lost range of that length the next datagram carries. */
  function Portion(limits: Limits, d: Shipment, length: nat): (n: nat)
    requires limits.header(d) < limits.longest
    ensures n <= length && limits.header(d) + n <= limits.longest
  {
    if limits.header(d) + length > limits.longest then limits.longest - limits.header(d) else length
  }

  /** quicrq_datagram_handle_repeat: the datagrams that are queued, and the records after the
      one at index i was split.  A new record that could not be made ends the loop, and counts
      as a failure. */
  ghost function Repeat(s: State, i: nat, length: nat, limits: Limits): (State, seq<Shipment>, bool)
    requires i < |s.records| && Roomy(limits)
    decreases length
  {
    var d := s.records[i].what;
    if length == 0 && d.flags != 255 then (s, [], true)
    else
      var n := Portion(limits, d, length);
      if n == length then (s, [Head(d, n)], true)
      else
        var rest := Shipment(d.key, d.offset + n, d.flags, d.previousSize, length - n, d.objectLength);
        var (s1, outcome) := Init(s, rest);
        if outcome != Created then (s1, [Head(d, n)], false)
        else
          var s2 := s1.(records := Shortened(s1.records, d, n));
          var j := Find(s2.records, rest.key, rest.offset);
          if j < 0 then (s2, [Head(d, n)], false)
          else
            var (s3, queued, ok) := Repeat(s2, j, length - n, limits);
            (s3, [Head(d, n)] + queued, ok)
  }

  /** The record of d is cut down to n bytes. */
  function Shortened(records: seq<Record>, d: Shipment, n: nat): seq<Record> {
    var i := Find(records, d.key, d.offset);
    if i < 0 then records else records[i := records[i].(what := Head(d, n))]
  }

  lemma RepeatUnfold(s: State, i: nat, length: nat, limits: Limits)
    requires i < |s.records| && Roomy(limits)
    ensures var d := s.records[i].what;
            var n := Portion(limits, d, length);
            if length == 0 && d.flags != 255 then Repeat(s, i, length, limits) == (s, [], true)
            else if n == length then Repeat(s, i, length, limits) == (s, [Head(d, n)], true)
            else
              n > 0 &&
              var rest := Shipment(d.key, d.offset + n, d.flags, d.previousSize, length - n, d.objectLength);
              var (s1, outcome) := Init(s, rest);
              var s2 := s1.(records := Shortened(s1.records, d, n));
              var j := Find(s2.records, rest.key, rest.offset);
              if outcome != Created then Repeat(s, i, length, limits) == (s1, [Head(d, n)], false)
              else if j < 0 then Repeat(s, i, length, limits) == (s2, [Head(d, n)], false)
              else
                var (s3, queued, ok) := Repeat(s2, j, length - n, limits);
                Repeat(s, i, length, limits) == (s3, [Head(d, n)] + queued, ok)
  {
    hide Init, Find, Shortened, Below, Inserted, Place;
  }

  /** quicrq_datagram_handle_lost. */
  ghost function HandleLost(s: State, d: Shipment, limits: Limits): (State, seq<Shipment>, bool)
    requires Roomy(limits)
  {
    var i := Find(s.records, d.key, d.offset);
    if i < 0 || s.records[i].isAcked then (s, [], true) else Repeat(s, i, d.length, limits)
  }
}
