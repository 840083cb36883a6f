/** The acknowledgement records as the original keeps them: fields of the stream context that
    are updated in place, and the loops that mark, collapse and split records. */
module AckTracker {
  import opened Media
  import opened AckHorizon

  class Tracker {
    var horizonGroup: int
    var horizonId: int
    var horizonOffset: int
    var horizonIsLast: bool
    /** The tree of records, in its order. */
    var records: seq<Record>
    /** The first object ever collapsed. */
    ghost var base: Option<Key>

    ghost function Model(): State
      reads this
    {
      State(Horizon(horizonGroup, horizonId, horizonOffset, horizonIsLast), records, base)
    }

    constructor ()
      ensures Model() == INITIAL
    {
      horizonGroup, horizonId, horizonOffset, horizonIsLast := -1, -1, -1, true;
      records, base := [], None;
    }

    /** The sign is that of the position against the horizon. */
    method CheckHorizon(k: Key, offset: nat) returns (sign: int)
      ensures sign < 0 <==> Below(Model().horizon, k, offset)
    {
      sign := k.group - horizonGroup;
      if sign == 0 {
        sign := k.id - horizonId;
      }
      if sign == 0 {
        sign := offset - horizonOffset;
      }
    }

    method AddRecord(d: Shipment) returns (outcome: Outcome)
      modifies this`records
      ensures (Model(), outcome) == Init(old(Model()), d)
    {
      var sign := CheckHorizon(d.key, d.offset);
      if sign < 0 {
        outcome := Forgotten;
      } else {
        var found := Find(records, d.key, d.offset);
        if found >= 0 {
          outcome := Duplicate;
        } else {
          records := Inserted(records, Record(d, false));
          outcome := Created;
        }
      }
    }

    /** Mark the records from index i on that the range covers.  The caller knows that the walk
        does not run past the last record. */
    method MarkAcked(i: nat, offset: nat, length: int)
      requires i < |records| && Mark(records, i, offset, length).Some?
      modifies this`records
      ensures Some(records) == Mark(old(records), i, offset, length)
    {
      var found: nat := i;
      var from: nat := offset;
      var left := length;
      while true
        invariant found < |records|
        invariant Mark(records, found, from, left) == Mark(old(records), i, offset, length)
        decreases |records| - found
      {
        var d := records[found].what;
        records := records[found := Record(d, true)];
        left := left - d.length;
        from := from + d.length;
        if left <= 0 {
          break;
        }
        var next := records[found + 1].what;
        if next.key != d.key || next.offset != from {
          break;
        }
        found := found + 1;
      }
    }

    /** Whether a record comes just after the horizon. */
    method IsJustAfter(das: Shipment) returns (justAfter: bool)
      ensures justAfter == JustAfter(Model().horizon, das)
    {
      justAfter := false;
      if das.key.group == horizonGroup {
        if das.key.id == horizonId {
          justAfter := das.offset == horizonOffset;
        } else if horizonIsLast {
          justAfter := das.key.id == horizonId + 1 && das.offset == 0;
        }
      } else {
        justAfter := horizonIsLast && das.key.group == horizonGroup + 1 && das.offset == 0 &&
          das.previousSize == horizonId + 1;
      }
    }

    /** Progress the horizon over the records that are marked and come just after it. */
    method CollapseHorizon()
      modifies this
      ensures Model() == Collapse(old(Model()))
    {
      hide JustAfter;
      while records != [] && records[0].isAcked
        invariant Collapse(Model()) == Collapse(old(Model()))
        decreases |records|
      {
        var das := records[0].what;
        var justAfter := IsJustAfter(das);
        if !justAfter {
          break;
        }
        horizonGroup, horizonId := das.key.group, das.key.id;
        horizonOffset := das.offset + das.length;
        horizonIsLast := horizonOffset >= das.objectLength;
        base := if base.None? then Some(das.key) else base;
        records := records[1..];
      }
    }

    method HandleAcked(d: Shipment)
      requires HandleAck(Model(), d).Some?
      modifies this
      ensures Some(Model()) == HandleAck(old(Model()), d)
    {
      hide Collapse, Mark;
      var isBelow, shouldCheck := false, false;
      var deltaGroup, delta := d.key.group - horizonGroup, d.key.id - horizonId;
      var left: int, from: nat := d.length, d.offset;
      if deltaGroup == 0 && delta == 0 {
        if d.offset + d.length < horizonOffset {
          isBelow := true;
        } else if d.offset < horizonOffset {
          from := horizonOffset;
          left := left - (horizonOffset - d.offset);
          shouldCheck := true;
        } else if d.offset == horizonOffset {
          shouldCheck := true;
        }
      } else if deltaGroup < 0 || (deltaGroup == 0 && delta < 0) {
        isBelow := true;
      } else if deltaGroup == 0 && delta == 1 && horizonIsLast && d.offset == 0 {
        shouldCheck := true;
      } else if horizonGroup == -1 {
        shouldCheck := true;
      }
      if !isBelow {
        var found := Find(records, d.key, from);
        if found >= 0 && left > 0 {
          MarkAcked(found, from, left);
        }
      }
      if shouldCheck {
        CollapseHorizon();
      }
    }

    /** Queue again what the record at index i stands for, and split the record when it does not
        fit into one datagram. */
    method HandleRepeat(i: nat, length: nat, header: Shipment -> nat, longest: nat)
      returns (queued: seq<Shipment>, ok: bool)
      requires i < |records| && Roomy(Limits(header, longest))
      modifies this`records
      ensures (Model(), queued, ok) == Repeat(old(Model()), i, length, Limits(header, longest))
    {
      hide Repeat, Init, Find, Inserted;
      ghost var limits := Limits(header, longest);
      var found: nat := i;
      var left: nat := length;
      queued, ok := [], true;
      var done := false;
      assert [] + Repeat(Model(), i, length, limits).1 == Repeat(Model(), i, length, limits).1;
      while !done && (left > 0 || records[found].what.flags == 255)
        invariant done || found < |records|
        invariant !done ==> ok
        invariant !done ==>
            var (s, more, all) := Repeat(Model(), found, left, limits);
            Repeat(old(Model()), i, length, limits) == (s, queued + more, all)
        invariant done ==> (Model(), queued, ok) == Repeat(old(Model()), i, length, limits)
        decreases !done, left
      {
        RepeatUnfold(Model(), found, left, limits);
        var d := records[found].what;
        var portion := left;
        if header(d) + left > longest {
          portion := longest - header(d);
        }
        ghost var before := queued;
        queued := queued + [Head(d, portion)];
        if portion < left {
          left := left - portion;
          var rest := Shipment(d.key, d.offset + portion, d.flags, d.previousSize, left, d.objectLength);
          var outcome := AddRecord(rest);
          if outcome != Created {
            ok, done := false, true;
          } else {
            records := Shortened(records, d, portion);
            var next := Find(records, rest.key, rest.offset);
            if next < 0 {
              ok, done := false, true;
            } else {
              found := next;
              ghost var more := Repeat(Model(), found, left, limits).1;
              assert before + ([Head(d, portion)] + more) == queued + more;
            }
          }
        } else {
          done := true;
        }
      }
      if !done {
        RepeatUnfold(Model(), found, left, limits);
        assert queued + [] == queued;
      }
    }

    method HandleLoss(d: Shipment, header: Shipment -> nat, longest: nat) returns (queued: seq<Shipment>, ok: bool)
      requires Roomy(Limits(header, longest))
      modifies this`records
      ensures (Model(), queued, ok) == HandleLost(old(Model()), d, Limits(header, longest))
    {
      hide Repeat;
      var found := Find(records, d.key, d.offset);
      queued, ok := [], true;
      if found >= 0 && !records[found].isAcked {
        queued, ok := HandleRepeat(found, d.length, header, longest);
      }
    }
  }
}
