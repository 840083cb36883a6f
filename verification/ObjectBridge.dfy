/** The object bridge as the program keeps it: a reassembly context, the next expected
    identifiers, and the calls it makes to the application. */
module ObjectBridge {
  import opened Media
  import opened PacketList
  import Machine = Reassembly
  import opened ReassemblyContext
  import Spec = ObjectConsumer
  import Delivery

  class Bridge {
    const order: Spec.Order
    const reassembly: Context
    var next: Key
    var start: Key
    /** The objects and placeholders passed to the application so far. */
    var delivered: seq<Item>

    ghost predicate Valid()
      reads this, reassembly, reassembly.Repr
    {
      this !in reassembly.Repr && reassembly.Valid()
    }

    ghost function Model(): Spec.Bridge
      reads this
    {
      Spec.Bridge(order, next, start)
    }

    constructor (order: Spec.Order)
      ensures Valid() && fresh(reassembly) && fresh(reassembly.Repr)
      ensures Model() == Spec.Bridge(order, Key(0, 0), Key(0, 0)) && delivered == []
      ensures reassembly.Model() == Machine.INITIAL
    {
      this.order := order;
      reassembly := new Context();
      next, start, delivered := Key(0, 0), Key(0, 0), [];
    }

    /** quicrq_reassembly_get_object_count. */
    method GroupSize(group: nat) returns (size: nat)
      requires Valid()
      ensures size == Spec.GroupSize(reassembly.Model(), group)
    {
      hide ReassemblyObject.Valid, ReassemblyObject.Received;
      size := 0;
      var k := Key(group + 1, 0);
      reassembly.Entry(k);
      if k in reassembly.objects {
        size := reassembly.objects[k].previousSize;
      }
    }

    /** Placeholders for the rest of the current group, as far as it is known to go. */
    method LeaveGroup()
      requires Valid()
      modifies this`next, this`delivered
      ensures next == Key(old(next).group + 1, 0)
      ensures delivered == old(delivered) + Spec.Fill(old(next), Spec.Limit(reassembly.Model(), old(next)))
    {
      hide Context.Valid, Context.Model;
      var limit := GroupSize(next.group);
      if limit == 0 {
        limit := next.id;
        if limit == 0 {
          limit := 1;
        }
      }
      ghost var from := next;
      while next.id < limit
        invariant next.group == from.group && from.id <= next.id
        invariant from.id < limit ==> next.id <= limit
        invariant next.id > from.id ==> next.id <= limit
        invariant delivered == old(delivered) + Spec.Fill(from, next.id)
      {
        delivered := delivered + [Spec.Placeholder(next)];
        next := next.(id := next.id + 1);
      }
      next := Key(next.group + 1, 0);
    }

    /** Leave every group before the one that is jumped to. */
    method JumpTo(group: nat)
      requires Valid()
      modifies this`next, this`delivered
      ensures delivered == old(delivered) + Spec.Jump(reassembly.Model(), old(next), group)
    {
      hide Context.Valid, Context.Model;
      ghost var all := Spec.Jump(reassembly.Model(), next, group);
      while next.group < group
        invariant Valid()
        invariant delivered + Spec.Jump(reassembly.Model(), next, group) == old(delivered) + all
        decreases group - next.group
      {
        Spec.JumpUnfold(reassembly.Model(), next, group);
        LeaveGroup();
      }
    }

    /** quicrq_media_object_bridge_ready. */
    method Ready(c: Machine.ReadyCall)
      requires Valid()
      modifies this`next, this`delivered
      ensures Valid()
      ensures var (b, more) := Spec.Ready(old(Model()), reassembly.Model(), c);
              Model() == b && delivered == old(delivered) + more
    {
      hide Context.Valid, Context.Model, Spec.Jump;
      var ignored := true;
      match order {
        case OutOfOrderRequired => ignored := c.mode == Machine.Repair;
        case InOrderRequired => ignored := c.mode == Machine.Peek;
        case SkipToGroupAhead =>
          if Before(c.key, next) {
            ignored := true;
          } else if c.mode == Machine.Peek {
            if c.key.group > next.group && c.key.id == 0 {
              if next == Key(0, 0) {
                next := start;
              }
              JumpTo(c.key.group);
              ignored := false;
            } else if c.key == next {
              ignored := false;
            }
          } else {
            ignored := false;
          }
      }
      if !ignored {
        next := After(c.key);
        delivered := delivered + [Delivery.ItemOf(c)];
      }
    }

    /** The callbacks of one reassembly call, in turn. */
    method ReadyAll(calls: seq<Machine.ReadyCall>)
      requires Valid()
      modifies this`next, this`delivered
      ensures Valid()
      ensures var (b, more) := Spec.Offer(old(Model()), reassembly.Model(), calls);
              Model() == b && delivered == old(delivered) + more
    {
      hide Context.Valid, Context.Model, Spec.Ready, Spec.Offer;
      ghost var from, tree := Model(), reassembly.Model();
      Spec.OfferNone(from, tree);
      for i := 0 to |calls|
        invariant Valid() && reassembly.Model() == tree
        invariant Model() == Spec.Offer(from, tree, calls[..i]).0
        invariant delivered == old(delivered) + Spec.Offer(from, tree, calls[..i]).1
      {
        Spec.OfferUnfold(from, tree, calls[..i], calls[i]);
        assert calls[..i + 1] == calls[..i] + [calls[i]];
        Ready(calls[i]);
      }
      assert calls[..|calls|] == calls;
    }

    /** quicrq_media_object_bridge_fn: a fragment arrives.  The result says whether the media
        is finished and whether the fragment was acceptable. */
    method OnFragment(f: Fragment) returns (isFinished: bool, ok: bool)
      requires Valid()
      modifies this`next, this`delivered, reassembly.Repr
      ensures Valid() && fresh(reassembly.Repr - old(reassembly.Repr))
      ensures var (t, calls, accepted) := Machine.Input(old(reassembly.Model()), f);
              var (b, more) := Spec.Offer(old(Model()), t, calls);
              && reassembly.Model() == t && Model() == b && delivered == old(delivered) + more
              && ok == accepted && isFinished == (ok && t.finished)
    {
      hide Context.Valid, Spec.Offer, Machine.Input;
      var calls;
      calls, ok := reassembly.Input(f);
      ReadyAll(calls);
      isFinished := ok && reassembly.finished;
    }

    /** quicrq_media_object_bridge_fn: the start point is learned. */
    method OnStartPoint(k: Key) returns (isFinished: bool)
      requires Valid()
      modifies this`next, this`start, this`delivered, reassembly.Repr
      ensures Valid()
      ensures var (t, calls) := Machine.LearnStartPoint(old(reassembly.Model()), k);
              var (b, more) := Spec.Offer(old(Model()).(start := k), t, calls);
              && reassembly.Model() == t && Model() == b && delivered == old(delivered) + more
              && isFinished == t.finished
    {
      hide Context.Valid, Spec.Offer, Machine.LearnStartPoint;
      reassembly.Entry(k);
      start := k;
      var calls := reassembly.LearnStartPoint(k);
      ReadyAll(calls);
      isFinished := reassembly.finished;
    }

    /** quicrq_media_object_bridge_fn: the final identifier is learned. */
    method OnFinal(k: Key) returns (isFinished: bool, ok: bool)
      requires Valid()
      modifies reassembly.Repr
      ensures Valid()
      ensures var (t, accepted) := Machine.LearnFinal(old(reassembly.Model()), k);
              reassembly.Model() == t && ok == accepted && isFinished == (ok && t.finished)
      ensures Model() == old(Model()) && delivered == old(delivered)
    {
      hide Context.Valid, Machine.LearnFinal;
      reassembly.Entry(k);
      ok := reassembly.LearnFinal(k);
      isFinished := ok && reassembly.finished;
    }
  }
}
