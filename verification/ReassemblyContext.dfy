/** The reassembly context as the program keeps it: a tree of objects that each own a linked
    list of packets, and the fields that say what is expected next.  Its methods are proved
    against the state machine of module Reassembly. */
module ReassemblyContext {
  import opened Media
  import opened PacketList
  import Machine = Reassembly

  class Context {
    var objects: map<Key, ReassemblyObject>
    var next: Key
    var final: Key
    var finished: bool
    ghost var Repr: set<object>

    ghost predicate Valid()
      reads this, Repr
    {
      && this in Repr
      && (forall k :: k in objects ==>
            && objects[k] in Repr && objects[k].key == k
            && (forall i :: 0 <= i < |objects[k].packets| ==> objects[k].packets[i] in Repr)
            && objects[k].Owned() && objects[k].Valid())
    }

    /** What the tree means: the meaning of each of its objects. */
    ghost function Tree(): map<Key, ObjectState>
      reads this`objects, objects.Values
    {
      map k | k in objects :: objects[k].Model()
    }

    ghost function Model(): Machine.State
      reads this, objects.Values
    {
      Machine.State(Tree(), next, final, finished)
    }

    constructor ()
      ensures Valid() && fresh(Repr) && Model() == Machine.INITIAL
    {
      objects, next, final, finished := map[], Key(0, 0), Key(0, 0), false;
      Repr := {this};
    }

    /** quicrq_reassembly_object_delete, and the step of the expected identifier past it. */
    method Forget(k: Key)
      requires Valid() && k in objects
      modifies this`objects, this`next
      ensures Valid() && Model() == Machine.Pass(old(Model()), k)
      ensures objects == old(objects) - {k} && final == old(final)
    {
      hide ReassemblyObject.Valid, ReassemblyObject.Received;
      objects := objects - {k};
      next := After(k);
    }

    /** The object to submit next, if it is ready: the one at the expected identifier or, when
        that group is exhausted, the first of the next group. */
    method FindNext() returns (k: Option<Key>)
      requires Valid()
      ensures k == Machine.NextInLine(Model())
    {
      hide ReassemblyObject.Valid, ReassemblyObject.Received;
      k := Some(next);
      if next !in objects {
        var ahead := Key(next.group + 1, 0);
        if ahead in objects && objects[ahead].reassembled.Some? && objects[ahead].previousSize == next.id {
          k := Some(ahead);
        } else {
          return None;
        }
      }
      if objects[k.value].reassembled.None? {
        k := None;
      }
    }

    method SetFinished()
      requires Valid()
      modifies this`finished
      ensures Valid() && Model() == old(Model()).(finished := true)
    {
      hide ReassemblyObject.Valid, ReassemblyObject.Received;
      finished := true;
    }

    method SetFinal(end: Key)
      requires Valid()
      modifies this`final
      ensures Valid() && Model() == old(Model()).(final := end)
    {
      hide ReassemblyObject.Valid, ReassemblyObject.Received;
      final := end;
    }

    method MarkFinished()
      requires Valid()
      modifies this`finished
      ensures Valid() && Model() == Machine.MarkFinished(old(Model()))
    {
      hide Valid, Tree;
      if final != Key(0, 0) && next.group >= final.group && next.id >= final.id {
        SetFinished();
      }
    }

    /** quicrq_reassembly_update_start_point. */
    method UpdateStartPoint() returns (calls: seq<Machine.ReadyCall>)
      requires Valid()
      modifies this`objects, this`next, this`finished
      ensures Valid() && final == old(final)
      ensures (Model(), calls) == Machine.UpdateStartPoint(old(Model()))
    {
      hide Valid, Model, Machine.Drain, Machine.NextInLine, Machine.Pass, Machine.MarkFinished;
      calls := [];
      ghost var before := Model();
      var k := FindNext();
      assert [] + Machine.Drain(before).1 == Machine.Drain(before).1;
      while k.Some?
        invariant Valid() && final == old(final) && k == Machine.NextInLine(Model())
        invariant Machine.Drain(before) == (Machine.Drain(Model()).0, calls + Machine.Drain(Model()).1)
        decreases |Model().objects|
      {
        ghost var was := calls;
        var call := Submit(k.value);
        calls := calls + [call];
        assert was + ([call] + Machine.Drain(Model()).1) == calls + Machine.Drain(Model()).1;
        k := FindNext();
      }
      Machine.DrainStop(Model());
      assert calls + [] == calls;
      MarkFinished();
    }

    /** Hand over the object in line and drop it. */
    method Submit(k: Key) returns (call: Machine.ReadyCall)
      requires Valid() && Machine.NextInLine(Model()) == Some(k)
      modifies this`objects, this`next
      ensures Valid() && final == old(final) && |Model().objects| < |old(Model()).objects|
      ensures Machine.Drain(old(Model())) == (Machine.Drain(Model()).0, [call] + Machine.Drain(Model()).1)
    {
      hide Valid, Model, Machine.Drain, Machine.NextInLine, Machine.Pass;
      Machine.DrainStep(Model(), k);
      Entry(k);
      var o := objects[k];
      call := Machine.ReadyCall(k, o.flags, o.reassembled.value, Machine.Repair);
      Forget(k);
    }

    /** Put a newly created object in the tree. */
    method Insert(o: ReassemblyObject)
      requires Valid() && o.Valid() && o.packets == [] && o !in Repr
      modifies this`objects, this`Repr
      ensures Valid() && Repr == old(Repr) + {o} && objects == old(objects)[o.key := o]
      ensures Model() == Machine.Put(old(Model()), o.key, o.Model())
    {
      hide ReassemblyObject.Valid, ReassemblyObject.Received;
      objects := objects[o.key := o];
      Repr := Repr + {o};
    }

    twostate lemma OnlyOneChanged(k: Key)
      requires old(Valid()) && Valid() && k in objects
      requires objects == old(objects) && next == old(next) && final == old(final) && finished == old(finished)
      requires forall k' :: k' in objects && k' != k ==> unchanged(objects[k'])
      ensures Model() == Machine.Put(old(Model()), k, objects[k].Model())
    {
      hide ReassemblyObject.Valid, ReassemblyObject.Received;
    }

    /** Work on one object leaves all the others alone. */
    method Accept(k: Key, f: Fragment) returns (ok: bool)
      requires Valid() && k in objects
      modifies Repr
      ensures Valid() && fresh(Repr - old(Repr)) && objects == old(objects)
      ensures var o := Noted(old(objects[k].Model()), f);
              && ok == Acceptable(o, f)
              && objects[k].Model() == (if ok then o.(bytes := Merge(o.bytes, f.offset, f.data)) else o)
              && Model() == Machine.Put(old(Model()), k, objects[k].Model())
    {
      hide ReassemblyObject.Valid, ReassemblyObject.Received;
      var o := objects[k];
      forall k' | k' in objects && k' != k
        ensures objects[k'] != o && forall p :: p in objects[k'].packets ==> p !in o.packets
      {
        assert objects[k'].Owned() && o.Owned();
      }
      ok := o.Accept(f);
      o.Owns();
      hide Model;
      Repr := Repr + (set p | p in o.packets);
      OnlyOneChanged(k);
    }

    /** Reassemble one object of the tree; this fails exactly when a byte is missing. */
    method Reassemble(k: Key) returns (ok: bool)
      requires Valid() && k in objects && objects[k].isLast
      modifies Repr
      ensures Valid() && Repr == old(Repr) && objects == old(objects) && next == old(next)
      ensures var o := old(objects[k].Model());
              && ok == IsContent(o.bytes, o.length)
              && objects[k].Model() == (if ok then o.(reassembled := Some(Content(o.bytes, o.length))) else o)
              && Model() == Machine.Put(old(Model()), k, objects[k].Model())
    {
      hide ReassemblyObject.Valid, ReassemblyObject.Received;
      var o := objects[k];
      o.FullByCount();
      ok := o.Reassemble();
      hide Model;
      OnlyOneChanged(k);
    }

    /** Hand over an object that is complete and expected, and all that it uncovers. */
    method Deliver(call: Machine.ReadyCall) returns (calls: seq<Machine.ReadyCall>)
      requires Valid() && call.key in objects
      modifies this`objects, this`next, this`finished
      ensures Valid() && final == old(final)
      ensures Model() == Machine.UpdateStartPoint(Machine.Pass(old(Model()), call.key)).0
      ensures calls == [call] + Machine.UpdateStartPoint(Machine.Pass(old(Model()), call.key)).1
    {
      hide Valid, Model, Machine.UpdateStartPoint, Machine.Pass;
      Forget(call.key);
      calls := UpdateStartPoint();
      calls := [call] + calls;
    }

    /** What follows once all bytes of an object are there. */
    method Complete(f: Fragment) returns (calls: seq<Machine.ReadyCall>, ok: bool)
      requires Valid() && f.key in objects && objects[f.key].isLast
      modifies Repr
      ensures Valid() && Repr == old(Repr)
      ensures (Model(), calls, ok) == Machine.Completed(old(Model()), f)
    {
      hide *;
      var k := f.key;
      Entry(k);
      Machine.CompletedCases(Model(), f);
      ghost var s := Machine.Open(Model(), k);
      calls, ok := [], true;
      OpenGroup(k);
      Entry(k);
      if objects[k].reassembled.None? {
        Machine.PutSame(s, k);
        ok := Reassemble(k);
        Entry(k);
        if ok {
          var content := objects[k].reassembled.value;
          if next == k {
            Machine.PassPut(s, k, objects[k].Model());
            calls := Deliver(Machine.ReadyCall(k, f.flags, content, Machine.InSequence));
          } else {
            calls := [Machine.ReadyCall(k, f.flags, content, Machine.Peek)];
          }
        }
      }
    }

    /** The first object of the next group, all objects before it being passed. */
    method OpenGroup(k: Key)
      requires Valid() && k in objects
      modifies this`next
      ensures Valid() && Model() == Machine.Open(old(Model()), k)
    {
      hide ReassemblyObject.Valid, ReassemblyObject.Received;
      if k.group == next.group + 1 && k.id == 0 && objects[k].previousSize <= next.id {
        next := k;
      }
    }

    /** Find the object of a fragment, or create it. */
    method FindOrCreate(f: Fragment)
      requires Valid()
      modifies this`objects, this`Repr
      ensures Valid() && fresh(Repr - old(Repr)) && f.key in objects
      ensures Model() == Machine.Found(old(Model()), f)
    {
      hide ReassemblyObject.Valid, ReassemblyObject.Received, ReassemblyObject.Model;
      if f.key !in objects {
        var o := new ReassemblyObject(f.key, f.objectLength, f.flags);
        Insert(o);
      }
    }

    /** quicrq_reassembly_input. */
    method Input(f: Fragment) returns (calls: seq<Machine.ReadyCall>, ok: bool)
      requires Valid()
      modifies Repr
      ensures Valid() && fresh(Repr - old(Repr))
      ensures (Model(), calls, ok) == Machine.Input(old(Model()), f)
    {
      hide Valid, Model, Machine.Completed, Merge;
      calls, ok := [], true;
      Entry(f.key);
      if f.key.group < next.group || (f.key.group == next.group && f.key.id < next.id) {
        return;
      }
      ghost var s := Machine.Found(Model(), f);
      FindOrCreate(f);
      Entry(f.key);
      ok := Accept(f.key, f);
      Machine.PutFound(old(Model()), f, objects[f.key].Model());
      if ok {
        Entry(f.key);
        if objects[f.key].isLast && objects[f.key].dataReceived >= objects[f.key].length {
          calls, ok := Complete(f);
        }
      }
    }

    /** quicrq_reassembly_learn_start_point. */
    method LearnStartPoint(start: Key) returns (calls: seq<Machine.ReadyCall>)
      requires Valid()
      modifies this`objects, this`next, this`finished
      ensures Valid() && Repr == old(Repr)
      ensures (Model(), calls) == Machine.LearnStartPoint(old(Model()), start)
    {
      hide ReassemblyObject.Valid, ReassemblyObject.Received, Machine.UpdateStartPoint;
      calls := [];
      if start.group < next.group || (start.group == next.group && start.id <= next.id) {
      } else {
        next := start;
        calls := UpdateStartPoint();
      }
    }

    /** quicrq_reassembly_learn_final_object_id. */
    method LearnFinal(end: Key) returns (ok: bool)
      requires Valid()
      modifies this`final, this`finished
      ensures Valid() && Repr == old(Repr)
      ensures (Model(), ok) == Machine.LearnFinal(old(Model()), end)
    {
      hide Valid, Tree;
      ok := true;
      if final == Key(0, 0) {
        SetFinal(end);
      } else if final != end {
        ok := false;
      }
      if ok && (next.group > end.group || (next.group == end.group && next.id >= end.id)) {
        SetFinished();
      }
    }

    /** The tree and its meaning have the same entries. */
    lemma Entry(k: Key)
      requires Valid()
      ensures this in Repr && Model().next == next
      ensures k in objects <==> k in Model().objects
      ensures k in objects ==>
                && objects[k].Model() == Model().objects[k]
                && objects[k].reassembled == objects[k].Model().reassembled
                && objects[k].dataReceived == |objects[k].Model().bytes|
    {
      if k in objects {
        objects[k].Counts();
      }
    }
  }
}
