/** The objects around a cache: the source that publishes into it, the relay that fills it from
    another node, and the purge that empties it behind its readers. */
module CacheUsers {
  import opened Media
  import opened CacheStore
  import Machine = FragmentCache
  import CacheCounts
  import CacheCursor
  import Arrivals
  import DatagramPublisher
  import DatagramDelivery
  import Rules = ObjectSource

  class ObjectSource {
    const cache: Store
    var nextGroup: nat
    var nextId: nat

    ghost function Model(): Rules.Source
      reads this
    {
      Rules.Source(nextGroup, nextId)
    }

    /** The end of quicrq_publish_object_source: the start point of the properties, if there is
        one, is where the cache and the numbering begin. */
    constructor (cache: Store, start: Key)
      modifies cache
      ensures this.cache == cache && Model() == Rules.NewSource(start)
      ensures cache.Model() == if start != Key(0, 0) then Machine.LearnStartPoint(old(cache.Model()), start) else old(cache.Model())
    {
      this.cache, nextGroup, nextId := cache, 0, 0;
      new;
      if start.group != 0 || start.id != 0 {
        cache.LearnStartPoint(start);
        if nextGroup < start.group || (nextGroup == start.group && nextId < start.id) {
          nextGroup, nextId := start.group, start.id;
        }
      }
    }

    /** quicrq_publish_object. */
    method PublishObject(content: MediaObject, k: Key) returns (ok: bool)
      modifies this, cache
      ensures ok == Rules.Accepts(old(Model()), k)
      ensures Model() == (if ok then Rules.Passed(k) else old(Model()))
      ensures cache.Model() == if ok then Machine.Propose(old(cache.Model()), Rules.Whole(old(Model()), k, content))
                               else old(cache.Model())
    {
      hide Machine.Propose;
      ok := true;
      var previousSize := 0;
      if k.group != nextGroup {
        if k.group != nextGroup + 1 || k.id != 0 || nextId == 0 {
          ok := false;
        } else {
          previousSize := nextId;
          nextGroup := nextGroup + 1;
          nextId := 0;
        }
      } else if k.id != nextId {
        ok := false;
      }
      if ok {
        cache.ProposeToCache(Fragment(Key(nextGroup, nextId), 0, content.flags, previousSize, |content.data|, content.data));
        nextId := nextId + 1;
      }
    }

    /** quicrq_publish_object_fin. */
    method PublishFin()
      modifies cache
      ensures cache.Model() == Machine.LearnEndPoint(old(cache.Model()), Key(nextGroup, nextId))
    {
      cache.LearnEndPoint(Key(nextGroup, nextId));
    }
  }

  class RelayConsumer {
    const cache: Store

    constructor (cache: Store)
      ensures this.cache == cache
    {
      this.cache := cache;
    }

    /** quicrq_relay_consumer_cb, on a fragment. */
    method FragmentReady(f: Fragment) returns (isFinished: bool)
      modifies cache
      ensures cache.Model() == CacheCursor.Step(old(cache.Model()), Arrivals.Arrival(f))
      ensures isFinished == CacheCounts.FinishedAfterFragment(cache.Model())
    {
      hide Machine.Propose;
      cache.ProposeToCache(f);
      isFinished := (cache.final.group > 0 || cache.final.id > 0) &&
        cache.next.group == cache.final.group && cache.next.id == cache.final.id;
    }

    /** quicrq_relay_consumer_cb, on the final identifier. */
    method FinalObject(k: Key) returns (isFinished: bool)
      modifies cache
      ensures cache.Model() == CacheCursor.Step(old(cache.Model()), Arrivals.Final(k))
      ensures isFinished == CacheCounts.FinishedAfterFinal(cache.Model())
    {
      cache.LearnEndPoint(k);
      isFinished := cache.next.group == cache.final.group && cache.next.id == cache.final.id;
    }

    /** quicrq_relay_consumer_cb, on a start point. */
    method StartPoint(k: Key)
      modifies cache
      ensures cache.Model() == CacheCursor.Step(old(cache.Model()), Arrivals.Start(k))
    {
      cache.LearnStartPoint(k);
    }
  }

  /** quicrq_fragment_cache_media_purge_to_gob: delete what lies below the group of every reader's
      first entry, and below the group the cache itself waits for. */
  method PurgeToGroup(cache: Store, readers: seq<DatagramPublisher.Reader>)
    modifies cache
    ensures (cache.tree, cache.arrivals) ==
            Machine.DropBefore(old(cache.tree), old(cache.arrivals), Key(DatagramDelivery.KeptGroup(old(cache.next), readers), 0))
    ensures cache.first == if cache.tree != [] then cache.tree[0].key else old(cache.first)
    ensures (cache.next, cache.nextOffset, cache.final, cache.received) ==
            old((cache.next, cache.nextOffset, cache.final, cache.received))
  {
    var kept := cache.next.group;
    var i := 0;
    while i < |readers|
      invariant 0 <= i <= |readers| && kept == DatagramDelivery.KeptGroup(cache.next, readers[..i])
    {
      var objects := readers[i].objects;
      assert readers[..i + 1][..i] == readers[..i];
      if objects != [] && objects[0].key.group < kept {
        kept := objects[0].key.group;
      }
      i := i + 1;
    }
    assert readers[..i] == readers;
    while cache.tree != []
      invariant Machine.DropBefore(cache.tree, cache.arrivals, Key(kept, 0)) ==
                Machine.DropBefore(old(cache.tree), old(cache.arrivals), Key(kept, 0))
      invariant cache.first == old(cache.first) && kept == DatagramDelivery.KeptGroup(old(cache.next), readers)
      invariant (cache.next, cache.nextOffset, cache.final, cache.received) ==
                old((cache.next, cache.nextOffset, cache.final, cache.received))
      decreases |cache.tree|
    {
      var fragment := cache.tree[0];
      if fragment.key.group >= kept {
        cache.first := fragment.key;
        break;
      }
      cache.tree := cache.tree[1..];
      cache.arrivals := Machine.Without(cache.arrivals, fragment);
    }
  }
}
