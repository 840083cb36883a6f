# QUICRQ media transport: a verified model

QUICRQ moves media over QUIC. A media is a sequence of groups, a group is a sequence of objects, an
object is a sequence of bytes. Fragments of objects are published, cached, sent on a stream or as
datagrams, relayed, lost, repeated, cut anew, and put together again. The promise behind all of it is
simple: the consumer is handed the objects of the media, in order, once, unchanged. This project
models the state machines that have to agree on that promise, and proves that they do.

The modules follow the original's files.

- **Vocabulary.** `Media` (groups, objects, identifiers, fragments, the boundary identity
  "(g, size of g) is (g + 1, 0)") and `Arrivals` (what a list of received fragments amounts to,
  without any machine: the reference that caches and reassembly are compared with).
- **Reassembly and delivery.** `PacketList` (the linked list of packets of one object), `Reassembly`
  and `Delivery` (the state machine and its theorems), `AnyInput` (what holds of it whatever arrives),
  `ReassemblyContext` (the same machine as a class), `ObjectConsumer`, `SkipAhead`, `SkipProgress` and
  `ObjectBridge` (the ordering bridge: specification and theorems, and the class).
- **The fragment cache.** `FragmentCache` (insertion, with its exact condition), `CacheCursor` (the
  next-expected cursor), `CacheCounts` (the count of complete objects and the end of the media at a
  relay), `CacheStore` and `CacheUsers` (the classes: cache, object source, relay consumer, purge).
- **Publishing on a stream.** `StreamPublisher`, `StreamEnds` (what holds whatever the cache holds),
  `StreamReading`, `StreamDelivery`, `StreamSender`.
- **Publishing as datagrams.** `DatagramPublisher`, `DatagramRuns`, `DatagramDelivery`,
  `DatagramProgress` (that nothing is held back or kept for ever), `DatagramReader`; `CachedReader` joins
  the publisher to the cache it reads.
- **Acknowledgement and repetition.** `AckHorizon`, `AckRuns`, `AckSafety`, `AckBase`, `AckProgress` (how
  far records and horizon get), `AckTracker`;
  `DatagramTransport` and `DatagramSystem` join the datagram publisher to the records, and
  `DatagramWire` says what all these datagrams carry, first or again. `DroppedObjects` (reassembly
  when the publisher dropped objects) and `DatagramReception` join the wire to who receives;
  `LostPlaceholder` is the smallest run in which that goes wrong. The reports are those of
  section 5.2 of RFC 9221.
- **Whole pipelines.** `ObjectSource` (numbering rules), `Replacement` (the media behind a sender that
  skipped objects), `Pipeline`, `PipelineProgress` and `PipelineRest` (a source, any number of caching
  hops, a consumer: what is delivered, what rest means, and that it is reached).
- **Unidirectional streams.** `WarpSender`, `WarpStream`, `WarpReception`; `WarpWire` is the stream as
  a whole, headers and data.
- **The wire.** `Varint` (section 16 of RFC 9000), `Messages`, `WireLayout` (the very bytes), `Framing`,
  `MessageBuffer`, `WireSizes`.

Where the original updates fields in place, the model has a class whose methods are proved equal to a
step of a state machine (`ensures Model() == Step(old(Model()), ...)`), and the theorems are about runs
of that machine. Loops are loops. The splay trees are sorted sequences or maps under the original's
comparison functions. The verdict of congestion control is an arbitrary boolean behind the original's
own guard, which never drops the first object of a group nor an empty fragment: the theorems about
datagrams hold for every policy behind that guard, those about streams and chains of hops for every
verdict that does not replace an object of which something was already sent.

## What the code turned out to do

These are places where a natural expectation fails. The code is modelled as it is; each case has a
concrete instance and an exact condition.

- A proposal to the cache that is missing bytes on both sides of what is held adds the wrong bytes:
  insertion is right if and only if no missing position of the proposal lies behind a held one
  (`FragmentCache.ProposalExactIffMissingIsPrefix`, over whole runs `CacheCursor.HoldsArrivedIff`;
  `FragmentCache.OverlapLosesTheEnd`).
- A start point learned after fragments arrived leaves the cursor's offset behind: the cursor stays
  exact if and only if the start point does not move it, or the old offset happens to be right for the
  new object (`CacheCursor.LateStartIsExactIff`; `CacheCursor.LateStartPointIsNotExact`).
- A datagram publisher never sends an object below the first one it sent, even when it is at or past
  the start point (`DatagramDelivery.SentOnceOrReplaced` states this as an equivalence;
  `DatagramDelivery.LateFirstObjectIsNeverSent`).
- A relay that caches datagrams can lose acknowledged bytes for good: after a loss that was none, a
  repeated piece arrives and then the datagram itself, which the cache does not hold although both are
  acknowledged and nothing will be repeated (`DatagramReception.SpuriousLossLosesBytes`). Its cache
  holds what came in if and only if the missing part of each datagram is a prefix of it
  (`DatagramReception.RelayHoldsIff`). A consumer that reassembles holds every acknowledged byte
  (`DatagramReception.AcknowledgedIsHeld`).
- The placeholder of a dropped object is repeated, when its datagram was lost, under a header that was
  never sent: it announces the length that the object really has, and brings no byte. A repeat carries
  the header that was sent if and only if that was not such a placeholder
  (`DatagramWire.RepeatHeaderIff`). Whoever gets the repeat first waits for ever: reassembly makes an
  entry that never fills and refuses the placeholder itself (`DroppedObjects.HollowIsStuck`), a cache's
  cursor stops (`DroppedObjects.CacheIsStuck`). A dropped object reaches a consumer, as an empty
  object, if and only if its placeholder comes before any repeat of it, and otherwise delivery in order
  never gets past it (`DroppedObjects.DroppedDelivery`, over whole runs of a node
  `DatagramReception.SentIsDelivered`). The smallest run is `LostPlaceholder.RepeatIsHollow`, with the
  consumer and the relay that wait in `LostPlaceholder.ConsumerWaits` and `LostPlaceholder.RelayWaits`.
- A stream sender waits for ever on an empty object whose flags are not 0xFF
  (`StreamDelivery.UnusedIff`; `StreamDelivery.StuckOnEmpty`); a chain that is served often enough
  comes to rest, and has then delivered everything if and only if there is no such object
  (`PipelineRest.EverythingIsDelivered`).
- A verdict to skip in the middle of an object sends a placeholder for an object that was begun: an
  offer keeps what was sent in sequence unless it comes with a verdict to skip, inside an object that
  is not the first of its group, with something left to send, and then it never does
  (`StreamDelivery.SkipIsRightIff`). Publisher and sender find each other again behind the object if
  and only if the fragment in hand was not begun (`StreamDelivery.MeetAgainIff`;
  `StreamDelivery.LateSkipIsWrong`).
- A lost datagram of an empty object whose flags are not 0xFF is not repeated
  (`AckSafety.RepeatedIff`; `AckSafety.EmptyLossIsNotRepeated`), and no empty datagram is ever marked as
  acknowledged, so that the horizon stays below it (`AckSafety.RecordsAreExact`,
  `AckSafety.HorizonIsSafe`).
- The horizon behind which records are forgotten gets over the end of a group in one way only: the
  acknowledgement must be of the object at whose end it stands. When the objects are acknowledged in
  order it is not, and the records of the next group stay although they are acknowledged
  (`AckProgress.GroupIsLeftIff`; `AckProgress.GroupEndHolds`). For a media that begins behind group 0
  nothing is ever forgotten (`AckProgress.LaterGroupsStay`).
- An application that skips ahead is handed the object that opens the new group, and not what was
  complete right behind it already: that waits for the next event (`SkipProgress.JumpStopsThere`).
- A sender on a unidirectional stream moves to the data of an object while a part of its header is
  still in the buffer, and sends the data first. The stream is in order, whatever the bytes, if and
  only if no data goes out behind a cut header (`WarpWire.WireIsRightIff`), and offers with room for the
  headers that they take up are enough (`WarpWire.RoomForHeaders`); otherwise the receiver takes data
  for a header (`WarpWire.CutHeaderIsMisread`).
- The room reserved for the header of an object that opens a group on a unidirectional stream is too
  small when the previous group had 64 objects or more: by one byte, from 2^14 objects on by three,
  from 2^30 on by seven (`Messages.ObjectHeaderFitsIff`; `Messages.ObjectHeaderDoesNotFit`).
- A receiver of a unidirectional stream misreads what follows an object in the same piece
  (`WarpStream.LeftOverIsRightIff`; `WarpStream.LeftOverIsWrong`).

## Model

| member | source | states |
|---|---|---|
| PacketList.ReassemblyObject.CreatePacket | lib/reassembly.c:142-183 | a packet linked into a hole keeps the list doubly linked, sorted and disjoint, and adds exactly its bytes to what the list holds |
| PacketList.ReassemblyObject.FillHole | lib/reassembly.c:231-266 | one turn of the insertion loop: what was stored and what remains of the incoming range merge to the same bytes as before the turn |
| PacketList.ReassemblyObject.AddPacket | lib/reassembly.c:219-292 | after any overlap the held bytes are the old ones extended by the incoming range, earlier bytes winning; the list stays sorted and disjoint and the counter equals the number of positions |
| PacketList.ReassemblyObject.Counts | lib/reassembly.c:142-183 | data_received is the number of distinct positions covered |
| PacketList.ReassemblyObject.NoGap | lib/reassembly.c:294-349 | when the counter reaches the length, each packet begins where the one before ended |
| PacketList.ReassemblyObject.Reassemble | lib/reassembly.c:294-349 | a full counter makes every inconsistency check unreachable, and the output holds the received byte at every position |
| PacketList.ReassemblyObject.Accept | lib/reassembly.c:430-452 | the range checks on a fragment, and that a rejected one leaves the bytes unchanged |
| Reassembly.DrainAdvances | lib/reassembly.c:351-399 | update_start_point repairs, in order and once each, exactly the complete objects from the cursor to the first incomplete one |
| Reassembly.ArrivalStep | lib/reassembly.c:401-502 | one fragment keeps the machine equal to the union of what arrived, with the callbacks that this determines |
| Reassembly.StartStep | lib/reassembly.c:504-526 | the same for a start point |
| Reassembly.FinalStep | lib/reassembly.c:528-552 | the same for the final identifier |
| Reassembly.RunRefinesReference | lib/reassembly.c:351-552 | on every run of true fragments, in any order, repeated, overlapping or re-cut, the machine and all its callbacks are those of the machine-free reference |
| Delivery.InOrderDelivery | lib/reassembly.c:351-502 | since the last start point the in-order callbacks are exactly the objects of the media from the old cursor to the first incomplete object |
| Delivery.PrefixOfTheMedia | lib/reassembly.c:351-502 | without start points they are a prefix of the media, each object once, with its own bytes |
| Delivery.NothingStuck | lib/reassembly.c:367-397 | the machine waits for the least incomplete object, under either name of a boundary, and is finished if and only if the final identifier is known and everything arrived |
| Delivery.OutOfOrderAtMostOnce | lib/reassembly.c:475-493 | calls in sequence and peeks together hand over no object twice, under any events |
| Delivery.OutOfOrderExactlyOnce | lib/reassembly.c:475-493 | without start points they hand over exactly the objects that arrived |
| Delivery.RepairFollowsPeek | lib/reassembly.c:351-399 | no object is repaired that was not peeked at before, with the same bytes |
| AnyInput.WhateverArrives | lib/reassembly.c:351-526 | over every list of events, true or not: every byte handed over was carried to that place of that object, in order the identifiers rise, out of order none comes twice, and what is repaired was peeked at before with the same bytes |
| AnyInput.RefusedIff | lib/reassembly.c:430-452 | over the same lists, a fragment of an object still awaited is refused if and only if it reaches past the length first announced, or ends before it and names another; a refused fragment leaves no byte and hands nothing over |
| AnyInput.HandedOverIff | lib/reassembly.c:454-500 | over the same lists, an arrival hands something over if and only if it fills the last gap of an object that was not complete: that object, where held bytes win, in sequence exactly when it is next under either name of a boundary, and then only repairs |
| AnyInput.RepairsGoOn | lib/reassembly.c:351-399 | over the same lists, behind an object handed over in sequence, and behind a start point that moves delivery, the repairs are all that goes on from there without a gap, across ends of groups that are documented, and nothing else |
| AnyInput.FinalIsLearnedOnce | lib/reassembly.c:528-552 | over the same lists, the first final identifier stays, and any other is refused |
| AnyInput.FinishedIff | lib/reassembly.c:391-396 | over the same lists, exactly when the media is marked as finished: when the final identifier comes and delivery is there or past it, or when delivery moves on and has then come to the group and to the number of the end, each compared by itself |
| ReassemblyContext.Context.UpdateStartPoint | lib/reassembly.c:351-399 | the loop in place: the new state and the callbacks are those of the machine |
| ReassemblyContext.Context.Input | lib/reassembly.c:401-502 | the whole new state, callbacks and return code after a fragment |
| ReassemblyContext.Context.LearnStartPoint | lib/reassembly.c:504-526 | the whole new state and callbacks after a start point |
| ReassemblyContext.Context.LearnFinal | lib/reassembly.c:528-552 | the whole new state and return code after the final identifier |
| ObjectConsumer.OrderedApplications | lib/object_consumer.c:48-75 | an in-order application receives a gap-free prefix, an out-of-order one every completed object exactly once |
| ObjectConsumer.SkipAheadIsOrderly | lib/object_consumer.c:76-131 | an application that skips ahead receives real objects or placeholders with strictly increasing identifiers, leaves no group out, and is never behind reassembly |
| ObjectConsumer.OrderlyIncreases | lib/object_consumer.c:76-131 | what follows step by step is strictly increasing over any distance |
| ObjectConsumer.JumpReplacesAll | lib/object_consumer.c:84-118 | over groups of known size, a jump yields exactly one placeholder for each object passed over, in order |
| ObjectConsumer.RestOfGroupReplaced | lib/object_consumer.c:84-118 | leaving one group of known size replaces exactly its remaining objects |
| SkipAhead.KnownGroupsAreClosed | lib/object_consumer.c:76-131 | over every run, whatever opens a group comes right behind the last object of the group before it, real or placeholder, when that group's size is known at that step |
| SkipProgress.NoGroupWaits | lib/object_consumer.c:76-131 | over every run, once the first object of a group arrived, something of that group or a later one was delivered last |
| SkipProgress.BehindIsDelivered | lib/object_consumer.c:61-131 | an object completed at the position of the bridge is the first thing that event delivers |
| SkipProgress.JumpStopsThere | lib/object_consumer.c:76-131 | a jump ends with the object that opens the group; what was complete behind it is not delivered by that event |
| ObjectBridge.Bridge.JumpTo | lib/object_consumer.c:76-131 | the nested placeholder loops terminate and deliver the placeholders of the specification |
| ObjectBridge.Bridge.Ready | lib/object_consumer.c:31-134 | one callback under each of the three orders: new fields and deliveries |
| ObjectBridge.Bridge.OnFragment | lib/object_consumer.c:136-170 | a fragment drives reassembly and the bridge together as the specification says |
| ObjectBridge.Bridge.OnStartPoint | lib/object_consumer.c:171-182 | the same for a start point |
| FragmentCache.ProposalWanted | lib/fragment.c:206-273 | when what is missing is a prefix of the proposal, exactly the missing front enters and nothing else changes: duplicates and contained pieces leave the cache as it was |
| FragmentCache.WantedCovers | lib/fragment.c:206-273 | that insertion keeps the fragments of an object disjoint and makes the coverage the union |
| FragmentCache.ProposalExactIffMissingIsPrefix | lib/fragment.c:206-273 | the coverage becomes the union if and only if no missing position of the proposal lies behind a held one |
| FragmentCache.OverlapLosesTheEnd | lib/fragment.c:244-258 | the smallest proposal for which it does not |
| CacheCursor.ProgressExact | lib/fragment.c:104-157 | walking forward from the inserted node alone ends at the least missing position |
| CacheCursor.RunKeepsInvariant | lib/fragment.c:159-312 | over every run the tree holds exactly what the fragments carried, sorted and disjoint, and the cursor is exact |
| CacheCursor.CursorIsLeastMissing | lib/fragment.c:104-204 | the cursor is the least missing position of the media from the start point on, for any order of arrival |
| CacheCursor.CompleteIffArrived | lib/fragment.c:206-312 | an object is complete in the tree if and only if all of it arrived |
| CacheCursor.LateStartIsExactIff | lib/fragment.c:314-344 | after a start point the cursor is exact if and only if it was not moved, or the cache holds of the new object just the positions before the old offset |
| CacheCursor.LateStartPointIsNotExact | lib/fragment.c:314-361 | a start point after a fragment leaves a cursor that is not exact |
| CacheCursor.HoldsArrivedIff | lib/fragment.c:206-273 | over every run, the cache holds exactly what arrived at every moment if and only if what each fragment brought came before what it repeated |
| CacheCounts.IsWholeIffComplete | lib/fragment.c:275-300 | the backward test for a whole object succeeds if and only if no position of it is missing |
| CacheCounts.CountIsExact | lib/fragment.c:275-309 | nb_object_received is the number of objects whose bytes are all in the cache; none is counted twice |
| CacheCounts.RelayFinishesExactly | lib/relay.c:54-81 | a relay reports the end exactly on the events after which the final identifier is known and no byte is missing |
| CachedReader.ProposeAppends | lib/fragment.c:159-204 | a proposal only appends to the order of arrival, and what it appends is what entered the tree |
| CachedReader.EventAppends | lib/fragment.c:159-361 | so does every event but a start point, over every run |
| CachedReader.ArrivalGains | lib/fragment.c:206-312 | and what an arrival appends is a front part of its fragment, or nothing |
| CachedReader.ProposalEntersInPieces | lib/fragment.c:206-273 | whatever is proposed, and whatever the cache holds: what enters are front parts of the proposal at its place and under its label, and the first alone says how large the previous group is |
| CachedReader.EndsAreTheLast | lib/fragment.c:206-361 | whatever the events are, the cache begins and ends at the last points it learned, and what lies before its beginning changes nothing |
| CachedReader.GroupsAreLeftDocumented | lib/fragment.c:104-204 | whatever is proposed, and whatever the cache holds: the cursor does not go back, and leaves a group only over the first object of the next, which documents that the group is not empty and not shorter than the cursor had come |
| CachedReader.DropsExactly | lib/fragment.c:314-361 | a start point, and a purge, delete exactly the fragments of objects before it and keep the order of the others |
| CachedReader.ReaderSeesTheCache | lib/fragment.c:744-999 | a datagram publisher that reads a filling cache is a run of the machine of module DatagramDelivery, whose arrivals are those of the cache |
| CachedReader.WhatCameInIsSent | lib/fragment.c:744-999 | so every byte that came in is in a fragment that the reader gets to, and once it is past it, the fragment was sent whole or its object replaced if and only if the object does not come before the first one sent |
| CacheStore.Store.Progress | lib/fragment.c:104-157 | the walk in place moves the cursor as the specification does |
| CacheStore.Store.AddToCache | lib/fragment.c:159-204 | both indexes and the cursor after an addition |
| CacheStore.Store.CheckWhole | lib/fragment.c:275-300 | the loop over the fragments of an object decides whether it is whole |
| CacheStore.Store.ProposeToCache | lib/fragment.c:206-312 | the whole new cache after a proposal; the backward loop terminates |
| CacheStore.Store.LearnStartPoint | lib/fragment.c:314-361 | the start point, the cursor and what is deleted |
| CacheStore.Store.LearnEndPoint | lib/fragment.c:363-374 | the end point, all else unchanged |
| CacheUsers.ObjectSource.constructor | lib/object_source.c:46-60 | the cache and the numbering begin at the start point of the properties, if there is one |
| CacheUsers.ObjectSource.PublishObject | lib/object_source.c:74-112 | which calls are accepted, and the counters and the cache after each |
| CacheUsers.ObjectSource.PublishFin | lib/object_source.c:114-119 | the cache learns the end point |
| CacheUsers.RelayConsumer.FragmentReady | lib/relay.c:51-68 | a relay caches the fragment and tests for the end |
| CacheUsers.RelayConsumer.FinalObject | lib/relay.c:69-81 | the same for the final identifier |
| CacheUsers.PurgeToGroup | lib/fragment.c:402-438 | exactly the objects below the kept group are deleted, the least of the cache's and of all readers' first entries |
| ObjectSource.RunKeepsInvariant | lib/object_source.c:48-112 | from any start point, whatever is called, the accepted objects, in order and under their identifiers, are the objects of a well formed media from there on, and the proposed fragments are true of it and follow each other |
| ObjectSource.AcceptedIffItContinues | lib/object_source.c:84-96 | a call is accepted if and only if its identifier is where the source stands, or opens the next group behind one that has objects |
| StreamReading.FollowedIsComplete | lib/fragment.c:572-709 | messages that can be followed in sequence tell every object up to their position whole and once, or by one placeholder, and nothing of others |
| StreamDelivery.PastSkippedIsRight | lib/fragment.c:606-643 | after a skip the publisher goes on to the next object, or to the next group only when the skipped object was the last |
| StreamDelivery.ExpectedIsRight | lib/fragment.c:644-668 | the publisher takes the fragment at its position, or enters the next group only at the end of the current one |
| StreamEnds.EntersGroupIff | lib/fragment.c:608-666 | whatever the cache holds, the publisher enters the next group if and only if nothing of its own group is there to expect, it is between objects, and the next group has begun and documents no more objects than it has passed; otherwise it takes the fragment at its place |
| StreamEnds.NothingBehindTheEnd | lib/fragment.c:601-606 | whatever the cache holds, at or past the final point every offer answers with the final point and changes nothing |
| StreamEnds.FinOnlyAtTheEnd | lib/fragment.c:601-642 | and the final point is sent only there, or one object earlier when that was skipped |
| StreamDelivery.OfferKeeps | lib/quicrq.c:189-380 | one offer of space, under any verdict that does not replace an object already begun, keeps sender and publisher in step, and header and data fit the space |
| StreamDelivery.ChunkIsFull | lib/quicrq.c:311-362 | what is sent of a fragment ends it, or fills the space left by the guessed header, or fills the space behind the true header for all that was announced |
| StreamDelivery.SkippedIff | lib/quicrq.c:241-270 | an offer replaces the object at the sender's position if and only if the verdict is to skip, the object has data and is not the first of its group, and a fragment of it is there to send |
| StreamDelivery.RunKeepsInvariant | lib/quicrq.c:189-380 | so does every run of such offers, whatever happens to the cache meanwhile |
| StreamDelivery.SentInSequence | lib/quicrq.c:189-380 | up to the sender's position every object was sent whole and in order or replaced by one placeholder, exactly the bytes before the position were sent of the current one, and nothing of others |
| StreamDelivery.GroupIsLeftComplete | lib/fragment.c:653-668 | a group is left only when each of its objects was sent or replaced |
| StreamDelivery.SenderAgreesWithPublisher | lib/quicrq.c:228-236 | the two positions are equal, up to a skip not yet acted upon |
| StreamDelivery.HeadersAreTrue | lib/quicrq.c:311-362 | identifiers, offset, length, flags, group size and data of every message are those of the media |
| StreamDelivery.FinIsTheEnd | lib/quicrq.c:271-303 | the final message carries the end of the media and comes after everything |
| StreamDelivery.SkipIsRightIff | lib/quicrq.c:241-270 | under any verdict, an offer keeps the invariant, and what was sent stays in sequence, if and only if it does not meet a verdict to skip inside an object that is not the first of its group with something left to send; those are the offers that replace an object of which something was sent |
| StreamDelivery.MeetAgainIff | lib/fragment.c:606-643 | behind a skipped object publisher and sender agree again if and only if the fragment in hand was not begun when the verdict fell |
| StreamDelivery.LateSkipIsWrong | lib/quicrq.c:241-270 | three offers after which a placeholder stands for an object of which a byte was sent |
| StreamDelivery.StuckOnEmpty | lib/quicrq.c:271-309 | a media of one empty object of which nothing is ever sent |
| StreamDelivery.UnusedIff | lib/quicrq.c:271-309 | an offer goes unused if and only if no fragment that can be sent begins at the position and the end is not reached |
| StreamSender.Reader.Find | lib/fragment.c:596-668 | the publisher's search in place |
| StreamSender.Reader.AnnounceData | lib/fragment.c:669-692 | the sizing call: what it answers and how the publisher moves |
| StreamSender.Reader.CopyData | lib/fragment.c:693-709 | the copying call: the bytes, and the publisher's new position |
| StreamSender.Stream.PrepareToSend | lib/quicrq.c:189-380 | the sender in place: the message and all fields of both contexts |
| DatagramRuns.PruneBooks | lib/fragment.c:795-827 | pruning keeps the low-water mark sound and loses no object |
| DatagramRuns.UpdatedBooks | lib/fragment.c:829-873 | after a datagram the list still says what was sent, dropped and finished |
| DatagramRuns.NothingLeft | lib/fragment.c:756-772 | nothing more can arrive for an object all of whose bytes were sent |
| DatagramRuns.SkippedIsRight | lib/fragment.c:756-786 | a fragment is passed over only if its object was dropped or lies below the first one sent |
| DatagramRuns.PollKeeps | lib/fragment.c:967-999 | every poll, under any verdict and room, keeps history, list and position sound |
| DatagramDelivery.SentOnceOrReplaced | lib/fragment.c:733-793 | a fragment that was dealt with was sent once as pieces that tile it, or its object replaced by one placeholder with no byte sent, if and only if its object is not below the first one sent; otherwise nothing was sent |
| DatagramDelivery.LateFirstObjectIsNeverSent | lib/fragment.c:763-772 | the smallest run in which an object past the start is never sent |
| DatagramDelivery.DatagramsAreSlices | lib/fragment.c:877-965 | every datagram with data is a slice of the media under a true header, at or past the start |
| DatagramDelivery.OneDatagramAtATime | lib/fragment.c:877-999 | a poll appends at most one datagram, in order of arrival, and takes none back |
| DatagramDelivery.LowWaterMarkIsSound | lib/fragment.c:756-772 | every object from the first one sent up to the first entry had all its bytes sent |
| DatagramDelivery.PurgeLeavesTheUnsent | lib/fragment.c:402-438 | a purge leaves every fragment that a reader with a non-empty list still has to send |
| DatagramDelivery.KeptIsAttained | lib/fragment.c:407-420 | the kept group is never above the one the cache waits for, and it is that one or the first of some reader |
| DatagramDelivery.OffersDrain | lib/fragment.c:733-793 | each offer with room for a byte brings a reader closer to having dealt with everything |
| DatagramDelivery.EverythingIsPassed | lib/fragment.c:733-793 | enough of them and it has |
| DatagramProgress.PieceIsFull | lib/fragment.c:904-925 | a datagram with data ends its fragment or fills the room, and none goes out only where there is no room |
| DatagramProgress.VerdictIsObeyed | lib/fragment.c:967-999 | over every run, an offer that moves on to a fragment sends a placeholder if and only if the verdict is to drop, the fragment has data and is the first to come of its object, and the object does not open a group |
| DatagramProgress.PruneEnds | lib/fragment.c:795-824 | after pruning, a first entry that was sent does not have its successor right behind it |
| DatagramProgress.FinishedIsPruned | lib/fragment.c:826-873 | so the datagram that finishes an object leaves a list without such a pair in front |
| DatagramProgress.SizesAreRemembered | lib/fragment.c:826-873 | over every run, once a datagram was sent for a fragment that documents the size of the previous group, the entry of its object has that size, which is what lets the list be pruned across the end of the group |
| DatagramDelivery.CachedArrivalsAreCut | lib/fragment.c:159-273 | what a cache offers to its readers are slices of the media that do not overlap |
| DatagramReader.Publisher.FindNext | lib/fragment.c:755-790 | the search for the next fragment in place |
| DatagramReader.Publisher.PruneObjects | lib/fragment.c:799-827 | the pruning loop in place |
| DatagramReader.Publisher.UpdateObject | lib/fragment.c:837-873 | the update of the list in place |
| DatagramReader.Publisher.SendFragment | lib/fragment.c:877-965 | the datagram and the new context |
| DatagramReader.Publisher.Prepare | lib/fragment.c:967-999 | a whole poll in place |
| AckRuns.MarkIsExact | lib/quicrq.c:739-758 | an acknowledged range tiled by records marks exactly those, and the walk never follows a null link |
| AckRuns.SafeNext | lib/quicrq.c:781-812 | taking over a marked record just after the horizon passes only acknowledged bytes |
| AckRuns.AckKeeps | lib/quicrq.c:694-815 | an acknowledgement of anything ever sent keeps the invariant |
| AckRuns.SendKeeps | lib/quicrq.c:639-692 | a fresh datagram never finds a record in its place, and keeps the invariant |
| AckRuns.RepeatSplits | lib/quicrq.c:823-901 | the pieces queued for a lost record are adjacent, disjoint, together exactly the record, fit the limit with their headers, all but the last fill it, and they replace the record in the tree |
| AckRuns.LoseKeeps | lib/quicrq.c:903-927 | a loss report keeps the invariant and every split makes its record |
| AckSafety.RunKeepsInvariant | lib/quicrq.c:639-927 | over every interleaving of sending, acknowledgement, loss and repetition, with header sizes that may change from loss to loss, nothing fails |
| AckSafety.HorizonIsSafe | lib/quicrq.c:781-812 | all bytes from the first collapsed object to the horizon were acknowledged |
| AckSafety.RecordsAreExact | lib/quicrq.c:739-812 | records lie at or above the horizon, and one is marked if and only if its bytes were acknowledged |
| AckSafety.NothingIsForgotten | lib/quicrq.c:694-927 | a record leaves only when acknowledged: every byte sent was, or has a record, or lies below the first collapsed object |
| AckSafety.LossWithoutRecordIsHarmless | lib/quicrq.c:903-927 | a loss report without a record to repeat concerns acknowledged data, from the first collapsed object on |
| AckSafety.RepeatedIff | lib/quicrq.c:839-927 | exactly when a lost datagram is repeated; what is queued are pieces of it that follow each other, together all of it, under the label that was recorded for it, all but the last as long as can be queued |
| AckSafety.EmptyLossIsNotRepeated | lib/quicrq.c:839-927 | the smallest datagram that is lost without being repeated |
| AckBase.NoByteIsForgotten | lib/quicrq.c:781-812 | when the first datagram is of the lowest object, every byte sent was acknowledged or has an unmarked record |
| AckProgress.AckClears | lib/quicrq.c:781-812 | after an acknowledgement that meets the horizon, the first record is not acknowledged or does not begin where the horizon goes on, stated field by field |
| AckProgress.RunSettles | lib/quicrq.c:694-815 | over every run, no acknowledged record stands at the horizon inside a group |
| AckProgress.AckedFrontIsForgotten | lib/quicrq.c:694-815 | over every run, with acknowledgements in any order, losses and splits: when what was sent is a front part of group 0 and all of it was acknowledged, no record is left and the horizon is the end of what was sent |
| AckProgress.GroupIsLeftIff | lib/quicrq.c:762-812 | where a group ends, the acknowledged first record of the next is taken if and only if the acknowledgement is of the object at whose end the horizon stands |
| AckProgress.GroupEndHolds | lib/quicrq.c:762-812 | the smallest run in which it is not, and stays |
| AckProgress.LaterGroupsStay | lib/quicrq.c:781-812 | when nothing of group 0 is sent, the horizon never moves and every byte keeps its record |
| AckTracker.Tracker.AddRecord | lib/quicrq.c:639-692 | the new record, or why there is none |
| AckTracker.Tracker.HandleAcked | lib/quicrq.c:694-815 | records and horizon after an acknowledgement, in place |
| AckTracker.Tracker.CollapseHorizon | lib/quicrq.c:781-812 | the collapsing loop in place |
| AckTracker.Tracker.HandleRepeat | lib/quicrq.c:823-901 | the splitting loop in place; it terminates on the remaining length |
| AckTracker.Tracker.HandleLoss | lib/quicrq.c:903-927 | what a loss report queues and changes |
| DatagramTransport.PollDelivers | lib/fragment.c:929-951 | what the publisher hands to the records is honest and repeats nothing it handed over before |
| DatagramSystem.RunKeepsInvariant | lib/fragment.c:929-951 | publisher and records stay sound and agree on what was sent, over every interleaving |
| DatagramSystem.NothingFailsNothingIsForgotten | lib/quicrq.c:639-927 | driven by the publisher, the records never fail, and every byte sent is acknowledged or in a record that will be repeated |
| DatagramWire.WireIsCarried | lib/quicrq.c:839-901 | over every run, what each datagram carries, sent first or again, is a piece of the media under the label of its record; or its object was dropped, and it is the placeholder or a repeat of it |
| DatagramWire.RepeatHeaderIff | lib/quicrq.c:844-854 | a repeat carries the header of the datagram that was lost if and only if that was not the placeholder of an object with data; of such an object it announces the length |
| DatagramWire.PlaceholderGoesFirst | lib/fragment.c:877-951 | of a dropped object the placeholder goes over the wire once, before any repeat of it |
| DroppedObjects.DroppedDelivery | lib/reassembly.c:401-502 | whatever comes of dropped objects, in any order, the consumer is handed a front part of the media as it sees it and out of order exactly what arrived of that; a dropped object is among it, empty, if and only if its placeholder came before any repeat, and if not, delivery in order stops at it |
| DroppedObjects.HollowIsStuck | lib/reassembly.c:437-463 | a repeat of a placeholder that comes first makes an entry that nothing changes any more; the placeholder is refused |
| DroppedObjects.CacheIsStuck | lib/fragment.c:104-273 | in a cache it is an entry at which the cursor stands, whatever else comes of the object |
| LostPlaceholder.RepeatIsHollow | lib/fragment.c:889-951 | the smallest run: a placeholder of length zero is lost, and its repeat announces length two |
| LostPlaceholder.ConsumerWaits | lib/reassembly.c:437-463 | without that placeholder a consumer is never handed anything in order past the first object, whatever else of the run arrives, and never the dropped one |
| LostPlaceholder.RelayWaits | lib/fragment.c:104-157 | a relay that got the first object and the repeat stays where it is, even when the placeholder comes |
| DatagramReception.AcknowledgedIsHeld | lib/reassembly.c:401-502 | whatever was dropped besides, a reassembly that was fed the acknowledged datagrams, and others of the run, holds every acknowledged byte, or has handed the whole object over |
| DatagramReception.SentIsDelivered | lib/quicrq.c:694-927 | when no record with data is left that was not acknowledged, every object whose bytes were all sent as datagrams was handed to such a consumer, whole and once; of the dropped objects, as empty ones, exactly those whose placeholder came before any repeat of it, and at the others delivery in order stops |
| DatagramReception.RelayHoldsIff | lib/fragment.c:244-258 | a relay's cache holds exactly the bytes of the datagrams that came in, at every moment, if and only if the missing part of each is a prefix of it |
| DatagramReception.SpuriousLossLosesBytes | lib/quicrq.c:739-758 | a run in which every byte is acknowledged and no record is left, and a relay's cache misses one |
| Replacement.WiredIsTrue | lib/quicrq.c:241-270 | what a sender sent in sequence is, on the wire, in sequence and true of the media in which the objects it skipped are placeholders |
| Pipeline.FaithfulIsFeed | lib/relay.c:51-81 | in-sequence delivery, however it was cut, is what the next cache is made for |
| Pipeline.RunKeepsSound | lib/fragment.c:572-709 | every hop of a chain stays sound, for the media as it sees it, under every interleaving of passing and offering and any verdicts that fall on fronts of objects |
| Pipeline.Transparency | lib/object_source.c:74-112 | through any number of hops, under such verdicts, the consumer is handed a front part of the published list, with the same identifiers, bytes and flags, in which exactly the objects that some hop skipped are placeholders, and all of it once the final point is in; what was skipped had data and did not open a group |
| Pipeline.WithoutVerdicts | lib/quicrq.c:241-270 | when no verdict is to skip, that is the published list itself |
| PipelineProgress.OfferIsSendable | lib/quicrq.c:271-362 | what a sender sends has data or is marked as a placeholder |
| PipelineProgress.DeliveredIsSendable | lib/quicrq.c:271-309 | behind at least one hop, in whatever state the chain is, everything is delivered only if no object is empty without being a placeholder |
| PipelineProgress.QuietMeansDelivered | lib/quicrq.c:189-380 | when everything was passed on and no hop has anything to send, the whole published list was delivered, skipped objects as placeholders, if and only if no published object is empty without being a placeholder |
| PipelineProgress.RestMeansDelivered | lib/quicrq.c:189-380 | the same when no hop sends anything new if it is offered room once |
| PipelineRest.WorkIsBounded | lib/quicrq.c:189-380 | over any run, no more messages are passed on and sent than the source has, and for each hop twice the bytes and objects of the media and one for its end |
| PipelineRest.StepWorks | lib/quicrq.c:189-380 | every step that passes a message on or makes a hop send one does one piece of that work, and any other changes at most the name of a position |
| PipelineRest.EnoughRoundsRest | lib/quicrq.c:189-380 | after more rounds of passing and offering than that, in any order and with any spaces and verdicts, everything was passed on and no hop has anything to send |
| PipelineRest.EverythingIsDelivered | lib/quicrq.c:189-380 | and then the consumer was handed the whole published list, skipped objects as placeholders, if and only if no published object is empty without being a placeholder |
| WarpSender.AvailableIsExact | lib/fragment.c:1117-1157 | what is copied is the object from the offset up to the first gap or the end of the room |
| WarpSender.ChunksJoin | lib/quicrq.c:1447-1489 | for any spaces, with fragments arriving in between, the chunks concatenate to the object; both calls agree and it is never overshot |
| WarpSender.IdleIffGap | lib/quicrq.c:1455-1488 | an offer moves nothing if and only if there is no space or a byte up to the offset is missing |
| WarpSender.OfferIsFilled | lib/quicrq.c:1447-1489 | a chunk fills the space, or ends the object, or ends at the first gap; the sender then stands behind it, or is done |
| WarpWire.UniStream.PrepareMessage | lib/quicrq.c:1331-1445 | the message that is prepared, and the state that goes with it |
| WarpWire.UniStream.PrepareToSend | lib/quicrq.c:1447-1525 | the bytes and the whole new state of the stream after an offer of space |
| WarpWire.WireIsRightIff | lib/quicrq.c:1362-1525 | over every run of offers, the stream is a front part of warp header, headers and data in order, whatever the bytes of the objects, if and only if no offer sends data while a part of the header is in the buffer |
| WarpWire.RoomForHeaders | lib/quicrq.c:1447-1525 | that is so when each offer that takes up the header of an object with data has room for all of it; and then all is out up to the object in hand when no message waits |
| WarpWire.IdleIff | lib/quicrq.c:1447-1525 | an offer sends nothing if and only if the data in hand has not come yet, or the next object is not known; otherwise it fills the space or sends all that is there |
| WarpWire.HeaderWaits | lib/quicrq.c:1451-1489 | a cut header waits until all data of its object is out |
| WarpWire.DataIsSent | lib/quicrq.c:1447-1489 | the data of the stream goes out as stated for one object in module WarpSender |
| WarpWire.CutHeaderIsMisread | lib/quicrq.c:1428-1525 | a header of seven bytes in offers of five: its receiver reads other flags and another length |
| WarpStream.UniStream.CopyAvailable | lib/fragment.c:1117-1157 | the copy loop in place |
| WarpStream.UniStream.SendData | lib/quicrq.c:1447-1489 | the sender's state in place |
| WarpStream.ReceivedTiles | lib/quicrq.c:1921-1955 | however the bytes are cut, a receiver makes fragments that tile the object, each under the header of the object |
| WarpReception.StreamsFeed | lib/quicrq.c:1921-2040 | whatever the cutting, and however the streams are mixed, what a consumer gets are true fragments as a cache expects them, and of every object exactly the front part arrived that its pieces make up |
| WarpReception.StreamedIsDelivered | lib/quicrq.c:1921-2040 | so a consumer that reassembles is handed exactly the objects all of whose pieces came, and a cache holds of every object exactly its pieces |
| WarpStream.LeftOverIsRightIff | lib/quicrq.c:1928-1939 | what is left of a piece is right, whatever the bytes, if and only if the piece does not run past the object |
| WarpStream.LeftOverIsWrong | lib/quicrq.c:1928-1939 | the smallest piece of which the wrong end is left |
| Varint.RoundTrip | lib/proto.c:195-203 | every integer below 2^62 is read back with exactly what follows it |
| Varint.Stable | lib/proto.c:205-215 | more bytes never change what was decoded |
| Messages.MessageRoundTrip | lib/proto.c:586-689 | decoding an encoded message of any of the eleven types gives it back and consumes exactly its bytes |
| Messages.PrefixIsRejected | lib/proto.c:586-640 | no strict prefix of an encoded message is accepted |
| WireLayout.IntegerBytes | lib/proto.c:195-203 | the bytes of an integer: the value, with the length in the two top bits, most significant byte first |
| WireLayout.MessageBytes | lib/proto.c:35-580 | every message field by field behind its action code, with the numbers of modes and intents that the peers use: a request carries a start point if and only if its intent is 2, an accept a media identifier if and only if its mode is not 1 |
| WireLayout.StartPointIsRead | lib/proto.c:121-177 | a request with intent 2 is read back with any group and object |
| WireLayout.OtherIntentsCarryNoPoint | lib/proto.c:121-177 | intents 0 and 1 carry neither, whatever the sender has in these fields |
| WireLayout.RequestIsRefused | lib/proto.c:160-164 | every other intent is refused, and every mode from 5 on |
| WireLayout.PostIsRefused | lib/proto.c:397-425 | so is a post with such a mode |
| WireLayout.AcceptIsRefused | lib/proto.c:450-475 | and an accept |
| WireLayout.UnknownIsRefused | lib/proto.c:586-640 | and any action code that is none of the eleven |
| WireLayout.HeaderBytes | lib/proto.c:704-725 | the order of the fields in a datagram header |
| WireLayout.FrameBytes | lib/quicrq.c:139-149 | the two bytes of a frame are its length, most significant first |
| Messages.EncodingFitsReserve | lib/proto.c:35-537 | every message with a URL below 2^14 bytes fits its reserve; a fragment's reserve is exactly its header |
| Messages.ReserveIsTight | lib/proto.c:35-537 | and no reserve but those for texts is larger than what it is for; those by 29 bytes at most |
| Messages.ObjectHeaderFitsIff | lib/quicrq.c:1412-1426 | the header of an object fits what is reserved for it if and only if it does not open a group after one of 64 or more objects; and by how much it does not |
| Messages.ObjectHeaderDoesNotFit | lib/quicrq.c:1412-1426 | a header of six bytes in a buffer of five |
| Messages.HeaderRoundTrip | lib/proto.c:704-748 | a datagram header is read back exactly and leaves the data |
| Messages.HeaderSizeIsRight | lib/proto.c:704-725 | its size depends on its numbers only, and is at most 57 bytes |
| WireSizes.StreamHeadersFit | lib/proto.c:251-274 | real stream headers meet the hypotheses of the sender theorems, in any offer above 52 bytes |
| WireSizes.LabelSizeIsEncoded | lib/proto.c:251-274 | and the size used there is that of what is encoded |
| WireSizes.PlaceholderIsRead | lib/quicrq.c:241-257 | a placeholder fits the frame that was sized for data, and is read back whatever fills the rest |
| WireSizes.DatagramHeadersFit | lib/proto.c:704-725 | real datagram headers meet the hypotheses of the repetition theorems |
| Framing.FramingRoundTrip | lib/quicrq.c:66-166 | any list of messages below 65536 bytes, through any spaces and any re-cutting, is received as the same list |
| Framing.ControlRoundTrip | lib/quicrq.c:1629-1655 | the same for encoded control messages, which decode to what was encoded |
| Framing.PiecesJoin | lib/quicrq.c:123-166 | what goes out, for any spaces, is the frames in order |
| Framing.PiecesFill | lib/quicrq.c:123-166 | every space that is offered is filled or ends a frame, and none is left unused while something waits |
| MessageBuffer.Buffer.Alloc | lib/quicrq.c:40-63 | room, and the stored bytes kept |
| MessageBuffer.Buffer.Store | lib/quicrq.c:66-101 | which bytes are taken, and when the message is complete |
| MessageBuffer.Buffer.Receive | lib/quicrq.c:1629-1655 | the messages taken out of a piece, and the beginning of the next |
| MessageBuffer.Buffer.PrepareToSend | lib/quicrq.c:123-166 | the next piece of the frame, and the state behind it |

## Left out

- Congestion control: its formulas and thresholds. Its verdict is a boolean: arbitrary for datagrams behind the guard of lib/congestion.c:253-254; for streams and chains of hops, arbitrary but for verdicts that replace an object already begun.
- Runs in which a stream skips in the middle of an object: what goes wrong in the first such offer is StreamDelivery.SkipIsRightIff and StreamDelivery.MeetAgainIff; what follows it is not modelled.
- ObjectConsumer.SkipAheadIsOrderly: covers streams that learn one start point and receive nothing from before it.
- SkipAhead.KnownGroupsAreClosed: covers the same streams.
- Pipeline.Transparency: is about media that begin at (0, 0), and so are the theorems of PipelineProgress and PipelineRest; start points inside a chain of hops are covered hop by hop only.
- PipelineRest.EnoughRoundsRest: leaves out offers to a stream that has sent the final point, which goes out with the end of the stream (lib/quicrq.c:288).
- WarpReception.StreamsFeed: takes the headers of objects as true of the media, and the pieces of data as those of their object; how a stream mixes them up is in WarpWire, whose plan says which headers are sent, and which is about one group.
- WarpWire.WireIsRightIff: is about one stream whose list of objects and headers is given; which objects are skipped, how the end of the group is found and how the stream is closed are not part of it.
- AckSafety.RunKeepsInvariant: covers neither extra repeats of datagrams on a timer nor time stamps and queue delays; with such repeats a datagram could be in flight twice for one record.
- DatagramDelivery.PurgeLeavesTheUnsent: covers readers with a non-empty list; a stream reader keeps no list, and the purge does not look at its position.
- AckProgress.AckedFrontIsForgotten: is about group 0; behind it the horizon stops where AckProgress.GroupIsLeftIff says, and it stays below empty datagrams.
- StreamDelivery.HeadersAreTrue: at a start point that opens a group the very first message carries zero for the size of the previous group; it also covers only what the media sender asks of the publisher, not the separate readiness test, which can consume a change of group.
- Placeholders at a receiver: an object that a stream sender replaced is, for everyone behind it, an empty object with flags 0xFF, and the theorems about caches and reassembly apply to the media with these objects replaced. As datagrams that holds for a reassembly whose placeholders come first, and is otherwise as stated in DroppedObjects; a cache that is fed repeats of placeholders is covered by DroppedObjects.CacheIsStuck only.
- Reader positions across a purge: the deletion of fragments under a reader's pointer is not a step of the reader's runs.
- Header buffers of 16 and 17 bytes: a header that does not fit makes the original give up; header sizes are parameters here, with the bounds that the theorems need.
- Identifiers of 2^62 and more, allocation failure, pointer lifetime and callbacks that return errors.
- The splay trees themselves, and picoquic: packets, streams, TLS and sockets are an environment that offers space, delivers bytes and reports reception or loss.
- The close branch of the relay consumer, which guesses a final identifier when the upstream connection breaks.
- The copy of a whole object out of the cache, which nothing calls.
- Rush mode streams, cache timers, priorities, subscriptions by pattern and notification, connection and stream contexts.
