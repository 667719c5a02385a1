# A verified model of smcf2's data channels and asynchronous messages

smcf2 lets the modules of a program exchange bulk data over channels and short messages through mailboxes. Both
rest on a small concurrent protocol: a fixed set of nodes circulating between a free list, a use list and the
clients of a channel; and, for each module, three drop-oldest rings behind one mutex and one semaphore, fed from one
shared message pool. This project models both, proves what their operations keep over all runs, and, where the code falls
short of a promise, states in which configurations or for which inputs it does.

Three kinds of model are tied together.

* **Objects.** Classes with the fields of the C structures and methods with the code's branches: the circular
  list of `list.h` (`CircularList`), the node list (`NodeList`), the null-terminated lists (`SinglyLinked`), the
  message pool (`MemPool`), rings, mailboxes and their context (`MsgQueue`), module registry and record list
  (`Registration`), the channel table with `read_data` and `write_data` (`DataChannels`, and `Traffic` for any sequence
  of those calls), and registration, manual receive and the message loop (`Core`). Every method is proved against a
  function on values. `Program` and `Mailing` put the methods together: initialisation, any registrations, the start
  and any sequence of channel calls; and messages from their send to the receiver's handler.
* **Values at the grain of whole calls.** `Exchange`, `PoolSpec`, `MailboxSpec`, `Routing`, `Pairing`, `Routes`,
  `Replay` and `Journal` hold those functions and theorems about any sequence of calls, with `Drop_Use_Node` and
  `Node_List_Set_Block` among them.
* **Steps.** `NodeProtocol` and `MailboxProtocol` give every thread a program point: emptiness tests, semaphore waits,
  locked sections statement by statement, posts. Any number of threads interleave freely; each theorem there holds
  in every state of every run. `CallRuns` and `MailboxRuns` prove that a call that runs without interruption does
  what the call-grain function says. `Linearization` matches interleaved runs of a node list with runs of whole calls,
  each taking effect at one of its steps; `Lateness` and `Stranding` say what interleaving adds, in exactly which
  configurations. `Filling` and `Sending` tie what is published, stored and received in an interleaved run to what its
  calls were started with. `Retention` counts what the message pool keeps in use.
  `Paths` holds what all runs have in common, `Sums` what all counting has.

Between calls a channel's client holds a node exclusively, and uses a handle once: `NodeProtocol.MayStart` and
`Exchange.May` say so, and so does the precondition of `DataChannels.DataChannels.WriteData`.

What the proofs show about the code, where that is less than its comments or names suggest:

* The emptiness test in `Get_Free_Node` is outside the lock. A producer can commit to the use list, a consumer can
  then take and release everything, and the producer waits on the use list with a free node at hand and nobody in a
  call able to move. This can happen exactly in keep-update mode with at least one node and two threads, blocking or
  not (`Stranding.StrandedIff`); that moreover every thread waits for good takes blocking mode as well
  (`Stranding.DeadlockedIff`). Call by call a request succeeds exactly when clients hold fewer than all nodes
  (`Exchange.Progress`).
* For the same reason a keep-update producer may take a published node, or give up, while a free one is there, which no
  order of whole calls explains. This can happen exactly with two threads and two nodes, or with one node if the list
  does not block (`Lateness.LateIff`). Every run in which it does not happen, and so every run without keep-update, is
  matched by a run of whole calls (`Linearization.Linearized`, `Linearization.Linearizable`).
* `Node_List_Init` multiplies in 32 bits. Buffers are disjoint and inside the allocation exactly when the product
  fits (`Layout.PlacedIffFits`); `Layout.OverflowExample` is a case where nothing is allocated. The channel table's
  results carry this as a premise on the sender records (`DataChannels.Addressable`).
* `check_producer_consumer_correspondence` joins its conditions with "or" and accepts the sender's own record, so it
  passes exactly when the two counts agree (`Registration.ChnTable.CheckCorrespondence`). A fully paired registration
  passes (`Pairing.PairedPasses`), and so do two modules of which neither has a counterpart
  (`Pairing.UnpairedPasses`). A passed check can be trusted exactly when every receiver names a sender and no two
  receivers name the same one (`Pairing.TrustedIff`).
* The test for "no sender found" in `attach_sender_receiver_chn_info` is inside the loop it is meant to follow and
  never fires; a receiver nobody serves is passed over (`DataChannels.DataChannels.AttachRecord`).
* A dropped message leaves its token behind, so `read_msg` may return NULL; never more often than messages have been
  dropped (`MailboxProtocol.NullIsPaidFor`).
* A registration that fails frees the registry block it has just linked, so it has to be the last one: the next would
  walk through freed memory (`Core.Core.ModuleRegister`).
* `smcf2_recv_msg` and a send to an unknown module never give their message back. The messages lost to the pool are
  exactly those (`Retention.Abandoned`), and apart from them the pool never has more in use than 384 for each mailbox
  and one for each thread (`Retention.MemoryBound`).
* The comments allow NULL message data, the code copies 16 bytes unconditionally; the model follows the code.

## Model

| member | source | states |
|---|---|---|
| NodeProtocol.RunInv | src/utils/node_list/node_list.c:50-156 | every state of every run, with any number of threads and any interleaving of the separate steps, satisfies all laws: tokens, counters, locks, node partition, log, payloads held |
| NodeProtocol.TokenAccounting | src/utils/node_list/node_list.c:65-98 | semaphore value + threads past their wait that have not taken + threads that have linked and not posted = length of the list, for both lists |
| NodeProtocol.NeverTakesFromEmpty | src/utils/node_list/node_list.c:117-126 | no thread dequeues from an empty list, NULL after a wait never happens, and a thread past its wait sees a non-empty list up to its take |
| NodeProtocol.LockedSections | src/utils/node_list/node_list.c:67-74 | at most one thread inside a locked section; with nobody inside, use_cnt and free_cnt are the list lengths |
| NodeProtocol.ExclusiveOwnership | src/utils/node_list/node_list.c:50-156 | each of the n nodes is in exactly one place - free list, use list, a producer's hands, a consumer's hands, or a call under way - and lists repeat and share nothing |
| NodeProtocol.PayloadIntegrity | src/utils/node_list/node_list.c:83-135 | payloads delivered are, in order, a subsequence of those published; the use list is the most recent publications in order; a payload a consumer holds is the one published and stays so |
| Filling.PublishedAsFilled | src/data.c:486-492 | in every interleaved run: what a Put_Use_Node publishes for a node is the payload of the last write into it |
| Filling.PublicationIsFill | src/data.c:486-492 | and nothing else is ever published: every publication is of the last write into its node, or of a node never written |
| Filling.ReceivedAsFilled | src/utils/node_list/node_list.c:83-135 | a consumer that holds a node finds in it what a producer wrote into it last, and that was published and delivered |
| NodeProtocol.RemovesOldest | src/utils/node_list/node_list.c:123-129 | delivery and overwriting alike take the oldest publication not yet removed, and each is recorded for the role of the thread that takes |
| NodeProtocol.OverwriterSawEmpty | src/utils/node_list/node_list.c:57-63 | a producer on the use list saw the free list empty earlier in the same call, in keep-update mode |
| NodeProtocol.NoLostToken | src/utils/node_list/node_list.c:94-119 | nodes on a list without a token: some thread holds a claim on one |
| NodeProtocol.StandstillOnlyOnEmpty | src/utils/node_list/node_list.c:50-156 | either some thread can move, or every thread in a call waits at a list that is empty |
| CallRuns.ReceiveRun | src/utils/node_list/node_list.c:107-135 | an uninterrupted Get_Use_Node, from any reachable state with the locks free, does what Exchange.GetUse says, node, NULL and waiting included |
| CallRuns.RequestRun | src/utils/node_list/node_list.c:50-81 | the same for Get_Free_Node and Exchange.GetFree, overwrite path included |
| CallRuns.PublishRun | src/utils/node_list/node_list.c:83-102 | the same for Put_Use_Node and Exchange.PutUse |
| CallRuns.ReleaseRun | src/utils/node_list/node_list.c:137-156 | the same for Put_Free_Node and Exchange.PutFree |
| Linearization.ActionMatches | src/utils/node_list/node_list.c:50-156 | one step of any interleaving against the call that takes effect with it: the call model follows if and only if it is not a keep-update producer taking or giving up on the use list while there are free nodes |
| Linearization.PointOnce | src/utils/node_list/node_list.c:50-156 | every call takes effect exactly once between its start and its return |
| Linearization.Linearized | src/utils/node_list/node_list.c:50-156 | an interleaved run without such a step is matched, state by state, by a run of Exchange in which each get is placed at its take or failed test and each put at its link |
| Linearization.Linearizable | src/utils/node_list/node_list.c:50-156 | without keep-update every interleaved run is |
| Lateness.LateIff | src/utils/node_list/node_list.c:57-63 | a run can reach such a step if and only if the list is in keep-update mode with two threads and two nodes, or one node and no blocking |
| Stranding.StrandedIff | src/utils/node_list/node_list.c:57-76 | a state with a free node, a producer at a wait and no thread in a call able to move is reachable if and only if the list is in keep-update mode and has a node and two threads |
| Stranding.DeadlockedIff | src/utils/node_list/node_list.c:57-76 | such a state with every thread in a call is reachable if and only if the list blocks as well |
| Stranding.BothLeftWaiting | src/utils/node_list/node_list.c:57-76 | the instance with two nodes and two threads: producer and consumer both wait on the use list |
| Exchange.RunLaws | src/utils/node_list/node_list.c:158-177 | after any calls, drops and mode changes included: nodes conserved, spare use tokens = nodes dropped + wakeup posts - late NULLs >= 0, shadow counters off by exactly overwrites, drops and empty requests |
| Exchange.ShadowSum | src/data.c:403-413 | the two shadow counters and the nodes held add up to the node count less the requests that got NULL |
| Exchange.Progress | src/utils/node_list/node_list.c:57-76 | in keep-update mode a request gets a node exactly when clients hold fewer than n; the oldest free one, or else the oldest published one |
| Exchange.ReceiveWaits | src/utils/node_list/node_list.c:114-121 | a receive waits exactly in blocking mode, on an empty list, with every spare token used up; so never in non-blocking mode |
| Exchange.NeverNull | src/data.c:405-411 | on a list as the channel table sets it up no call ever gets NULL, after any sequence of requests, publications, receives and releases |
| Exchange.FirstPublishedFirstReceived | src/utils/node_list/node_list.c:94-129 | publications followed by receives: nodes come in the order in which they were published, behind those on the list before |
| Exchange.FirstReleasedFirstRequested | src/utils/node_list/node_list.c:65-150 | releases followed by requests: the same for the free list |
| Exchange.UnblockWakes | src/utils/node_list/node_list.c:264-279 | after leaving blocking mode no receive waits: a waiting consumer finds a token, later ones get a node or NULL; tokens are only added, nodes and counters untouched |
| CircularList.Inverse | src/inc/utils/list.h:50-116 | in a held list next and prev are inverse at the head and every entry |
| CircularList.InitListHead | src/inc/utils/list.h:38-42 | the head holds the empty list |
| CircularList.ListEmpty | src/inc/utils/list.h:122-125 | true exactly for the empty list |
| CircularList.ListAddBetween | src/inc/utils/list.h:50-58 | the four links written, the outer two links kept, no payload written |
| CircularList.ListAddTail | src/inc/utils/list.h:82-85 | refines appending to the abstract sequence; writes the entry, the head and the last entry only |
| CircularList.ListUnlink | src/inc/utils/list.h:94-98 | the neighbours point to each other, their outer links and payloads are kept |
| CircularList.ListDel | src/inc/utils/list.h:111-116 | refines removal at any position; writes the entry and its neighbours only |
| CircularList.TakeFirst | src/utils/node_list/node_list.c:125-126 | takes the first node off one of two lists over one pool of nodes; the other list keeps sequence and links |
| CircularList.PutLast | src/utils/node_list/node_list.c:96-97 | appends a node of neither list to one; the other keeps sequence and links |
| NodeList.NodeList.GetUseNode | src/utils/node_list/node_list.c:107-135 | the object's lists, counters and tokens change as Exchange.GetUse says; the node leaves the lists; no payload is written |
| NodeList.NodeList.GetFreeNode | src/utils/node_list/node_list.c:50-81 | the same for Exchange.GetFree |
| NodeList.NodeList.PutUseNode | src/utils/node_list/node_list.c:83-102 | the same for Exchange.PutUse; NULL is refused without effect |
| NodeList.NodeList.PutFreeNode | src/utils/node_list/node_list.c:137-156 | the same for Exchange.PutFree; NULL is refused without effect |
| NodeList.NodeList.DropUseNode | src/utils/node_list/node_list.c:158-177 | terminates with free = old free followed by old use, and leaves the use semaphore alone |
| NodeList.NodeList.NodeListSetBlock | src/utils/node_list/node_list.c:264-279 | the mode is what was asked for; leaving blocking mode posts one token only if there was none; lists and counters untouched |
| NodeList.NodeListInit | src/utils/node_list/node_list.c:192-262 | refused exactly for fewer than two nodes; otherwise n distinct nodes on the free list, counted and matched by tokens, nothing on the use list, the modes asked for, each node with a buffer of the node size of which every byte is zero, or none |
| Layout.PlacedIffFits | src/utils/node_list/node_list.c:229-242 | n >= 2 buffers are pairwise disjoint and inside the one allocation exactly when n * (header + size) fits into 32 bits |
| Layout.OverflowExample | src/utils/node_list/node_list.c:229-237 | node count and size for which the allocation is of zero bytes and the nodes are not inside it |
| Routing.ScanMeans | src/data.c:257-295 | a scan succeeds exactly when every enabled channel has a valid role, and records exactly the enabled channels, each once, in order |
| Routing.RecordsMean | src/data.c:245-341 | registering a module succeeds exactly when every enabled channel of either kind is a sender's or a receiver's; recorded are exactly the enabled channels before the first that is not, the normal ones coming first |
| Routing.RecordsSay | src/data.c:257-336 | normal before hook records, each kind in channel order and no channel twice; a record says whose channel it is, in which role, and for a receiver which module and channel its configuration names |
| Routing.AllRecordsDistinct | src/data.c:245-341 | with distinct module ids no channel is recorded twice and every record is an enabled channel of a registered module |
| Routing.SenderRecorded | src/data.c:257-336 | with distinct ids there is a sender record of a channel exactly if it is an enabled sender's and comes before any invalid role in its module |
| Routing.ResolveOwn | src/data.c:380-401 | a sender's own channel leads to the entry made for it, whatever consumers have been entered |
| Routing.ResolveNone | src/data.c:113-121 | a channel leads nowhere exactly when no such sender is recorded; the -1 of the unused kind is never taken for a channel |
| Routing.RoutingAgreement | src/data.c:378-401 | the search of the table for a module, kind and channel finds an entry exactly when that sender is recorded, and two searches find the same entry exactly when they are for the same module, kind and channel |
| Routing.NamesResolves | src/data.c:149-191 | a receiver record is entered at the entry of the sender it names and at no other |
| Routing.ConsumerIsReceiver | src/data.c:141-194 | every sender ends with the receiver that names it last as its consumer, that is with the receiver's module and with the receiver's channel in the field of the kind, the field of the other kind untouched; one named by none ends without |
| Routes.RouteMeans | src/data.c:345-401 | for any channel of a registered module: a sender's call leads to the entry made for that channel, to send; a receiver's call to the entry made for the module and channel its configuration names, to receive; nowhere exactly without such an entry or without a role |
| Routes.CopiedMeans | src/data.c:486-492 | byte by byte, the first bytes of what is given, as many as the sender's channel size, on a normal channel; what is given itself on a hook channel |
| Routes.ReleaseMeans | src/data.c:494-513 | on a hook channel the release function is called exactly if the channel named by the receiver has one; the release is refused exactly if the module named is not registered; a normal channel does neither |
| Pairing.PairedPasses | src/data.c:35-82 | if every sender is named by exactly one receiver and every receiver names a sender, the counts agree and the check passes |
| Pairing.TrustedIff | src/data.c:35-82 | when the counts agree, all senders and receivers are paired one to one if and only if every receiver names a recorded sender and no two receivers name the same module, kind and channel |
| Pairing.UnpairedPasses | src/data.c:56-68 | two modules register with all their channels recorded, pass the check, and no receiver names any sender |
| Registration.FindModuleMeans | src/module_manager.c:29-53 | the search finds the first module with the id, and nothing exactly when there is none or the id is negative |
| Registration.ModuleTable.SearchModule | src/module_manager.c:29-53 | the pointer walk is that search and stays on the list |
| Registration.ModuleTable.AddModule | src/module_manager.c:55-75 | the registry grows at its end, in registration order, and the count with it |
| SinglyLinked.Append | src/data.c:19-28 | walking to the last cell and linking behind it appends, and writes nothing else |
| Registration.ChnTable.InsertDacList | src/data.c:16-33 | the list stays finite and in order, the new record behind all others |
| Registration.ChnTable.AddRecord | src/data.c:261-289 | a record is linked behind the last one and counted; the two counters stay the numbers of sender and receiver records |
| Registration.ChnTable.ScanChannels | src/data.c:257-336 | one kind's loop appends the records of the scan and reports an invalid role |
| Registration.ChnTable.ModuleDataChannelInit | src/data.c:245-341 | returns 0 exactly when every enabled channel, normal or hook, has one of the two roles; appends the records RecordsMean and RecordsSay speak of; list and counters stay right |
| Registration.ChnTable.CheckCorrespondence | src/data.c:35-82 | returns 0 exactly when there are as many receivers as senders; no walk leaves the list |
| SinglyLinked.Tail | src/module_manager.c:6-27 | the walk ends at the last cell of the list; NULL for the NULL list |
| DataChannels.DataChannels.CreateModuleChannel | src/data.c:84-131 | fails exactly for fewer than two nodes; otherwise one more entry with a list of its own, its producer and its counters, other entries untouched, buffers of the channel's size |
| DataChannels.DataChannels.CreateAll | src/data.c:211-235 | succeeds exactly when every sender's channel can be created; then one entry and one list, made of new objects, for each sender record, in record order; a failure leaves the entries of the senders before the first that cannot be created |
| DataChannels.DataChannels.AttachRecord | src/data.c:149-191 | the entry serving the channel that the receiver names gets the receiver's module and, in the field of its kind, its channel as consumer; all other entries and fields, lists and counters untouched; a receiver nobody serves changes nothing |
| DataChannels.DataChannels.AttachReceivers | src/data.c:133-198 | with equal counts the counted walk handles every record and stays on the list; with different counts nothing changes |
| DataChannels.DataChannels.AttachModuleChannel | src/data.c:200-243 | returns 0 exactly when the counts agree and every sender's channel can be created; then the table is that of all senders with all receivers entered, every normal buffer has its channel's size, and all buffers are disjoint and inside their allocation; otherwise the table is untouched, or holds the senders up to the first that fails, without consumers; all lists are new |
| DataChannels.DataChannels.AttachedConsumer | src/data.c:133-194 | after a successful attach every entry has the producer fields of its sender and, as consumer, the module and channel of the receiver record that names the sender last; none if none does |
| DataChannels.DataChannels.BuffersPlaced | src/utils/node_list/node_list.c:229-242 | a sender record that asks for no more than 32 bits can address gets disjoint buffers inside the allocation |
| DataChannels.DataChannels.FindRoute | src/data.c:345-401 | the entry and role of a call are found by module and channel: a sender's own, the ones a receiver names; unknown module, type, role or source lead nowhere |
| DataChannels.DataChannels.Routed | src/data.c:345-401 | after a successful attach: Routes.RouteMeans for the table as it stands |
| DataChannels.DataChannels.SenderLeads | src/data.c:364-368 | after a successful attach the calls of any enabled sender's channel of a module registered with success lead to the entry made for it, to send |
| DataChannels.DataChannels.Meet | src/data.c:369-401 | and those of any receiver's channel that names it lead to the same entry, to receive |
| DataChannels.DataChannels.ReadData | src/data.c:343-418 | sender: a node as Exchange.GetFree says and the free counter down; receiver: a node as Exchange.GetUse says with its payload and the use counter down; never NULL on these lists; only what belongs to the routed entry is written |
| DataChannels.DataChannels.WriteData | src/data.c:420-517 | sender: on a normal channel the node's buffer then holds, byte by byte, the first bytes given, as many as the channel's size, on a hook channel it is the payload given, and the node is published; receiver: the node is released, after the payload of a hook channel has been given to the sender's release function exactly if there is one; counters follow; failures change nothing; only what belongs to the routed entry is written |
| DataChannels.DataChannels.CreateFor | src/data.c:84-131 | the new entry is made of new objects, its nodes all have buffers of exactly the size its sender copies, and the other entries' still do |
| DataChannels.DataChannels.GetFitted | src/data.c:403-406 | a get keeps every buffer at that size, wherever its node is |
| DataChannels.DataChannels.PutFitted | src/data.c:486-513 | and so does a put |
| DataChannels.DataChannels.FillNode | src/data.c:486-492 | a sender's write into a node it holds keeps every buffer at that size and touches nothing published |
| DataChannels.DataChannels.AttachedRoutes | src/data.c:345-401 | after a successful attach any two read_data or write_data calls that lead anywhere lead to the same entry exactly when they are of the same type and go by the same module and channel: a sender's its own, a receiver's the ones it names |
| Traffic.Traffic.Read | src/data.c:343-418 | every read_data keeps, for every entry, the account of what has been sent, received, overwritten and is still published; it waits exactly when there is nothing to take; the node it yields is the client's to give back; nodes held before stay held with what they said; other channels are as they were |
| Traffic.Traffic.Write | src/data.c:420-517 | every write_data keeps that account; the node given back is no longer the client's, all other nodes held stay so with what they said; other channels are as they were |
| Traffic.Traffic.InOrder | src/data.c:343-517 | in every state that Read and Write keep, on every channel: the payloads received are, in order, among those sent; those still published are the last sent; nothing is missing unless something was overwritten; the shadow counters are off by exactly the number of overwrites |
| Traffic.Traffic.Play | src/data.c:343-517 | any sequence of calls by any modules, with nodes held as long and given back in whatever order clients like, ends with channels, nodes held and histories exactly as Replay.Played says, and so with the above on every channel |
| Replay.PlayedLaws | src/data.c:343-517 | that function of registry, table and calls: no channel gains or loses a node, counting those clients hold, and what has been sent is what has been received followed by what is published, unless something was overwritten |
| Traffic.Traffic.Relay | src/data.c:343-517 | any number of rounds of request, put, get and release over an empty channel wait nowhere, and the receiver is handed exactly the payloads put, one after the other: on a hook channel as they are, on a normal one byte by byte up to the channel's size |
| Journal.EndToEnd | src/utils/node_list/node_list.c:50-156 | the same of any account of one channel, as values |
| PoolSpec.RemoveOcc | src/inc/slist.h:32-46 | removing takes out one occurrence of the pointer and nothing else |
| PoolSpec.HighWaterMark | src/mem.c:29-76 | after any allocations and frees, use and free list hold every unit ever malloc'ed exactly once, and their number is the peak number in use; frees of other pointers change nothing |
| PoolSpec.FreeAllUse | src/mem.c:56-76 | freeing any buffers in use takes exactly those off the use list |
| PoolSpec.FreeAllFree | src/mem.c:29-76 | and puts them in front of the free list, last freed first, so that the last one freed is the next one handed out |
| SinglyLinked.SlistAdd | src/inc/slist.h:20-27 | refines putting in front |
| SinglyLinked.SlistDel | src/inc/slist.h:32-46 | refines removal at any position, the order of the rest kept; an absent cell changes nothing |
| MemPool.MemContext.constructor | src/mem.c:95-101 | two empty lists |
| MemPool.MemInit | src/mem.c:82-104 | refused exactly for unit sizes outside 1 to 32767; otherwise an empty pool |
| MemPool.MemContext.MemAlloc | src/mem.c:29-51 | the most recently freed unit, or a new one exactly when the free list is empty, in front of the use list |
| MemPool.MemContext.MemFree | src/mem.c:56-76 | the unit carrying the pointer moves to the front of the free list, found by one search and unlinked by another; a pointer not in use is left alone |
| MailboxSpec.KeepsLatest | src/async_msg.c:169-181 | any writes without a read leave the last 128 of the queue followed by what was written |
| MailboxSpec.StaysFor128 | src/async_msg.c:169-181 | a message is gone by dropping exactly when 128 later ones have been written |
| MailboxSpec.ReadFront | src/async_msg.c:214-223 | a read takes the first message in read order, high before middle before low, and NULL when there is none |
| MailboxSpec.Drain | src/async_msg.c:190-228 | n reads return what is queued in read order, then NULL once for each spare token, then wait |
| MailboxSpec.WritesThenReads | src/async_msg.c:148-228 | any writes of any priorities to an empty mailbox, then any number of reads: of each priority the last 128, in order, high before middle before low; then NULL as often as messages were dropped; then waiting |
| MsgQueue.Ring.TailModulo | src/async_msg.c:169-181 | tail = (head + msgs) mod 128 |
| MsgQueue.Ring.TakeOldest | src/async_msg.c:216-221 | refines taking the front of the queue |
| MsgQueue.Ring.Store | src/async_msg.c:177-181 | refines appending to the queue |
| MsgQueue.Block.Fetch | src/async_msg.c:210-227 | read_msg on one mailbox object is MailboxSpec.Read |
| MsgQueue.LookupFindsOwn | src/async_msg.c:129-146 | although the state is ignored, a bound id leads to exactly its own block, an unbound non-zero id nowhere |
| MsgQueue.MsgqContext.constructor | src/async_msg.c:41-44 | zeroed blocks are free, unbound and empty, the pool is empty |
| MsgQueue.MsgqContext.GetFreeMsgqbId | src/async_msg.c:68-80 | the first free block is the one after the bound ones; -1 exactly when all are taken |
| MsgQueue.MsgqContext.GetMsgqbByModuleId | src/async_msg.c:129-146 | the search by id is MsgQueue.Lookup over the ids bound so far |
| MsgQueue.MsgqContext.MsgqBind | src/async_msg.c:85-106 | bound blocks stay a prefix in bind order; binding fails without effect exactly when all blocks are taken |
| MsgQueue.MsgqContext.WriteMsg | src/async_msg.c:148-188 | -1 and no effect for an unknown receiver; otherwise MailboxSpec.Write on its mailbox, the victim of a full ring and only it freed, a token posted either way, other mailboxes untouched |
| MsgQueue.MsgqContext.ReadMsg | src/async_msg.c:190-228 | NULL at once for an unknown receiver; otherwise MailboxSpec.Read on its mailbox, other mailboxes and the pool untouched |
| MsgQueue.MsgqContext.AllocMsg | src/async_msg.c:108-120 | PoolSpec.Alloc, mailboxes untouched |
| MsgQueue.MsgqContext.FreeMsg | src/async_msg.c:122-127 | PoolSpec.Free, mailboxes untouched |
| MsgQueue.MsgqContext.SendMsg | src/async_msg.c:273-291 | the message object says what was sent and is allocated and written as above; no other message object is written; after a failed lookup it stays in use; whatever the pool has gained is new |
| MsgQueue.MsgqInit | src/async_msg.c:16-49 | refused exactly outside 1..128 blocks; otherwise that many free mailboxes over an empty pool |
| MailboxProtocol.RunInv | src/async_msg.c:148-291 | every state of every run of senders, receivers and message loops over all mailboxes and one pool satisfies all laws; module id 0 is used only if bound |
| MailboxProtocol.TokenAccounting | src/async_msg.c:167-185 | semaphore + threads between store and post or wait and look = queued messages of all priorities + drops - NULL reads, and NULL reads never exceed drops |
| MailboxProtocol.NullIsPaidFor | src/async_msg.c:210-227 | a reader that finds nothing does so only while fewer NULLs have been read than messages dropped |
| MailboxProtocol.NoLostWakeup | src/async_msg.c:183-210 | with messages queued there is a token, or a thread about to post or to look |
| MailboxProtocol.StandstillOnlyOnEmpty | src/async_msg.c:148-228 | either some thread can move, or every thread in a call waits at a mailbox that is empty and owes no NULL |
| MailboxProtocol.Ownership | src/mem.c:29-76 | the pool's use list is the disjoint union of what sits in the slots of all rings, what threads carry and what has been abandoned; nothing is in use and free at once |
| MailboxProtocol.SlotsDistinct | src/async_msg.c:177-181 | no message sits in two slots, of whatever mailboxes and priorities |
| MailboxProtocol.CarriedAlone | src/core.c:29-45 | a message a sender or a message loop holds is in use, in no slot, not abandoned and held by no other thread |
| MailboxProtocol.DeliveredAsSent | src/async_msg.c:284-290 | per mailbox and priority: stored = gone followed by queued, with the content in memory the content sent; what a reader holds says what was sent; at most 128 queued |
| MailboxProtocol.DeliveredInOrder | src/async_msg.c:214-223 | deliveries of one mailbox and priority are a subsequence of the sends, in order |
| MailboxProtocol.OverwrittenLate | src/async_msg.c:170-176 | a message is dropped only once 128 later ones of its mailbox and priority have been sent, the last perhaps still on its way into its slot |
| MailboxProtocol.HighestFirst | src/async_msg.c:214-223 | a delivery is the front of a queue whose higher priorities are all empty |
| MailboxProtocol.DrainsFromAnyRun | src/async_msg.c:190-228 | from any reachable state with nobody busy on a mailbox, successive reads return its content in read order, then NULL exactly drops - NULLs times, then wait |
| Sending.SendRun | src/async_msg.c:273-291 | smcf2_send_msg from start to return, uninterrupted: the queue it was called for records exactly the sender, id and data it was called with and ends in a message that says so, in a buffer that was not in use; all other queues and messages are untouched |
| Sending.SentIsStored | src/async_msg.c:273-291 | in every interleaved run: of the steps between start and return of a call exactly one records something if the receiver has a mailbox, and it records exactly what the call was started with in the queue it was started for; none does otherwise |
| Sending.StoredWasSent | src/async_msg.c:273-291 | and whatever any queue has recorded comes from such a call |
| Sending.ReceivedWasSent | src/async_msg.c:253-261 | in every interleaved run what smcf2_recv_msg is about to return to a module, or a message loop to hand to its handler, comes from an earlier smcf2_send_msg to that module with exactly this sender, id and data |
| Retention.RunCount | src/mem.c:29-76 | in every state of every run the messages in use are as many as are queued, held by threads and abandoned |
| Retention.Abandoned | src/async_msg.c:253-291 | as many messages are abandoned as smcf2_recv_msg has returned and as sends have found no mailbox |
| Retention.MemoryBound | src/mem.c:29-51 | in every state of every run the pool has at most 384 messages in use for each mailbox, one for each thread, and one for each such receipt or send |
| MailboxRuns.WriteIsWrite | src/async_msg.c:148-188 | an uninterrupted write_msg in the protocol is MailboxSpec.Write, the victim and only it freed |
| MailboxRuns.ReadIsRead | src/async_msg.c:190-228 | an uninterrupted read_msg of a bound mailbox in the protocol is MailboxSpec.Read, for smcf2_recv_msg past its registry checks, which abandons the message, and for a message loop, which frees it; NULL is counted, without a token it waits |
| MailboxRuns.DrainRun | src/async_msg.c:190-228 | a run of one reader, manual or message loop, from any reachable state with nobody busy on the mailbox: first it receives exactly what is queued, in read order and each with its content, then it is paid every NULL owed, and then it waits |
| Core.Smcf2Init | src/core.c:50-82 | 64 free mailboxes, no module, no record, all of it new |
| Core.Core.ModuleRegister | src/core.c:103-148 | mailbox, registry and channel records in this order, in cells that are new; a missing mailbox is not noticed; -1 exactly if some enabled channel is neither a sender's nor a receiver's, else what thread creation returned where a thread was wanted, else 0; that failure frees the block that stays linked |
| Core.Core.RegistrationRun | src/core.c:103-127 | in every state that ModuleRegister keeps, so after any registrations of modules with distinct ids, of which only the last may have failed: the first ones as far as mailboxes go are led to exactly their own, the others nowhere, every module is found in the registry, and no channel is recorded twice |
| Core.Core.RecvMsg | src/async_msg.c:237-264 | refused to unknown modules and to those with automatic processing; otherwise sender, id and data of the next message, which stays in use |
| Core.Core.MessageLoop | src/core.c:29-45 | in any number of rounds the handler is called for the queued messages in read order with what they said, each goes back to the pool, NULLs are passed over, and the loop waits when the tokens are used up |
| Mailing.Converse | src/async_msg.c:273-291 | up to 128 messages of one priority sent to an empty mailbox, and as many rounds of the receiver's loop: the handler is called with exactly what was sent, in this order, and the pool then has exactly the messages in use that it had before |
| Program.RegisterEach | test/smcf2_demo.c:73-98 | one registration after the other, up to the first module with an invalid role or without the thread it wants, keeps the registry's invariant; without such a module all are registered |
| Program.Boot | test/smcf2_demo.c:66-98 | after initialisation and any such registrations every module registered is found, led to its own mailbox or none, and recorded with all its channels, none twice |
| Program.Start | src/core.c:84-97 | smcf2_start over what has been registered succeeds exactly when the counts agree and every sender's channel can be created; then all lists are new, filled and well placed, and the table is that of all senders with all receivers entered |
| Program.Run | test/smcf2_demo.c:66-107 | from nothing through registrations, start and any sequence of channel calls: it gets there exactly if every module is accepted, the counts agree and every channel can be created; what is then sent, received, held and still published is exactly what Replay.Played says; every channel delivers in order, and loses nothing unless something was overwritten |

## Left out

- Logging, thread names, sleeps, `smcf_initialized`, signal handling, timers and the demo modules: input and output only.
- Synchronous messages (`src/sync_msg.c`): one lookup and one callback.
- Teardown (`msgq_deinit`, `mem_deinit`, `Node_List_Deinit`) and failing `malloc`; of a failing `pthread_create`, all but what registration then returns.
- `Set_Node_Private`, the `context` back pointer and the `_private` field of a node: nothing reads them.
- Pointers kept in `int`, `container_of` and structure layout: object references stand for them, `Layout` treats the one computation where the word size matters. Poison values in deleted list entries are null.
- NULL payloads, `send_simple_msg` and `broadcast_simple_msg`: the copy of 16 bytes is unconditional, so a 16-byte payload is required.
- Priorities outside 0..2, channel numbers outside 0..3, channels that ask for more than 32 bits can address, negative node counts or sizes, negative or duplicate module ids, more than 128 sender records, attaching without any record: outside what the code can handle, stated as preconditions or types.
- Sends to and reads of module id 0 while it is unbound: `MsgQueue.Lookup` shows that they reach the first free block; the step model leaves unbound blocks out and excludes such calls by a precondition, `MailboxProtocol.MayStart`.
- Liveness of `Get_Free_Node` between steps beyond `Stranding.StrandedIff`: progress is claimed for whole calls.
- `Drop_Use_Node` and `Node_List_Set_Block` between steps: nothing in the repository calls them; they take part at the grain of whole calls only.
- Binding a mailbox while messages flow: the set of bound mailboxes is fixed in `MailboxProtocol`; binding is treated in `MsgQueue` and `Core`.
- The pool has no lock of its own: each pool call is one step, as if it had one. The shadow counters of `src/data.c` change in one step with their call.
- The user's release function and message handler: what they are called with is modelled, what they do is not; a handler's return value is only logged by the code.
- NodeProtocol.PayloadIntegrity: assumes that clients use a handle once and write only to nodes they hold, because the code does not check it.
- Core.Core.ModuleRegister: requires that no earlier registration failed, because the code then walks through the block it has freed.
- Core.Core.MessageLoop: runs for a given number of rounds up to its first wait instead of for ever; waiting is where another thread would take over.
- DataChannels.DataChannels.ReadData: NULL from a list is excluded because the lists are in blocking mode without spare tokens; the code would dereference it for a receiver.
