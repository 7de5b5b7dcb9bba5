# A model of the avim routing kernel

`libavproto` is an instant-messaging library: kernels with interfaces pass packets along
metric-sorted routes, ask each other for public keys, and deliver encrypted data to named users.
This project models its routing kernel as a state machine over steps, together with the coroutine
queue, the wire format, the chunked RSA and the address syntax it rests on, and proves properties of
single steps, of all runs of one kernel, and of all runs of any network of kernels.

| file | what it models |
|---|---|
| `Address.dfy` | address parsing and printing, with a backtracking matcher for the fixed pattern |
| `Cipher.dfy` | the four block loops over an abstract RSA block primitive, and their two-stage use |
| `Framing.dfy` | encoding, decoding, and cutting a byte stream into packets |
| `CoroQueue.dfy` | the rendezvous queue with time-outs and cancellation, as operations and as an object |
| `Link.dfy` | write queue, single writer, socket and peer's reader, composed |
| `RouteTable.dfy`, `KeyStore.dfy` | the route table and the store of trusted keys |
| `Protocol.dfy` | the kernel's steps as functions of its state |
| `Kernel.dfy` | the kernel as an object with the loops of the source, proved equal to `Protocol.dfy` |
| `KernelInvariant.dfy`, `KernelEffects.dfy` | what every step keeps, costs and releases |
| `KernelSteps.dfy` | what each step does to every field, in plain terms |
| `Network.dfy`, `AtMostOnce.dfy` | any number of kernels: traffic dies out, and packets are never duplicated |
| `LinkOrder.dfy` | the byte-level pipeline and the network agree on the order of a link and of its completions |
| `Honesty.dfy`, `Integrity.dfy` | what is delivered is what was sent, when interfaces carry their owners' keys |
| `Journey.dfy` | a packet with a route and time to live is carried to its destination and delivered |
| `KeyFetch.dfy` | a send without a key asks for it, is answered, and transmits; from the send to the delivery |
| `Patience.dfy` | no send waits for ever |
| `Example.dfy` | one run of two kernels that meets what the theorems assume |
| `Std.dfy` | sequences, filters, sums, distinctness and sorting |

A step is the stretch of a coroutine between two suspensions; the shipped programs run the
io_service on one thread, so a step is atomic. Clock readings, the padding drawn by RSA encryption
and the order in which an unstable sort leaves equal keys are parameters of the steps, and every
theorem holds for all of them.

Where the code and its evident intent differ, the model follows the code, with two exceptions:

- `avjackif::get_ifname` makes up a new name at each call (`libavproto/src/avjackif.cpp:157-161`),
  with which no interface could ever be found again. The model treats the name as a stable field, as
  the declared `ifname` and `allocate_ifname` suggest (`libavproto/include/avjackif.hpp:47-49`).
- The timed `async_pop` could not be compiled as it is: no standard container has both the `push` and
  `pop` used elsewhere and the `pop_front` used there (`libavproto/src/async_coro_queue.hpp:152`,
  `:179`), and the wrapper calls a shared pointer as a function (`:60`). The model takes its evident
  intent.

In these places the code does other than one might expect, and the model does the same:

- `purge_RSA_pubkey` increments its iterator twice after erasing an entry
  (`libavproto/src/avkernel.cpp:541-544`), and so skips an entry or leaves the map. The model does
  the same; `KeyStore.PurgeIsExact` says exactly when the result is the purge that was meant, and
  `KeyStore.StaysInsideExactly` exactly when the iterator stays inside the map;
  `KeyStore.SecondDeadEntrySurvives` and `KeyStore.LoneDeadEntryOverruns` show that neither need be.
- `decode` rejects a message with an empty body (`libavproto/src/serialization.cpp:81`), and does not
  guard against buffers under eight bytes or a negative name length; the latter are the outcome
  `Unguarded`, which `Framing.UnguardedExactly` characterises.
- `cancele` ends parked waits only if some pop is parked too
  (`libavproto/src/async_coro_queue.hpp:355-366`); `CoroQueue.CancelKeeps` states this as it is,
  and `CoroQueue.CancelLeavesWait` is a run.
- A timed pop may complete twice; `CoroQueue.TwiceOnlyIfLate` says exactly when, and
  `CoroQueue.TimedPopCompletesTwice` gives a run. The passing of a deadline and the run of its timer
  handler are two steps, because cancelling a timer has no effect between them
  (`libavproto/src/async_coro_queue.hpp:29-63`). The comment above the untimed pop holds and is
  `CoroQueue.ExactlyOnceInOrder`.
- A failed socket write stays inside `async_write_packet` (`libavproto/src/avjackif.cpp:198-203`), so
  a send whose packet was written ends in success whether or not the bytes arrived. `Ok` in this
  model means no more than that.

## Model

| member | source | states |
|---|---|---|
| Network.TrafficDiesOut | libavproto/src/avkernel.cpp:190-274 | In any network of kernels, with any wiring and any, even cyclic, routes, from any packets in flight, and for every run: the packets processed never exceed the initial potential plus 448 for each send begun. |
| Network.StepPotential | libavproto/src/avkernel.cpp:240-271 | The measure behind it: whatever the step, processed packets plus what all packets in flight and all waiting sends can still cause grows by at most 448, and only when a send begins. |
| Network.StepCounts | libavproto/src/avkernel.cpp:190-274 | The counts behind it: each processing and each send that begins counts once, and nothing else does. |
| Network.RunKeepsKernels | libavproto/src/avkernel.cpp:190-694 | Every kernel keeps its whole invariant in every run of every network. |
| AtMostOnce.DeliveredAtMostOnce | libavproto/src/avkernel.cpp:133-271 | In every run from the start no packet is in flight twice, in flight and delivered, or delivered twice, at one kernel or several; identities survive forwarding, and the receive buffer of every kernel is exactly the deliveries made to it, in order. |
| AtMostOnce.StepKeepsOnePlace | libavproto/src/avkernel.cpp:240-271 | The inductive step: a processed packet leaves its place before it takes at most one new one, and everything newly made gets exactly one place. |
| Integrity.DeliveredAsSent | libavproto/src/avkernel.cpp:176-186 | End to end over all runs, hops, losses and reorderings, where interfaces carry their owners' keys: no kernel throws, each receive buffer is exactly the deliveries made to its kernel in order, and each delivery carries the printed source address and the original data of a send whose target that kernel owns. |
| Integrity.StepSound | libavproto/src/avkernel.cpp:190-274 | Every enabled step keeps all stores, packets in flight and deliveries honest. |
| Journey.CarriedToDestination | libavproto/src/avkernel.cpp:190-274 | From any network an honest run has reached, with a data packet in flight from where the routes lead over h links, fewer than its time to live, to its destination, and for every continuation that neither loses nor diverts this packet: processed at most h times it is in flight, that many links nearer; processed once more it is delivered, genuinely; never both, never twice. |
| Journey.StepCarries | libavproto/src/avkernel.cpp:240-271 | For any packet, request and reply included, and any one step of any kernel: processed short of its destination it is one link nearer, and otherwise where it was. |
| Journey.ElsewhereSpares | libavproto/src/avkernel.cpp:549-591 | Interfaces and routes changed at kernels off the packet's course do not divert it. |
| Journey.CanBeProcessed | libavproto/src/avkernel.cpp:190-274 | A data packet on course can be processed at once, at whatever time. |
| Journey.StepOnCourse | libavproto/src/avkernel.cpp:240-271 | For any one step of any kernel: processing a data packet brings it one link nearer, or delivers it at the last; every other step leaves it where it is. |
| Journey.SendSetsOut | libavproto/src/avkernel.cpp:408-477 | A send with a selected route and a stored key puts a packet in flight that has the time to live for every course of up to 63 links. |
| KeyFetch.KeylessSendIsDelivered | libavproto/src/avkernel.cpp:394-482 | From a send without a key to its delivery, over any run of an honest network in which its three packets are neither lost nor diverted: the reply comes home while it waits, and its data is then so many links nearer to the target as it has been processed, or delivered, genuinely and once. |
| KeyFetch.KeyIsFetched | libavproto/src/avkernel.cpp:417-437 | A send without a key, over routes that lead its request over h links to an interface whose address is the target and the reply back over b: in every run in which the two are neither lost nor diverted, up to h processings of the request, by identity, leave it that much nearer; one more makes the reply; up to b of that leave it that much nearer to home; one more, h + b + 2 in all, makes the send transmit, unless it had ended by then. |
| KeyFetch.ReplyReleases | libavproto/src/avkernel.cpp:157-174 | A reply processed at its destination ends exactly the waits for the printed address it comes from, so a kernel that answers from another of its addresses releases nobody who asked for this one. |
| KeyFetch.ReplySetsOut | libavproto/src/avkernel.cpp:433-477 | The reply that ends a wait puts the data packet of that send on course in the same step, for any course of up to 63 links. |
| KeyFetch.AskSetsOut | libavproto/src/avkernel.cpp:417-437 | A send without a key enqueues one request on the selected interface and waits. |
| KeyFetch.AskIsAnswered | libavproto/src/avkernel.cpp:151-155 | A request at its destination puts a reply in flight from the interface at which it arrived, to the printed address of the requester. |
| KeyFetch.StepFetching | libavproto/src/avkernel.cpp:190-274 | The inductive step: any one action that processes the packet of the fetch brings the fetch exactly one nearer to its end, and every other leaves it where it is. |
| Patience.FourTicksEndWaiting | libavproto/src/avkernel.cpp:421-442 | No send waits for ever: however often its kernel ticks and whatever else happens, once four of the ticks of a run have come after the deadline of the wait the send was then in, it waits no more. |
| Patience.FourDeadlinesEndWaiting | libavproto/src/avkernel.cpp:421-442 | The same read off the schedule alone, for ticks as frequent as the timer makes them: the first tick past a deadline ends that wait, the next lasts 8 seconds from the time then read, and behind the fourth such deadline there is none. |
| Patience.TickMovesDeadline | libavproto/src/avkernel.cpp:670-681 | A tick that has not passed the deadline of a wait leaves it as it is; one that has starts a wait of 8 seconds from the time it reads, if any. |
| Patience.TickCosts | libavproto/src/avkernel.cpp:670-681 | A tick past its deadline costs a waiting send one of its requests, or ends it; its next wait ends 8 seconds after the time it reads. |
| Patience.MovedProlongsNothing | libavproto/src/avkernel.cpp:190-437 | No other step prolongs a wait or gives a send another. |
| Example.DataDelivered | libavproto/src/avkernel.cpp:190-482 | One run of two kernels, keys fetched and all, from nothing to a delivery: what the theorems about honest networks assume can be met. |
| Journey.DeliveredOnArrival | libavproto/src/avkernel.cpp:176-186 | After any honest run, processing any data packet where its destination is local logs exactly one more delivery: its send's data under its sender's printed address. |
| Honesty.ArrivalDelivers | libavproto/src/avkernel.cpp:176-186 | A data packet built for a target, with whatever time to live is left, processed where the target is local: exactly (printed source, original data) is appended to the receive buffer. |
| Honesty.HopForwards | libavproto/src/avkernel.cpp:245-271 | A hop that is not the destination and has time to live and a route to spare enqueues exactly this packet with one less to live, on the selected interface, and receives nothing. |
| Honesty.DataOpens | libavproto/src/avkernel.cpp:179-181 | At its target's owner the two decryption stages yield the data of the send, and the packet's source and destination are those of the send. |
| Honesty.ProcessHonest | libavproto/src/avkernel.cpp:190-274 | Processing an honest packet throws nothing, stores only true keys, pushes only honest packets and receives only what was sent. |
| KernelInvariant.ProcessKeeps | libavproto/src/avkernel.cpp:190-274 | Processing any packet on any interface, its scope-exit block included, keeps the invariant: sorted routes to live interfaces, non-empty sorted key entries, no waiter for an address whose key is stored, waiters in one-to-one correspondence with waiting sends, and every send within its budget. |
| KernelInvariant.TickKeeps | libavproto/src/avkernel.cpp:664-694 | So does a timer tick during which released senders put themselves on the list again. |
| KernelInvariant.StartKeeps | libavproto/src/avkernel.cpp:394-437 | So does starting a send. |
| KernelInvariant.WriteCompletedKeeps | libavproto/src/avkernel.cpp:312-328 | So does the completion that the writer calls for a packet, once per packet. |
| KernelInvariant.CompletionIsAwaited | libavproto/src/avkernel.cpp:474-481 | The completion of a data packet always finds its send in the write, its handler not yet called, and calls it; no guard is needed for that. |
| KernelInvariant.ResumeAllKeeps | libavproto/src/avkernel.cpp:417-481 | Any number of sends taken off the waiter list, resumed one after another, leave the invariant whole and the key store unchanged. |
| KernelInvariant.AddInterfaceKeeps | libavproto/src/avkernel.cpp:735-744 | Adding an interface keeps it, and a live interface of that name exists afterwards. |
| KernelInvariant.AddRouteKeeps | libavproto/src/avkernel.cpp:575-591 | Adding a route for a live interface keeps it, whichever sorted permutation the unstable sort picks. |
| KernelInvariant.RemoveInterfaceKeeps | libavproto/src/avkernel.cpp:549-561 | Removing an interface keeps it, and no route leads to that interface afterwards. |
| KernelInvariant.PurgeKeeps | libavproto/src/avkernel.cpp:527-546 | The purge as written keeps it, even where it skips entries or its iterator leaves the map. |
| KernelInvariant.SelectNeverMisses | libavproto/src/avkernel.cpp:563-573 | The lookup of a selected route's interface never throws; no route is found exactly if none matches; otherwise the interface belongs to a matching route of least metric. |
| KernelInvariant.LooseAfterRelease | libavproto/src/avkernel.cpp:192-206 | The waiters a packet releases are exactly the sends taken loose, each once, and no remaining waiter has a key. |
| KernelEffects.ProcessLoad | libavproto/src/avkernel.cpp:240-271 | A packet weighs strictly more than everything its processing enqueues or lets sends enqueue later: weight is max(ttl,1), plus 64 for a key request. |
| KernelEffects.StartLoad | libavproto/src/avkernel.cpp:417-477 | A send adds at most 3*128+64 = 448 to the load, however it goes. |
| KernelEffects.TickLoad | libavproto/src/avkernel.cpp:664-681 | A tick adds nothing: a repeated request was already in its send's budget. |
| KernelEffects.OneFate | libavproto/src/avkernel.cpp:240-271 | Processing a packet forwards it once, or answers it once, or receives it once, or does none of these; never two of them, never one twice. |
| KernelEffects.ReleasedWhenKeyArrives | libavproto/src/avkernel.cpp:192-206 | After a packet the waiter list is the old one, in order, less exactly the waiters whose key is now stored. |
| KernelEffects.ReleasedSendsTransmit | libavproto/src/avkernel.cpp:433-477 | Exactly the sends of the released waiters have gone on to write their data packet in the same step; no other send changes. |
| KernelEffects.TickReleasesExpired | libavproto/src/avkernel.cpp:668-681 | With senders registering anew while the list is walked: survivors keep their order, the new waiters follow in the order of release, and everyone released was waiting for a key that is still missing; unless the clock steps back by more than 8 seconds meanwhile, nobody on the list has expired. |
| KernelEffects.ExpiredSendsRetry | libavproto/src/avkernel.cpp:421-442 | Exactly the sends of the expired waiters ask again, or end unreachable after their third request; no other send changes. |
| KernelEffects.ProcessGrows | libavproto/src/avkernel.cpp:190-274 | Outbox, receive buffer and handler calls only grow, and no send's target, data or interface ever changes. |
| KernelEffects.RawTargetIsUnreachable | libavproto/src/avkernel.cpp:417-442 | A send to a name without `@` finds no key, is released by no packet, never enqueues a data packet, and can only end unreachable, without a route or after three requests. |
| KernelEffects.ReplyReachesRequester | libavproto/src/avkernel.cpp:606-621 | A key request is answered with one reply from the arrival interface whose destination equals the request's source exactly if that source is well formed. |
| KernelSteps.LocalExactly | libavproto/src/avkernel.cpp:118-130 | A packet is local exactly if some interface has its user and domain. |
| KernelSteps.ResourcePlaysNoPart | libavproto/src/avkernel.cpp:118-130 | Every resource of an interface's address is local. |
| KernelSteps.FirstMatchIsSelected | libavproto/src/avkernel.cpp:563-573 | The first route in table order that matches decides, whatever comes after it. |
| KernelSteps.FirstContact | libavproto/src/avkernel.cpp:208-232 | A key that comes with a packet from an address without an entry is stored there alone, valid for 500 hours, and every send waiting for that address, and no other, is released in the same step. |
| KernelSteps.NothingLearned | libavproto/src/avkernel.cpp:208-236 | Any other packet that is no reply for this kernel leaves the store as it is: it carries no key, or its address has an entry, which is not replaced. |
| KernelSteps.ReplyAddsKey | libavproto/src/avkernel.cpp:157-174 | A reply for this kernel adds to its sender's entry exactly the certificate's key with 500 hours to live, losing none of the old, in order of expiry, and touches no other entry. |
| KernelSteps.ReceivesExactly | libavproto/src/avkernel.cpp:176-186 | A local packet that is neither request nor reply is decrypted whatever its protocol; failure throws; only the data of an avim packet is received, empty if it has no payload; nothing else is received or throws. |
| KernelSteps.EnqueuesExactly | libavproto/src/avkernel.cpp:192-271 | Processing enqueues first the answer or the packet itself with one less to live, if it is a local request or a foreign packet with a route and more than one hop left, and then data packets of sends whose key has come; nothing else, and no request. |
| KernelSteps.ResumesExactly | libavproto/src/avkernel.cpp:192-206 | Exactly the sends whose wait ends because their target's key is now stored go on to write; no other send changes, and no handler is called. |
| KernelSteps.DataPacketOpens | libavproto/src/avkernel.cpp:448-471 | A data packet has the interface's address and key, the target, 64 hops to live, and a payload that opens to the data with the target's key. |
| KernelSteps.SendWithoutRoute | libavproto/src/avkernel.cpp:408-415 | A send without a route calls its handler at once with the error and does nothing else. |
| KernelSteps.SendWithKey | libavproto/src/avkernel.cpp:448-477 | A send with a route and a key enqueues one data packet on the route's interface, sealed with the latest-expiring key, and does nothing else. |
| KernelSteps.SendWithoutKey | libavproto/src/avkernel.cpp:421-437 | A send with a route and no key enqueues one empty request with 64 hops to live, and waits for 8 seconds; nothing else changes. |
| KernelSteps.ThreeRequests | libavproto/src/avkernel.cpp:421-442 | At most three requests and one data packet for a send, and exactly three requests before it gives up for want of a key. |
| KernelSteps.TickResumesExactly | libavproto/src/avkernel.cpp:668-681 | A tick moves exactly the sends of waiters whose deadline lies before its time, to the next request if fewer than three were made and else to their end; no key, no receipt, no table changes. |
| KernelSteps.TickWaitersExactly | libavproto/src/avkernel.cpp:668-681 | Afterwards exactly those waiters are on the list whose deadline has not passed, and those with 8 seconds more that the sends of the others have put there. |
| KernelSteps.CompletionExactly | libavproto/src/avkernel.cpp:325-326 | A completion ends the send of a data packet with success, does nothing for other packets, and touches nothing else. |
| KernelSteps.AddsOneInterface | libavproto/src/avkernel.cpp:735-744 | Only an interface of a new name is added; all others, and everything else, stay. |
| KernelSteps.RemovesOneInterface | libavproto/src/avkernel.cpp:549-561 | The interface and exactly its routes go; every other interface is as before, and the other routes stay in their order and number. |
| KernelSteps.OtherRoutesStand | libavproto/src/avkernel.cpp:549-573 | A target routed over another interface is routed over it still. |
| Kernel.Kernel.constructor | libavproto/src/avkernel.cpp:697-708 | A new kernel is the initial state and satisfies the invariant. |
| Kernel.Kernel.ProcessReceivedPacket | libavproto/src/avkernel.cpp:190-274 | The object ends in the state the specification gives for an order of keys that the sort may indeed choose, invariant included; the waiters left are exactly those without a key. |
| Kernel.Kernel.PostProcess | libavproto/src/avkernel.cpp:192-206 | The erase-while-iterating loop, whose handlers resume senders in the middle of it, equals releasing the satisfied waiters and resuming their sends in list order. |
| Kernel.Kernel.DispatchPacket | libavproto/src/avkernel.cpp:208-273 | Learning the sender's key, then local delivery, death, dropping or forwarding, as specified. |
| Kernel.Kernel.ProcessToMe | libavproto/src/avkernel.cpp:133-187 | Request, reply or data, as specified; a reply's keys are some sorted permutation of the old ones and the new. |
| Kernel.Kernel.Timer1Tick | libavproto/src/avkernel.cpp:664-694 | After a tick nobody on the list has expired and the invariant holds, whatever the clock does; the state is the specified one unless the clock steps back by more than the 8 seconds of a wait. |
| Kernel.Kernel.ReleaseExpired | libavproto/src/avkernel.cpp:670-681 | The erase-while-iterating loop terminates although resumed senders append to the list it walks, because each asks a limited number of times; it equals the split-then-resume specification unless the clock steps back by more than 8 seconds during it. |
| Kernel.Kernel.AsyncSendto | libavproto/src/avkernel.cpp:394-486 | A send begins exactly as specified, is recorded as one more send, and keeps the invariant. |
| Kernel.Kernel.ResumeSend | libavproto/src/avkernel.cpp:419-477 | From the test of the key to the next suspension: transmit, ask again, or give up. |
| Kernel.Kernel.WriteCompleted | libavproto/src/avkernel.cpp:326-326 | The writer's completion of a packet calls the handler of that data packet's send with success, and nothing for other packets. |
| Kernel.Kernel.IsToMe | libavproto/src/avkernel.cpp:118-130 | True exactly if some interface has this user and domain; the resource plays no part. |
| Kernel.Kernel.SelectRoute | libavproto/src/avkernel.cpp:563-573 | The loop returns the first matching route's interface and, on a valid table, never a missing one. |
| Kernel.Kernel.AddRoute | libavproto/src/avkernel.cpp:575-591 | Refused exactly if the interface is unknown; otherwise the table is a sorted permutation of the old one with the new route. |
| Kernel.Kernel.RemoveInterface | libavproto/src/avkernel.cpp:549-561 | The search-erase loop removes exactly the routes of the interface, keeps the others in their order, and removes the interface and no other. |
| Kernel.Kernel.AddInterface | libavproto/src/avkernel.cpp:735-744 | An interface of the same name stays; the result is always true. |
| Kernel.Kernel.AddKey | libavproto/src/avkernel.cpp:515-525 | The entry becomes a sorted permutation of its old keys and the new one; both places that learn a key go through it. |
| Kernel.Kernel.PurgeKeys | libavproto/src/avkernel.cpp:527-546 | The double-increment loop, entry by entry in map order; false exactly if the iterator steps past the end, with the store as it is then. |
| Kernel.Kernel.Timer2Tick | libavproto/src/avkernel.cpp:658-662 | The iterator stays inside the map if and only if an even number of dead entries ends it; the store is then as a full purge would leave it if and only if every entry erased is followed by one with nothing to purge; in either case, and also at a step past the end, keys only disappear. |
| RouteTable.SelectIsLeast | libavproto/src/avkernel.cpp:563-573 | On a sorted table the first match has the least metric of all matches, and nothing is returned exactly if nothing matches. |
| RouteTable.WithoutErase | libavproto/src/avkernel.cpp:554-559 | Erasing any one route of an interface brings the table nearer to the table without them and changes nothing else. |
| RouteTable.WithoutSorted | libavproto/src/avkernel.cpp:554-559 | Erasing routes keeps the table sorted. |
| RouteTable.Sort | libavproto/src/avkernel.cpp:584-584 | Sorted by metric and a permutation; nothing about equal metrics. |
| KeyStore.FindsLatest | libavproto/src/avkernel.cpp:506-513 | A key is found exactly if there is an entry; it expires last of its entry, so it is unexpired if any key there is. |
| KeyStore.CutKeepsUnexpired | libavproto/src/avkernel.cpp:532-540 | On a sorted entry, cutting from the first expired key equals keeping just the unexpired ones. |
| KeyStore.PurgeIsExact | libavproto/src/avkernel.cpp:527-546 | The loop as written purges the store as intended if and only if every entry it erases is followed by one with nothing to purge. |
| KeyStore.StaysInsideExactly | libavproto/src/avkernel.cpp:530-545 | The loop's iterator never leaves the map if and only if the number of dead entries in a row at its end is even. |
| KeyStore.DeadTailEnds | libavproto/src/avkernel.cpp:530-545 | What that number is: so many entries at the end have nothing but expired keys, and the one before them does not. |
| KeyStore.LoneDeadEntryOverruns | libavproto/src/avkernel.cpp:541-544 | A concrete store, of one expired entry, at which the iterator leaves the map. |
| KeyStore.EachEntryPurged | libavproto/src/avkernel.cpp:527-546 | One visit per entry equals filtering every entry by validity and dropping the emptied ones. |
| KeyStore.PurgeByTheClock | libavproto/src/avkernel.cpp:530-545 | What the purge is for, by the clock: of each entry the keys valid until now or later, in order, and the entries that have one. |
| KeyStore.DeadExactly | libavproto/src/avkernel.cpp:532-541 | An entry is dead exactly if every key in it expired before now. |
| KeyStore.SecondDeadEntrySurvives | libavproto/src/avkernel.cpp:541-544 | A concrete store of two expired entries of which the second survives the purge. |
| KeyStore.PurgeShrinks | libavproto/src/avkernel.cpp:527-546 | Whatever the loop skips, it only removes whole entries or the last keys of entries. |
| KeyStore.Sort | libavproto/src/avkernel.cpp:524-524 | Sorted by descending expiry and a permutation. |
| CoroQueue.RunKeeps | libavproto/src/async_coro_queue.hpp:134-382 | Every sequence of operations keeps: values pushed are values handed out followed by those stored; live pops are served in registration order; values and consumers never wait for each other; a timer runs, is due, or has fired, once; a result that has run has stopped its timer. |
| CoroQueue.ExactlyOnceInOrder | libavproto/src/async_coro_queue.hpp:134-154 | Untimed pops, every run: pushed == handed out ++ stored, and registered pops == completed ++ parked, both in order and without repetition. |
| CoroQueue.TwiceOnlyIfLate | libavproto/src/async_coro_queue.hpp:33-64 | Timed pops, every run: settled at most once, timed out at most once, and both if and only if at some point of the run the timer's handler ran when a result had already been posted. |
| CoroQueue.SecondCompletion | libavproto/src/async_coro_queue.hpp:33-64 | The same for one step: a pop gets its second completion exactly if the step is its timer handler, due, with a result posted. |
| CoroQueue.TimeoutWasDue | libavproto/src/async_coro_queue.hpp:57-64 | No pop times out in a run unless its deadline passed at a point where no result of it had run; a result that runs earlier cancels the timer. |
| CoroQueue.TimedPopCompletesTwice | libavproto/src/async_coro_queue.hpp:157-181 | A concrete run in which one timed pop completes with a value and with a timeout. |
| CoroQueue.PushOutcome | libavproto/src/async_coro_queue.hpp:303-348 | Behind the wake-ups of the waiting, exactly this value is posted to the first parked handler that has not timed out, past any number of tombstones; it is stored exactly if there is none; a flagged handler never receives it. |
| CoroQueue.CancelOutcome | libavproto/src/async_coro_queue.hpp:353-382 | Cancelling posts exactly: a cancellation to each parked wait, if a pop is parked, and then one to each live pop, in the order of their registration; no timer is touched. |
| CoroQueue.WaitOutcome | libavproto/src/async_coro_queue.hpp:184-199 | A wait with values stored is ready at once and takes none of them; otherwise it is parked behind the others. |
| CoroQueue.FireOutcome | libavproto/src/async_coro_queue.hpp:33-55 | A timer handler posts the timeout of its own pop, flags it, and touches no other pop's timer. |
| CoroQueue.RunNextOutcome | libavproto/src/async_coro_queue.hpp:57-64 | A value or cancellation that runs stops the timer of its own pop and no other. |
| CoroQueue.HandKeeps | libavproto/src/async_coro_queue.hpp:322-347 | The recursion past tombstones terminates and keeps the invariant at each one. |
| CoroQueue.CancelKeeps | libavproto/src/async_coro_queue.hpp:353-382 | Cancelling ends every parked pop and loses no stored value; it ends the parked waits exactly if there were none or some pop was parked too. |
| CoroQueue.CancelLeavesWait | libavproto/src/async_coro_queue.hpp:353-366 | A concrete run in which a parked wait survives the cancellation. |
| CoroQueue.WaitsOnceInOrder | libavproto/src/async_coro_queue.hpp:184-199 | Waits, every run: those woken or cancelled followed by those parked are those registered, in order and without repetition. |
| CoroQueue.PopKeeps | libavproto/src/async_coro_queue.hpp:134-154 | A pop parks or is served without breaking conservation or order. |
| CoroQueue.FireKeeps | libavproto/src/async_coro_queue.hpp:33-55 | A timer handler that runs flags its pop once and keeps the books of late completions. |
| CoroQueue.RunNextKeeps | libavproto/src/async_coro_queue.hpp:57-64 | A completion that runs stops its pop's timer, so that no timer is running for a result that has run. |
| CoroQueue.Queue.constructor | libavproto/src/async_coro_queue.hpp:107-110 | A new queue is empty and satisfies the invariant. |
| CoroQueue.Queue.AsyncPop | libavproto/src/async_coro_queue.hpp:134-154 | The object's new state is the specified one, and the invariant holds. |
| CoroQueue.Queue.AsyncPopTimed | libavproto/src/async_coro_queue.hpp:157-181 | The same with a deadline timer for a parked handler. |
| CoroQueue.Queue.AsyncWait | libavproto/src/async_coro_queue.hpp:184-199 | Posted at once if a value is stored, parked otherwise. |
| CoroQueue.Queue.PushValue | libavproto/src/async_coro_queue.hpp:303-348 | Both assertions of the source are proved on the way; the new state is the specified one. |
| CoroQueue.Queue.GiveOrStore | libavproto/src/async_coro_queue.hpp:322-347 | The recursive second half, for any list of parked handlers. |
| CoroQueue.Queue.Cancele | libavproto/src/async_coro_queue.hpp:353-382 | The drain loop posts a cancellation to every live handler in order and drops the others. |
| CoroQueue.Queue.TimerExpires | libavproto/src/async_coro_queue.hpp:29-30 | A deadline passes only for a running timer, and can then no longer be cancelled. |
| CoroQueue.Queue.TimerFires | libavproto/src/async_coro_queue.hpp:33-55 | Flags the handler and posts the timeout, once, for a deadline that has passed. |
| CoroQueue.Queue.RunOne | libavproto/src/async_coro_queue.hpp:57-64 | The oldest posted completion runs and stops its pop's timer. |
| Link.PeerReadsPrefix | libavproto/src/avkernel.cpp:312-358 | Every run of senders, forwarders, the single writer, partial socket writes, failure, shutdown and arriving bytes: the peer has read a prefix of the packets pushed, in push order; and all of them once the socket has held, no value is stored or posted, no frame is half written and all bytes have arrived, with the writer parked, about to pop, or gone. |
| Link.CompletePops | libavproto/src/avkernel.cpp:317-327 | Only the writer's own pop can complete, so no packet is taken while another is being written. |
| Link.CompleteOnWire | libavproto/src/avjackif.cpp:198-203 | The bytes accepted by the socket and those of the frame being written are the frames of the packets taken, in order. |
| Link.RunKeeps | libavproto/src/avkernel.cpp:312-358 | The pipeline invariant holds in every run. |
| Link.CompletionsInPushOrder | libavproto/src/avkernel.cpp:317-327 | In every run the packets whose completion the writer has called are a prefix of those pushed, in push order, hence none twice; once the writer is idle, all of them. |
| Link.QuitStopsWriter | libavproto/src/avkernel.cpp:317-327 | After an interface has quit, however the run goes on, its writer takes at most the one packet that was already on its way to it. |
| Link.CanDrain | libavproto/src/avkernel.cpp:312-328 | From every state of a link whose socket holds and which has not quit, the writer and the wire can be brought to rest without another push. |
| Link.AllCanArrive | libavproto/src/avkernel.cpp:312-358 | However far a run of such a link has come, there is a way on after which the peer has read everything pushed, in order, and every completion has been called. |
| LinkOrder.TakenInPushOrder | libavproto/src/avkernel.cpp:312-358 | In every run of a network that takes a link's packets oldest first, or calls their completions oldest first, those taken followed by those outstanding are exactly those pushed to that interface, in push order. |
| LinkOrder.PeerReadsWhatIsTaken | libavproto/src/avkernel.cpp:312-358 | Of the packets such a run takes off a link and those that the peer reads, byte by byte, out of the same pushes, one list begins the other. |
| LinkOrder.WriterCallsWhatIsTaken | libavproto/src/avkernel.cpp:317-327 | The same for the completions that such a run calls and those that the writer calls. |
| LinkOrder.EverySendIsTold | libavproto/src/avkernel.cpp:474-481 | With no completion of the interface outstanding, every send that put its data packet there has ended in success, and no handler has been called twice. |
| LinkOrder.IdleWriterHasToldAll | libavproto/src/avkernel.cpp:312-358 | Exactly once, over runs: when the writer is idle, and the run of the network has called as many completions of the link as the writer has, the handler of every send with a data packet on it has been called, once. |
| LinkOrder.OldestOnLink | libavproto/src/avkernel.cpp:317-327 | Such a run can always go on: a link that is not empty has an oldest packet. |
| Framing.SplitFrames | libavproto/src/avjackif.cpp:183-196 | Reading the concatenated frames of any list of non-empty, representable messages yields exactly that list and goes on behind it. |
| Framing.SplitResumes | libavproto/src/avjackif.cpp:183-196 | Where the received segments end does not matter: reading continues from the left-over bytes. |
| Framing.ReceivedIsPrefix | libavproto/src/avjackif.cpp:183-196 | Any byte prefix of the frames of a list reads as a prefix of that list, without an error. |
| Framing.UniquelyDecodable | libavproto/src/serialization.cpp:43-67 | Two lists of messages with the same byte stream are the same list. |
| Framing.DecodeUndoesFrame | libavproto/src/serialization.cpp:70-104 | Decoding a message's frame gives the message back if and only if its body is non-empty and the frame is below 2 GiB. |
| Framing.AcceptedExactly | libavproto/src/serialization.cpp:70-104 | Below 4 GiB, a buffer is accepted as a message if and only if it is that message's frame, the message is known, and it has a body and stays below 2 GiB. |
| Framing.AcceptedIsKnown | libavproto/src/serialization.cpp:89-102 | A message of an unknown type, or with a body that does not parse, is never accepted, from whatever buffer. |
| Framing.UnknownIsRejected | libavproto/src/serialization.cpp:89-102 | The well-formed frame of an unknown message is rejected. |
| Framing.UnknownStops | libavproto/src/avjackif.cpp:183-196 | A stream of known messages, then an unknown one, then anything: exactly the known ones are read, and the reading ends there. |
| Framing.ReadsOnlyKnown | libavproto/src/avjackif.cpp:183-196 | Whatever the stream, everything read from it is known. |
| Framing.TakesExactly | libavproto/src/avjackif.cpp:183-193 | A frame is complete exactly when as many bytes have come as its length says, and four; a length whose sum wraps is recognised exactly. |
| Framing.AcceptedIsFrame | libavproto/src/serialization.cpp:70-104 | An accepted buffer is the frame of what it decodes to if and only if it is shorter than 4 GiB. |
| Framing.ReadUndoesBigEndian | libavproto/src/serialization.cpp:48-58 | Reading back a 32-bit big-endian length, whatever follows it. |
| Framing.BigEndianUndoesRead | libavproto/src/serialization.cpp:75-80 | The other direction, for every four bytes. |
| Framing.BigEndianValue | libavproto/src/serialization.cpp:48-58 | The first byte counts most: the value of the four bytes is the number. |
| Framing.ConversionsWrap | libavproto/src/serialization.cpp:47-56 | The conversions keep a length modulo 2 to the 32 and bring it into the range of the type. |
| Framing.Encode | libavproto/src/serialization.cpp:43-67 | Reserving four bytes and filling them in afterwards yields the message's frame, or nothing if the body cannot be serialized. |
| Framing.PacketReader.Arrive | libavproto/src/avkernel.cpp:365-389 | Whatever the chunks, the packets delivered so far are those of the whole stream received so far, all of them known, up to the first null packet or the first frame on which the source reads outside the buffer, where the contract ends. |
| Framing.UnguardedExactly | libavproto/src/serialization.cpp:70-96 | The frames, as the reader cuts them, on which decoding reads or copies outside the buffer: exactly those under eight bytes, and those with a negative name length that is not rejected first. |
| Framing.UnguardedBelowTwoGiB | libavproto/src/serialization.cpp:70-96 | Below 2 GiB: exactly those under eight bytes or with the high bit of the name length set. |
| Framing.UnguardedAnywhere | libavproto/src/serialization.cpp:70-96 | The same for any buffer, whether or not the reader cut it. |
| Cipher.BlocksRoundTrip | libavproto/include/avproto.hpp:35-63 | For every key size above 11 and every input, block-wise decryption undoes block-wise encryption. |
| Cipher.CipherLength | libavproto/include/avproto.hpp:35-49 | The ciphertext is k * ceil(n / (k - 11)) bytes long. |
| Cipher.EncryptedBlock | libavproto/include/avproto.hpp:43-47 | Block j of the ciphertext is chunk j of the input, sealed with a draw of its own. |
| Cipher.DecryptsInOrder | libavproto/include/avproto.hpp:57-61 | For any input: blocks are opened from the front, a last short one included, and their plaintexts put together in order. |
| Cipher.BadBlockSpoils | libavproto/include/avproto.hpp:57-61 | A block that does not open, wherever it stands, leaves no plaintext at all. |
| Cipher.ForgedBlockOpensNothing | libavproto/src/avkernel.cpp:176-182 | A payload with a block that the key it claims does not open gives no data. |
| Cipher.OpenUndoesSeal | libavproto/src/avkernel.cpp:452-454 | The two stages cancel for any two unrelated key sizes, although their block boundaries do not line up. |
| Cipher.EncryptLoop | libavproto/include/avproto.hpp:65-89 | The index loop over a reused block buffer computes the block-wise encryption. |
| Cipher.DecryptLoop | libavproto/include/avproto.hpp:91-113 | The same for decryption; a block that does not open spoils the whole. |
| Cipher.SealMessage | libavproto/src/avkernel.cpp:452-454 | Both stages as the sender runs them; the receiver's stages give the data back. |
| Cipher.OpenMessage | libavproto/src/avkernel.cpp:176-182 | Both stages as the receiver runs them, on any payload and any sender key of positive size, whether or not it decrypts. |
| Cipher.PaddingOnlyMeetsContract | libavproto/include/avproto.hpp:35-113 | The block contract that all of this assumes of RSA can be met: padding around the identity meets it at every size above 11. |
| Address.FromStringSplits | libavproto/src/avif.cpp:17-35 | The greedy backtracking matcher on the fixed pattern reads every string as: split at the first `@`, then at the first `/` after it; without `@`, the default domain. |
| Address.RoundTrip | libavproto/src/avif.cpp:17-44 | Parsing a printed address gives it back if and only if the user has no `@` and the domain no `/`. |
| Address.ParsedIsWellFormed | libavproto/src/avif.cpp:17-35 | Every parsed address is well formed. |
| Address.CanonicalText | libavproto/src/avif.cpp:17-44 | Printing a parsed string gives the string itself exactly if it contains `@`, otherwise the string with `@avplayer.org` appended; doing it twice changes nothing more. |
| Address.PrintedIsCanonical | libavproto/src/avif.cpp:37-44 | Every printed address contains `@` and is its own canonical name. |

## Left out

- CoroQueue.TwiceOnlyIfLate: does not promise a single completion to timed pops, because the code does not give one; it says exactly when there are two. Timer handlers may run in any order relative to posted completions.
- KeyStore.PurgeIsExact: is a condition rather than an unconditional claim, because the loop skips entries; what the loop does after a step past the end of the map is undefined in C++, so a network purges only in the states that `KeyStore.StaysInsideExactly` describes.
- KernelEffects.RawTargetIsUnreachable: says that such a send can end in no other way, not that timers keep ticking; that a tick moves every expired wait on is `KernelEffects.ExpiredSendsRetry`.
- Link.PeerReadsPrefix: the pipeline is a state machine on values, because its steps interleave three coroutines; the queue in it is the specification that `CoroQueue.Queue` is proved against.
- Network.TrafficDiesOut: kernels in the network record their pushes in an outbox, and packets in flight may be processed in any order or lost; `LinkOrder.PeerReadsWhatIsTaken` relates this to the write queues and bytes of `Link`.
- Journey.CarriedToDestination: nothing makes a step happen: how soon the packet is processed is up to the schedule.
- KeyFetch.KeyIsFetched: follows one request and its reply, and supposes that these are not lost; a lost one is repeated by the timer, at most twice.
- Kernel.Kernel.ProcessReceivedPacket: one clock reading serves a whole step, whereas the source reads the clock once per key and per wait; in a timer tick every resumed send reads its own.
- Kernel.Kernel.AddRoute: the `assert` in front of the test ends a debug build when the interface is unknown; the model is the release build, which returns false.
- Kernel.Kernel.WriteCompleted: the packets still queued when an interface quits are never written, in the source as in the model, and the handlers of their sends are never called.
- Network.RunKeepsKernels: the completions of the packets in an outbox may be called in any order, each once; `LinkOrder.WriterCallsWhatIsTaken` relates this to the writer.
- Cipher.EncryptLoop: with a key of 11 bytes or less the loop never ends in the source; the precondition excludes it, and in `Protocol.SealWith` such a key yields no ciphertext.
- Cipher.DecryptLoop: with a key of size zero the loop never gets past a non-empty input in the source; the precondition excludes that, and in `Cipher.DecryptBlocks` it yields no plaintext.
- Framing.PacketReader.Arrive: the reader after a socket error, where the source resumes with whatever the buffer holds, is not modelled; nor is what the source reads outside its buffer at the frames of `Framing.UnguardedExactly`. Reading stops at the first null packet.
- Kernel.Kernel.ReleaseExpired: if the clock steps back by more than 8 seconds while the loop runs, a sender can be released more than once in one tick; termination, the invariant and an unexpired list are proved for that case too, the exact state is not.
- OpenSSL: RSA itself is a contract on blocks (at most k-11 bytes become exactly k bytes, and come back; section 7.2.1 of RFC 8017), shown to be satisfiable; certificates are an abstract pair of functions, so a reply whose certificate does not parse is not modelled.
- The public exponent is always 65537, so a public key is its modulus.
- Protobuf field encoding and the type registry: a packet's body is bytes, and a predicate says which names and bodies are known.
- Regular expressions in routes: an arbitrary relation between patterns and addresses; only the address pattern is concrete.
- The comparison of a packet's key with a stored one and certificate requests, which the source leaves as comments.
- The list of handlers to call before processing: nothing in the source ever adds to it.
- User handlers are logged, not run; a handler that calls back into the kernel is a later step.
- `async_recvfrom` is the pop of the queue module on the receive buffer; `clear` of the queue is not modelled.
- The blocking `sendto` and `recvfrom`, threads, lifetimes of pointers held across suspensions, the login handshake, logging, the GUI and the demo programs.
