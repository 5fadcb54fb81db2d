# A model of the native traffic engine

The native part of this repository carries a device's traffic through a local proxy: packets
from the tunnel are scheduled and framed by the BadVPN half (`app/src/main/jni/badvpn`), and
connections are opened, watched and retried with other strategies by the byedpi half
(`app/src/main/jni/byedpi`). The project models seven of its mechanisms in Dafny and proves what
they are for. Socket results, the kernel, the clock and random numbers are inputs.

| file | what it models |
|---|---|
| `FairQueue.dfy` | the fair packet queue: smallest virtual time first, 64-bit rescaling, bounded waiting |
| `PrefixOrder.dfy`, `SearchTree.dfy`, `PrefixIndex.dfy` | the prefix index: comparators, search tree as a value, and the linked nodes that implement it |
| `Events.dfy`, `EventPairs.dfy`, `TimerList.dfy`, `EventPool.dfy` | the event pool: an event's fields, pair cycles, the sorted timer list, and slots, deletion and stale events |
| `Strategy.dfy` | choosing a strategy group, reordering the groups, reconnecting |
| `TlsRecords.dfy`, `TlsMerge.dfy`, `TlsFramer.dfy` | cutting TLS records in place, joining them again, and following record framing chunk by chunk |
| `PacketStream.dfy`, `PassInterface.dfy` | packets over a byte stream, and the job protocol between sender and provider |
| `BProto.dfy`, `Ipv6Text.dfy` | the generated message writer and parser, and reading and printing IPv6 addresses |
| `Common.dfy` | definitions shared by the rest |

Each mechanism is described twice. Functions on plain values say what a step means, and the
theorems over all inputs and all runs are about them. Classes and methods, with the fields,
arrays and loops of the C code, are proved to compute exactly these steps.

Where the code does less than its purpose asks, the model follows the code and says exactly when
it works:

- The prefix index serves a set of keys, whatever is added, deleted and looked up, if and only if
  no key of the set sorts between two related ones (`SearchTree.IndexServesExactly`). No address
  does that. Some host name does exactly when one is another one behind a character below `.`,
  a hyphen for example, and the other one has a proper sub-domain in the set
  (`SearchTree.HostsCohereExactly`, `SearchTree.HyphenHidesParent`).
- `cache_get` passes a length in bytes where bits are counted, and so expires the first entry, on
  the way to the one it has found, that agrees with the address in as many bits as it has bytes
  (`SearchTree.ExpiryErasesTopmost`, `SearchTree.WrongEntryExpires`).
- `next_event_tv` takes a failed wait for a timeout when the caller's type variable still holds
  that value (`EventPool.Pool.NextEventTv`, `EventPool.FailedWaitFires`).
- `part_tls` answers `n` when the cut lies outside the record, which its caller takes for a cut:
  the fragments asked for are there if and only if all cuts lie within the first record
  (`TlsRecords.FragmentsExactly`, `TlsRecords.CutMayMissRecord`).
- The loop of `tamp` divides by zero at a random offset counted from a fragment that begins where
  the data end, or from an empty host name (`TlsRecords.ZeroDivisionExactly`,
  `TlsRecords.RandomCutAfterEnd`).
- `merge_tls_records` compares with a length that it does not reduce, and so can take bytes it
  has already moved for a header, or never end (`TlsMerge.SplitThenMerge`,
  `TlsMerge.MergeEndsExactly`, `TlsMerge.MergeNeverEnds`, `TlsMerge.TrapNeverEnds`). Whether it
  ends is decided for buffers of up to 65545 bytes, a bound that the caller keeps: the
  application's buffers have 16384 (`params.bfsize`, `app/src/main/jni/ciadpi_jni.c:99`).
- After `swop_groups` the decision whether to reconnect is read from the place that the chosen
  group has moved to, as `auto_level` stays with the place; it comes out otherwise exactly when
  one of the two groups forbids reconnecting and the other does not
  (`Strategy.SwapTurnsDecision`, `Strategy.SwapAllowsReconnect`).

- A double colon may stand for no group at all, and a group may have any number of leading zeros,
  neither of which section 2.2 of RFC 4291 allows (`Ipv6Text.ParsesExactly`,
  `Ipv6Text.DoubleColonForNothing`).
- New flows can hold a waiting flow of the fair queue back: each that joins may send for its share
  first (`FairQueue.NoStarvation`).

Characters are octets, compared without sign. A pointer into a fixed array (events, strategy
groups, flows) is the index of its element; the nodes of the prefix index are objects. Bit masks
are sets of bit numbers.

## Model

| member | source | states |
|---|---|---|
| FairQueue.EveryRun | app/src/main/jni/badvpn/flow/PacketPassFairQueue.c:118-217 | over every run from initialisation: a flow is queued at most once and in order of time, the sending flow is not queued and has the smallest time, sending excludes the schedule job, a previous flow implies it; every ASSERT of the next handler holds; and a queued flow always has a send in progress or the job coming |
| FairQueue.StepInv | app/src/main/jni/badvpn/flow/PacketPassFairQueue.c:139-217 | every handler keeps that invariant, and its ASSERTs hold in the state it starts from |
| FairQueue.ChargeIsExact | app/src/main/jni/badvpn/flow/PacketPassFairQueue.c:79-116 | in every state of the invariant an overflowing charge takes the same amount off every queued flow, none is clamped, their order stays, and the sent flow ends at the integer time - subtract + amount, which is in range |
| FairQueue.UnderflowThenOverflow | app/src/main/jni/badvpn/flow/PacketPassFairQueue.c:108-115 | a 64-bit subtraction below zero followed by a 64-bit addition gives the integer result whenever that is in range |
| FairQueue.LagNeverGrows | app/src/main/jni/badvpn/flow/PacketPassFairQueue.c:79-180 | no event, raising and rescaling included, lets a flow fall back behind a queued one; a charge brings it closer by its whole amount and happens only while it is not past it |
| FairQueue.BoundedWaiting | app/src/main/jni/badvpn/flow/PacketPassFairQueue.c:118-217 | while flow f stays queued any other flow is charged in total at most its lag behind f plus packet_weight and the MTU, and nothing if it is already past f |
| FairQueue.NoStarvation | app/src/main/jni/badvpn/flow/PacketPassFairQueue.c:118-217 | over every run in which f stays queued, whatever flows join, leave and submit, the packet weight of all completed sends together is at most the shares of the flows there were at its beginning and one share for each that joined; schedule jobs are at most one more than sends; and unless the queue is being freed one of the two can always happen |
| FairQueue.SharesStep | app/src/main/jni/badvpn/flow/PacketPassFairQueue.c:79-217 | every event takes what it charges off what all flows together may still be charged before a waiting flow is sent; only a newcomer adds a share |
| FairQueue.GapShrinks | app/src/main/jni/badvpn/flow/PacketPassFairQueue.c:52-180 | no event moves a waiting flow further behind the later of another flow's time and the current time, and a charge moves it closer by the whole charge |
| FairQueue.Queue.Init | app/src/main/jni/badvpn/flow/PacketPassFairQueue.c:219-266 | refuses exactly the weights that with the MTU would pass the 64-bit maximum; otherwise the queue starts empty and idle |
| FairQueue.Queue.GetCurrentTime | app/src/main/jni/badvpn/flow/PacketPassFairQueue.c:52-77 | the time of the sending flow, or the smaller of the previous flow's and the first queued flow's, or zero |
| FairQueue.Queue.IncrementSentFlow | app/src/main/jni/badvpn/flow/PacketPassFairQueue.c:79-116 | the code's wrapping arithmetic leaves exactly the times that the integer rule gives, for every flow |
| FairQueue.Queue.ScheduleFirst | app/src/main/jni/badvpn/flow/PacketPassFairQueue.c:118-137 | the first flow of the tree leaves it and becomes the sending flow with its packet |
| FairQueue.Queue.ScheduleJobHandler | app/src/main/jni/badvpn/flow/PacketPassFairQueue.c:139-151 | one step of the machine: the previous flow is forgotten and the first queued flow, if any, is sent |
| FairQueue.Queue.InputHandlerSend | app/src/main/jni/badvpn/flow/PacketPassFairQueue.c:153-180 | one step of the machine: the flow is raised to the current time unless it sent last, is queued, and is sent at once when nothing else is under way |
| FairQueue.Queue.OutputHandlerDone | app/src/main/jni/badvpn/flow/PacketPassFairQueue.c:182-217 | one step of the machine: the sent flow is charged weight plus length, becomes the previous flow, and the job is set |
| FairQueue.Queue.InitFlow | app/src/main/jni/badvpn/flow/PacketPassFairQueue.c:296-321 | a new flow joins with time zero and in no role |
| FairQueue.Queue.FreeFlow | app/src/main/jni/badvpn/flow/PacketPassFairQueue.c:323-351 | a flow leaves the tree and every role; the others keep theirs |
| PrefixOrder.BitCmpIsPrefixCmp | app/src/main/jni/byedpi/mpool.c:10-19 | bit_cmp on keys with data for their bits is the lexicographic order that calls two bit strings equal when one begins with the other |
| PrefixOrder.ByteCmpIsPrefixCmp | app/src/main/jni/byedpi/mpool.c:21-24 | byte_cmp is the same order on the bytes |
| PrefixOrder.HostOrderExactly | app/src/main/jni/byedpi/mpool.c:26-34 | host_cmp is the same order on reversed names with a dot behind if and only if the names do not first differ where one has ended and the other goes on below '.' |
| PrefixOrder.HostZeroIsSubdomain | app/src/main/jni/byedpi/mpool.c:26-34 | host_cmp answers 0 exactly for a domain and its sub-domains, whatever characters they have |
| PrefixOrder.ComparesByRank | app/src/main/jni/byedpi/mpool.c:36-42 | whatever the keys, scmp answers 0 for keys whose codes are prefixes of one another and otherwise what a total order says |
| PrefixOrder.CompareIsPrefixCmp | app/src/main/jni/byedpi/mpool.c:36-42 | scmp is the prefix order of the codes for addresses and byte strings, and for host names if and only if they do not first differ where one has ended and the other goes on below '.' |
| PrefixOrder.Transitive | app/src/main/jni/byedpi/mpool.c:10-42 | being strictly smaller is transitive although being equal is not |
| PrefixOrder.ExtensionSortsAlike | app/src/main/jni/byedpi/mpool.c:10-42 | what extends a key sorts with the others as the key does, or is equal to them where the key is |
| PrefixOrder.HostCmp | app/src/main/jni/byedpi/mpool.c:26-34 | the loop from the ends of the names computes the order by last characters |
| PrefixOrder.Scmp | app/src/main/jni/byedpi/mpool.c:36-42 | the dispatch on the kind of pool computes the comparison of that kind |
| SearchTree.FindFinds | app/src/main/jni/byedpi/kavl.h:49-58 | over keys none of which sorts between two related ones, and a prefix-free tree, a lookup finds a stored element that is prefix-related to the key if there is one, and nothing otherwise |
| SearchTree.InsertInserts | app/src/main/jni/byedpi/kavl.h:23-48 | whatever the keys, linking in a key that the walk does not find adds exactly it and keeps the tree sorted |
| SearchTree.EraseErases | app/src/main/jni/byedpi/kavl.h:59-88 | whatever the keys, erasing removes exactly the element a lookup finds and keeps the tree sorted |
| SearchTree.FindStored | app/src/main/jni/byedpi/kavl.h:49-58 | whatever the keys, looking a stored key up finds something |
| SearchTree.AddStep | app/src/main/jni/byedpi/mpool.c:70-73 | each pass of the loop of mem_add removes one node, whatever the keys, so it ends |
| SearchTree.AfterIndexes | app/src/main/jni/byedpi/mpool.c:52-85 | over keys none of which sorts between two related ones, every sequence of additions and deletions leaves a search tree in which no stored key begins another |
| SearchTree.AddKeeps | app/src/main/jni/byedpi/mpool.c:63-77 | when a stored key is an equal or shorter prefix of the new one the tree stays as it is and that element is the result |
| SearchTree.AddReplaces | app/src/main/jni/byedpi/mpool.c:63-77 | otherwise exactly the stored keys that extend the new one go, and the new one is stored and returned |
| SearchTree.IndexIsASet | app/src/main/jni/byedpi/mpool.c:52-85 | over such keys the stored keys are prefix-free and as many as the nodes after any additions and deletions, and a lookup succeeds iff a stored key is prefix-related to what is looked up |
| SearchTree.IndexServesExactly | app/src/main/jni/byedpi/mpool.c:52-85 | over a set of keys every sequence of additions and deletions stays prefix-free and answers every lookup as the set of stored keys would, if and only if no key of the set sorts between two related ones |
| SearchTree.HostsCohereExactly | app/src/main/jni/byedpi/mpool.c:26-34 | a set of host names is of that kind if and only if it holds no name that is another one behind a character below '.' of which it holds a proper sub-domain |
| SearchTree.OrderlyKeysCohere | app/src/main/jni/byedpi/mpool.c:10-42 | all addresses, all byte strings, and all names without characters below '.' are of that kind |
| SearchTree.BetweenHides | app/src/main/jni/byedpi/mpool.c:52-77 | of any three keys that are not, two can be stored so that the lookup of the third misses its relative and adding it stores both |
| SearchTree.HostLookup | app/src/main/jni/byedpi/mpool.c:26-55 | over such names a lookup of a host succeeds iff the name itself, a domain above it or one below it is stored |
| SearchTree.HostsPrefixFree | app/src/main/jni/byedpi/mpool.c:63-85 | over such names no domain is ever stored together with one of its sub-domains |
| SearchTree.StoredParentIsFound | app/src/main/jni/byedpi/extend.c:200-211 | over such names check_host accepts a name iff it or a domain above it is stored |
| SearchTree.HyphenHidesParent | app/src/main/jni/byedpi/mpool.c:26-34 | names with characters below '.' break the index: after "-a" and "a" a lookup of "x.a" misses, and adding it stores a domain beside its sub-domain |
| SearchTree.ExpiryErasesTopmost | app/src/main/jni/byedpi/extend.c:91-105 | cache_get hands mem_delete a length in bytes where bits are counted: the element removed is the first on the way from the root to the expired one that agrees with the address in that many bits, so the expired one goes iff none before it does |
| SearchTree.WrongEntryExpires | app/src/main/jni/byedpi/extend.c:91-105 | with 10.0.0.2 and then 10.0.0.1 stored, the lookup finds the second, which has expired, and it is the first that goes |
| PrefixIndex.Index.KavlFind | app/src/main/jni/byedpi/kavl.h:49-58 | the loop over links returns the node that the search on the tree's keys finds, or null |
| PrefixIndex.Index.KavlInsert | app/src/main/jni/byedpi/kavl.h:23-48 | linking the node in makes the tree of keys the one with the key inserted; an equal key leaves the tree alone and its node is returned |
| PrefixIndex.Index.KavlErase | app/src/main/jni/byedpi/kavl.h:59-88 | relinking, with the least node of the right subtree moved up, makes the tree of keys the one with the key erased |
| PrefixIndex.Index.MemGet | app/src/main/jni/byedpi/mpool.c:52-55 | the node found has the key the search finds; null iff there is none |
| PrefixIndex.Index.MemAdd | app/src/main/jni/byedpi/mpool.c:63-77 | whatever the keys, the loop ends, and the linked tree, the count and the element returned are those of adding the key: kept prefix, or all extensions replaced |
| PrefixIndex.Index.MemDelete | app/src/main/jni/byedpi/mpool.c:79-85 | whatever the keys, the linked tree and the count are those of erasing the key |
| EventPool.EveryRunIsWhole | app/src/main/jni/byedpi/conev.c:35-105 | over every run of additions, deletions, timers, fetched batches, dispatched entries and pairings: links stays a permutation, live events know their slot, the timer list is doubly linked, sorted and holds exactly the live events with a deadline, live events pair only with live ones, and touched events are those with the current iteration number |
| EventPool.InitialIsWhole | app/src/main/jni/byedpi/conev.c:9-33 | the pool that init_pool makes has all of that, whatever its items hold |
| EventPool.NothingStaleIsDispatched | app/src/main/jni/byedpi/conev.c:124-141 | in every run from that pool, the event of a dispatched entry is live, and no addition or deletion since its batch was fetched has taken, closed or reused it |
| EventPool.DispatchIsDispatched | app/src/main/jni/byedpi/conev.c:124-141 | the dispatch of a run is what the loop of next_event finds |
| EventPool.OperationKeepsWhole | app/src/main/jni/byedpi/conev.c:35-214 | each single operation keeps all of that |
| EventPool.ClosedIs | app/src/main/jni/byedpi/conev.c:63-105 | whatever the pair fields, the steps of del_event, followed along the pairs, close exactly the events on the chain and keep slots, timer list and batch in order around them |
| EventPool.NothingDangles | app/src/main/jni/byedpi/conev.c:63-105 | a deletion takes out the whole pair cycle of the event, no live event points at a deleted one afterwards, and the pair fields still form cycles |
| EventPairs.ChainIsCycle | app/src/main/jni/byedpi/conev.c:96-104 | nobody outside an event's pair chain points into it |
| EventPairs.ChainReturns | app/src/main/jni/byedpi/conev.c:96-104 | following the pair fields from a paired event leads back to it |
| EventPairs.RingedKeepsPairs | app/src/main/jni/byedpi/proxy.c:503-506 | the three links of a UDP association form a cycle beside the others |
| EventPairs.CoupledKeepsPairs | app/src/main/jni/byedpi/proxy.c:452-453 | the two links of a connection form a cycle beside the others |
| EventPairs.RepairedKeepsPairs | app/src/main/jni/byedpi/extend.c:194-196 | a reconnection couples the client with its new remote and cuts the old one loose |
| TimerList.LinkInOk | app/src/main/jni/byedpi/conev.c:190-204 | linking an event in between two neighbours in order gives the list with the event at that place, linked both ways and sorted |
| TimerList.LinkOutOk | app/src/main/jni/byedpi/conev.c:206-214 | unlinking the event at a place gives the list without that place, linked both ways and sorted |
| EventPool.ArmedInv | app/src/main/jni/byedpi/conev.c:190-204 | an armed event stands behind all earlier deadlines and before all others, and the pool's invariant holds |
| EventPool.UntimedInv | app/src/main/jni/byedpi/conev.c:206-214 | removing a timer keeps the pool's invariant and touches nothing but timer fields |
| EventPool.DroppedInv | app/src/main/jni/byedpi/conev.c:75-95 | a closed event leaves the live prefix by trading places with its last entry, and the others keep their invariant |
| EventPool.Pool.AddEvent | app/src/main/jni/byedpi/conev.c:35-61 | the next free slot is filled, and becomes live unless registration fails; nothing changes when the pool is full |
| EventPool.Pool.SetTimer | app/src/main/jni/byedpi/conev.c:190-204 | an event without a deadline is armed at now + ms in the sorted list; one that has a deadline is left alone |
| EventPool.Pool.RemoveTimer | app/src/main/jni/byedpi/conev.c:206-214 | the event is unlinked and its deadline cleared |
| EventPool.Pool.DelEvent | app/src/main/jni/byedpi/conev.c:63-105 | terminates, and leaves the pool in the state those steps lead to: exactly the events on the pair chain closed, the 3-cycle included; all other live events keep descriptor, iteration, deadline and pair |
| EventPool.Pool.Delete | app/src/main/jni/byedpi/conev.c:63-105 | called from outside, a deletion keeps every invariant of the pool |
| EventPool.Pool.DestroyPool | app/src/main/jni/byedpi/conev.c:107-121 | deletes until no event is live and no timer is left |
| EventPool.Pool.NextEvent | app/src/main/jni/byedpi/conev.c:124-141 | returns the latest entry of the batch whose event is live and untouched since the batch began, skipping only touched ones; it fetches a new batch exactly when none is left |
| EventPool.Pool.NextEventTv | app/src/main/jni/byedpi/conev.c:216-227 | fires a timer iff the earliest is due, or no entry is left and the wait timed out, or it failed while the type variable still says timeout; what it fires has a minimal deadline |
| EventPool.FailedWaitFires | app/src/main/jni/byedpi/conev.c:216-227 | a pool whose only timer is not due, where a wait that fails fires it because the type variable still says timeout |
| Strategy.SwopExchanges | app/src/main/jni/byedpi/extend.c:251-273 | exchanging a group with any group behind it, adjacent or not, at the head or not, gives a well-formed doubly linked list with exactly these two in each other's place, and each place keeps its detect and auto_level |
| Strategy.UncheckedIsBehind | app/src/main/jni/byedpi/extend.c:286-304 | after the walk the failed group's bit is cleared from uncheked iff the group stands before the chosen one |
| Strategy.WalkPasses | app/src/main/jni/byedpi/extend.c:288-298 | the walk of on_trigger passes and rules out exactly the groups before the first that suits, or before the first that detects nothing once all ruled-out groups are passed |
| Strategy.TriggerKeepsGroups | app/src/main/jni/byedpi/extend.c:275-308 | on_trigger keeps the list well formed and made of the same groups; whenever it swaps, the failed group stands before the chosen one |
| Strategy.SwapTurnsDecision | app/src/main/jni/byedpi/extend.c:299-320 | reading auto_level after the swap changes whether on_trigger reconnects iff the groups are swapped, reconnecting is possible, and one of the two forbids it and the other does not |
| Strategy.SwapAllowsReconnect | app/src/main/jni/byedpi/extend.c:299-320 | two groups with which on_trigger reconnects although the chosen one forbids it |
| Strategy.SearchFindsFirst | app/src/main/jni/byedpi/extend.c:433-456 | find_dp's search takes the first acceptable group from where the client stands on round the list, which was not ruled out, rules out exactly those passed, and finds none iff none is acceptable |
| Strategy.FoundFresh | app/src/main/jni/byedpi/extend.c:433-456 | the mask only grows, the group found is not in it, and a client that moves to another group has its old one ruled out |
| Strategy.StepAdvances | app/src/main/jni/byedpi/extend.c:181-198 | every step of a client's life keeps the mask growing; a new connection attempt is with a group that was not ruled out and not tried before |
| Strategy.AttemptsBounded | app/src/main/jni/byedpi/extend.c:465-512 | over a client's whole life, whatever other clients do to the order of groups, it tries each group at most once and none its cache entry had ruled out, so at most dp_n of them |
| Strategy.Groups.SwopGroups | app/src/main/jni/byedpi/extend.c:251-273 | the pointer assignments produce that exchange |
| Strategy.Groups.WalkGroups | app/src/main/jni/byedpi/extend.c:286-298 | the loop computes the walk: chosen group, grown mask and what is left unchecked |
| Strategy.Groups.OnTrigger | app/src/main/jni/byedpi/extend.c:275-322 | failure and preference counters, swap, client mask, cache entry and the decision to reconnect are those of the specification, the last read after the swap |
| Strategy.Groups.FindDp | app/src/main/jni/byedpi/extend.c:433-456 | the cyclic loop ends and computes the search |
| Strategy.Groups.ConnectHook | app/src/main/jni/byedpi/extend.c:465-497 | the client takes over its cache entry only when it has no group, then searches, and either drops, waits or connects with the group found |
| Strategy.Groups.SetupConn | app/src/main/jni/byedpi/extend.c:499-512 | the search is repeated with the request known and the client moves to its result |
| TlsRecords.SplittingPreservesPayload | app/src/main/jni/byedpi/packets.c:351-360 | cutting a record into fragments of given sizes leaves the stream's payload as it was and every fragment has the record's type and version and its size |
| TlsRecords.FragmentsExactly | app/src/main/jni/byedpi/desync.c:350-373 | the buffer that the loop of tamp leaves starts with fragments of the planned sizes, type and version if and only if the cuts lie within the first record; they do when the request ends with that record or before |
| TlsRecords.CuttingPreservesPayload | app/src/main/jni/byedpi/desync.c:350-373 | when they do, the payload is what it was, a last fragment holds the rest, and nothing behind the request has changed |
| TlsRecords.PlanFits | app/src/main/jni/byedpi/desync.c:350-373 | the planned cuts lie within the data behind the header, and there is room for all headers they add |
| TlsRecords.CutMayMissRecord | app/src/main/jni/byedpi/desync.c:350-373 | a ClientHello with a first record of two bytes and a cut after three: part_tls leaves it untouched, the fragment is not there, and tamp adds five to its length |
| TlsRecords.ZeroDivisionExactly | app/src/main/jni/byedpi/desync.c:316-337 | the loop of tamp divides by zero iff it reaches a random offset, without end or middle flag, into an empty host name, or one not relative to a name when the last fragment begins where the data end |
| TlsRecords.RandomCutAfterEnd | app/src/main/jni/byedpi/desync.c:329-330 | after a cut at the end of the data a random cut is such an offset |
| TlsRecords.PartTls | app/src/main/jni/byedpi/packets.c:351-360 | answers 0 and changes nothing when the cut does not fit, answers n and changes nothing when it lies outside the record, and otherwise inserts the header, sets both lengths and answers 5 |
| TlsRecords.CutTurn | app/src/main/jni/byedpi/desync.c:316-337 | one turn of the loop finds its place from gen_offset and has part_tls cut there, or gives up exactly where the plan ends, or divides by zero |
| TlsRecords.TampRecords | app/src/main/jni/byedpi/desync.c:339-374 | the loop divides by zero exactly where the plan comes to that; otherwise n grows by five for each planned cut and stays within the buffer, which holds what these cuts, one after the other, make of it |
| TlsMerge.SplitThenMerge | app/src/main/jni/byedpi/packets.c:87-103 | cutting a complete handshake record and merging it again returns five bytes per cut and the original bytes iff the last five bytes of the cut buffer do not form one more header of the same type whose fragment fits |
| TlsMerge.TrapNeverEnds | app/src/main/jni/byedpi/packets.c:87-103 | a message of ten bytes, cut after four of them, is not restored, and the loop never ends |
| TlsMerge.MergeLeavesWhole | app/src/main/jni/byedpi/packets.c:87-103 | an uncut message is left alone |
| TlsMerge.MergeEndsExactly | app/src/main/jni/byedpi/packets.c:87-103 | after a message has been cut, in a buffer of at most 65545 bytes, the loop ends iff a walk through copies of the last five bytes does, which can be computed from them, the type and the number of cuts; in a larger one the same holds unless the walk gets as far as the 16-bit sum can count |
| TlsMerge.MergeNeverEnds | app/src/main/jni/byedpi/packets.c:87-103 | of a handshake record, whatever the cuts, the loop never ends in such a buffer iff the last five bytes are the record's type and end in a zero length, or are 0, 0 and the type in the middle with a length behind it that leads to the zero length and fits |
| TlsMerge.MergeTlsRecords | app/src/main/jni/byedpi/packets.c:87-103 | the in-place loop computes the merge, 16-bit sum included, and writes the two lengths, whenever it ends |
| TlsFramer.AnyChunking | app/src/main/jni/byedpi/extend.c:372-404 | feeding a stream in any chunks has the result of feeding it at once |
| TlsFramer.FramerFollowsRecords | app/src/main/jni/byedpi/extend.c:372-411 | however the bytes arrive, the framer fails iff a record followed by a further byte is malformed, and otherwise stands where the stream stands in its last record, with that record's header and length; position and size differ iff the stream stands strictly inside a record |
| TlsFramer.Connection.TrySetTlsTimer | app/src/main/jni/byedpi/extend.c:372-413 | beyond the byte limit it disarms and gives up; otherwise its verdict and its place are those of feeding the bytes one by one, and with a timeout set the timer is armed iff the stream stands strictly inside a record |
| PacketStream.RoundTrip | app/src/main/jni/badvpn/flow/PacketProtoDecoder.c:46-128 | however the encoding of packets within the MTU is cut into chunks, the decoder reports no error and delivers these packets in order, and all of them once everything has come and it wants more |
| PacketStream.FlatFrames | app/src/main/jni/badvpn/flow/PacketStreamSender.c:36-77 | the packets of the encoder, sent one after the other, make up the encoding |
| PacketStream.FrameLength | app/src/main/jni/badvpn/flow/PacketProtoEncoder.c:51-64 | the header of a frame gives the packet's length, and the payload and what follows are behind it |
| PacketStream.Encoder.InputHandlerDone | app/src/main/jni/badvpn/flow/PacketProtoEncoder.c:51-64 | the buffer begins with the frame of the packet the input put into it, and the length handed on is the frame's |
| PacketStream.Encoder.OutputHandlerRecv | app/src/main/jni/badvpn/flow/PacketProtoEncoder.c:40-49 | the packet is received behind the room for its header and fits |
| PacketStream.Sender.InputHandlerSend | app/src/main/jni/badvpn/flow/PacketStreamSender.c:50-63 | an empty packet is done at once, any other is offered to the output whole |
| PacketStream.Sender.OutputHandlerDone | app/src/main/jni/badvpn/flow/PacketStreamSender.c:65-77 | the output gets exactly the rest of the packet until it has taken all of it, and the packet is done exactly then |
| PacketStream.Decoder.ProcessData | app/src/main/jni/badvpn/flow/PacketProtoDecoder.c:46-105 | one step of the machine, with every receive of positive length inside the buffer and none while a packet is delivered from it |
| PacketStream.Decoder.InputHandlerDone | app/src/main/jni/badvpn/flow/PacketProtoDecoder.c:107-119 | received bytes are appended and processed; the next receive, if one is issued, has positive length and lies inside the buffer |
| PacketStream.Decoder.OutputHandlerDone | app/src/main/jni/badvpn/flow/PacketProtoDecoder.c:121-128 | after a delivery the pending bytes are processed in the same way |
| PacketStream.Decoder.Reset | app/src/main/jni/badvpn/flow/PacketProtoDecoder.c:176-182 | what is pending is dropped and the place of an outstanding receive or delivery does not move |
| PassInterface.ExactlyOnce | app/src/main/jni/badvpn/flow/PacketPassInterface.h:149-227 | over all runs: the operation job is set iff the operation is pending, the done job iff done is pending, the cancel job only while busy with cancellation requested; and the calls seen are a sequence of complete rounds and a beginning of one more, each packet given to the provider at most once, cancelled at most once and not after Done, and completed exactly once |
| PassInterface.StepInv | app/src/main/jni/badvpn/flow/PacketPassInterface.c:32-68 | every call and every job keeps that, and the ASSERTs of the job handlers hold |
| PassInterface.DoneIsReached | app/src/main/jni/badvpn/base/BPending.c:66-88 | running the pending jobs down to the done job calls the sender back and frees the interface for the next packet |
| PassInterface.SetJobIs | app/src/main/jni/badvpn/base/BPending.c:137-154 | a job that is set is first and once in the list, and the others stay |
| PassInterface.RemovedIs | app/src/main/jni/badvpn/base/BPending.c:156-171 | a job that is unset is gone and the others stay |
| PassInterface.PendingGroup.TakeJob | app/src/main/jni/badvpn/base/BPending.c:66-88 | the job set last is taken off the list |
| PassInterface.Interface.SenderSend | app/src/main/jni/badvpn/flow/PacketPassInterface.h:181-198 | one step of the machine: the operation job is set and carries the packet |
| PassInterface.Interface.ProviderDone | app/src/main/jni/badvpn/flow/PacketPassInterface.h:149-162 | one step of the machine: the cancel job is unset and the done job set |
| PassInterface.Interface.SenderRequestCancel | app/src/main/jni/badvpn/flow/PacketPassInterface.h:200-227 | one step of the machine: a pending operation is withdrawn and completes, a busy one gets the cancel job, a repeated request does nothing |
| PassInterface.Interface.ExecuteJob | app/src/main/jni/badvpn/flow/PacketPassInterface.c:32-68 | one step of the machine: the handler of the job taken finds its ASSERTs true and makes its call |
| BProto.WrittenIsRead | app/src/main/jni/badvpn/generated/bproto_msgproto.h:452-539 | whatever entries are written within Finish's counts, the parser accepts the bytes and reads the same entries, and numbers come back as they were |
| BProto.ParseOfBytes | app/src/main/jni/badvpn/generated/bproto_msgproto.h:541-692 | reading undoes writing |
| BProto.BytesOfParse | app/src/main/jni/badvpn/generated/bproto_msgproto.h:541-692 | a buffer that can be read is the writing of what is read, so it has only one reading |
| BProto.StretchExists | app/src/main/jni/badvpn/generated/bproto_msgproto.h:541-692 | the start and span kept for a field go from the beginning of its first entry to the end of its last one, and the mark for a field without entries cannot be mistaken for a start |
| BProto.Parser.Init | app/src/main/jni/badvpn/generated/bproto_msgproto.h:541-692 | accepts a buffer iff it is a sequence of entries of the message's fields with their types and counts; all values are then still to be fetched |
| BProto.Parser.StepEntry | app/src/main/jni/badvpn/generated/bproto_msgproto.h:713-764 | all ASSERTs of a getter's turn hold on an entry that Init has checked, from whatever writer |
| BProto.Parser.Get | app/src/main/jni/badvpn/generated/bproto_msgproto.h:705-921 | the values of a field come one by one in order; when none is left the cursor is at the end of its span; other fields are untouched |
| BProto.Parser.Reset | app/src/main/jni/badvpn/generated/bproto_msgproto.h:771-774 | all values of the field can be fetched again |
| BProto.Parser.Forward | app/src/main/jni/badvpn/generated/bproto_msgproto.h:776-779 | no value of the field is left |
| BProto.Parser.GotEverything | app/src/main/jni/badvpn/generated/bproto_msgproto.h:694-703 | true iff no value of any field is left |
| BProto.Writer.AddAddr | app/src/main/jni/badvpn/generated/bproto_msgproto.h:471-494 | appends the entry, with its header, length and bytes, and counts it |
| BProto.Writer.AddPassword | app/src/main/jni/badvpn/generated/bproto_msgproto.h:521-539 | appends the entry with the number in eight bytes and counts it |
| BProto.Writer.Finish | app/src/main/jni/badvpn/generated/bproto_msgproto.h:461-469 | what has been written is accepted by the parser and reads as what was added |
| Ipv6Text.RoundTrip | app/src/main/jni/badvpn/misc/ipaddr6.h:71-147 | the text of any address, whichever run of zero blocks is left out, reads back as the same sixteen bytes |
| Ipv6Text.ParsesExactly | app/src/main/jni/badvpn/misc/ipaddr6.h:71-205 | accepts exactly the texts of the grammar, and reads each as its bytes, whatever the memory that receives them held: groups of hexadecimal digits with values below 65536 and colons between them, one colon perhaps double, eight groups or, with the double colon, up to eight; perhaps four decimal numbers without leading zeros in place of the last two groups |
| Ipv6Text.DoubleColonForNothing | app/src/main/jni/badvpn/misc/ipaddr6.h:71-147 | a double colon before any one of eight blocks stands for nothing |
| Ipv6Text.LongestZeros | app/src/main/jni/badvpn/misc/ipaddr6.h:328-347 | finds the first of the longest runs of zero blocks |
| Ipv6Text.PrintAddr | app/src/main/jni/badvpn/misc/ipaddr6.h:328-372 | prints the address with that run left out if it has at least two blocks, in at most 39 characters |
| Ipv6Text.ParseAddr | app/src/main/jni/badvpn/misc/ipaddr6.h:71-205 | the loops over the text, dotted form included, compute the reading, and reject exactly what it rejects |
| Ipv6Text.FullDotted | app/src/main/jni/badvpn/misc/ipaddr6.h:148-205 | six printed blocks and four decimal numbers with dots read as their sixteen bytes |
| Ipv6Text.ShortDotted | app/src/main/jni/badvpn/misc/ipaddr6.h:148-205 | up to six printed blocks with a double colon between any two of them, or before or behind them, and four decimal numbers with dots read as their bytes with zeros at the double colon |
| Ipv6Text.ScanText | app/src/main/jni/badvpn/misc/ipaddr6.h:71-124 | stops at the end, at a dot or at the first malformed place with the blocks stored so far |
| Ipv6Text.PutZeros | app/src/main/jni/badvpn/misc/ipaddr6.h:135-147 | moves the blocks behind the double colon to the end and puts zeros between |

## Left out

- FairQueue.Queue: flow records are tables indexed by the flow's address instead of objects, and the AVL tree is an ordered sequence; cancelling a busy flow and the busy handler are not modelled.
- EventPool.Pool: the iteration counter does not wrap at 64 bits, and the events of the items array are values in a sequence, reassigned as a whole.
- EventPool.Pool.Delete: requires that the pair fields of the live events form cycles; that is how create_conn, the UDP association and reconnect leave them with delay_conn off, the application's setting. DelEvent itself needs no such thing.
- EventPool.Pool.DestroyPool: freeing buffers and closing the epoll descriptor are not modelled, here and elsewhere.
- PrefixOrder.HostCmp: compares characters without sign, as on ARM; where char is signed, bytes from 128 up sort below `.` and behave as the characters below it do here.
- PrefixIndex.Index.MemAdd: requires a tree lower than the 64 entries of the path arrays.
- PrefixIndex.Index.MemDelete: has the same requirement.
- Strategy.Groups.OnTrigger: begins after cache_add has returned an entry; the groups' address, protocol and host filters are one input set for each call, and counters do not overflow.
- Strategy.Groups.ConnectHook: create_conn's result is not modelled beyond the attempt it makes.
- TlsRecords.TampRecords: says nothing about the buffer once the loop has divided by zero; the HTTP rewriting and the change of the minor version before the loop are not modelled; what init_proto_info finds is an input.
- TlsRecords.CuttingPreservesPayload: says nothing about the payload of requests whose plan leaves the first record, because tamp then reads data bytes as a header.
- TlsMerge.MergeTlsRecords: requires that the loop ends, as it need not; MergeEndsExactly says when it does for buffers that were cut.
- TlsMerge.MergeEndsExactly: leaves open what happens in a buffer of more than 65545 bytes once the 16-bit sum has wrapped, when the loop takes message bytes for headers; the caller's buffers are smaller.
- TlsMerge.MergeNeverEnds: requires a buffer of at most 65545 bytes, for the same reason.
- BProto.Writer: the caller's writing into the space an Add call returns is part of the Add method; the numeric type codes of BProto.h are those of BadVPN, as that header is not in the repository.
- BProto.Parser: the other generated messages are instances of the same code and are not repeated.
- PassInterface.Interface: jobs of other objects appear as foreign jobs that come and go at any time.
- TlsFramer.Connection: the timer is the flag whether it is set; its place in the timer list is the subject of the event pool.
- PacketBuffer and PacketProtoFlow rest on ChunkBuffer2, which is not part of this model.
- desync's resumption after short writes, change_tls_sni and its helpers, and sending out-of-band or fake packets.
- Sockets, epoll registration beyond its success, name resolution, the JNI bridges, logging and all generated log channel files.
- The other connectors, FIFO and priority queues, line and route buffers, Unicode codecs, IPv4 helpers and address prefixes: easier members beside the ones modelled.
- Freeing of memory and the DebugObject checks.
