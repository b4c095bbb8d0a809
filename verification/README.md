# Vajra kernel: verified model

Vajra is a small capability kernel: actors with bounded mailboxes and
capability tables, per-actor address spaces, an object store with a trust
machine, acknowledged messages over raw Ethernet and a two-pane text console.
This project models its core in Dafny and proves what the design promises.

The model has two layers. Values and functions describe each part as a state
machine (`Kernel`, `PageFrames`, `Paging`, `StoreSpec`, `NetProtocol`,
`Virtqueue`, `ConsoleSpec`, `Quarantine`), and lemmas state properties of every
run. Classes and methods (`ActorKernel`, `Memory`, `AddressSpaces`, `Storage`,
`NetFrames`, `ReceiveQueue`, `ConsoleScreen`) do the source's work in place,
loops included, and each is proved to compute what the functions say. The sizes
of the actor table, mailboxes, capability tables, object table, free list and
queues are the lengths of the sequences that hold them, so nothing is proved by
enumeration.

The kernel is one machine over the actor table, the page allocator, the page
tables and the object store. A system call is one atomic step, since it runs
behind an interrupt gate (src/hal/x86_64/interrupts.c:60-80); a timer step is a
yield at any step boundary; actor_receive is a blocking and a resuming step.

What single calls do is stated apart from the functions that define them, so
that each call's contract can be read on its own: when it is refused, what it
changes and what it leaves alone (`Lifecycle`, `Spawning`, `Reaping`, `Loader`,
`SystemCalls`).

That the theorems' hypotheses can be met is itself proved (`Machine`), and that
kernel_main's own sequence of calls meets those of the pipeline (`KernelMain`,
`QuarantineBoot`).

Two promises turn out to hold only under a condition, and the project proves
which:

- A reliable send is sound if and only if the NICs filter by destination or at
  most two devices share the link (`NetProtocol.SoundExactly`).
- Content with the marker stays untrusted unless the inspector's capability
  table is full when Scanner comes to grant it the right to read. Scanner
  ignores the grant's return value (src/core/main.c:705), and an inspector that
  may not read sees an empty buffer and passes it (src/core/main.c:653-657).
  `QuarantineSafety.VerdictExact` and `QuarantineSafety.BadIsNeverTrusted` state
  the exact condition on the state before the grant,
  `QuarantineSafety.RefusedIffBlocked` that the grant fails in no other case,
  and `RefusedGrant.BadBecomesTrusted` writes down, for every marked content, a
  run that starts at power-on, goes through kernel_main and ends with it TRUSTED.

Where code and comments disagree the model follows the code. Names are cut to
15 bytes when stored and compared over 16 (src/core/storage.c:92-102, 227-231);
`StoreProperties.CreateKeepsNamesDistinctIff` and
`StoreProperties.RenameKeepsNamesDistinctIff` state the consequence. .user_text
is mapped writable from ring 3 in every address space (entry flags 0x7), so two
actors share it for writing as well (src/hal/x86_64/paging.c:126-131).

## Model

| member | source | states |
|---|---|---|
| `Scheduling.NoLostWakeup` | src/core/actor.c:546-611 | in every state of every run a BLOCKED actor has an empty mailbox, and the RUNNING actor is exactly current_actor while the kernel has not halted |
| `Scheduling.ResumeFindsMessage` | src/core/actor.c:660-678 | an actor resumed inside actor_receive always finds a message, so its wait loop runs at most once |
| `Scheduling.HaltMeansStuck` | src/core/actor.c:546-595 | when the scheduler has halted, every actor is DEAD or blocked on an empty mailbox |
| `Scheduling.HaltIsExact` | src/core/actor.c:546-595 | a step halts the kernel if and only if it ends in schedule_next and nobody is runnable at that point |
| `Scheduling.PickNearest` | src/core/actor.c:554-565 | the round-robin scan picks the runnable slot nearest after the current one, and reports none only if there is none |
| `Scheduling.DecisionApproaches` | src/core/actor.c:546-595 | every scheduling decision either picks a given READY actor or strictly shortens the cyclic distance to it |
| `Scheduling.BoundedWaiting` | src/core/actor.c:546-595 | whatever is spawned, woken or killed in between, a READY actor has run or died within MAX_ACTORS - 1 scheduling decisions |
| `ActorTable.EnqueueAppends` | src/core/actor.c:646-650 | writing the ring's tail entry appends to the queue of waiting messages, wrap-around included |
| `ActorTable.DequeueTakesFront` | src/core/actor.c:672-675 | advancing the ring's head removes exactly the oldest message |
| `Mailboxes.SendExact` | src/core/actor.c:624-658 | a send succeeds if and only if the slot exists, the sender holds CAP_SEND for it, the destination is not DEAD and its mailbox is not full; a rejected send changes nothing; an accepted one appends the message with the true sender and wakes a blocked receiver |
| `Mailboxes.StepBoxes` | src/core/actor.c:624-678 | one step of the kernel changes any one mailbox only by a send to it, by its owner's receive, or by a new occupant, who starts empty |
| `Mailboxes.MailboxHistory` | src/core/actor.c:624-678 | for each occupant of a slot, messages accepted are messages received followed by messages still queued, in order, over every run |
| `Mailboxes.AcceptedIsAuthorized` | src/core/actor.c:624-640 | every accepted message was sent by the slot it names, while that slot held CAP_SEND for the destination |
| `ActorTable.AddCapEffect` | src/core/actor.c:226-235 | adding a capability takes the first empty entry, gives exactly that capability and removes none; a full table refuses and stays as it is |
| `ActorTable.AddCapsRights` | src/core/actor.c:226-235 | adding several capabilities gives exactly as many of the first as the table has empty entries, and loses nothing |
| `Lifecycle.BirthsAreAuthorized` | src/core/actor.c:427-489 | in every run, once the scheduler has started, whoever comes alive was returned by a spawn call of an actor that held CAP_SPAWN and had quota left in the state before |
| `Lifecycle.TerminateExact` | src/core/actor.c:491-513 | terminating succeeds if and only if the target is a slot other than the caller's and the caller holds CAP_TERMINATE for it; then that row is DEAD and otherwise as it was, and nothing else changes; refused it changes nothing |
| `Lifecycle.ExitExact` | src/core/actor.c:613-622 | after an exit the caller's row is DEAD and otherwise as it was, its stack page included |
| `Lifecycle.DeathsExact` | src/core/actor.c:491-513 | a living actor is dead after a step if and only if the step is its own exit or a successful termination of it |
| `Lifecycle.StaysOut` | src/core/actor.c:546-595 | in every run, whoever is DEAD and not current stays so until a spawn returns the slot |
| `Lifecycle.TerminatedStaysOut` | src/core/actor.c:491-513 | in every run, from a successful termination until a spawn returns the slot, the slot is DEAD and never current, and every send to it is refused |
| `Spawning.SpawnRefusedIff` | src/core/actor.c:456-489 | SYS_SPAWN returns -1 if and only if the caller lacks CAP_SPAWN, its quota is used up, no slot is DEAD, no page is free, or the page the allocator gives lies outside the private window; otherwise it returns the lowest DEAD slot |
| `Spawning.SpawnExact` | src/core/actor.c:309-489 | a successful SYS_SPAWN: a new READY actor at that entry, with no mail, count 0 and quota 2, on one page taken from the free pages, allowed to send to its parent and nothing else; the parent's count is one higher and it gains SEND and then TERMINATE for the child as far as its table has room; nothing else changes |
| `Spawning.RefusedSpawnLeaves` | src/core/actor.c:309-399 | a refused SYS_SPAWN changes nothing, not even the set of free pages, unless there is no free list to give a page back to |
| `Spawning.BootSpawnExact` | src/core/actor.c:309-399 | the same for kernel_main's own spawns |
| `Spawning.SpawnsAreCounted` | src/core/actor.c:456-489 | in every run, as long as a slot keeps its occupant, the occupant's spawn count is the number of its successful spawns so far and never above its quota |
| `Reaping.DeadPagesAreReused` | src/core/actor.c:515-531 | in every run, at every scheduling decision: the stack pages of DEAD slots other than the current one enter the set of free pages, slot by slot as far as the free list has room and all of them if it has, and nothing else does; their rows forget them; the page of the slot switched away from stays out, even if that slot has just died |
| `SystemCalls.NoRightNoEffect` | src/hal/x86_64/syscall.c:22-246 | every gated call made without its capability is refused and changes nothing at all |
| `SystemCalls.DelegationExact` | src/core/actor.c:291-307 | a delegation succeeds if and only if the slot exists, the caller holds the right and the receiver has an empty entry; the receiver then holds exactly that right more, and nothing else changes; refused it changes nothing |
| `SystemCalls.BootGrantExact` | src/core/actor.c:237-242 | the same for kernel_main's grants, which need no right to make |
| `SystemCalls.ObjectCallsAnswerAsMap` | src/hal/x86_64/syscall.c:73-213 | a storage call made with its right changes the map from ids to objects, and answers, as the same command to the map would, and touches nothing else in the kernel |
| `SystemCalls.ListAnswers` | src/hal/x86_64/syscall.c:173-193 | listing with its right fills in the nth live object's id, name, trust and size, or reports the end, and changes nothing |
| `SystemCalls.CreatorGets` | src/hal/x86_64/syscall.c:194-213 | the creator keeps what it held and gains READ, WRITE, RENAME and DELETE for the new id, in this order, as many as its table has empty entries; nobody else's table changes |
| `SystemCalls.CreatorMayUse` | src/hal/x86_64/syscall.c:194-213 | with four empty entries the creator can at once write the object, rename it to any name not in use, and delete it |
| `Authority.StepOnlyNew` | src/core/actor.c:217-307 | what living actors hold after a step they held before, except for what the step is entitled to hand out |
| `Authority.Unforgeable` | src/core/actor.c:217-307 | every capability of every living actor, in every run, has a derivation: a boot grant, a spawn (SEND or TERMINATE only) or the creation of a fresh object (READ, WRITE, RENAME, DELETE only), then delegations each by an actor that held it, all within the holders' lifetimes |
| `Authority.CreatedIsFresh` | src/hal/x86_64/syscall.c:194-213 | creating an object never returns the id of a live one |
| `Authority.LostForGood` | src/core/actor.c:427-489 | once the scheduler runs, if no living actor holds SPAWN, PROMOTE, NET, LIST_NAMES, CREATE or CONSOLE (any operation no step hands out), none ever will again |
| `Immutability.DirectoryAlwaysSynced` | src/core/storage.c:125-151 | in every state of every kernel run the directory sector on disk decodes to the object table in memory |
| `Immutability.ContentsImmutable` | src/hal/x86_64/syscall.c:58-103 | from a state where no living actor holds CAP_WRITE_OBJECT(id) or CAP_DELETE_OBJECT(id), object id stays live with the same bytes in every continuation |
| `Immutability.TrustImmutable` | src/hal/x86_64/syscall.c:90-103 | if besides nobody holds CAP_PROMOTE_OBJECT(0), its trust stays the same too |
| `Immutability.RejectedIsNotLoaded` | src/core/loader.c:29-36 | a rejected or missing object cannot be loaded as a program, and the attempt changes nothing |
| `ActorKernel.ActorKernel.constructor` | src/core/actor.c:197-215 | every slot starts DEAD with an empty mailbox and no capabilities, and no actor is current |
| `ActorKernel.ActorKernel.HasCapability` | src/core/actor.c:217-224 | the scan answers whether the capability is in the slot's table |
| `ActorKernel.ActorKernel.AddCapability` | src/core/actor.c:226-235 | the first-empty-entry scan and its new table |
| `ActorKernel.ActorKernel.DelegateCap` | src/core/actor.c:291-307 | delegation refuses a bad slot and a capability the caller does not hold, and otherwise has the effect of a grant |
| `ActorKernel.ActorKernel.ReapDeadActors` | src/core/actor.c:521-531 | the loop gives back the stack page of every dead actor but the current one, once |
| `ActorKernel.ActorKernel.PickNext` | src/core/actor.c:554-565 | the modulo scan computes the round-robin choice |
| `ActorKernel.ActorKernel.SwitchToNext` | src/core/actor.c:546-595 | reaping, the choice and the switch (or halt) are one scheduling decision of the state machine |
| `ActorKernel.ActorKernel.YieldNow` | src/core/actor.c:597-611 | yield, also the timer's effect, marks the caller READY and reschedules |
| `ActorKernel.ActorKernel.ExitNow` | src/core/actor.c:613-622 | exit marks the caller DEAD and reschedules |
| `ActorKernel.ActorKernel.SendMessage` | src/core/actor.c:624-658 | the send refines the state machine's, new table and return code |
| `ActorKernel.ActorKernel.ReceiveMessage` | src/core/actor.c:660-678 | one turn of the receive loop: the oldest message, or block and reschedule |
| `ActorKernel.ActorKernel.SpawnActor` | src/core/actor.c:309-399 | first dead slot, page, address space and fresh row, with each failure undone as the source undoes it |
| `ActorKernel.ActorKernel.SpawnLoaded` | src/core/actor.c:401-425 | a spawn whose program cannot be mapped leaves a DEAD slot and reports failure |
| `ActorKernel.ActorKernel.AdoptChild` | src/core/actor.c:470-489 | the spawner's count and its SEND and TERMINATE for the child, the child's SEND for the spawner |
| `ActorKernel.ActorKernel.SpawnAsChild` | src/core/actor.c:456-489 | CAP_SPAWN and the quota are checked before anything is allocated |
| `ActorKernel.ActorKernel.SpawnLoadedAsChild` | src/core/actor.c:427-454 | the same for a loaded program |
| `ActorKernel.ActorKernel.TerminateActor` | src/core/actor.c:491-513 | terminating needs the capability and never hits the caller |
| `ActorKernel.ActorKernel.LoadAndSpawn` | src/core/loader.c:29-82 | the loader reads, validates, claims pages and spawns, in that order, with the same failures |
| `ActorKernel.ActorKernel.CreateName` | src/hal/x86_64/syscall.c:194-213 | the creator gets four capabilities for the new id, as far as its table has room |
| `ActorKernel.ActorKernel.StoreSyscall` | src/hal/x86_64/syscall.c:73-103 | each storage call checks its capability first and then does what core/storage.c does; listing fills in the record or reports the end |
| `ActorKernel.ActorKernel.Handle` | src/hal/x86_64/syscall.c:22-246 | the whole dispatch, boot calls and timer included, refines the state machine's step: new state and result |
| `Loader.ProgramRoundTrip` | src/core/loader.c:31-52 | every program of at least one byte that fits the window and has its entry inside is accepted, with the entry offset and size its header gives, whatever follows the code |
| `Loader.ProgramFaithful` | src/core/loader.c:31-52 | an accepted object starts with exactly the header of what was accepted, magic included, holds all its code, and that code is not empty, fits the window and contains the entry |
| `Loader.ProgramStartsIff` | src/core/loader.c:29-82 | a well-formed program object starts if and only if the caller may read it and may spawn, has quota left, and there is a run of free pages at or above 2MB for its code, rounded up to whole pages, then a free page in the private window, a DEAD slot and a program table for that slot |
| `Loader.ProgramStarts` | src/core/loader.c:55-82 | a program that starts does so at PROGRAM_VBASE plus its entry offset, and walking its tables shows exactly as many consecutive frames as its code needs, user and writable, all of them free before, and faults in the rest of the window |
| `Loader.RefusedLoadLeaves` | src/core/loader.c:29-82 | a load that fails touches no living actor and no object, and brings nobody to life |
| `Memory.PageAllocator.MemoryInit` | src/core/memory.c:89-135 | for any list of regions, overlapping, unaligned or wrapping around 2^64: a page is free afterwards if and only if it lies wholly inside one region clipped to [1MB, 256MB); the 1MB-16MB fallback is used exactly when no region survives; a region whose end wraps contributes nothing; every bitmap index is in range |
| `Memory.PageAllocator.MarkRangeFree` | src/core/memory.c:78-87 | exactly the whole pages inside the range are cleared in the bitmap |
| `Memory.PageAllocator.BitmapSetUsed` | src/core/memory.c:62-64 | one bit is set and every other page's bit is as before |
| `Memory.PageAllocator.BitmapClearUsed` | src/core/memory.c:66-68 | one bit is cleared and every other page's bit is as before |
| `Memory.PageAllocator.AllocatePage` | src/core/memory.c:147-179 | free list first, then the bump scan over the bitmap: the new state and page are the specification's |
| `Memory.PageAllocator.Release` | src/core/memory.c:181-190 | a freed page joins the list, or is dropped when the list is full |
| `Memory.PageAllocator.FindAndClaimContig` | src/core/memory.c:192-221 | the two nested scans find the lowest free run and claim it |
| `PageFrames.AllocPageRefines` | src/core/memory.c:147-179 | against a set of free pages: alloc_page returns null if and only if the set is empty, otherwise it removes one of its members |
| `PageFrames.FreePageRefines` | src/core/memory.c:181-190 | free_page adds exactly that page to the set, or nothing when the free list is full |
| `PageFrames.ClaimContigRefines` | src/core/memory.c:192-221 | the lowest run of free pages at or above the start is returned and leaves the set, or null if and only if there is none |
| `PageFrames.NeverIssuedTwice` | src/core/memory.c:147-235 | over every sequence of calls in which callers free only what they own, no page is handed out while somebody owns it |
| `Paging.ReachSound` | src/hal/x86_64/paging.c:102-204 | through the tables built for a slot, ring 3 reaches only .user_text, its own stack page and the pool table that its directory points at; rights are the AND over all levels |
| `Paging.ReachComplete` | src/hal/x86_64/paging.c:102-204 | .user_text and the stack page are mapped onto themselves, readable and writable from ring 3 |
| `Paging.LowExact` | src/hal/x86_64/paging.c:102-204 | the first 2MB of every address space, page by page: the kernel's megabyte at its own addresses, open to ring 3 only in .user_text, then the stack page, and nothing else |
| `Paging.CommonsExact` | src/hal/x86_64/paging.c:102-204 | above 2MB and outside the program window every address space shows the boot directory's pages, closed to ring 3 |
| `Paging.ProgramVisible` | src/hal/x86_64/paging.c:208-268 | page p of the program window is the program's p-th frame below its size and faults above it |
| `AddressSpaces.AddressSpaces.Create` | src/hal/x86_64/paging.c:102-204 | filling the four tables entry by entry gives the specified tables, with 0 for a bad slot or a stack outside the window |
| `AddressSpaces.AddressSpaces.MapProgramWindow` | src/hal/x86_64/paging.c:208-268 | pool search, owner, entries and directory update give the specified tables, and failure changes nothing |
| `Isolation.RunKeepsIsolation` | src/core/actor.c:309-425 | over every run: live stack pages are distinct and off the free list, program frames are never re-issued, no pool table belongs to two slots, and every living slot's tables are as built |
| `Isolation.ActorsAreIsolated` | src/hal/x86_64/paging.c:102-338 | in every state of every run, what ring 3 reaches through the tables of two living slots overlaps only in .user_text, and no frame it reaches holds a page table, boot's three and the two of the LAPIC mapping included |
| `Isolation.ActorsReachTheirOwn` | src/hal/x86_64/paging.c:102-204 | and every living actor does reach .user_text and its own stack page |
| `Directory.EntryRoundTrip` | src/core/storage.c:125-192 | a directory row decodes to the in-use flag, trust, 32-bit size and name that were encoded; the block address follows from the id |
| `Directory.EncodedSector` | src/core/storage.c:125-151 | a saved sector carries the magic and the count that loading reads back |
| `StoreRefinement.StoreRefinesMap` | src/core/storage.c:212-420 | for every sequence of create, write, read, rename, promote, reject, delete, lookup and reboot, the store replies as a map from ids to (name, bytes, trust) does, and the directory stays in step |
| `StoreRefinement.WriteRefines` | src/core/storage.c:374-394 | a write replaces the bytes of that object, resets its trust, and changes no other object and not the directory's other rows |
| `StoreRefinement.ReadRefines` | src/core/storage.c:352-372 | a read returns the last bytes written, cut to the buffer, and nothing of a missing or rejected object |
| `StoreRefinement.CreateRefines` | src/core/storage.c:212-250 | a new object takes the lowest free id and is empty and untrusted; a full table refuses |
| `StoreRefinement.RenameRefines` | src/core/storage.c:315-338 | renaming changes the name, cut to 15 bytes, and nothing else; a name in use by another object refuses |
| `StoreRefinement.DeleteRefines` | src/core/storage.c:340-350 | deleting removes exactly that object |
| `StoreRefinement.PromoteRefines` | src/core/storage.c:396-411 | promotion raises the trust by one up to TRUSTED, and refuses a trusted, rejected or missing object |
| `StoreRefinement.RejectRefines` | src/core/storage.c:413-420 | rejection sets the trust of exactly that object |
| `StoreRefinement.RebootRefines` | src/core/storage.c:161-210 | storage_init rebuilds the same map from the disk |
| `StoreRefinement.FirstBoot` | src/core/storage.c:161-210 | a disk without the magic gives the empty store |
| `StoreProperties.NamesStayDistinct` | src/core/storage.c:252-338 | with names of at most 15 bytes live names stay pairwise distinct over every sequence of calls |
| `StoreProperties.LookupInvertsNaming` | src/core/storage.c:278-280 | looking up a live object's name returns its id |
| `StoreProperties.LongNamesCollide` | src/core/storage.c:92-102 | a longer name breaks this: creating its 15-byte prefix and then the name gives two live objects with one name |
| `StoreProperties.CreateKeepsNamesDistinctIff` | src/core/storage.c:227-231 | creating under a name keeps names distinct in every store if and only if the name has at most 15 bytes |
| `StoreProperties.RenameKeepsNamesDistinctIff` | src/core/storage.c:315-338 | renaming to a name keeps names distinct in every store and for every object if and only if the name has at most 15 bytes |
| `StoreProperties.CreateObjectIdempotent` | src/core/storage.c:252-264 | storage_create_object gives the same id and the same store when repeated, across a reboot too |
| `StoreProperties.EnumerationExact` | src/core/storage.c:289-313 | asking for 0, 1, 2, ... gives each live id once, in increasing order, and then -1 |
| `StoreProperties.ListingExact` | src/core/storage.c:289-313 | and each with the name, trust and size of the object it stands for; nothing is filled in past the end |
| `StoreProperties.TrustIsHistory` | src/core/storage.c:374-420 | trust is the number of successful promotions since the last write or creation, unless rejected since |
| `StoreProperties.RejectedYieldsNothing` | src/core/storage.c:352-372 | a rejected object yields no bytes until it is overwritten or re-created |
| `Storage.ObjectStore.constructor` | src/core/storage.c:161-210 | the loading loop rebuilds the table from the directory sector |
| `Storage.ObjectStore.FindByName` | src/core/storage.c:104-111 | the scan with the byte-wise comparison gives the lowest matching id |
| `Storage.ObjectStore.SaveTable` | src/core/storage.c:125-151 | the sector written byte by byte is the encoded table |
| `Storage.ObjectStore.Allocate` | src/core/storage.c:212-250 | slot reuse, the name copy and the new row |
| `Storage.ObjectStore.RenameObject` | src/core/storage.c:315-338 | new table and disk, and the refusals |
| `Storage.ObjectStore.DeleteObject` | src/core/storage.c:340-350 | new table and disk |
| `Storage.ObjectStore.ReadObject` | src/core/storage.c:352-372 | the bytes copied out |
| `Storage.ObjectStore.WriteObject` | src/core/storage.c:374-394 | the padded sectors, the row and the directory |
| `Storage.ObjectStore.PromoteObject` | src/core/storage.c:396-411 | new trust and return code |
| `Storage.ObjectStore.RejectObject` | src/core/storage.c:413-420 | new trust and return code |
| `Storage.ObjectStore.GetByIndex` | src/core/storage.c:289-313 | the counting scan gives the nth live object's id, name, trust and size, or nothing past the end |
| `NetFrames.FrameRoundTrip` | src/core/net.c:105-138 | decoding an encoded frame, padded or not, gives the frame back |
| `NetFrames.DecodeFaithful` | src/core/net.c:154-197 | re-encoding an accepted frame gives back every received byte before the ACK flag, so no field is lost or altered |
| `NetFrames.BuildFrame` | src/core/net.c:105-138 | the byte loops build the encoded frame |
| `NetFrames.ParseFrame` | src/core/net.c:154-197 | the byte loops parse exactly what decoding specifies |
| `NetProtocol.ReliableSendIsSound` | src/core/net.c:199-249 | with distinct MACs and a link that may lose, duplicate, reorder and pad, and either two devices or NIC filtering: in every run a return of 0 means the destination's net_poll_receive_message returned that exact (seq, type, data) from this device, even when both sides send reliably at once |
| `NetProtocol.OverheardAck` | src/core/net.c:217-249 | with three devices and no filtering a run exists in which 0 is returned for a message its destination never returned: the ACK answered somebody else's frame |
| `NetProtocol.SoundExactly` | src/core/net.c:217-249 | soundness on a link holds if and only if the NICs filter or there are at most two devices |
| `NetProtocol.RetryLoopOutcome` | src/core/net.c:217-249 | the retry loop always ends, with 0 exactly when one of its ten polls returns the matching ACK |
| `NetProtocol.SendReliable` | src/core/net.c:217-249 | offline it sends nothing and returns -1; otherwise the loop sends the same frame before each poll, stops at the first ACK with the right sequence number and source, and returns -1 after ten misses |
| `NetProtocol.ReceiveMessage` | src/core/net.c:199-215 | offline -1; a DATA frame is handed over with its sender and acknowledged to its source with its sequence number; anything else gives 0 and is not answered |
| `Virtqueue.ReceiveRingSafe` | src/hal/x86_64/virtio_net.c:164-179 | across any number of receives, 16-bit wrap-around included: each buffer is in exactly one place, the device reads exactly the sequence published, and the driver takes exactly the sequence returned |
| `Virtqueue.NoEntryOverwritten` | src/hal/x86_64/virtio_net.c:164-171 | posting never overwrites an available-ring entry the device has not read |
| `Virtqueue.SlotOfIndex` | src/hal/x86_64/virtio_net.c:165-165 | reducing a free-running index modulo 2^16 first does not change its ring slot when the queue size divides 2^16 |
| `Virtqueue.SlotOfIndexOnlyIf` | src/hal/x86_64/virtio_net.c:165-165 | and only then |
| `Virtqueue.LayoutFits` | src/hal/x86_64/virtio_net.c:129-145 | descriptor table, available ring and used ring are disjoint and fit the pages allocated |
| `Virtqueue.OffsetAgreesIff` | src/hal/x86_64/virtio_net.c:129-134 | leaving out the event fields of section 2.4.2 of virtio 1.0 moves the used ring if and only if 18 * size is 4092 modulo 4096 |
| `Virtqueue.LayoutIsLegacy` | src/hal/x86_64/virtio_net.c:129-134 | for every power-of-two size the used-ring offset and the page count are the legacy ones |
| `ReceiveQueue.PublishFirstInOrder` | src/hal/x86_64/virtio_net.c:207-214 | initialisation publishes every buffer once, in order, and nothing else |
| `ReceiveQueue.LookIsTakeThenPost` | src/hal/x86_64/virtio_net.c:268-302 | a look that finds a frame is, in the protocol, the oldest unseen return taken and its buffer posted at once; the invariant holds and the driver keeps no buffer |
| `ReceiveQueue.RxQueue.RxPost` | src/hal/x86_64/virtio_net.c:173-179 | descriptor, ring entry and index after posting one buffer |
| `ReceiveQueue.RxQueue.PostAll` | src/hal/x86_64/virtio_net.c:207-214 | the posting loop of hal_net_init |
| `ReceiveQueue.RxQueue.PollOnce` | src/hal/x86_64/virtio_net.c:273-299 | one turn of the polling loop: malformed, too long or copied out without its header, and the buffer posted again in each case |
| `ConsoleProperties.PanesAreIndependent` | src/hal/x86_64/console.c:228-320 | for every byte stream and every pane switch, escape sequences included: cursors stay inside their panes and a cell changes only if it lies inside a pane that was written to |
| `ConsoleProperties.LinesExtend` | src/hal/x86_64/console.c:299-314 | wrapping a text that is one byte longer changes only the last row |
| `ConsoleProperties.PanesShowWrappedText` | src/hal/x86_64/console.c:228-320 | for text without escapes and backspaces, in any interleaving, in-place scrolling leaves each pane showing exactly the last h rows of its own text wrapped eagerly at its width, and the cursor after it |
| `ConsoleProperties.EraseUndoes` | src/hal/x86_64/console.c:294-306 | back, blank, back takes back a glyph just written if and only if the glyph did not fill the pane's last cell |
| `ConsoleEscapes.EscapeParses` | src/hal/x86_64/console.c:228-290 | for every list of numbers below 2^31 and every final byte: written as ESC, bracket, decimal numbers with semicolons, the parser finds the first four of them as they were |
| `ConsoleEscapes.ForegroundIs` | src/hal/x86_64/console.c:129-142 | the last of 0 and 30 to 37 among the parameters decides the foreground, by the VGA order of the ANSI colours |
| `ConsoleEscapes.BackgroundIs` | src/hal/x86_64/console.c:129-142 | the last of 0 and 40 to 47 decides the background |
| `ConsoleEscapes.ForegroundStays` | src/hal/x86_64/console.c:129-142 | without any of them the foreground stays |
| `ConsoleEscapes.BackgroundStays` | src/hal/x86_64/console.c:129-142 | and likewise the background |
| `ConsoleEscapes.ColourSequence` | src/hal/x86_64/console.c:228-290 | a sequence ending in m changes the colour accordingly and nothing else |
| `ConsoleEscapes.CursorSequence` | src/hal/x86_64/console.c:271-280 | a sequence ending in H moves the current pane's cursor there, counting from one and stopping at its edges, and changes nothing else |
| `ConsoleEscapes.ClearSequence` | src/hal/x86_64/console.c:119-127 | a sequence ending in J blanks the current pane in the current colour and homes its cursor, and changes nothing else |
| `ConsoleEscapes.OtherSequence` | src/hal/x86_64/console.c:283-288 | any other sequence changes nothing |
| `ConsoleScreen.ScrollCells` | src/hal/x86_64/console.c:144-156 | the in-place loops move the pane's rows up, blank its last row and touch nothing else |
| `ConsoleScreen.ClearCells` | src/hal/x86_64/console.c:119-127 | the loops blank exactly the pane's interior |
| `ConsoleScreen.DrawBox` | src/hal/x86_64/console.c:163-183 | the border shows corners, lines and the title, cut to the box, and every other cell is as before |
| `ConsoleScreen.Screen.constructor` | src/hal/x86_64/console.c:185-207 | after initialisation every cell of the screen is given: the two titled boxes, the banner, blanks everywhere else, and the cursors home |
| `ConsoleScreen.Screen.ApplySgr` | src/hal/x86_64/console.c:129-142 | the loop folds the parameters into the colour, left to right |
| `ConsoleScreen.Screen.SetWindow` | src/hal/x86_64/console.c:221-226 | a window that does not exist is ignored |
| `ConsoleScreen.Screen.PutByte` | src/hal/x86_64/console.c:228-320 | the parser, the cursor, wrapping and scrolling refine the specification |
| `ConsoleScreen.Screen.Write` | src/hal/x86_64/console.c:322-327 | a string is its bytes one after the other |
| `Quarantine.FindMarker` | src/core/main.c:665-671 | the inspector's loop finds the marker if and only if it occurs before any NUL of the bytes read |
| `QuarantineView.KernelViewStep` | src/hal/x86_64/syscall.c:22-246 | one kernel step changes lives, mailboxes, capabilities and the two objects only in the listed ways |
| `QuarantineSafety.VerdictIsTheInspectors` | src/core/main.c:688-744 | over every interleaving, with all other actors doing anything they may: what Scanner's verdict wait consumes is the verdict of the inspector it just spawned on the object it asked about, never a DOWNLOAD_DONE, and it says FAIL exactly if the content is marked and the inspector's capability table had an empty entry when Scanner granted it the right to read |
| `QuarantineSafety.RefusedIffBlocked` | src/core/main.c:697-706 | over every run, Scanner's grant fails if and only if in the state before it the inspector's capability table has no empty entry: Scanner always holds the right it grants and always names a slot |
| `QuarantineSafety.VerdictExact` | src/core/main.c:688-744 | a decided object holds what Downloader wrote and is TRUSTED or REJECTED as decided; it was promoted if and only if its inspected prefix is clean or the inspector's capability table was full when Scanner came to grant the right to read |
| `QuarantineSafety.BadIsNeverTrusted` | src/core/main.c:617-744 | in every state, an object promoted at all has a clean inspected prefix, unless the inspector's capability table was full when Scanner came to grant it |
| `RefusedGrant.BadBecomesTrusted` | src/core/main.c:647-744 | and that does happen: for every marked content, kernel_main run from power-on leaves a system that has a continuation, every actor within its rights, in which the network demo's slot delegates its CAP_NET to the new inspector until the table is full, and which ends with that content TRUSTED; timer ticks alone bring every turn about |
| `QuarantineSafety.DecidedForGood` | src/core/main.c:688-744 | a verdict is never revised |
| `QuarantineSafety.ReaderReadsFinal` | src/core/main.c:756-778 | Reader reads an object only after its verdict; bytes and trust are then the same in every later state, and a rejected object yields nothing |
| `QuarantineBoot.BootReachesBooted` | src/core/main.c:1517-1532 | for any boot sequence: if every boot grant follows the stated policy and the three actors hold their rights, the scheduler starts in the state the safety theorems assume |
| `QuarantineBoot.KernelMainReachesBooted` | src/core/main.c:1466-1567 | kernel_main's own sequence, fifteen spawns, three objects, the seeded program and twenty-two grants, reaches that state from a blank disk |
| `KernelMain.KernelMainRuns` | src/core/main.c:1466-1567 | every event of that sequence is possible and succeeds: afterwards slot 1 runs, each of the fifteen slots can run, has no mail and holds exactly what it was granted, in order, the shell has quota 6 and pane 1 and everybody else quota 2 and pane 0, the other slots are DEAD, fifteen pages are gone, objects 0 and 1 are live and untrusted, and hello.bin holds the seeded bytes |
| `Authority.DelegationRefusedIff` | src/core/actor.c:291-307 | a delegation fails if and only if the slot is bad, the caller lacks the right or the receiver's table is full |
| `Machine.MachineExists` | src/core/actor.c:197-215 | with the source's own sizes, a freshly initialised machine meets every hypothesis the theorems about whole runs make |

## Left out

- Disk transfers that fail: every disk operation is taken to succeed, as directory_save ignores the result; a crash in the middle of a write and corrupt directory sectors are outside the model.
- User pointers: system calls take their buffers and strings as values. The source writes results of SYS_RECEIVE, SYS_OBJECT_READ and SYS_LIST_OBJECTS at ring 0 to an address the caller gives, which it does not check (src/hal/x86_64/syscall.c:22-246). The theorems about authority, immutability, isolation and the quarantine pipeline assume that callers pass pointers into their own memory; with any other pointer a call could overwrite a capability table or a page table, and none of them would hold.
- Contents of physical memory: page zeroing (src/core/memory.c:143-145) and the loader's byte copy (src/core/loader.c:75-79) are not modelled, only which frames are whose.
- Page conservation: the code drops pages when the free list is full, when an unreaped slot is re-spawned and when a loaded program's spawn is refused; the model proves no double use instead.
- Context switches, cr3 loads and the TLB: a switch changes current_actor; registers and stacks are not modelled.
- Page tables are modelled as structured entries (frame and rights) rather than 64-bit words, at page granularity; that boot's page directory maps only supervisor pages and that .user_text is page-aligned and that it, the kernel's tables, boot's tables and those of the LAPIC mapping do not overlap are stated assumptions (`Isolation.MachineOk`).
- Boot code, GDT and TSS, PIC, PIT, RTC, PCI, ATA, APIC and multiprocessor start-up: port I/O and CPU state.
- ActorKernel.ActorKernel.Handle: keyboard, clock, console and network calls are one capability-gated call without effect on the kernel's tables; the console and the network are modelled as machines of their own.
- The shell, scripted demo actors, the ARP demo, printing helpers and userland programs: easy or presentation only.
- Identity of actors across slot reuse: capabilities name slots, and the theorems speak of slots and their present occupants.
- Liveness of the quarantine pipeline: a failed spawn or a reused slot can leave Scanner waiting for ever; only safety is claimed.
- The transmit queue's buffer after a send timeout: the wait is bounded and its expiry ignored (src/hal/x86_64/virtio_net.c:258-265).
- NetProtocol.ReliableSendIsSound: is about runs since one boot, with fewer than 2^64 reliable sends. next_seq starts at 1 again after a reboot, while ACKs of the time before may still be on the link; such an ACK would be taken for the new send's, so across reboots the link has to be drained first.
- NetProtocol.SendReliable: what each poll returns is a parameter, in place of the spin loop underneath.
- ReceiveQueue.RxQueue.PollOnce: one turn of the loop; the bound max_spins and the device's moves between turns are the protocol machine's business.
- QuarantineSafety.BadIsNeverTrusted: assumes that objects already trusted at boot are clean, since trust persists on disk, and that the downloaded contents fit an object.
- The console's serial mirror and its spinlock.
- ConsoleScreen.Screen.PutByte: parameters of escape sequences wrap as 32-bit two's complement where the source's signed overflow is undefined.
- ActorKernel.ActorKernel.LoadAndSpawn: claims the frames but does not copy the code into them.
- AddressSpaces.AddressSpaces.Create: the sum of base and size does not wrap around 2^64; its only caller passes a page below 256MB.
- KernelMain.KernelMainRuns: starts from a blank disk; what an earlier boot left on the disk is covered by BootReachesBooted.
- Memory.PageAllocator.AllocatePage: does not state that the page comes zeroed.
- Paging.ReachSound: .user_text is reachable for writing by every actor, so isolation is about all other frames.
