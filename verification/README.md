# ntosebpfext, modelled and proved in Dafny

This project models the stateful core of ntosebpfext: two Windows eBPF extensions (process events and
network events), the hook-provider library they share, and the user-mode process monitor. It proves what
holds over every run of that code: any number of clients, threads, CPUs and events, and every pattern of
allocation and lookup failures.

`dafny verify dfyconfig.toml` checks everything.

## The parts

| files | what they model | form |
|---|---|---|
| `LoaderProtocol`, `LoaderProofs`, `LoaderDelivery`, `LoaderCode` | Subscribe, Unsubscribe, Shutdown and the poll thread of the monitor library | steps of threads over one lock; the locked bodies as a class |
| `HookLifecycle`, `HookProofs` | attach, dispatch under rundown protection, detach, release of hook clients | steps of client threads and dispatchers |
| `HookCallbacks`, `HookProvider` | the attach and detach routines and callbacks as sequential code | classes over the pool and the pointer list |
| `ListRing`, `AttachParameter`, `Iteration` | the intrusive list, the attach-parameter check, a dispatcher's walk | pointer code refined to sequences; steps |
| `Common` | sequence helpers that several models share | functions |
| `KernelPool` | the kernel pool: blocks handed out, blocks given back, allocations refused; any allocation may be refused | class |
| `ProcessAccount`, `ProcessHelpers`, `ProcessTestRun`, `ProcessNotify` | the process context, the cached account, the helpers, test runs and the notify routine | methods over heap buffers |
| `DispatchWalk` | a dispatch, with its verdict, over a list that changes under it | steps |
| `NetEvent` | per-CPU event buffers, event framing, the network event monitor program | class, methods |
| `MonitorProgram`, `StringReader` | the process monitor program, its maps, and the C# reader of the maps | methods, classes, functions |

Concurrent protocols are transition systems. A section that the source runs under one lock is one step, and
the outcome of every foreign call is part of the step's label, so `Reachable` ranges over all interleavings
and all failures. Sequential code is imperative, with its result tied to a function of the old state.

## What is assumed of the environment

- Loader: Initialize succeeds, a monitor subscribes once and unsubscribes at most once after its Subscribe
  returned, and event handlers return and do not call back into the loader.
- Hook clients: a record is not released while a dispatcher holds a pointer to it outside its rundown
  (`HookLifecycle.MayRelease`). A client that a dispatcher holds is not removed before its successor is
  read (`Iteration.Enabled`). Inside the rundown nothing is assumed; that is what is proved.
- The links of a client that was removed from the list while a dispatcher holds it lead to the list head or
  to a record that is still allocated (the last clause of `HookLifecycle.Enabled`).
- Rundown objects refuse entry once waiting has begun, and a wait returns only when nobody holds one.
- The lookup routine reports sizes that are large enough for the strings it returns, and its failures are
  negative statuses. It need not answer the same twice, except where a statement says so.
- The descriptors given to the process `context_create` carry lengths only; their buffers are NULL.
- BPF map updates succeed. Any update may evict any entries: what the k-th update of a map evicts is a parameter.
- The memory of a pushed network event is not one of the extension's own blocks.
- The network event buffers start from a successful registration.
- `memcpy_s` has the C runtime's behaviour: a copy that does not fit clears the destination and fails.

## Where the code differs from its comments, and properties that hold only under a condition

- `process_monitor.c:171-176` clamps a long command line to the size of the buffer, saying that truncating
  is better than getting nothing. The room that is then given to `memcpy_s` is one byte smaller, so a
  command line of 65520 bytes or more is stored as zeros: `MonitorProgram.LongCommandsAreLost`.
- A stored command line is clean exactly if the scratch buffer was zero past what is copied
  (`MonitorProgram.CommandIsClean`). It always is, except for the thread key 0, whose buffer is not cleared
  and holds what the previous process at that key left: its domain, and its image path past byte 512
  (`MonitorProgram.TwoAtKeyZero`). `MonitorProgram.CommandShowsImagePath` is a run in which it is not clean.
- The notify routine leaves the pool as it found it exactly unless the token query succeeds with a block whose
  SID is not valid (`ntos_ebpf_ext_process.c:594-609`). The block is given back only where the SID is valid, so
  one block is lost for every such notification: `ProcessNotify.Notify`, `ProcessNotify.InvalidSidLosesBlock`,
  `ProcessNotify.NotifyAll`.
- The account cache recognises a resolved account by both strings having a buffer. So later helper calls agree
  with the first successful one exactly if each string had a buffer at the start or the first answer asks for
  room for it: `ProcessHelpers.AgreementIsExact`. The contexts of notifications always have buffers
  (`ProcessHelpers.OneAccount`); a test context with an empty account string has none for it, and
  `ProcessHelpers.AgreementFails` is a case in which the first call finds the account and the second does not.
- The network event monitor cuts the payload length down to 32 bits first. It sends what it should exactly
  if the length fits 32 bits or the remainder is still at least 128: `NetEvent.ClampIsExact`.
- A string is read back as it was exactly if its surrogates are paired and it has no NUL at either end:
  `StringReader.ReadBackIsExact`.
- An account string that was not resolved or does not fit is not stored, so a map may still show the one of
  an earlier process with the same id: `StringReader.OtherwiseEarlier`.

## Model

| member | source | states |
|---|---|---|
| LoaderProofs.ReachableInv | tools/process_monitor.Library/ProcessMonitorBPFLoader.cs:53-106 | In every interleaving of callers and poll threads the lock, the monitor list, the shutdown flag, the five handles and the poll thread fit together |
| LoaderProofs.StepKeepsInv | tools/process_monitor.Library/ProcessMonitorBPFLoader.cs:53-190 | Every single step of any thread keeps that invariant |
| LoaderProofs.ShutdownRunsAlone | tools/process_monitor.Library/ProcessMonitorBPFLoader.cs:95-104 | Whenever a caller is inside Shutdown no monitor is subscribed, every poll thread has exited and no other caller is inside Initialize or Shutdown |
| LoaderProofs.InitializeAndShutdownAlternate | tools/process_monitor.Library/ProcessMonitorBPFLoader.cs:66-103 | The log of every run is a prefix of begin-init, end-init, begin-shutdown, end-shutdown, repeated |
| LoaderProofs.PollTouchesLiveResources | tools/process_monitor.Library/ProcessMonitorBPFLoader.cs:170-188 | A poll thread that has not exited belongs to the current incarnation, whose ring buffer and BPF object are open |
| LoaderProofs.SubscribedMeansServed | tools/process_monitor.Library/ProcessMonitorBPFLoader.cs:53-72 | While a monitor is subscribed everything is initialized and no shutdown is announced |
| LoaderProofs.IdleMeansClosed | tools/process_monitor.Library/ProcessMonitorBPFLoader.cs:309-347 | With no monitor listed and no call pending every handle is closed, the lock is free and every poll thread has exited |
| LoaderProofs.CancelledForGood | tools/process_monitor.Library/ProcessMonitorBPFLoader.cs:86-90 | A cancelled token stays cancelled in every continuation |
| LoaderProofs.WaitersHaveAWaker | tools/process_monitor.Library/ProcessMonitorBPFLoader.cs:60-63 | A caller parked in Monitor.Wait always has a pending caller that will pulse it |
| LoaderProofs.Progress | tools/process_monitor.Library/ProcessMonitorBPFLoader.cs:91-105 | With any call pending, some step other than a new call is enabled and strictly decreases a well-founded measure |
| LoaderProofs.CallerStepIsCloser | tools/process_monitor.Library/ProcessMonitorBPFLoader.cs:53-106 | Whatever step a pending call takes, it strictly decreases that measure |
| LoaderProofs.CallersWaitOnlyForPoll | tools/process_monitor.Library/ProcessMonitorBPFLoader.cs:87-95 | A pending caller has a step to take, or all of them wait for a poll thread that holds the lock or has been told to stop |
| LoaderProofs.CallerStepsBounded | tools/process_monitor.Library/ProcessMonitorBPFLoader.cs:53-106 | Under every schedule, and however long the poll threads run, pending calls take only a bounded number of steps while no new call begins |
| LoaderProofs.CallsCanReturn | tools/process_monitor.Library/ProcessMonitorBPFLoader.cs:53-106 | From every state of the invariant all pending calls can be run to their return without new calls |
| LoaderProofs.NoDeadlock | tools/process_monitor.Library/ProcessMonitorBPFLoader.cs:74-106 | No reachable state is deadlocked: a step is enabled while a call is pending, and all pending calls can return |
| LoaderDelivery.CallbackReachesEveryMonitor | tools/process_monitor.Library/ProcessMonitorBPFLoader.cs:231-307 | In every run, from the delivery of a record to the return of the callback, the handlers are called for exactly the monitors listed under the lock, once each and in list order: created for operation 0, destroyed for operation 1, none for any other record |
| LoaderDelivery.LockHolderReachesEveryMonitor | tools/process_monitor.Library/ProcessMonitorBPFLoader.cs:277-303 | The same from the moment the callback asks for the lock; while it holds the lock the list stays as it is |
| LoaderDelivery.SubscribedMonitorHearsOnce | tools/process_monitor.Library/ProcessMonitorBPFLoader.cs:277-303 | A monitor that is subscribed when the callback returns was told exactly once, and one that is not listed was not told |
| LoaderDelivery.DeliveryCanFinish | tools/process_monitor.Library/ProcessMonitorBPFLoader.cs:176-307 | In every reachable state a polling thread can be handed any record, and the callback this starts can be run to its return |
| LoaderCode.Loader.Initialize | tools/process_monitor.Library/ProcessMonitorBPFLoader.cs:108-190 | The field updates are the composition of the protocol's three initialization stages and free nothing |
| LoaderCode.Loader.SubscribeLocked | tools/process_monitor.Library/ProcessMonitorBPFLoader.cs:65-70 | Appends the monitor, initializing exactly if the list was empty |
| LoaderCode.Loader.UnsubscribeLocked | tools/process_monitor.Library/ProcessMonitorBPFLoader.cs:78-92 | Removes the monitor; exactly if the list is now empty the token is cancelled, the shutdown announced and the thread handed out for joining |
| LoaderCode.Loader.Shutdown | tools/process_monitor.Library/ProcessMonitorBPFLoader.cs:309-347 | Is the composition of the protocol's shutdown stages, frees exactly what it finds open, and is idempotent |
| HookProofs.StepKeepsInv | libs/ebpf_ext/ebpf_ext_hook_provider.c:94-410 | Every step of attach, detach, completion and dispatch keeps the ledger, list, registration and rundown invariants |
| HookProofs.ReachableInv | libs/ebpf_ext/ebpf_ext_hook_provider.c:268-402 | They hold in every reachable state, for any number of clients and dispatchers |
| HookProofs.RegistrationCount | ebpf_extensions/ntosebpfext/ntos_ebpf_ext_process.c:118-174 | Count = list length + callbacks succeeded but not inserted - detach callbacks run but not unlinked; registered exactly when the count is positive |
| HookProofs.KernelRoutineExact | ebpf_extensions/ntosebpfext/ntos_ebpf_ext_process.c:122-172 | At the end of every run the kernel routine is registered if and only if there are clients or the kernel refused to remove it at the most recent last detach |
| HookProofs.RoutineFollowsClients | ebpf_extensions/ntosebpfext/ntos_ebpf_ext_process.c:161-172 | In every run whose detaches the kernel accepts, the routine is registered exactly while the flag is set and the count positive |
| HookProofs.DetachNeverUnderflows | ebpf_extensions/ntosebpfext/ntos_ebpf_ext_process.c:157-159 | In every reachable state in which a detach callback can run, there is a positive count to decrement |
| HookProofs.RundownProtects | libs/ebpf_ext/ebpf_ext_hook_provider.c:125-135 | Inside its rundown a client's record is allocated, its work item not freed, its detach not completed |
| HookProofs.ProtectedUntilLeave | libs/ebpf_ext/ebpf_ext_hook_provider.c:94-135 | From a successful entry to the matching leave this holds, whatever steps the other threads take |
| HookProofs.NoInvocationAfterWait | libs/ebpf_ext/ebpf_ext_hook_provider.c:112-120 | Once completion has passed its wait, no invocation of the client is in progress in any continuation of the run |
| HookProofs.SuccessorIsNext | libs/ebpf_ext/ebpf_ext_hook_provider.c:500-522 | In every reachable state a dispatcher goes from a listed client to the next in the list, and ends at the last |
| HookProofs.ReleasedExactlyOnce | libs/ebpf_ext/ebpf_ext_hook_provider.c:242-251 | Record and work item are freed at most once, never before they are allocated, and exactly once by the end of a failed attach or a completed detach |
| HookProofs.OnlySuccessfulClientsListed | libs/ebpf_ext/ebpf_ext_hook_provider.c:331-353 | A listed client's attach succeeded for good, and a client whose attach failed never appears in the list |
| HookCallbacks.HookState.OnProcessAttach | ebpf_extensions/ntosebpfext/ntos_ebpf_ext_process.c:105-145 | Performs the lifecycle's registration update; succeeds exactly if registered already or the kernel accepts, and then a registration that counts n clients counts n + 1 and the routine is registered |
| HookCallbacks.HookState.OnNetEventAttach | ebpf_extensions/neteventebpfext/netevent_ebpf_ext_event.c:233-294 | The same for client data of version 1 or later and 4 bytes with a capture type from 1 to 4; anything else changes nothing, and an acceptable capture type is taken over |
| HookCallbacks.HookState.OnClientDetach | ebpf_extensions/neteventebpfext/netevent_ebpf_ext_event.c:296-328 | A registration that counts n clients counts n - 1; the last one removes the kernel routine if the kernel accepts, and otherwise the routine is left alone |
| HookProvider.CleanUpClient | libs/ebpf_ext/ebpf_ext_hook_provider.c:242-251 | Gives back exactly the blocks the client holds |
| HookProvider.InitRundown | libs/ebpf_ext/ebpf_ext_hook_provider.c:58-80 | Succeeds exactly if the client now holds a new work item |
| HookProvider.Provider.AttachClient | libs/ebpf_ext/ebpf_ext_hook_provider.c:268-356 | Succeeds exactly if there is a dispatch table, the callback accepts and no allocation is refused; then one complete client is at the tail of the ring and accounted for; every failure point leaves list, registration and live blocks as they were |
| HookProvider.Provider.DetachClient | libs/ebpf_ext/ebpf_ext_hook_provider.c:366-402 | Removes exactly that client from ring and registration, the kernel routine with the last one if the kernel accepts, and keeps its blocks |
| HookProvider.CompleteDetach | libs/ebpf_ext/ebpf_ext_hook_provider.c:94-123 | Gives back the work item and the record, nothing else |
| HookProvider.AttachAndDetach | libs/ebpf_ext/ebpf_ext_hook_provider.c:268-410 | An attach followed by the detach of that client, which happens exactly if the attach succeeds, restores ring, registration and pool and frees both blocks; the kernel routine, if the kernel accepts, is left exactly while others are attached |
| ListRing.ListEntry.constructor | libs/include/user/framework.h:22-28 | An entry on its own is an empty ring |
| ListRing.Initialize | libs/include/user/framework.h:22-28 | Makes the head an empty ring |
| ListRing.IsEmpty | libs/include/user/framework.h:30-35 | True exactly if the ring holds no entry |
| ListRing.InsertTail | libs/include/user/framework.h:37-50 | The ring, well formed in both directions, holds the old entries followed by the new one |
| ListRing.RemoveEntry | libs/include/user/framework.h:52-64 | Deletes exactly that entry, returns true exactly if the list is now empty, and leaves the entry's own links |
| ListRing.RemoveHead | libs/include/user/framework.h:66-77 | Takes the first entry, or returns the head of an empty list |
| ListRing.AppendTailList | libs/include/user/framework.h:79-88 | Concatenates the entries of a headless ring |
| ListRing.GetNext | libs/ebpf_ext/ebpf_ext_hook_provider.c:500-522 | The first entry, or the one after the current; null exactly at the end |
| ListRing.RunAll | libs/include/user/framework.h:22-88 | Any sequence of inserts, removals, head removals and appends on the pointers computes the same operations on the sequence |
| AttachParameter.CheckAttachParameter | libs/ebpf_ext/ebpf_ext_hook_provider.c:178-240 | The pointer walk succeeds exactly if the list is empty, for a wild card, or every attached client has data that differs from the parameter and from the wild card; with a NULL-data client attached every check is denied |
| AttachParameter.GateIsExact | libs/ebpf_ext/ebpf_ext_hook_provider.c:197-232 | The check admits a client if and only if distinctness and the solitude of the wild card survive the insertion |
| AttachParameter.StepKeepsExclusion | libs/ebpf_ext/ebpf_ext_hook_provider.c:178-240 | A gated attach or a detach keeps exclusion |
| AttachParameter.ExclusionForever | libs/ebpf_ext/ebpf_ext_hook_provider.c:178-240 | After any sequence of gated attaches and detaches parameters are pairwise distinct and a wild-card client is alone |
| AttachParameter.AttachGated | libs/ebpf_ext/ebpf_ext_hook_provider.c:331-337 | Check and insertion on the ring perform one step of that run; a NULL-data client is admitted only to an empty list |
| AttachParameter.DetachGated | libs/ebpf_ext/ebpf_ext_hook_provider.c:390-392 | A detach from the ring performs one step of that run |
| Iteration.VisitsEveryStayingClientOnce | libs/ebpf_ext/ebpf_ext_hook_provider.c:500-522 | With attaches and detaches in between, a walk visits in attach order, nobody twice, and everybody who stayed attached |
| Iteration.EndOfWalkHasSeenAll | ebpf_extensions/ntosebpfext/ntos_ebpf_ext_process.c:620-647 | At the read that ends the walk everybody then attached has been visited |
| DispatchWalk.VerdictOverWalk | ebpf_extensions/ntosebpfext/ntos_ebpf_ext_process.c:618-647 | However the list changes during a dispatch, the verdict is at every point the fold over the clients visited so far, in attach order |
| DispatchWalk.StayingClientsRun | ebpf_extensions/ntosebpfext/ntos_ebpf_ext_process.c:618-647 | When a dispatch has ended, every client that stayed attached and could be entered ran; a deletion is never cut short |
| ProcessAccount.Grow | ebpf_extensions/ntosebpfext/ntos_ebpf_ext_process.c:718-742 | A string is moved to a new block of the size asked for exactly if it is too small and the pool does not refuse; otherwise it stays |
| ProcessAccount.LookUp | ebpf_extensions/ntosebpfext/ntos_ebpf_ext_process.c:701-755 | Two lookups exactly if the first answer asks for room that a UNICODE_STRING can have and the pool grants, else one; success exactly if the account resolves in the room at hand or after that retry, with the looked-up bytes; which strings end up with a buffer |
| ProcessAccount.ResolveFirst | ebpf_extensions/ntosebpfext/ntos_ebpf_ext_process.c:670-778 | A resolution: with the looked-up strings and the live blocks grown by exactly those they moved to, or with empty strings and every block given back |
| ProcessAccount.ResolveAccount | ebpf_extensions/ntosebpfext/ntos_ebpf_ext_process.c:670-778 | The first call is a resolution: it succeeds exactly if there is a usable SID and the lookup resolves; a later call changes nothing and succeeds exactly if both strings have a buffer |
| ProcessAccount.ResolvesSame | ebpf_extensions/ntosebpfext/ntos_ebpf_ext_process.c:701-755 | With a lookup routine that answers the same each time, success does not depend on the buffers the strings started with |
| ProcessHelpers.CopyUnicodeStringToBuffer | ebpf_extensions/ntosebpfext/ntos_ebpf_ext_process.c:292-304 | The bytes and their count, or -EINVAL with the buffer untouched; nothing is written past the given length |
| ProcessHelpers.GetImagePath | ebpf_extensions/ntosebpfext/ntos_ebpf_ext_process.c:660-666 | The image path's bytes, or -EINVAL |
| ProcessHelpers.GetAccount | ebpf_extensions/ntosebpfext/ntos_ebpf_ext_process.c:780-812 | The name or domain the call shows, -EINVAL if it does not fit, or -ENOENT with the buffer untouched |
| ProcessHelpers.StretchConcat | ebpf_extensions/ntosebpfext/ntos_ebpf_ext_process.c:670-812 | Two runs of helper calls compose; the account is resolved in at most one of them |
| ProcessHelpers.RunProgram | ebpf_extensions/ntosebpfext/ntos_ebpf_ext_process.c:660-812 | Any helper calls in any order and with any lengths: the first account call shows what its resolution finds, every later one what the cache recognises |
| ProcessHelpers.AgreementIsExact | ebpf_extensions/ntosebpfext/ntos_ebpf_ext_process.c:680-687 | All calls show one and the same account if and only if the account was resolved before, or its resolution fails or gives both strings a buffer, or it is asked for only once |
| ProcessHelpers.OneAccount | ebpf_extensions/ntosebpfext/ntos_ebpf_ext_process.c:565-569 | On a context whose strings have buffers all calls show one and the same account |
| ProcessHelpers.AgreementFails | ebpf_extensions/ntosebpfext/ntos_ebpf_ext_process.c:670-778 | A case in which the first call finds the account and the second does not |
| ProcessHelpers.CacheRefinesDirectLookup | ebpf_extensions/ntosebpfext/ntos_ebpf_ext_process.c:565-569 | On a notify context the lookup routine is called at most twice and every observation is the one direct lookup gives, which shows no account only if there is no usable SID, the routine refuses, the strings are too long, or the pool refused a block that was needed |
| ProcessTestRun.DeepCopy | ebpf_extensions/ntosebpfext/ntos_ebpf_ext_process.c:268-289 | The string holds exactly the next bytes of the data in a block of its own, or no block was kept |
| ProcessTestRun.PiecesPack | ebpf_extensions/ntosebpfext/ntos_ebpf_ext_process.c:330-514 | Packing the unpacked pieces gives back the data they were cut from |
| ProcessTestRun.ContextCreate | ebpf_extensions/ntosebpfext/ntos_ebpf_ext_process.c:306-441 | Rejects exactly missing contexts, short data and overlong lengths, runs out of memory exactly if an allocation was refused, and keeps no block on failure; success holds the four pieces |
| ProcessTestRun.ContextDestroy | ebpf_extensions/ntosebpfext/ntos_ebpf_ext_process.c:443-546 | Packs the four strings if there is room, reports the bytes written, hands back each descriptor with its buffer address cleared and every other field as it is, and frees every owned block once, replaced or not |
| ProcessTestRun.DescribedCuts | ebpf_extensions/ntosebpfext/ntos_ebpf_ext_process.c:465-511 | The lengths that are handed back cut the packed bytes, whatever follows them, into exactly the four strings |
| ProcessTestRun.FinalAccountOf | ebpf_extensions/ntosebpfext/ntos_ebpf_ext_process.c:481-514 | The account strings at the end are the input's if no resolution started, else those of the last lookup if it succeeded and empty if not |
| ProcessTestRun.TestRun | ebpf_extensions/ntosebpfext/ntos_ebpf_ext_process.c:306-546 | Create, any helper calls, destroy: rejected exactly if unacceptable, out of memory only if an allocation was refused; the pool is as before, the calls are observed as those of any program, the output is the consumed input prefix or carries the resolved or emptied account, and the description handed back cuts it into the command, the path and the account at the end of the run |
| ProcessTestRun.RunAndRecreate | ebpf_extensions/ntosebpfext/ntos_ebpf_ext_process.c:306-546 | The outputs of a run are never rejected by a second create, whose context holds the command and path of the first input and the account, the lookup flag, the SID and the numbers that the run ended with |
| ProcessNotify.VerdictIsFirstFailure | ebpf_extensions/ntosebpfext/ntos_ebpf_ext_process.c:618-647 | On create the status becomes the first failing client's and no later client runs; on delete all that enter run and the status stays |
| ProcessNotify.DispatchSplit | ebpf_extensions/ntosebpfext/ntos_ebpf_ext_process.c:618-647 | The verdict of a list is that of its tail after any prefix that does not end the dispatch |
| ProcessNotify.CaptureSid | ebpf_extensions/ntosebpfext/ntos_ebpf_ext_process.c:593-611 | The size of the captured SID, and exactly the block that is not given back |
| ProcessNotify.ChainIsStretch | ebpf_extensions/ntosebpfext/ntos_ebpf_ext_process.c:618-647 | What the programs observe one after the other is what one program making all of their calls would |
| ProcessNotify.WitnessedIsOneAccount | ebpf_extensions/ntosebpfext/ntos_ebpf_ext_process.c:565-647 | All clients of a notification are invoked on the same and see one and the same account |
| ProcessNotify.AccountSeen | ebpf_extensions/ntosebpfext/ntos_ebpf_ext_process.c:565-611 | If the token's SID is valid, of 1 to 68 bytes and copied, and the lookup answers with an account that fits 80 bytes, all clients see that account; with any other token, and on deletion, none |
| ProcessNotify.DispatchLoop | ebpf_extensions/ntosebpfext/ntos_ebpf_ext_process.c:618-647 | The loop over the pointer list computes that fold in attach order, and every program runs from the account that the one before it left |
| ProcessNotify.FreeAccount | ebpf_extensions/ntosebpfext/ntos_ebpf_ext_process.c:649-656 | Gives back exactly what the strings moved to; the inline buffers are never among it |
| ProcessNotify.Notify | ebpf_extensions/ntosebpfext/ntos_ebpf_ext_process.c:548-658 | The verdict is the fold; every program is invoked on exactly the command line, the image path, the operation and the numbers of the notification (empty strings on deletion), one after the other from an account that is not resolved yet; and under every failure pattern the pool is left as found if and only if the token query did not pass on a block with an invalid SID; otherwise exactly one block is lost |
| ProcessNotify.InvalidSidLosesBlock | ebpf_extensions/ntosebpfext/ntos_ebpf_ext_process.c:594-609 | A notification after which the pool holds more than before |
| ProcessNotify.NotifyAll | ebpf_extensions/ntosebpfext/ntos_ebpf_ext_process.c:548-658 | Over any sequence of notifications each ends with its verdict, and the pool grows by exactly one block for each that meets an invalid SID |
| NetEvent.Peak | ebpf_extensions/neteventebpfext/netevent_ebpf_ext_event.c:672-687 | The maximum of 4096 and the sizes dispatched on a CPU |
| NetEvent.EventBuffers.Register | ebpf_extensions/neteventebpfext/netevent_ebpf_ext_event.c:382-422 | Success, which is exactly when no allocation is refused, gives every CPU a buffer of its own of 4096 bytes, all new blocks |
| NetEvent.EventBuffers.Unregister | ebpf_extensions/neteventebpfext/netevent_ebpf_ext_event.c:432-457 | Gives back every held block once; a second call changes nothing |
| NetEvent.EventBuffers.EnsureRoom | ebpf_extensions/neteventebpfext/netevent_ebpf_ext_event.c:667-687 | The recorded size stays the true length and the peak of the CPU; a failed resize changes nothing; other CPUs keep their buffers |
| NetEvent.AfterUnregister | ebpf_extensions/neteventebpfext/netevent_ebpf_ext_event.c:654-660 | Pushes and unregisters after the unregister change nothing |
| NetEvent.WriteFrame | ebpf_extensions/neteventebpfext/netevent_ebpf_ext_event.c:689-707 | Type, untouched padding, version and the whole event, and nothing past them |
| NetEvent.EventBuffers.Push | ebpf_extensions/neteventebpfext/netevent_ebpf_ext_event.c:596-707 | With the buffers registered and the CPU counted an event is passed on exactly if it has at least 0x35 bytes and no allocation was refused, which up to 4092 bytes never happens; then it is framed in that CPU's buffer with a context that spans the frame; a dropped one changes nothing |
| NetEvent.ClampIsExact | tools/netevent_monitor/bpf/netevent_monitor.c:29-42 | The clamped payload length is min(128, length) if and only if the length fits 32 bits or its remainder is at least 128 |
| NetEvent.ClampLosesPayload | tools/netevent_monitor/bpf/netevent_monitor.c:32-40 | A payload of 2^32 bytes is sent as none |
| NetEvent.NetEventMonitor | tools/netevent_monitor/bpf/netevent_monitor.c:27-47 | Emits exactly if the layout guard holds, and never more than the context holds |
| NetEvent.MonitorFrame | tools/netevent_monitor/bpf/netevent_monitor.c:27-47 | On a context that spans one frame the guard holds and the record is header, 0x35 bytes and the first payload bytes |
| NetEvent.PushAndMonitor | ebpf_extensions/neteventebpfext/netevent_ebpf_ext_event.c:622-707 | End to end under the same condition: an event is emitted as its type, a padding byte, the version and its own bytes, cut after 181 of them if it is shorter than 4 GiB |
| NetEvent.PushAll | ebpf_extensions/neteventebpfext/netevent_ebpf_ext_event.c:596-707 | Any events on any CPUs keep the buffers sound and lose no block; the log grows by exactly the events that were passed on, and a deliverable event is lost only to a refused allocation, one for one |
| NetEvent.Lifetime | ebpf_extensions/neteventebpfext/netevent_ebpf_ext_event.c:408-457 | Register, any pushes, unregister, further pushes and an unregister: it fails only on a refused allocation; else the log is that of the pushes passed on, every block ever taken has been freed once when the first unregister returns, and nothing changes after it |
| MonitorProgram.Scratch.Get | tools/process_monitor_bpf/process_monitor.c:107-134 | A cleared buffer of the thread's own if the insertion is granted, except for key 0, which gets the slot of that CPU as it is |
| MonitorProgram.CommandIsClean | tools/process_monitor_bpf/process_monitor.c:170-181 | The stored command is the process's own bytes, zero-padded, if and only if the buffer was zero past what is copied |
| MonitorProgram.LongCommandsAreLost | tools/process_monitor_bpf/process_monitor.c:171-176 | A command of 65520 bytes or more is stored as zeros |
| MonitorProgram.StoreCommand | tools/process_monitor_bpf/process_monitor.c:170-178 | The value stored for a command, for any previous contents of the buffer |
| MonitorProgram.CallHelper | ebpf_extensions/ntosebpfext/ntos_ebpf_ext_process.c:292-304 | What the program sees of a helper call agrees with direct lookup |
| MonitorProgram.Fetch | tools/process_monitor_bpf/process_monitor.c:180-199 | Whatever the buffer held, the value of the other fields is the field's own bytes zero-padded, or zeros |
| MonitorProgram.ValueIsClean | tools/process_monitor_bpf/process_monitor.c:162-199 | What is stored is the field's own bytes zero-padded, or zeros, if and only if it is not a command over a buffer that was not clear |
| MonitorProgram.StoredInBytes | tools/process_monitor_bpf/process_monitor.c:170-199 | The stored value of every field in bytes, and exactly which account strings are stored: a name of up to 62 and a domain of up to 510 bytes |
| MonitorProgram.LatestIsOwn | tools/process_monitor_bpf/process_monitor.c:162-199 | The value the reference gives for an id is all of one process with that id, and no later one stored the field |
| MonitorProgram.ReplayIsLatest | tools/process_monitor_bpf/process_monitor.c:162-199 | A map shows exactly the latest value stored for an id, unless it was evicted since |
| MonitorProgram.Maps.ProcessMonitor | tools/process_monitor_bpf/process_monitor.c:136-203 | Every map is what the history and the evictions make of it; an event is left out exactly if its thread gets no scratch space; what the scratch buffer held before and holds after |
| MonitorProgram.Run | tools/process_monitor_bpf/process_monitor.c:107-203 | The same over any sequence of events on any CPUs and threads: the history is exactly that of the events handled, with what each found in its buffer |
| MonitorProgram.ClearedMeansClean | tools/process_monitor_bpf/process_monitor.c:107-203 | A process on a thread whose scratch space gets cleared has only clean values stored, whatever other threads do |
| MonitorProgram.TwoAtKeyZero | tools/process_monitor_bpf/process_monitor.c:110-115 | Of two processes in a row at key 0 on one CPU the second one's command is clean if and only if the first one left nothing past it |
| MonitorProgram.CommandShowsImagePath | tools/process_monitor_bpf/process_monitor.c:110-178 | A run at key 0 after which a command is not the process's own |
| StringReader.DecodeAt | tools/process_monitor.Library/ProcessMonitorBPFLoader.cs:228 | Unit by unit: exactly a surrogate whose other half is not beside it becomes U+FFFD |
| StringReader.DecodeIsExact | tools/process_monitor.Library/ProcessMonitorBPFLoader.cs:228 | Decoding changes nothing if and only if surrogates are paired |
| StringReader.ReadBackIsExact | tools/process_monitor.Library/ProcessMonitorBPFLoader.cs:212-229 | Encoded, padded, decoded and trimmed, a string is itself if and only if it is well formed with no NUL at either end |
| StringReader.GetUnicodeString | tools/process_monitor.Library/ProcessMonitorBPFLoader.cs:212-229 | Empty without an entry, else the trimmed decoding of the value |
| StringReader.LatestCreateDecides | tools/process_monitor_bpf/process_monitor.c:178-199 | If the latest process with an id stored a field, the map value is that process's |
| StringReader.OtherwiseEarlier | tools/process_monitor_bpf/process_monitor.c:187-199 | If it did not, what the map shows is all of an earlier process with the id |
| StringReader.ReadField | tools/process_monitor.Library/ProcessMonitorBPFLoader.cs:212-229 | A field of the latest process that fits its slot, was stored from a clear buffer and was not evicted since is read back if and only if it is well formed with no NUL at either end |
| StringReader.Read | tools/process_monitor.Library/ProcessMonitorBPFLoader.cs:212-229 | The reader shows the latest value that was stored, or nothing if it was evicted since |
| StringReader.RunAndRead | tools/process_monitor.Library/ProcessMonitorBPFLoader.cs:212-229 | From new maps through any events on any CPUs and threads to the reader: if a process's entry is never evicted, a field of the latest process with the id (a command shorter than 65520 bytes on a cleared thread, a path of at most 1022, a name of at most 62, a domain of at most 510) is read back if and only if it is well formed with no NUL at either end |

## Left out

- Driver entry, device set-up, provider registration and program-info providers (`ebpf_ext_drv.c`, `ebpf_ext_prog_info_provider.c`, `ebpf_ext.c`): call order only.
- The implementations of NMR, locks, rundown objects, work items, BPF maps and ring buffers: only the behaviour listed above is used.
- The run-time memory order between CPUs: a section under a lock is one atomic step.
- Wrap-around of the 64-bit registration count.
- The tests of `_ebpf_extension_hook_provider_attach_client` for NULL output arguments.
- The race of two attaching network event clients over the capture type, which is written outside the lock.
- The network event `context_create` and `context_destroy`, which would only repeat the easier half of the process ones.
- NetEvent.EventBuffers.Register: says nothing about the buffers after a failed registration, whose pointer array is uninitialised.
- The dispatch loop of a pushed network event, which is that of a process deletion (`ProcessNotify.DispatchLoop`, `DispatchWalk`) without a verdict.
- ProcessTestRun.ContextCreate: only for descriptors whose buffers are NULL, as the assumptions say; its failure path would free what other descriptors point to.
- MonitorProgram.CallHelper: copies the string with the extension's own routine, but takes it from the event instead of resolving the account; that every helper call shows one such account is `ProcessHelpers.RunProgram`.
- The ring-buffer record apart from its size, operation and process id, the bytes of the token SID and their conversion to a string, and what the event handlers do.
- A failed Initialize, handlers that throw or re-enter the loader, and unsubscribing twice.
- Logging, ETW, the console program, the export tools and the tests.
