# Verified model of Ganeti's locking and bookkeeping cores

Ganeti manages clusters of virtual machines. This project models the parts of its Python code whose
correctness does not show in any one function, and proves what they promise over every input, every
interleaving or every sequence of calls.

* **`SharedLock`** (`lock_spec`, `lock_invariants`, `lock_runs`, `lock_book`, `pending_queues`, `shared_lock`). The
  reader/writer lock with priorities, timeouts, downgrade and deletion. `SharedLocks.SharedLock` is the
  object with its heap of per-priority lists, its index by priority and its map of joinable shared
  conditions, updated in place. Every method is proved to be one step of a transition system over a single
  flat queue (`LockSpec`). The atomic steps are the stretches of code between two waits. The theorems in
  `LockRuns` are about all runs of that system, for any number of threads. `LockBooks` ties the steps to what
  callers see: a book kept from calls and outcomes alone always agrees with the lock, so an outcome means what
  it says. `SharedLocks.Replay` carries all of this over to the object.
* **Pipe conditions** (`pipe_condition`, `lock_pipes`). The descriptors behind `wait` and `notify_all`, and the
  condition objects going along with every run of the lock.
* **Cluster locks** (`lock_order`, `lock_manager`, `processor`, `lock_timeouts`). The recursion over lock
  levels in `Processor`, with any answer of the lock daemon and an exception possible at every call, and the
  order of its requests. The daemon's lock manager, with shared and exclusive locks, lock sets, pending
  requests and its order check, as a transition system over any number of owners; the absence of deadlocks.
  The schedule of attempt timeouts.
* **Main loop** (`mainloop`). The signal and wakeup protocol, one statement at a time, with signals
  arriving between any two of them, also inside running handlers.
* **Addresses** (`basics`, `text`, `bits`, `ip_address`, `address_pool`). Reading IPv4 and IPv6 addresses, CIDR
  membership through masks, and the address pool of a network with its two bitmaps and their text form.
* **Disks, jobs, private values, policies** (`disk_tree`, `job_executor`, `private_values`, `escaping`,
  `ipolicy`). The node tree of a disk, the job executor, the worklist that wraps private values, and the
  printer and parser of instance policy bounds.

Some results are about what the code does *not* promise on its face:

* A signal that arrives before `Run` has installed its handler function is lost
  (`Mainloop.EarlySignalIsLost`). In every run the loop goes to sleep on a raised flag exactly when all raised
  flags are of that kind (`Mainloop.LostExactlyWhenEarly`).
* A signal can be taken down uncounted (`Mainloop.SecondSignalIsMerged`). In every run that happens exactly
  to those whose handler runs while the main thread is about to clear the flag of an earlier one
  (`Mainloop.MergedExactlyWhileClearing`).
* Not every pending acquire in shared mode of the topmost priority goes ahead on a downgrade, as the text of
  `downgrade` promises: one that was notified before and then overtaken by a more urgent request stays asleep
  (`LockRuns.DowngradeLeavesSharerBehind`). In every run exactly those go ahead that wait on the condition which
  sharers of that priority can join, or, if there is none, those on top whose wait can end by itself
  (`LockRuns.DowngradeLetsSharersIn`).
* The lock manager does not rule out deadlocks (`LockManager.UpgradesDeadlock`). Owners wait in a circle exactly
  when one of them waits to turn a shared lock into an exclusive one while another holds some of that lock
  and waits for some of it exclusively (`LockManager.DeadlockedExactlyWhenJammed`). Opcodes never ask for a
  lock in two modes, so they never deadlock, whatever units they run (`Processors.OpcodesNeverDeadlock`).
* Sorting lock names is not the manager's order, in which a lock set comes before its members. A request of
  an opcode is refused exactly when it names a lock set after members that it holds already
  (`Processors.LoggedRequestsAreAccepted`); `Processors.LateSetIsRefused` is such a unit. No unit in `lib/`
  is: the only request for a lock set is the one at `lib/mcpu.py:417`, which names nothing beside it.
* Null, and anything empty, under a private field turns into an empty dictionary; apart from that, wrapping
  changes nothing but the wrapping (`PrivateValues.WrapKeepsContents`).
* `EscapeAndJoin` and `UnescapeAndSplit` are not inverse for every separator, because the code puts a backslash
  before it and takes that for a regular expression: with the separator `d` the text `7` comes back as `d`
  (`Escaping.DigitIsSpoiled`). Every list comes back exactly with separators that are no ASCII letter or digit,
  no backslash and no end of line (`Escaping.SafeExactly`); for the others `Escaping.EscapedListReadsBack` says
  which lists do.

Exceptions appear as outcomes or as a missing result. Clocks, random numbers, the lock daemon, the job
queue's answers and the scheduler are parameters or arbitrary choices.

## Model

| member | source | states |
|---|---|---|
| LockInvariants.StepKeeps | lib/locking.py:596-899 | every step of every thread keeps the whole invariant: queue order, one entry per condition, a waiting thread for each queued condition, joinable conditions shared and filed, one exclusive owner or sharers, notified waiters on top of a free lock, announced deletion |
| LockInvariants.RequestKeeps | lib/locking.py:643-731 | the same for the first part of an acquire, with any timeout, priority and mode, on the direct path, when giving up at once, joining or queueing |
| LockInvariants.ResumeKeeps | lib/locking.py:707-731 | the same for a thread that wakes up by notification or by timeout, including the clean-up in the finally clause |
| LockInvariants.DowngradeKeeps | lib/locking.py:761-801 | the same for a downgrade, which moves a shared condition to the front of the most urgent list |
| LockInvariants.ReleaseKeeps | lib/locking.py:803-841 | the same for a release, which notifies the topmost condition once no owner is left |
| LockInvariants.DeleteKeeps | lib/locking.py:853-899 | the same for a deletion, by an owner or after acquiring |
| LockRuns.RunInv | lib/locking.py:596-899 | the invariant holds in every state of every run |
| LockRuns.NoLostWakeupInRuns | lib/locking.py:643-731 | in every run: on a free, undeleted lock with queued requests every thread on the topmost condition has its notification, there is such a thread, and whichever wakes first gets the lock |
| LockRuns.MutualExclusion | lib/locking.py:596-612 | in every run an exclusive owner is the only owner; LockBooks.ExclusionByOutcomes says the same in terms of what calls come back with |
| LockRuns.DeletionIsFinal | lib/locking.py:853-899 | once deleted, always deleted and ownerless; every waiter has its notification and ends in an error, and nobody starts to wait |
| LockRuns.NothingLeftBehind | lib/locking.py:722-729 | in every run the queue is empty exactly when nobody waits, and then the index of joinable conditions is empty as well |
| LockRuns.NoOvertaking | lib/locking.py:633-711 | an exclusive request that is queued has left the queue before any exclusive request that came later, at the same or a numerically larger priority, gets the lock |
| LockRuns.NoBargingIn | lib/locking.py:662-666 | an acquire that succeeds at once is strictly more urgent than everything queued, or joins a shared condition that is already on top |
| LockRuns.SucceedsExactly | lib/locking.py:660-711 | in every run an acquire succeeds at once exactly when the lock is not deleted, the caller does not own it, no owner is in its way, and nothing is queued, or nothing queued comes before it and its timeout is not too short; a woken call succeeds exactly when the lock is not deleted, it stands on top and no owner is in its way |
| LockRuns.ClosedInRuns | lib/locking.py:830-841 | in every run nobody can join a condition once one of its waiters was notified |
| LockRuns.NoSneakingIn | lib/locking.py:830-841 | while a free lock is being handed on, an acquire succeeds only if it is strictly more urgent than everything queued |
| LockRuns.SharersMeet | lib/locking.py:674-699 | a shared acquire that has to wait does so on the one condition that sharers of its priority can join |
| LockRuns.DowngradeLetsSharersIn | lib/locking.py:761-801 | in every run, when an exclusive owner downgrades: of those who wait to share the lock at the topmost priority exactly those can wake up and get it who wait on the joinable condition, or if there is none those on top who were notified or have a timeout |
| LockRuns.DowngradeLeavesSharerBehind | lib/locking.py:761-794 | a run after which a downgrade leaves a thread asleep that waits to share the lock at the topmost priority |
| LockRuns.StableInRuns | lib/locking.py:692-699 | a condition keeps priority and mode while it is queued and never comes back once it left |
| LockRuns.BlockingNeverGivesUp | lib/locking.py:713-717 | in every run an acquire or delete without a timeout never comes back without the lock: not at once and not from any of its waits |
| LockBooks.BookAgrees | lib/locking.py:596-899 | in every run the book that is kept from calls and outcomes alone agrees with the lock: the same owners in the same modes, the same blocked calls asking for the same, the same deletion |
| LockBooks.OutcomesAreFair | lib/locking.py:643-899 | in every run every outcome is one that this book allows: a deleted lock refuses, owners cannot ask again, release and downgrade work for owners and only for them, a call takes the lock only if no owner is in its way, gives up when its time is over and only then, and succeeds at once if no owner is in its way and no other call is blocked |
| LockBooks.TrueMeansOwned | lib/locking.py:660-711 | in every run an acquire that comes back with True, at once or after any number of waits, leaves its caller an owner, exclusively exactly if it asked for that, and no other owner changed; a delete that does leaves the lock deleted and free |
| LockBooks.OwnerStays | lib/locking.py:596-603 | in every run an owner stays one, in its mode, until its own release, downgrade or delete |
| LockBooks.ExclusionByOutcomes | lib/locking.py:596-612 | in every run: from an acquire of one thread that came back with True to its next release, downgrade or delete, no other thread gets the lock if it was acquired exclusively, and none gets it exclusively or deletes it if it was acquired shared |
| LockBooks.ReleaseGivesUp | lib/locking.py:803-828 | in every run a release works exactly for owners; afterwards the caller owns nothing, and all other owners and the blocked calls are as before |
| LockBooks.DowngradeShares | lib/locking.py:761-801 | in every run a downgrade works exactly for owners; afterwards the caller shares the lock and all other owners are as before |
| LockBooks.FreeLockIsTaken | lib/locking.py:660-666 | in every run an acquire or delete of a free, undeleted lock with an empty queue succeeds at once, whatever its mode, priority and timeout |
| SharedLocks.SharedLock.constructor | lib/locking.py:418-450 | a new object stands for the initial state |
| SharedLocks.SharedLock.FindFirstPendingQueue | lib/locking.py:614-631 | drops the empty lists in front, returns the first other one, and leaves the flat queue as it was; its assertion holds |
| SharedLocks.SharedLock.AcquireUnlocked | lib/locking.py:643-731 | outcome and new state are those of one request step, of which LockBooks.TrueMeansOwned and LockRuns.SucceedsExactly say what it achieves and when; the assertions about joinable conditions and the index hold |
| SharedLocks.SharedLock.TakeDirectly | lib/locking.py:662-666 | taking the lock on the direct path is a request step |
| SharedLocks.SharedLock.ListFor | lib/locking.py:674-690 | finds or creates the list of a priority and keeps heap, index and flat queue in agreement |
| SharedLocks.SharedLock.Append | lib/locking.py:692-699 | appending to the list of a priority inserts behind all equal or more urgent requests of the flat queue |
| SharedLocks.SharedLock.Join | lib/locking.py:676-682 | a shared request finds the joinable condition in the list of its priority |
| SharedLocks.SharedLock.Turn | lib/locking.py:707-721 | one pass of the waiting loop is a settling step |
| SharedLocks.SharedLock.Take | lib/locking.py:708-711 | taking the lock on top of the queue is a settling step |
| SharedLocks.SharedLock.Cleanup | lib/locking.py:722-729 | removal from the list always finds the condition, and takes it out of all three structures |
| SharedLocks.SharedLock.WakeUp | lib/locking.py:720-731 | the rest of an acquire after a wait is a resume step |
| SharedLocks.SharedLock.NotifyTopmost | lib/locking.py:830-841 | notifies exactly the waiters of the first queued condition, which is then no longer joinable if shared |
| SharedLocks.SharedLock.Release | lib/locking.py:803-828 | a release step, after which the caller owns nothing (LockBooks.ReleaseGivesUp); an assertion failure for a thread that owns nothing |
| SharedLocks.SharedLock.Downgrade | lib/locking.py:761-801 | a downgrade step, after which the caller shares the lock (LockBooks.DowngradeShares); the assertions in it hold |
| SharedLocks.SharedLock.Promote | lib/locking.py:780-794 | moving a condition to the front of the first list moves it to the front of the flat queue |
| SharedLocks.SharedLock.FinishDelete | lib/locking.py:881-895 | marks the lock deleted and notifies every waiter of every list |
| SharedLocks.SharedLock.Delete | lib/locking.py:853-899 | a deletion step, with the failures for sharers and for a deleted lock |
| SharedLocks.SharedLock.Perform | lib/locking.py:733-899 | every public operation, and every wake-up, is one step of the transition system |
| SharedLocks.Replay | lib/locking.py:733-899 | whatever is called on a new lock in whatever order: every call that is possible when its turn comes is made, and outcomes and final state are those of the run that these calls play, so all theorems about runs hold of the object |
| LockRuns.PlayIsRun | lib/locking.py:733-899 | what a list of calls plays is a run of the transition system |
| PendingQueues.PushEmpty | lib/locking.py:685-690 | pushing an empty list for a new priority keeps heap, index and flat queue in agreement |
| PendingQueues.AppendFlat | lib/locking.py:692-693 | appending to one list is insertion at the right place of the flat queue |
| PendingQueues.RemoveFlat | lib/locking.py:724-725 | removal from one list is removal from the flat queue |
| PendingQueues.PromoteFlat | lib/locking.py:788-791 | reordering the first list is reordering the front of the flat queue |
| PendingQueues.PopIndex | lib/locking.py:626-629 | popping the first entry of the heap and its index entry keeps the two in agreement |
| PipeConditions.PipeCondition.constructor | lib/locking.py:313-319 | a new condition has no waiters and no descriptors |
| PipeConditions.PipeCondition.WaitBegin | lib/locking.py:256-270 | the thread waits, not yet notified, on a pipe that was never notified |
| PipeConditions.PipeCondition.LeaveSingle | lib/locking.py:244-282 | the last waiter of a pipe closes what is open of it, each descriptor once |
| PipeConditions.PipeCondition.WaitEnd | lib/locking.py:321-339 | the thread waits no longer; nothing changes for the others |
| PipeConditions.PipeCondition.CloseWriteEnd | lib/locking.py:284-293 | the write end is closed, if open, and the pipe counts as notified |
| PipeConditions.PipeCondition.NotifyAll | lib/locking.py:341-347 | everybody who waits is notified, and later waiters get a fresh pipe |
| PipeConditions.PipeCondition.Renew | lib/locking.py:347-347 | the fresh pipe has no waiters and no descriptors |
| PipeConditions.PipeCondition.NoLeak | lib/locking.py:227-347 | wherever the lock is free: the read end is open exactly when there are waiters, the write end exactly when they are not notified, and with no waiters nothing is open |
| LockPipes.StepMoves | lib/locking.py:643-899 | in every step of the lock those who wait on a condition, and who of them is notified, change exactly as the end of a wait, a notify_all and the beginning of a wait change them |
| LockPipes.Drive | lib/locking.py:321-347 | the methods of the condition object make these changes |
| LockPipes.Follow | lib/locking.py:643-899 | a condition object that agrees with the lock before a step agrees with it afterwards |
| LockPipes.FollowRun | lib/locking.py:227-347 | over every run of the lock: the pipe of each waiting thread was closed exactly when the lock counts it as notified, somebody waits on the object exactly when the lock says so, and otherwise none of its descriptors is open |
| LockOrder.SortSorts | lib/mcpu.py:421-422 | sorted names are ascending and the same names |
| LockOrder.EarlierTotal | src/Ganeti/Locking/Locks.hs:57-75 | the lock order, with each lock set before its members, is a strict total order |
| LockManager.StepKeeps | src/Ganeti/Locking/Waiting.hs:187-319 | every update, pending or not, every renewed attempt and every withdrawal keeps the invariant: locks of different owners never clash, and a pending request is one that was accepted for what its owner holds |
| LockManager.AllocateKeeps | src/Ganeti/Locking/Allocation.hs:266-338 | an allocation is refused, blocked without effect, or granted without a clash; LockManager.AnswerMeans says what being granted means |
| LockManager.RunInv | src/Ganeti/Locking/Waiting.hs:187-319 | the invariant holds after any sequence of requests of any owners |
| LockManager.AnswerMeans | src/Ganeti/Locking/Allocation.hs:204-242 | whenever an update, a waiting update or a renewed attempt answers Ok, the owner holds each requested lock in exactly the requested mode, holds none that was to be released, keeps all others, has nothing pending, and nobody else's locks change; any other answer changes nobody's locks, and a request becomes pending exactly when a waiting update is told to wait |
| LockManager.GrantedUnlessHindered | src/Ganeti/Locking/Allocation.hs:307-338 | an acceptable request is granted exactly when nobody else holds the lock, its set or, for a set, a member, with one of the two exclusive; otherwise the owner is told to wait |
| LockManager.PendingIsGranted | src/Ganeti/Locking/Waiting.hs:145-185 | after any sequence of requests a pending request is granted when tried again exactly when nobody hinders it any more; it is never refused |
| LockManager.MutualExclusion | src/Ganeti/Locking/Allocation.hs:307-338 | after any sequence of requests: what one owner holds exclusively nobody else holds, neither the lock itself nor its set nor, for a set, a member |
| LockManager.LettingGoSucceeds | src/Ganeti/Locking/Waiting.hs:354-382 | after any sequence of requests, releasing locks and downgrading held ones succeeds for every owner that waits for nothing |
| LockManager.HeldIsGranted | src/Ganeti/Locking/Waiting.hs:187-319 | in every run an owner holds what it held at some point, changed by exactly the requests granted to it since, in order |
| LockManager.EdgeClimbs | src/Ganeti/Locking/Allocation.hs:280-306 | from a waiting owner to another one that waits, the lock waited for strictly ascends in the lock order, or the second one waits to upgrade the lock that is in the way |
| LockManager.CircleIsJam | src/Ganeti/Locking/Allocation.hs:280-338 | every circle of waiting owners, however long, contains two that wait for each other: one to upgrade a lock, the other holding and wanting some of it |
| LockManager.DeadlockedExactlyWhenJammed | src/Ganeti/Locking/Allocation.hs:280-338 | after any sequence of requests of any owners, for single locks and lock sets in any mode: some owners wait in a circle if and only if there are two such owners |
| LockManager.NoDeadlockInRuns | src/Ganeti/Locking/Allocation.hs:280-338 | after any sequence of requests, owners whose pending requests upgrade nothing do not wait in a circle |
| LockManager.UpgradesDeadlock | src/Ganeti/Locking/Allocation.hs:286-306 | for every lock there is a sequence of requests after which two sharers wait for each other to give it up |
| LockManager.EarlierByName | src/Ganeti/Locking/Locks.hs:57-75 | a lock that comes later by name is below the other one exactly when it is its lock set |
| LockManager.OriginInRuns | src/Ganeti/Locking/Waiting.hs:187-319 | an owner that had nothing at some point holds and waits for nothing but what it asked for since, in the modes it asked for |
| Processors.RequestInOrder | lib/mcpu.py:405-440 | the request for a level, for names, all names or the lock set, names exactly the wanted locks in lock order, of that level only, each exclusively unless the plan shares the level and then shared |
| Processors.WantedExactly | lib/mcpu.py:606-613 | the names of a level are the listed ones, all known ones for an opportunistic request for all, the lock set for any other, and the added ones; computing them fails exactly where an entry is missing or names are added to all or as all |
| Processors.Processor.RequestAndWait | lib/mcpu.py:320-372 | on return all locks of the request are held; on a timeout or error some may be; the request is in order, in the planned modes, and sent where collating ends |
| Processors.Processor.OneByOne | lib/mcpu.py:444-460 | the definite acquisition sends single requests that are each in order, and ends with all locks held |
| Processors.Processor.Offer | lib/mcpu.py:462-471 | the same list is sent until something is granted or time is up; a try in vain changes nothing; on success at least as many locks of the request as asked for were granted, and at least one |
| Processors.Processor.Try | src/Ganeti/Locking/Waiting.hs:404-417 | one try grants at least as many locks of the request as asked for, or none |
| Processors.EveryTryInTurn | lib/mcpu.py:466-468 | every try of an offer, the first and each repetition, continues in lock order what was sent before the first one, and the repetitions are all that comes between |
| Processors.Processor.TakeLevel | lib/mcpu.py:405-475 | after acquiring a level everything required up to it is held in the planned modes, and something of every level that takes what it can get |
| Processors.Processor.Flush | lib/mcpu.py:579-583 | sending what is collated leaves nothing to request |
| Processors.Processor.AcquireNow | lib/mcpu.py:620-629 | collated requests go out before those of the level, all in lock order |
| Processors.Processor.AcquireAndGoOn | lib/mcpu.py:606-632 | whatever happens above, deeper levels are freed again and only this level's locks may remain |
| Processors.Processor.LockLevel | lib/mcpu.py:606-637 | a level whose try block was entered is freed once, after all deeper ones |
| Processors.Processor.LockAndExecLU | lib/mcpu.py:520-641 | from any level on: levels entered in ascending order, each freed once in descending order; nothing of them stays held unless freeing it raised; the unit runs at most once, and once on a normal exit |
| Processors.Processor.ExecLU | lib/mcpu.py:541-547 | the unit runs only with every required lock held in the planned mode, the Big Ganeti Lock among them when locks are enabled, and every held lock under a finally clause still to come |
| Processors.Processor.FreeLocksLevel | lib/mcpu.py:633-637 | drops everything held at the level and any pending request |
| Processors.Processor.ExecOpCode | lib/mcpu.py:659-713 | on every normal, timeout and error exit: all requests together, collated, flushed early, opportunistic and one by one, the tries of an opportunistic one counted once, are non-decreasing in level and name and in the modes of the plan; a blocking opcode asks for one lock at a time, any other collates its definite requests up to the next level that refuses it or is opportunistic, or up to the end; each level entered is freed exactly once, highest first and cluster last; nothing is held or pending unless freeing raised; the unit ran at most once, with all required locks in the planned modes, and once on a normal exit |
| Processors.SentInOrder | lib/mcpu.py:520-641 | a log in which each request goes on where the earlier ones stopped has all its requests in lock order, with one mode per level |
| Processors.RunsWithWhatItWants | lib/mcpu.py:520-631 | when a unit runs, every level of its plan could be locked as planned, and every lock it wants is held, exclusively exactly at the levels it does not share; of a level that was to be had opportunistically some lock is held, in that mode |
| Processors.RunsWithBigLock | lib/mcpu.py:686-695 | when a unit runs with locks enabled it holds the Big Ganeti Lock, exclusively exactly if it requires that; a unit that requires it runs only with locks enabled |
| Processors.BodyHolds | lib/mcpu.py:541-547 | while the body of a unit runs, the manager has its owner hold every required lock, exclusively exactly where the plan says so |
| Processors.BodiesExclude | lib/mcpu.py:433-436 | after any sequence of requests to the manager: two units that require the same lock, or a lock and its set, are in their bodies at once only if both share it |
| Processors.BigLockRunsAlone | lib/mcpu.py:686-692 | while a unit that requires the Big Ganeti Lock is in its body no other unit with locks is |
| Processors.LoggedRequestsAreAccepted | src/Ganeti/Locking/Allocation.hs:280-306 | the manager accepts a request of an opcode exactly when it names no lock set after members that are held |
| Processors.LateSetIsRefused | src/Ganeti/Locking/Allocation.hs:280-295 | a unit that names a lock and its lock set sends both in order of names, and the manager refuses the second request |
| Processors.NeverUpgrades | lib/mcpu.py:602-603 | an owner that has asked the manager only for what its opcode sends, according to its log, never waits to upgrade a lock |
| Processors.OpcodesNeverDeadlock | lib/mcpu.py:520-641 | after any sequence of requests to the manager in which those who wait have asked, since they last had nothing, only for what the logs of their opcodes say: they never wait in a circle, whatever lock sets and single locks their units name |
| LockTimeouts.CalculateLockAttemptTimeouts | lib/mcpu.py:71-93 | terminates for any growth formula; every entry lies between the limits and the list stops as soon as the total is reached |
| LockTimeouts.ScheduleBounds | lib/mcpu.py:71-93 | fewer than total / min + 1 entries, whose sum is at least total and less than total + max |
| LockTimeouts.LockAttemptTimeoutStrategy.NextAttempt | lib/mcpu.py:121-138 | attempts come in order of the schedule, each varied by at most five percent, and none after the last |
| LockTimeouts.JitteredSum | lib/mcpu.py:131-138 | the variation of the sum is at most five percent |
| LockTimeouts.AttemptBounds | lib/mcpu.py:71-138 | all attempts together last at least 0.95 times the total and less than 1.05 times (total + max) |
| LockTimeouts.AllAttempts | lib/mcpu.py:96-138 | asking until no timeout is left gives such attempts, one per entry of the schedule |
| Mainloop.StepKeeps | lib/daemon.py:118-202 | every step of the loop and of any nest of signal handlers keeps the invariant about flag, bytes and unseen signals |
| Mainloop.RunInv | lib/daemon.py:118-202 | the invariant holds in every state of every run |
| Mainloop.NoLostSignal | lib/daemon.py:118-202 | about to block in select with no handler running: if any signal flag is up that was raised after its handler function was installed, a byte is in the socket pair |
| Mainloop.NoLostSignalUnlessEarly | lib/daemon.py:157-161 | in every run without early signals: if any signal flag is up at that point, a byte is in the socket pair |
| Mainloop.LostExactlyWhenEarly | lib/daemon.py:157-202 | in every run, about to block in select with signal flags up: there is no byte if and only if all these flags went up before their handler functions were installed, and with no timeout the loop is then stuck |
| Mainloop.EarlySignalIsLost | lib/daemon.py:157-161 | for every signal and every point of the installation before its own: the loop blocks for good with the flag up |
| Mainloop.SecondSignalIsMerged | lib/daemon.py:197-202 | a run from the start in which SIGTERM comes in twice and is counted once: the second one is marked while the flag is about to be cleared, and goes down uncounted |
| Mainloop.MergedExactlyWhileClearing | lib/daemon.py:197-202 | in every run, a signal whose handler put the flag up is taken down without being counted in between exactly when the main thread was about to clear the flag at that moment |
| Mainloop.EndsOnlyOnShutdown | lib/daemon.py:163-202 | the loop ends only after SIGTERM or SIGINT, with one of them and a wait function only after that returned None; Mainloop.EndsExactly has the other half |
| Mainloop.AccountIsHistory | lib/daemon.py:163-202 | in every run the number of shutdown signals is how often the loop has counted SIGTERM or SIGINT, and a check is deferred exactly once the wait function has asked for more time |
| Mainloop.EndsExactly | lib/daemon.py:170-191 | in every run the head of the loop leaves it if and only if two shutdown signals were counted, or one was and there is no wait function, or one was, no deferred check is still to come and the wait function answers None; otherwise it goes to select, with a timeout exactly if one was counted |
| Mainloop.NeverSelectsAgain | lib/daemon.py:182-185 | in every run, once one shutdown signal was counted and there is no wait function, or two were, select is never reached again and the loop ends within a bounded number of statements |
| Mainloop.IdleLoopSleeps | lib/daemon.py:192-202 | without signals an idle loop comes to rest in select, after at most ten statements for every byte in the socket pair |
| IpAddresses.InBlockIsPrefixEquality | lib/netutils.py:486-494 | for every width and prefix the mask computation says yes exactly when the first bits are equal (section 3.1 of RFC 4632) |
| IpAddresses.InNetworkMatchesPrefix | lib/netutils.py:464-494 | the same for the function on text, for both versions and any sign-and-digits prefix in range |
| IpAddresses.GetIp4Int | lib/netutils.py:624-640 | fails unless there are four decimal parts; for octets up to 255 the result is their base-256 number, below 2^32 |
| IpAddresses.PackedIsPositional | lib/netutils.py:637-638 | shift-and-or of octets is positional notation |
| IpAddresses.GetIp6Int | lib/netutils.py:664-691 | the loop with its expansion computes the base-65536 number of the expanded groups |
| IpAddresses.ShorthandGroups | lib/netutils.py:674-683 | a double colon in place of any non-empty run of groups, also at either end, expands to exactly eight parts |
| IpAddresses.ShorthandMeansFull | lib/netutils.py:664-691 | replacing a run of zero groups by a double colon does not change the integer (section 2.2 of RFC 4291, forms 1 and 2) |
| IpAddresses.FullMeans | lib/netutils.py:664-691 | the full form is the number of its eight groups, below 2^128 |
| Text.NumeralReads | lib/netutils.py:638-638 | every number is what its usual numeral is read as, in any base up to sixteen, with small letters and with capitals |
| Bits.PrefixInterval | lib/netutils.py:486-494 | the numbers with the same leading bits form an interval |
| Bits.AndMask | lib/netutils.py:489-490 | anding with a netmask clears the host bits |
| Bits.OrOnes | lib/netutils.py:491-492 | oring with a hostmask sets the host bits |
| AddressPools.AddressPool.constructor | lib/network.py:103-118 | the maps are those written in the network object, all free where it has none |
| AddressPools.AddressPool.Open | lib/network.py:67-118 | fails with a pool error exactly for networks outside /16 to /30, and otherwise exactly for texts that are no bitmaps of the right size |
| AddressPools.AddressPool.Update | lib/network.py:136-142 | afterwards a pool rebuilt from the text equals the live one |
| AddressPools.AddressPool.GetAddrIndex | lib/network.py:127-134 | finds an index exactly for the addresses of the network |
| AddressPools.AddressPool.Mark | lib/network.py:144-150 | changes one entry of one map, and the text with it |
| AddressPools.AddressPool.IsReserved | lib/network.py:196-204 | looks up the entry in the map asked for |
| AddressPools.AddressPool.Reserve | lib/network.py:206-217 | marks a free address of the network, fails for any other without changing anything |
| AddressPools.AddressPool.Release | lib/network.py:219-230 | frees a reserved address, fails for any other without changing anything; AddressPools.ReleaseFrees says what that means |
| AddressPools.AddressPool.GetFreeAddress | lib/network.py:232-242 | hands out the lowest free address and marks it |
| AddressPools.AddressPool.GenerateFree | lib/network.py:244-254 | names the address that would be handed out |
| AddressPools.AddressPool.Counts | lib/network.py:178-188 | reserved plus free is 2^(32 - prefix), and free is the number of addresses that can still be handed out |
| AddressPools.AddressPool.InitializeNetwork | lib/network.py:264-278 | reserves network, broadcast and gateway address externally, or stops at the first failure |
| AddressPools.GetIsFresh | lib/network.py:232-242 | an address is handed out unless the pool is full; it was free in both maps, and all lower ones were taken |
| AddressPools.GetsDrain | lib/network.py:232-242 | any number of calls hands out the free addresses in ascending order, and fails when they are used up |
| AddressPools.FreshNetworkYieldsHosts | lib/network.py:264-278 | initialising a network without reservations succeeds exactly when the gateway is one of its hosts, and then it yields exactly size - 2 addresses, size - 3 with a gateway: ascending, never network, broadcast or gateway |
| AddressPools.HeldAreDistinct | lib/network.py:206-242 | after any sequence of get, reserve and release the addresses got and not released are pairwise distinct and reserved |
| AddressPools.NextIsNotHeld | lib/network.py:232-242 | the next address handed out is held by nobody |
| AddressPools.ReleaseFrees | lib/network.py:219-230 | a release works exactly for a reserved address of the network; only that entry of that map changes, and reserving the address again gives the old pool back |
| AddressPools.ReserveTakes | lib/network.py:206-217 | a reservation works exactly for an address of the network that is free in that map; only that entry changes, and a release gives the old pool back |
| AddressPools.ReleasedComesBack | lib/network.py:219-242 | a released address that is free in the other map is handed out again by enough calls |
| AddressPools.NoTextNothingTaken | lib/network.py:103-118 | a network without reservation texts has every address free |
| AddressPools.AddressPool.Replay | lib/network.py:206-242 | the same on the object, whose text stays in step with its maps throughout |
| DiskTrees.ComputeAllNodes | lib/objects.py:572-584 | exactly the nodes that DRBD devices of the tree name |
| DiskTrees.CollectNodes | lib/objects.py:574-580 | adds exactly the nodes named in one subtree to the list |
| DiskTrees.GetNodes | lib/objects.py:655-675 | fails exactly for unknown types, as a programmer error, and for DRBD devices looked at from a third node; a DRBD device has its first node first |
| DiskTrees.FitsUnion | lib/objects.py:669-672 | a tree fits a union of nodes exactly when it fits both parts |
| DiskTrees.AppendForeign | lib/objects.py:711-720 | exactly the entries on other nodes are taken over, so together all nodes are named |
| DiskTrees.ComputeNodeTree | lib/objects.py:688-721 | fails exactly when the tree does not fit its parent's node, as a programmer error only with a device of unknown type and as a configuration error only with a DRBD device in the tree; otherwise the named nodes are all nodes of the disk, plus the parent's for a root that is not DRBD; own entries first, no other entry on an own node |
| JobExecutors.JobExecutor.constructor | lib/cli.py:2430-2438 | nothing queued, nothing recorded |
| JobExecutors.JobExecutor.QueueJob | lib/cli.py:2450-2458 | queues under a new index |
| JobExecutors.JobExecutor.AddJobId | lib/cli.py:2460-2464 | records under a new index |
| JobExecutors.JobExecutor.SubmitPending | lib/cli.py:2466-2479 | records one job per answer with the index of its queue entry, or raises and records nothing when a single submission fails; indices stay distinct if the queue was not submitted before |
| JobExecutors.JobExecutor.ChooseJob | lib/cli.py:2481-2503 | takes out the first queried job that does not wait any more, else the first of all; the other jobs stay in order |
| JobExecutors.JobExecutor.SetFailuresAside | lib/cli.py:2522-2526 | one failed result for each job that was not submitted, the others remain |
| JobExecutors.JobExecutor.GetResults | lib/cli.py:2505-2552 | terminates and returns exactly one result per recorded job in index order, the same for all answers about job states; fails exactly when the last query, about the first jobs that are left, has an empty answer |
| JobExecutors.OrderDoesNotMatter | lib/cli.py:2548-2550 | sorting gives the same list for every order of polling |
| JobExecutors.SortSorts | lib/cli.py:2548-2549 | ascending by index, nothing lost and nothing invented |
| JobExecutors.ResultsTell | lib/cli.py:2505-2552 | the results are those of all jobs in the order of their indices; each is a success exactly if its job was submitted and polling brought its result, which it then holds, and else the submission error or the error message of a lost or failed job |
| JobExecutors.ReadyIsChosen | lib/cli.py:2489-2500 | if any queried job is gone, runs or has ended, the first such job is chosen |
| JobExecutors.QueriedAre | lib/cli.py:2487-2488 | the server is asked about the first twenty-five jobs in order, or all if there are fewer |
| PrivateValues.WrapSecures | lib/serializer.py:97-131 | wrapping leaves nothing under a private field bare exactly when every private field is a dictionary, null or empty, for clusters a dictionary of such |
| PrivateValues.WrapTwice | lib/serializer.py:176-178 | a second pass changes nothing |
| PrivateValues.WrapKeepsContents | lib/serializer.py:325-335 | but for the wrapping, and null or anything empty read as an empty dictionary, nothing is changed |
| PrivateValues.RoundKeeps | lib/serializer.py:107-131 | one round of the worklist leaves the final result as it was, keeps the places on the list apart and makes the remaining work smaller |
| PrivateValues.Document.HideInside | lib/serializer.py:125-127 | each value of a cluster field's dictionary becomes private, or an error is raised |
| PrivateValues.Document.CrawlFields | lib/serializer.py:113-129 | guards the private fields in place and pushes exactly the others |
| PrivateValues.Document.CrawlItems | lib/serializer.py:110-112 | pushes exactly the items of a list |
| PrivateValues.Document.WrapPrivateValues | lib/serializer.py:97-131 | the worklist terminates; it succeeds exactly when every private field is a dictionary, null or empty, and then has rewritten the value into its recursive wrapping |
| Escaping.UnescapeAndSplit | lib/utils/text.py:437-478 | the loop merges pieces behind odd numbers of backslashes; text without backslashes is simply split |
| Escaping.UnescapeAndSplitReads | lib/utils/text.py:458-478 | splitting, merging and unescaping is what one pass from left to right makes of the text |
| Escaping.ReadCounts | lib/utils/text.py:458-478 | every separator of the text ends an element or stands in one |
| Escaping.TwoPasses | lib/utils/text.py:490-491 | where the pattern matches no character but the separator, the two passes put a backslash before each backslash and separator, or before the backslashes only if it does not match the separator either |
| Escaping.EscapedListReadsBack | lib/utils/text.py:481-491 | for every separator and every list, one empty text standing for the empty list: the encoding exists and is read back exactly when backslash and separator form a pattern, it matches nothing in the texts but the separator, and the separator is escaped by a pattern of its own or absent |
| Escaping.SafeExactly | lib/utils/text.py:481-491 | all lists are read back exactly with the separators that are no ASCII letter or digit, no backslash and no end of line |
| Escaping.DigitIsSpoiled | lib/utils/text.py:490-491 | the text 7 with the separator d is read back as d |
| InstancePolicies.SplitKeyVal | lib/cli_opts.py:301-341 | fills the dictionary item by item, with or without prefixes, with the errors for a missing value and a duplicate key |
| InstancePolicies.ItemsExactly | lib/cli_opts.py:320-341 | reading items succeeds exactly when every item has a key and no key comes twice, and then gives exactly these keys with what was said about each |
| InstancePolicies.ItemsFail | lib/cli_opts.py:320-341 | a failure names the first item that has no value or repeats a key |
| InstancePolicies.IdentRemoved | lib/cli_opts.py:364-368 | after the first prefix an identifier is removed, and options behind it are an error |
| InstancePolicies.IdentReset | lib/cli_opts.py:369-374 | after a dash an identifier that does not begin with a digit is reset, and options behind it are an error |
| InstancePolicies.IdentStays | lib/cli_opts.py:359-377 | any other identifier, or any at all where prefixes are not looked for, has the items behind the colon |
| InstancePolicies.PrefixMeans | lib/cli_opts.py:325-336 | for every separator-free key: alone it means yes, after the first prefix no, after the second nothing, and without prefixes it is an error |
| InstancePolicies.SplitListKeyVal | lib/cli_opts.py:409-420 | fills the sections one by one, with the errors for an empty and a duplicate section |
| InstancePolicies.SectionsExactly | lib/cli_opts.py:409-420 | sections are read exactly when none is empty, no name comes twice and all their items can be read, and then each name stands for its own items |
| InstancePolicies.CheckMultilist | lib/cli_opts.py:423-433 | the list of parsed lines, or the first error |
| InstancePolicies.PrintSpecsParameters | lib/cli.py:2663-2665 | writes every item exactly once, in ascending order of the keys, with commas between |
| InstancePolicies.PrintIPolicyCommand | lib/cli.py:2668-2700 | writes the options, leaving out bounds that are not complete |
| InstancePolicies.SortItemsSorts | lib/cli.py:2664-2664 | sorting gives the same items in ascending order of their keys |
| InstancePolicies.SortItemsKeeps | lib/cli.py:2664-2664 | sorting keeps the dictionary |
| InstancePolicies.SpecsRead | lib/cli_opts.py:301-341 | the text of a dictionary without separators in it reads as that dictionary |
| InstancePolicies.LineRead | lib/cli_opts.py:409-420 | the text of a pair of bounds reads as that pair |
| InstancePolicies.PrintedBoundsReadBack | lib/cli_opts.py:423-433 | the printed bounds parse to the same list of dictionaries, never to an error, whatever the number and order of items |

## Left out

- LockRuns.NoOvertaking: is about exclusive requests only; downgrade lets shared requests of the same priority jump the queue, and shared requests may starve.
- SharedLocks.SharedLock: the heap is kept as a list sorted by priority, so the array layout of heapq is not captured; the lock monitor and `GetLockInfo` are not modelled.
- PipeConditions.PipeCondition: `poll` and interrupted system calls are a wait that may end at any time.
- LockManager.StepKeeps: the daemon tries pending requests again right after a change, in the order of their priorities; here each attempt is a step that may come at any time, and the index of pending requests by blocker is left out.
- Processors.BodiesExclude: is about a body from its beginning up to the first lock that the unit gives back or downgrades itself.
- LockManager.NoDeadlockInRuns: is about circles; which request is granted first, and starvation, are not modelled.
- Processors.Processor.Offer: the clock that ends the tries is an arbitrary number of them.
- Processors.Processor.OneByOne: the daemon's answer may also be a failure; the sleep between two questions is not modelled.
- Processors.Processor.FreeLocksLevel: may raise; the levels where it did are remembered and excepted in the final statement.
- Processors.Processor.ExecOpCode: the processor sees the lock daemon as any code that may grant or raise; hooks, callbacks and the result check likewise.
- LockTimeouts.CalculateLockAttemptTimeouts: real numbers instead of floating point.
- Mainloop.NoLostSignal: is about the flags; what they leave uncounted is said by Mainloop.MergedExactlyWhileClearing.
- Mainloop.StepKeeps: the loop is a transition system over its statements and not a class, because signals interrupt it between any two.
- IpAddresses.GetIp4Int: parts are plain digits; the signs, blanks, underscores and base prefixes that Python's `int` accepts as well are not modelled.
- IpAddresses.GetIp6Int: the same, and dotted-quad endings (form 3 of RFC 4291) are not accepted by the code either.
- AddressPools.AddressPool.Open: address texts are read by Python's ipaddress library and appear as integers; the IPv6 network of the pool is not modelled.
- DiskTrees.ComputeNodeTree: does not say which of the two errors is raised when a tree has both a device of unknown type and a DRBD device.
- JobExecutors.JobExecutor.GetResults: assumes distinct indices, which calling SubmitPending twice for the same queue would break, and that polling fails only in the ways the code handles; messages to the user are not modelled.
- PrivateValues.Document.WrapPrivateValues: references are places in a tree, since decoded JSON has no sharing; non-empty lists of pairs, which a private dictionary would also accept, count as errors.
- Escaping.EscapedListReadsBack: for separators of one character, as all callers use; patterns as in Python before 3.14, which changes `\B` and adds `\z`; which characters outside ASCII are digits, spaces and word characters is a parameter.
- InstancePolicies.PrintIPolicyCommand: values are texts already; the printer does not escape separators, so the round trip is for keys and values without them.
- lib/backend.py, lib/bootstrap.py, lib/ovf.py and lib/qlang.py: commands, remote calls, files and library grammars.
- lib/ht.py, lib/opcodes_base.py, lib/outils.py, lib/compat.py and lib/errors.py: value checkers, slots and exception classes, whose functions hold no state and no loops worth a theorem.
- lib/hooksmaster.py, lib/jstore.py, lib/luxi.py, lib/metad.py, lib/runtime.py, lib/pathutils.py and lib/constants.py: running scripts, file access, clients of other daemons, and constants.
- `UpgradeConfig` methods, JSON text, HMAC signatures, table formatting and terminal interaction.
