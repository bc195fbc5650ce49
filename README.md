# Web Locks broker

This project models the browser-side broker of the Web Locks API in Chromium
(`content/browser/locks/lock_manager.cc`) and proves its grant rules. The broker is an
in-memory lock table that runs on one sequence. For every origin it keeps an
`OriginState` with two parts:

- a FIFO request queue of `Lock`s for every resource name;
- an index from lock id to the lock's place in its queue.

The `LockManager` maps origins to their states and draws lock ids from a counter that
only goes up. A client can do three things:

- request a lock: shared or exclusive; wait for it, fail at once (`NoWait`), or steal it (`Preempt`);
- release a lock;
- ask for a snapshot of the held and requested locks of its origin.

The model is imperative, like the source:

- `OriginStates.OriginState` and `LockManagers.LockManager` are classes whose methods
  update their fields in place.
- Every method is proved against a pure specification function of the old state. These
  are `Added`, `Preempted` and `Erased` for an origin, and `Requested` and `Released`
  for the broker.
- The lemmas about those functions carry the properties the source promises. An origin
  keeps the invariant `ValidView`: in every queue the granted locks form a prefix, and
  a prefix of more than one holder is all shared. The queues and the index agree in both
  directions, and no empty queue is kept.

How the source's entities appear in the model:

- A lock's request/handle pair becomes a `Status`: `Pending` until a handle is minted,
  `Granted` after.
- `Lock::Break` removes the lock from the index and records its id in the origin's
  `broken` log.
- `mojo::ReportBadMessage` becomes the outcome `BadMessage(reason)`.
- A list iterator is the position of the lock with that id. The index maps an id to the
  name of its queue, and `Locate` finds the position by the same walk the source's
  debug check makes.

The files are:

- `locks.dfy`: the entities (`Lock`, modes, wait modes, outcomes).
- `request_queue.dfy`: the rules of one queue (immediate grant, steal, release and
  re-grant, snapshot listing).
- `origin_state.dfy`: one origin's state, as a value and as the class `OriginState`.
- `lock_manager.dfy`: the broker.

## Model

| member | source | states |
|---|---|---|
| RequestQueues.HeldCount | content/browser/locks/lock_manager.cc:178-179 | the number of granted locks the steal loop walks past: all locks before it are granted and the lock at it, if any, is pending |
| RequestQueues.SharedRun | content/browser/locks/lock_manager.cc:259-262 | the length of the run of shared locks at the front, ending at the first exclusive lock |
| RequestQueues.Regrant | content/browser/locks/lock_manager.cc:246-266 | re-granting changes no lock except its status, keeps the length, and never ungrants a granted lock |
| RequestQueues.CanGrantIsCompatible | content/browser/locks/lock_manager.cc:196-199 | on an ordered queue, the back-only test `can_grant` holds exactly when the queue is empty, or the request is shared and every lock in the queue is a granted shared lock |
| RequestQueues.AppendKeepsWellFormed | content/browser/locks/lock_manager.cc:206-211 | appending a lock that is granted exactly when `can_grant` holds keeps the queue invariant |
| RequestQueues.HeldPrefixSplits | content/browser/locks/lock_manager.cc:294-297 | on an ordered queue the granted prefix is exactly the granted locks and the rest is exactly the pending locks, each in queue order |
| RequestQueues.PendingAfterHeld | content/browser/locks/lock_manager.cc:294-297 | on an ordered queue every lock behind the granted prefix is pending |
| RequestQueues.PreemptKeepsWellFormed | content/browser/locks/lock_manager.cc:177-184 | after a steal the queue is the new exclusive lock, granted, followed by exactly the old pending locks in order; the queue invariant holds; the broken locks are exactly the old granted ones |
| RequestQueues.RemoveAtKeepsOrdered | content/browser/locks/lock_manager.cc:240 | erasing any one lock keeps granted locks in a prefix and an exclusive holder alone |
| RequestQueues.RemoveAtKeepsDistinct | content/browser/locks/lock_manager.cc:240 | erasing one lock keeps the lock ids distinct |
| RequestQueues.RegrantKeepsIds | content/browser/locks/lock_manager.cc:251-265 | re-granting keeps every lock's id and name in place, so the ids stay distinct and the id set stays the same |
| RequestQueues.RemoveMembers | content/browser/locks/lock_manager.cc:240 | removing by id keeps every lock with another id and drops the one with this id |
| RequestQueues.RemoveAt | content/browser/locks/lock_manager.cc:221-240 | with distinct ids, erasing by id is erasing the single position the id's iterator points to |
| RequestQueues.RegrantIsMaximal | content/browser/locks/lock_manager.cc:246-266 | when the front is ungranted after a release: an exclusive front is granted alone, a shared front grants the whole shared run, nothing behind the run changes, the invariant holds, and granting one more lock would break it |
| RequestQueues.ReleaseKeepsWellFormed | content/browser/locks/lock_manager.cc:240-266 | erasing any lock of a well-formed queue and re-granting leaves a well-formed queue |
| RequestQueues.ListedCount | content/browser/locks/lock_manager.cc:280-285 | the snapshot of a queue has as many held plus requested entries as the queue has locks |
| RequestQueues.ListedPlace | content/browser/locks/lock_manager.cc:280-285 | every lock appears in the list of its own status, at the place given by the earlier locks of that status, so the lists keep queue order |
| OriginStates.AddedValid | content/browser/locks/lock_manager.cc:187-212 | AddRequest keeps the origin invariant; the new id is indexed unless the request failed; no other id appears; a non-empty index stays non-empty |
| OriginStates.PreemptedValid | content/browser/locks/lock_manager.cc:165-185 | PreemptLock keeps the origin invariant |
| OriginStates.PreemptedShape | content/browser/locks/lock_manager.cc:158-185 | after a steal the queue is the new granted lock ahead of exactly the old pending locks in order; the broken log grows by the ids of exactly the old granted locks, in queue order; the index loses exactly those ids and gains the new one |
| OriginStates.ErasedQueue | content/browser/locks/lock_manager.cc:240-266 | erasing an id from a queue and re-granting keeps the queue well formed, with distinct ids and one name, and its ids become the old ones minus the erased id |
| OriginStates.ErasedValid | content/browser/locks/lock_manager.cc:214-267 | EraseLock keeps the origin invariant (queues and index agree, and a queue left empty is gone), and the erased id is in no queue |
| OriginStates.NoQueueIffNoId | content/browser/locks/lock_manager.cc:269 | under the invariant an origin's index is empty exactly when it has no queue |
| OriginStates.FlattenHoldsEveryLock | content/browser/locks/lock_manager.cc:276-286 | walking the queues in any enumeration of the names visits exactly the locks of all queues |
| OriginStates.Locate | content/browser/locks/lock_manager.cc:229-238 | the walk from the front finds the position of the id, and no earlier lock has it |
| OriginStates.GrantNext | content/browser/locks/lock_manager.cc:254-265 | granting the exclusive front, or every lock of the shared run with the loop, gives Regrant of the queue |
| OriginStates.EraseFrom | content/browser/locks/lock_manager.cc:240-266 | the queue after the erase and the re-grant is Regrant of the queue without the id |
| OriginStates.OriginState.constructor | content/browser/locks/lock_manager.cc:153 | a new origin state is empty and valid |
| OriginStates.OriginState.BreakFront | content/browser/locks/lock_manager.cc:158-163 | the front lock leaves the index, its id is logged as broken, and the rest of the queue remains |
| OriginStates.OriginState.BreakGranted | content/browser/locks/lock_manager.cc:177-179 | the loop breaks exactly the granted prefix in order: it leaves the index and is logged, and the pending rest is returned |
| OriginStates.OriginState.PreemptLock | content/browser/locks/lock_manager.cc:169-185 | the new state is Preempted of the old one, and the invariant holds |
| OriginStates.OriginState.AddRequest | content/browser/locks/lock_manager.cc:187-212 | the client gets Acquired exactly when `can_grant` holds on the old queue, and Failed exactly when it does not and the request is NoWait; a failure changes nothing; the new state is Added of the old one |
| OriginStates.OriginState.EraseLock | content/browser/locks/lock_manager.cc:214-267 | the new state is Erased of the old one (an unknown id changes nothing), and the invariant holds |
| OriginStates.OriginState.IsEmpty | content/browser/locks/lock_manager.cc:269 | an origin is empty exactly when it has no queue left |
| OriginStates.OriginState.Snapshot | content/browser/locks/lock_manager.cc:271-288 | for some enumeration of the names, the requested and held lists are the pending and granted locks of the queues in that order; nothing changes |
| LockManagers.RequestValidation | content/browser/locks/lock_manager.cc:327-335 | Preempt with a non-exclusive mode is refused as an invalid option combination; otherwise a name starting with '-' is refused as reserved; a refusal changes nothing, not even the counter; any other request draws the next id |
| LockManagers.NoWaitFailureLeavesNoTrace | content/browser/locks/lock_manager.cc:201-204 | a Failed request is a NoWait request of an existing origin, and it leaves every origin state as it was |
| LockManagers.PreemptedOk | content/browser/locks/lock_manager.cc:165-185 | a steal under a fresh id leaves an origin state that is valid and not empty, and all its ids were issued |
| LockManagers.AddedOk | content/browser/locks/lock_manager.cc:187-212 | an ordinary request under a fresh id leaves an origin state that is valid and not empty, and all its ids were issued |
| LockManagers.HandledOk | content/browser/locks/lock_manager.cc:349-356 | either branch of the dispatch leaves the origin state worth keeping |
| LockManagers.RequestedValid | content/browser/locks/lock_manager.cc:320-357 | a request keeps the broker invariant: every kept origin is valid and non-empty, and every id is between the preemptive id and the counter |
| LockManagers.HandledKeepsValid | content/browser/locks/lock_manager.cc:339-356 | storing the result of a request under a fresh id keeps the broker invariant |
| LockManagers.ReleasedValid | content/browser/locks/lock_manager.cc:359-370 | a release keeps the broker invariant; the origin is kept exactly when its index is not empty after the erase; other origins are untouched |
| LockManagers.StaleReleaseIsNoOp | content/browser/locks/lock_manager.cc:217-219 | releasing an unknown id, or for an unknown origin, changes nothing |
| LockManagers.ReleaseIdempotent | content/browser/locks/lock_manager.cc:359-370 | releasing the same lock twice is the same as releasing it once |
| LockManagers.LockManager.constructor | content/browser/locks/lock_manager.cc:145 | a new broker has no origins and a counter at zero |
| LockManagers.LockManager.NextLockId | content/browser/locks/lock_manager.cc:389-393 | the id is one more than the last one, so ids strictly increase, and it is above the preemptive id |
| LockManagers.LockManager.StateOf | content/browser/locks/lock_manager.cc:339-340 | the state of the origin, or a new empty one for an origin without state |
| LockManagers.LockManager.Dispatch | content/browser/locks/lock_manager.cc:349-356 | the outcome and the new origin state are those of a steal or of an ordinary request; the other origins' states are untouched |
| LockManagers.LockManager.Admit | content/browser/locks/lock_manager.cc:337-356 | the origin gets the state its own request handling produces, under the next id, and the broker invariant holds; the origin's state object is the one it had or a new one, and every other origin keeps its object |
| LockManagers.LockManager.RequestLock | content/browser/locks/lock_manager.cc:320-357 | the outcome, the origin states and the counter are those of Requested, and the broker invariant holds; every state object afterwards is one the origin already had or a new one |
| LockManagers.LockManager.Install | content/browser/locks/lock_manager.cc:339-340 | stores the origin's state object and its value; the broker invariant holds again |
| LockManagers.LockManager.Drop | content/browser/locks/lock_manager.cc:368-369 | forgets the origin; the broker invariant holds again |
| LockManagers.LockManager.ReleaseLock | content/browser/locks/lock_manager.cc:359-370 | the origin states are those of Released, which drops an origin once its index is empty, the counter is unchanged, and the broker invariant holds; no state object is added or replaced |
| LockManagers.LockManager.QueryState | content/browser/locks/lock_manager.cc:372-387 | an origin without state gets two empty lists; otherwise its snapshot; nothing changes |

## Left out

- Transport and lifetime machinery is not modelled. This covers `LockHandleImpl`,
  associated pointers, `WeakPtr`, the connection-error handler that releases a lock
  when a request pipe closes, and the sequence checker. A client reaches
  `ReleaseLock` directly.
- `CreateService` is not modelled. Client ids and origins are opaque strings passed to
  `RequestLock`; `base::GenerateGUID` is a call into code outside this model.
- `Lock::Abort` is never called by this file and is not modelled. The `Grant`, `Break`
  and `Failed` messages to the client become the lock status, the `broken` log and the
  outcome.
- LockManagers.LockManager.NextLockId: does not model the 64-bit counter's overflow,
  which would need more than 2^63 requests. The counter starts at 0 because
  `lock_manager.h` is not part of this model.
- OriginStates.OriginState.Snapshot: the iteration order of `std::unordered_map` is
  unspecified. The method therefore returns, as a ghost value, the order of names it
  used, and its contract holds for that order. The source's skip of empty queues is
  kept, but under the invariant no empty queue exists.
- OriginStates.OriginState.EraseLock: the early return when the lock's queue is missing
  (lines 224-226) cannot happen under the origin invariant. The debug walk (lines
  229-238) is `Locate`, and its postcondition stands in for the DCHECK.
- The DCHECKs of `PreemptLock` (exclusive mode) and `AddRequest` (not a steal) become
  preconditions; `RequestLock`'s validation guarantees both.
- LockManagers.LockManager.RequestLock: the source inserts a new origin state into the
  map before drawing the id. The model creates the object first and stores it after the
  request is handled. The resulting state is the same, because a new origin's first
  request is never refused.
- `OriginState` carries a ghost `origin` key, and `LockManager` a ghost `views` map of
  the origin states as values. Neither exists in the source; they let the broker's
  invariant speak about values.
- The steal loop and the shared re-grant loop are separate methods (`BreakGranted`,
  `GrantNext`), and the queue lookup is `Locate`. The lists become sequences that are
  reassigned, so the model does not capture iterator stability or aliasing between
  the index and the list nodes.
