# co_wq verification

A Dafny model of the data structures and protocols at the core of co_wq: the ordered containers (wepoll's
red-black tree, the timer's pairing heap), the intrusive lists and the work queue, wepoll's poll state
machine with its poll groups and its reflock, the dispatch protocols (callback queue, serial slot, stream
sends), the semaphore, the epoll reactor's table, the WebSocket codec and the chat server's relay.
`dafny verify dfyconfig.toml` checks the whole project.

## How it is modelled

- **Pointer structures** (`RedBlackTree`, `TimerHeap`, `IntrusiveList`) are classes whose nodes are relinked
  in place. A ghost snapshot of all nodes, `Mem()`, is a finite map from nodes to their fields; predicates on
  it (`Rep`, `RepCtx`, `Ring`) say which value (tree, heap, sequence) the links spell out, exactly and without
  sharing. The values and what rotations, merges and removals do to them are in `RedBlackShape` and
  `TimerHeapShape`, with a zipper (`Ctx`) for the place an operation works at.
- **Objects with tables and queues** (`PollPort`, `Reactor`, `ChatRelay`, `Workqueue`, `Semaphore.Sem`,
  `SendAwaiter`, `WebSocketIo`) are classes with `seq` and `map` fields. `PollPort` is proved against the step
  functions of `PollPortSteps`, whose invariants are proved there; `PollPortReports` says what they poll for and
  report, event by event.
- **Protocols with many threads** (`Reflock`, `CallbackQueue`, `SerialSlot`, the second half of `Semaphore`) are
  transition systems: one step for each section under a lock, each atomic exchange, each executor, reactor or
  kernel call. A run is any sequence of enabled steps, with any number of threads, posters and awaiters; the
  theorems hold of every state of every run. What a run is said to have done (arrivals, releases, posts, finds)
  is a function of its steps, not of what the steps record.
- **The kernel's side of wepoll**: each submitted poll completes once; a batch holds completions of distinct polls.
- **The outside world** is an argument: the present time, the kernel's answers (bytes accepted, EAGAIN, errors,
  completions, the sizes of the pieces recv delivers), whether memory or handles can be had.
- Keys, file descriptors, timers' due times and counters are unbounded integers; widths are explicit where they
  matter (event masks in wepoll are 32-bit vectors, the reflock's word keeps its 28-bit count, WebSocket length
  fields and keys have their widths). In the reactor an event mask is the set of its bits.
- `Settled` and `Thrifty` in `PollPortSteps` are quantified over a marker, `Unfold`, so that proofs which only hand
  them on do not unfold them; the marker is always true.

## Where the code does less than one might expect

- `Semaphore::acquire` gives a token without setting `req_sta`, which `SemReqTimeoutAwaiter::await_resume` then
  reads. `Semaphore.GrantedButNotTold` is a run in which a timed awaiter gets a token and its status was never
  set; `Semaphore.ToldOfGrantIffQueued` shows that an awaiter resumed by its granted node is told so if and only
  if `acquire` found no token for it, so that it was queued.
- A granted token does not always reach its awaiter. `Semaphore.TokenLostToTimer` is a run in which a released
  token is granted and reaches nobody; `Semaphore.ServedIffTimerDidNotWin` shows that a granted node resumes its
  coroutine if and only if the request's timer has not won before, and that a token is lost exactly otherwise;
  `Semaphore.TokensConserved` counts the lost tokens in the balance of every run.
- `read_frame` refuses unmasked frames unless told otherwise, and the pongs that `read_message` sends are unmasked.
  `WebSocketFrame.FrameRoundTrip` gives the exact condition under which a frame comes back,
  `WebSocketFrame.FrameRefused` the error for all others, and `WebSocketFrame.DefaultReaderRefusesPong` the pong.

## Model

| member | source | states |
|---|---|---|
| RedBlackTree.TreeRoot.constructor | io/wepoll/wepoll.c:1972-1974 | the empty tree is valid and stands for the empty map |
| RedBlackTree.TreeRoot.Find | io/wepoll/wepoll.c:2169-2180 | finds the node bound to a key exactly if the key is live, null otherwise |
| RedBlackTree.TreeRoot.Add | io/wepoll/wepoll.c:2036-2069 | -1 exactly on a present key, and then nothing changes; otherwise the map gains the binding, and search order, exact parent links, black root, no red-red and equal black counts hold |
| RedBlackTree.TreeRoot.Del | io/wepoll/wepoll.c:2096-2167 | the map loses exactly the node's key, all other bindings and the tree's invariants stay |
| RedBlackTree.TreeRoot.Rotate | io/wepoll/wepoll.c:1980-2007 | a rotation in place, with all parent and child links, turns one shape into the other inside any context |
| RedBlackTree.TreeRoot.InsertStep | io/wepoll/wepoll.c:2017-2034 | one turn of the insertion loop keeps the entries in order and the balance around the focus, and either ends the red-red conflict or moves it up |
| RedBlackTree.TreeRoot.RebalanceAfterInsert | io/wepoll/wepoll.c:2058-2066 | the insertion loop ends with no red-red conflict and the same entries in order |
| RedBlackTree.TreeRoot.RemoveStep | io/wepoll/wepoll.c:2071-2094 | one turn of the removal loop keeps the entries in order and either restores the black height or moves the shortage up |
| RedBlackTree.TreeRoot.RebalanceAfterRemove | io/wepoll/wepoll.c:2150-2166 | the removal loop ends with a red-black tree once the focus is blackened, with the same entries in order |
| RedBlackTree.TreeRoot.ReplaceBySuccessor | io/wepoll/wepoll.c:2113-2134 | a node with two children is replaced in place by its successor, which takes its colour and links |
| RedBlackTree.TreeRoot.SpliceOut | io/wepoll/wepoll.c:2101-2112 | a node with at most one child is replaced by that child |
| RedBlackTree.TreeRoot.Shallow | io/wepoll/wepoll.c:2036-2180 | for n nodes, two to the height is at most (n+1) squared: the height is at most 2 log2(n+1) |
| RedBlackShape.HeightBound | io/wepoll/wepoll.c:2036-2180 | the same for every red-black shape |
| RedBlackShape.RecolourBalance | io/wepoll/wepoll.c:2017-2024 | the red-uncle case keeps balance and order and moves the conflict two levels up |
| RedBlackShape.StraightenBalance | io/wepoll/wepoll.c:2026-2030 | the inner-grandchild rotation keeps balance and order |
| RedBlackShape.LiftBalance | io/wepoll/wepoll.c:2031-2033 | the outer-grandchild rotation keeps order and resolves the conflict |
| RedBlackShape.SiblingUpBalance | io/wepoll/wepoll.c:2073-2079 | raising a red sibling keeps balance and order and leaves a black sibling |
| RedBlackShape.SiblingTurnedBalance | io/wepoll/wepoll.c:2082-2087 | turning the sibling towards a red far child keeps balance and order |
| RedBlackShape.RestoredBalance | io/wepoll/wepoll.c:2088-2092 | the final rotation restores the black height and keeps order |
| RedBlackShape.SiblingReddenedBalance | io/wepoll/wepoll.c:2093-2094 | reddening the sibling moves the shortage one level up |
| TimerHeap.TimerQueue.constructor | sync/timer.hpp:123-131 | a new queue is valid and empty |
| TimerHeap.TimerQueue.HeapMeld | sync/timer.hpp:37-55 | two heaps, whatever their roots' parent links hold, become their meld; no other node changes |
| TimerHeap.TimerQueue.TwoPassMerge | sync/timer.hpp:68-81 | a row of siblings becomes one heap with the same nodes, exact parents below the root, no other node changed; it terminates on the row |
| TimerHeap.TimerQueue.DeleteMin | sync/timer.hpp:84-90 | the root's children become a min-heap with a null root parent and exactly the other nodes |
| TimerHeap.TimerQueue.Tick | sync/timer.hpp:92-119 | pops exactly the nodes due by now, once each, in order of due time; later nodes stay; those with a callback go to the executor's tail in that order; popped nodes lose their owner |
| TimerHeap.TimerQueue.PostDelayedWork | sync/timer.hpp:133-147 | the heap gains exactly the node, with its due time, and stays well formed |
| TimerHeap.TimerQueue.Cancel | sync/timer.hpp:158-204 | root or interior, exactly the node leaves the heap, which stays a min-heap with exact parent links; a node of another queue changes nothing |
| TimerHeap.TimerQueue.FindLink | sync/timer.hpp:171-185 | the walk along the parent's children ends at the link that holds the node |
| TimerHeapShape.TwoPassFacts | sync/timer.hpp:68-81 | merging a row gives one heap with the same timers and keeps the heap order |
| TimerHeapShape.CancelFacts | sync/timer.hpp:166-196 | the heap without the cancelled node's subheap, melded with its merged children, is a min-heap |
| IntrusiveList.Arena.ListAddTail | task/usrlist.hpp:23-29 | list_add_tail appends to the sequence the list stands for and touches no other list |
| IntrusiveList.Arena.ListDel | task/usrlist.hpp:64-85 | list_del removes exactly the entry, which becomes a ring by itself; of a link on no list it changes nothing |
| IntrusiveList.Arena.ListEmpty | task/usrlist.hpp:126-129 | list_empty is true exactly of the empty sequence |
| IntrusiveList.Arena.RemoveWhere | task/usrlist.hpp:198-201 | safe iteration whose body removes any chosen entries leaves exactly the others, in order, and terminates |
| IntrusiveList.Arena.AllCallable | task/workqueue.hpp:382-400 | the walk visits the batch's entries once each, in order, and says whether all have a function |
| IntrusiveList.Arena.Splice | task/workqueue.hpp:407-418 | the batch splice is concatenation and leaves the batch empty |
| IntrusiveList.Arena.TakeAll | io/callback_wq.hpp:313-363 | the drain's splice moves the whole list to the local head; the test for a corrupt list never holds |
| IntrusiveList.RingsAgree | task/usrlist.hpp:6-15 | two rings that share a link have the same links: no link is on two lists |
| IntrusiveList.RingUnique | task/usrlist.hpp:6-15 | from its head a ring can be read in one way only |
| IntrusiveList.OtherListKept | task/usrlist.hpp:17-85 | whatever happens to the links of one list, every other list keeps its contents |
| Workqueue.WorkQueue.AddNew | task/workqueue.hpp:423-447 | whatever list the node was on, it is now last on this queue and on no other |
| Workqueue.WorkQueue.Post | task/workqueue.hpp:366-373 | posting a queued node moves it to the tail; one trigger |
| Workqueue.WorkQueue.PostBatch | task/workqueue.hpp:376-422 | the batch, walked and judged first, follows the queue in order with one trigger; an empty batch does nothing |
| Workqueue.WorkQueue.GetWorkNode | task/workqueue.hpp:461-471 | the oldest node is taken and is then on no list; null exactly on the empty queue |
| Workqueue.WorkQueue.WorkOnce | task/workqueue.hpp:317-340 | one node, the oldest, is taken, and called exactly if it has a function |
| Workqueue.Fifo | task/workqueue.hpp:341-471 | over any history without re-posting: what was taken, then what is queued, is what was posted |
| Workqueue.RepostMovesToTail | task/workqueue.hpp:366-369 | a node posted again is in the queue once, in the last place |
| PollGroups.AcquireKeeps | io/wepoll/wepoll.c:994-1012 | full groups stay first, sizes stay at most 32 and sum to the acquisitions, and the number of groups is the peak divided by 32, rounded up; it fails only if all groups are full and no new one can be made |
| PollGroups.ReleaseKeeps | io/wepoll/wepoll.c:1014-1024 | a release keeps the same |
| PollPortSteps.NothingLostInTranslation | io/wepoll/wepoll.c:1730-1770 | every known event but EPOLLMSG is polled for in a form that is reported back as it |
| PollPortReports.EventByEvent | io/wepoll/wepoll.c:1751-1770 | each event is reported exactly if a condition that stands for it occurred, and no other event ever is |
| PollPortReports.NothingInvented | io/wepoll/wepoll.c:1730-1770 | an event is reported only if a condition it is polled by occurred, or connecting failed |
| PollPortReports.WhatHappened | io/wepoll/wepoll.c:1849-1869 | a failed poll is EPOLLERR, a cancelled or empty one nothing, and any other what its conditions stand for |
| PollPortReports.FeedReports | io/wepoll/wepoll.c:1845-1886 | a completion reports nothing of a deleted or closed socket, and else exactly the events that occurred and were asked for, with the socket's data, or nothing if there are none |
| PollPortReports.FeedEnds | io/wepoll/wepoll.c:1845-1863 | a closed socket, or one that was only waiting for its poll, is freed, and no other socket changes |
| PollPortReports.FeedStays | io/wepoll/wepoll.c:1842-1882 | any other is queued once for its next poll with its request unchanged, except that it asks for nothing after a one-shot report; no other socket changes |
| PollPortReports.UpdateGives | io/wepoll/wepoll.c:1772-1832 | each state of the poll with each answer: an idle socket is polled for exactly what is asked, a closed one dropped, a poll that watches for too little cancelled; an error only where one is due |
| PollPortReports.RequestStays | io/wepoll/wepoll.c:1713-1887 | no step on any socket changes what is asked of a socket but its user's request, which sets it, and a one-shot report |
| PollPortReports.PeakFollows | io/wepoll/wepoll.c:994-1012 | the peak that bounds the groups grows only by a registration that got a group, to the sockets with the new one |
| PollPortSteps.NewKeeps | io/wepoll/wepoll.c:1635-1674 | a socket is registered exactly if a group, memory and a free key can be had; the port's invariants hold, but for the new socket's interest |
| PollPortSteps.RefusedKeeps | io/wepoll/wepoll.c:1667-1673 | a refused socket leaves the port settled and the groups few |
| PollPortSteps.AddKeeps | io/wepoll/wepoll.c:1319-1334 | adding a socket leaves no interest unattended |
| PollPortSteps.SetEventKeeps | io/wepoll/wepoll.c:1713-1728 | changing the events leaves no interest unattended; the socket joins the end of the queue exactly if its poll does not watch for a known event it asks for |
| PollPortSteps.UpdateKeeps | io/wepoll/wepoll.c:1772-1832 | sock_update fails without a trace, or takes the socket off the queue with its interest covered by a pending poll, awaited by a cancelled one, or the socket gone |
| PollPortSteps.FeedKeeps | io/wepoll/wepoll.c:1834-1887 | the completion of an outstanding poll finds its socket live, and frees it or queues it again |
| PollPortSteps.DeleteKeeps | io/wepoll/wepoll.c:1676-1703 | a socket is freed exactly if forced or if no poll of it is outstanding; otherwise it waits in the deleted queue |
| PollPortSteps.DelKeeps | io/wepoll/wepoll.c:1351-1360 | deletion by key: out of the tree at once, a pending poll cancelled if the kernel lets it, freed now or when its poll completes |
| PollPortSteps.OneShot | io/wepoll/wepoll.c:1879-1882 | after a one-shot report, and any sequence of steps on any sockets but a request of its user, nothing more is reported of the socket |
| PollPortSteps.NeverFreedWhilePolled | io/wepoll/wepoll.c:1688-1700 | no freed socket has a poll outstanding |
| PollPortSteps.AllWatched | io/wepoll/wepoll.c:1168-1184 | with the update queue empty every registered socket has a pending poll that covers its known events, or a cancelled one that will bring it back |
| PollPortSteps.ForceKeeps | io/wepoll/wepoll.c:1709-1711 | forced deletion frees exactly its socket, for the first time |
| PollPortSteps.NothingLeft | io/wepoll/wepoll.c:1144-1158 | with tree and deleted queue empty no socket is left, the update queue is empty and every group has size 0 |
| PollPort.PortState.constructor | io/wepoll/wepoll.c:1086-1117 | a new port is settled |
| PollPort.PortState.AcquireGroup | io/wepoll/wepoll.c:994-1012 | the groups become what `AcquireKeeps` speaks of; a new group is made only if the last one is full, and a failure changes nothing |
| PollPort.PortState.ReleaseGroupOf | io/wepoll/wepoll.c:1014-1024 | the groups become what `ReleaseKeeps` speaks of |
| PollPort.PortState.SockNew | io/wepoll/wepoll.c:1635-1674 | the port becomes what `NewKeeps` speaks of, or on each of its failures what `RefusedKeeps` speaks of; with a valid handle, room and a free key it succeeds |
| PollPort.PortState.SockDelete | io/wepoll/wepoll.c:1676-1703 | the port, all objects and both queues, becomes what `DeleteKeeps` speaks of |
| PollPort.PortState.SockSetEvent | io/wepoll/wepoll.c:1713-1728 | the port becomes what `SetEventKeeps` speaks of |
| PollPort.PortState.SockUpdate | io/wepoll/wepoll.c:1772-1832 | for every answer of the kernel the port becomes what `UpdateKeeps` speaks of |
| PollPort.PortState.SockFeedEvent | io/wepoll/wepoll.c:1834-1887 | the port becomes what `FeedKeeps`, `FeedEnds` and `FeedStays` speak of, and the report is the socket's data with the events that occurred and were asked for, if any, and none for a deleted or closed socket |
| PollPort.PortState.UpdateEvents | io/wepoll/wepoll.c:1168-1184 | terminates, empties the queue or stops with an error, and leaves the port settled |
| PollPort.PortState.FeedEvents | io/wepoll/wepoll.c:1191-1207 | a batch of completions of distinct outstanding polls: each finds its socket live, what each has to report of its socket as it was is reported, in order, and the port stays settled |
| PollPort.PortState.CtlAdd | io/wepoll/wepoll.c:1319-1334 | a socket is added under a new key with its events, or nothing in the tree changes; the port stays settled |
| PollPort.PortState.CtlMod | io/wepoll/wepoll.c:1336-1349 | changes the events of exactly a registered socket; the port stays settled |
| PollPort.PortState.CtlDel | io/wepoll/wepoll.c:1351-1360 | the key leaves the tree; a pending poll is cancelled if the kernel lets it; the socket is freed, or waits in the deleted queue exactly if its poll is outstanding |
| PollPort.PortState.PortDelete | io/wepoll/wepoll.c:1137-1166 | terminates; every live socket is freed exactly once; its assertions on group sizes and the update queue hold |
| Reflock.StepKeeps | io/wepoll/wepoll.c:1554-1585 | every step of every thread keeps the lock's word equal to its references and flags, and no assertion fails |
| Reflock.RunOk | io/wepoll/wepoll.c:1520-1585 | so in every run, with any number of threads |
| Reflock.DestroyedAlone | io/wepoll/wepoll.c:1572-1585 | unref_and_destroy returns only after every other reference is dropped and every signaller done; the event was signalled once if it waited and never otherwise |
| Reflock.HeldSinceFound | io/wepoll/wepoll.c:1949-1966 | in every run: who found a node in the tree has a reference, and the node is not destroyed, until that thread's unref |
| Reflock.HolderFound | io/wepoll/wepoll.c:1554-1570 | conversely every reference was taken by a find and not dropped since |
| Reflock.TreeSteps | io/wepoll/wepoll.c:1915-1962 | an addition under a free key binds it to the new node; a removal takes the key out and makes its thread the destroyer; nothing else touches the tree |
| Reflock.WaitsForOthers | io/wepoll/wepoll.c:1572-1585 | the destroyer waits exactly if there are other references when it drops its own |
| Reflock.StepsRunOut | io/wepoll/wepoll.c:1562-1585 | each step on a removed node's lock brings its destruction closer, and no other step puts it off |
| Reflock.OnceRemoved | io/wepoll/wepoll.c:1934-1962 | a node once taken out is never found again, and its references only become fewer |
| Reflock.DestroyerNotStuck | io/wepoll/wepoll.c:591-614 | until it is done, the destroyer or a thread it waits for can take a step |
| CallbackQueue.StepInv | io/callback_wq.hpp:178-464 | every step keeps the runner in one place, the order of posts, and the flags equal to what is local or pending |
| CallbackQueue.OneDrainInOrder | io/callback_wq.hpp:300-464 | in every run at most one drain is under way; started, then the drain's batch, then pending is the order of accepted posts; flags mark exactly the waiters not yet started |
| CallbackQueue.RefinesSimple | io/callback_wq.hpp:178-464 | in every run the posts accepted and the callbacks started, in order, are those of a simple queue that coalesces and starts its first waiter, run on the same posts and starts |
| CallbackQueue.SimpleInOrder | io/callback_wq.hpp:178-464 | the simple queue starts what it accepted, in order, and holds the rest, each once |
| CallbackQueue.PendingHasRunner | io/callback_wq.hpp:263-297 | pending work means a runner about to be scheduled, queued or draining |
| CallbackQueue.PostedIsStarted | io/callback_wq.hpp:230-246 | every post, also a coalesced one, is followed by a step in which a worker starts its waiter's callback, before the flag is down again |
| CallbackQueue.BacklogMoves | io/callback_wq.hpp:364-455 | a waiter not yet started moves up by one with each callback and otherwise keeps its place |
| CallbackQueue.StepsRunOut | io/callback_wq.hpp:300-464 | without new posts only finitely many steps are left |
| CallbackQueue.AllStartedAtRest | io/callback_wq.hpp:300-312 | when only posts can happen, everything accepted has been started and no runner is marked |
| SendAwaiter.Attempt | net/stream_socket_base.hpp:447-488 | what attempt_once comes to: it never sends beyond the message, and waits only in full mode with bytes left |
| SendAwaiter.FullMeansAll | net/stream_socket_base.hpp:449-468 | a full send whose kernel only accepts or blocks is done exactly when all is sent |
| SendAwaiter.LastCall | net/stream_socket_base.hpp:447-488 | the attempt ends at the first call that does not take a mere part: a failed or broken call gives -1, only a broken one marks the shutdown, EAGAIN makes a full send wait, accepted bytes count up to the end |
| SendAwaiter.Sender.Resume | net/stream_socket_base.hpp:489 | the bytes sent, also after an error, and the error only if nothing was sent |
| SendAwaiter.Sender.Flat | net/stream_socket_base.hpp:405-415 | a new flat send has its whole buffer ahead |
| SendAwaiter.Sender.Vectored | net/stream_socket_base.hpp:416-428 | a new vectored send has the concatenation of its iovecs ahead, whose length it sums up |
| SendAwaiter.Sender.AdvanceIov | net/stream_socket_base.hpp:433-446 | the remaining iovecs concatenate to the earlier concatenation without its first n bytes, zero-length iovecs included |
| SendAwaiter.Sender.AttemptFlat | net/stream_socket_base.hpp:449-468 | terminates with exactly the outcome of the attempt, and puts out exactly the bytes from the old to the new position |
| SendAwaiter.Sender.AttemptVec | net/stream_socket_base.hpp:469-487 | the same outcome and bytes as the flat send of the concatenation, for the same kernel |
| SendAwaiter.Sender.AttemptOnce | net/stream_socket_base.hpp:447-488 | either form, by one contract |
| SerialSlot.StepKeeps | io/io_serial.hpp:74-186 | every step keeps one holder, the order of arrival, and the stream of prefixes |
| SerialSlot.DriveIsAttempt | io/io_serial.hpp:145-186 | the kernel calls of one drive, as separate steps, add up to one attempt_once |
| SerialSlot.StreamInArrivalOrder | io/io_serial.hpp:74-186 | in every run the byte stream is the concatenation of one prefix of each message, in the order of the run's arrivals, each with the data it arrived with |
| SerialSlot.PushSends | net/stream_socket_base.hpp:447-488 | a kernel call puts exactly the next bytes it accepts on the stream, and the send goes on with a part left, waits if blocked in full mode, and is finished otherwise |
| SerialSlot.OnlyPushSends | io/io_serial.hpp:74-186 | no other step puts anything on the stream |
| SerialSlot.FullSendsWhole | io/io_serial.hpp:145-186 | over every run: a full send whose kernel calls only accept or block has sent its whole message when it is finished |
| SerialSlot.OneHolder | io/io_serial.hpp:74-107 | at most one send has the slot, and then it is locked |
| SerialSlot.WaitersHaveHolder | io/io_serial.hpp:82-107 | waiters or a locked slot mean that some send has it |
| SerialSlot.ReleasedOnceInOrder | io/io_serial.hpp:91-107 | the releases of a run are its arrivals' first ones, in the same order and each once, and are exactly the sends that are over |
| SerialSlot.NeverStuck | io/io_serial.hpp:145-186 | while a send is not over, some send can take a step |
| Semaphore.Sem.Acquire | sync/semaphore.hpp:137-147 | a token now, also past queued waiters, or the last place among them |
| Semaphore.Sem.TryAcquire | sync/semaphore.hpp:149-161 | takes a token exactly if there is one |
| Semaphore.Sem.Release | sync/semaphore.hpp:163-179 | adds a token up to the maximum, and asks for a check exactly if it counted and someone waits |
| Semaphore.Sem.Chk | sync/semaphore.hpp:42-75 | the walk over the waiters does what the check function says, in place |
| Semaphore.CheckedGrantsFirst | sync/semaphore.hpp:53-69 | without cancelled waiters the first ones are granted, as many as there are tokens |
| Semaphore.Sem.CancelWaiter | sync/semaphore.hpp:117-135 | marks the request, and takes it off the list exactly if it is there |
| Semaphore.RunInv | sync/semaphore.hpp:137-179 | in every run: value between 0 and the maximum, value plus grants equals initial value plus counted releases, grants follow arrival, free tokens with waiters imply a check on its way |
| Semaphore.ResumedOnce | sync/semaphore.hpp:227-242 | a coroutine is resumed at most once, and after that its timer can do nothing |
| Semaphore.NoGrantAfterCancel | sync/semaphore.hpp:117-135 | after cancel_waiter a request is never granted |
| Semaphore.TokensReachWaiters | sync/semaphore.hpp:163-179 | free tokens with waiters: a step towards the check is enabled, and the check grants the first waiter |
| Semaphore.StepsRunOut | sync/semaphore.hpp:42-135 | without new requests and releases only finitely many steps are left |
| Semaphore.ToldOfGrantIffQueued | sync/semaphore.hpp:137-147 | over every run: an awaiter resumed by its granted node has the status that says so if and only if the value was 0 when it asked, so that it was queued |
| Semaphore.GrantedButNotTold | sync/semaphore.hpp:276-318 | a run in which a timed awaiter has its token and its status was never set |
| Semaphore.ServedIffTimerDidNotWin | sync/semaphore.hpp:290-303 | over every run: a granted node resumes its coroutine if and only if its timer has not won before; otherwise, and only then, its token is lost |
| Semaphore.LostIffTimerFirst | sync/semaphore.hpp:227-242 | a request's token is lost exactly if its timer won and its granted node ran after that |
| Semaphore.TokensConserved | sync/semaphore.hpp:137-179 | in every run the value, the calls of try_acquire that found a token, the nodes that resumed their awaiter, the tokens on their way and those lost add up to the initial value and the releases met below the maximum |
| Semaphore.TokenLostToTimer | sync/semaphore.hpp:227-242 | a run in which a released token is granted to a waiter whose timer wins before its node runs, and reaches nobody |
| Reactor.EpollReactor.UpdateInterest | io/epoll_reactor.hpp:177-196 | the cache becomes the OR of the masks, and the kernel's registration follows it: changed, added or removed |
| Reactor.UnionIn | io/epoll_reactor.hpp:177-182 | a bit is in the OR of the masks exactly if some waiter asks for it |
| Reactor.EpollReactor.Register | io/epoll_reactor.hpp:127-141 | the registration is last at its descriptor; cache and kernel agree |
| Reactor.EpollReactor.CollectTimeouts | io/epoll_reactor.hpp:143-163 | exactly the registrations with a deadline that has come leave their lists; the others stay in order |
| Reactor.EpollReactor.Dispatch | io/epoll_reactor.hpp:216-239 | exactly the waiters whose mask the event meets, or all if it carries EPOLLERR or EPOLLHUP, are posted, in order; the others stay, in order |
| Reactor.EpollReactor.RemoveFd | io/epoll_reactor.hpp:98-113 | the descriptor and its kernel registration go, and all its waiters are posted, in order |
| Reactor.EpollReactor.PostAll | io/epoll_reactor.hpp:165-175 | each registration taken off is posted once |
| Reactor.OncePlaced | io/epoll_reactor.hpp:115-125 | a registration in a list is in no other and was not posted |
| WebSocketFrame.FrameRoundTrip | net/websocket.hpp:510-692 | read_frame recovers what send_frame wrote and consumes exactly its bytes, if and only if the payload is within the limit and masked where required; sections 5.2 and 5.3 of RFC 6455 |
| WebSocketFrame.FrameRefused | net/websocket.hpp:571-597 | a payload over the limit, and else a frame without a mask where masks are required, is refused with its error, with exactly the length field consumed |
| WebSocketFrame.ReservedRefused | net/websocket.hpp:527-539 | a frame with any reserved bit set is refused after two bytes, whatever follows |
| WebSocketFrame.CutShort | net/websocket.hpp:516-610 | a stream that ends anywhere inside an acceptable frame gives the error of its end and never a frame |
| WebSocketFrame.DecodeMore | net/websocket.hpp:510-635 | more input changes neither a frame read nor the reason for refusing one |
| WebSocketFrame.WireLayout | net/websocket.hpp:637-692 | the bytes of every frame: flags and opcode, length code, big-endian length and key, and each payload byte, masked by the key's byte for it; section 5.2 of RFC 6455 |
| WebSocketFrame.XorIsBitwise | net/websocket.hpp:612-623 | masking sets a bit exactly if it differs from the mask's; section 5.3 of RFC 6455 |
| WebSocketFrame.DefaultReaderRefusesPong | net/websocket.hpp:713-717 | the unmasked pong of read_message, read with the default options, is refused |
| WebSocketFrame.MaskedTwice | net/websocket.hpp:612-623 | masking twice with a key gives the payload back |
| WebSocketFrame.HeaderFits | net/websocket.hpp:641-674 | a header has 2 to 14 bytes |
| WebSocketIo.Socket.ReadExact | net/websocket.hpp:516-524 | filling a buffer takes the next bytes of the stream however recv cuts it, or fails at its end |
| WebSocketIo.Socket.ReadFrame | net/websocket.hpp:510-635 | for every way recv cuts the stream, the result and the bytes consumed are those of decoding it, errors included |
| WebSocketIo.Socket.SendFrame | net/websocket.hpp:637-692 | the encoded frame, header built in a buffer of 14 bytes, goes out |
| WebSocket.Reassembly | net/websocket.hpp:695-760 | however a message is fragmented and whatever pings and pongs intervene, its opcode and whole payload come out, with one pong per ping in order if asked for; section 5.4 of RFC 6455 |
| WebSocket.CloseEnds | net/websocket.hpp:721-732 | a close frame with any payload, at any point of a message, final or not, gives a closed message: code 1000 and no reason with fewer than two bytes, else the big-endian code and the other bytes |
| WebSocket.OutOfPlace | net/websocket.hpp:735-752 | a continuation before any start, and a new data frame within a message, give EPROTO after the pongs sent so far |
| WebSocket.ErrorEnds | net/websocket.hpp:706-712 | an error of read_frame at any point of a message is the result, after the pongs sent so far |
| WebSocket.CloseRoundTrip | net/websocket.hpp:721-732 | a close, also in the middle of a message, gives the same code and reason; section 5.5 of RFC 6455 |
| WebSocketIo.Socket.ReadMessage | net/websocket.hpp:695-760 | for every way recv cuts the stream the loop gives what gathering its frames gives, of which `Reassembly`, `CloseEnds`, `OutOfPlace` and `ErrorEnds` say what it is, and sends the pongs as unmasked frames |
| WebSocketIo.Socket.SendClose | net/websocket.hpp:780-791 | the close frame with code and reason goes out |
| ChatRelay.ChatServer.OpenSession | test/chat_server.cpp:936-940 | a new session has no peer, no frames and an empty queue; the relay's invariants hold |
| ChatRelay.ChatServer.Hello | test/chat_server.cpp:671-813 | a session is refused, enters solo, is paired with the open session that waits in its room, or waits there itself; in each case the queue gains exactly the announcements, kept frames, counted server frames, and summary and stop due; the relay's invariants hold |
| ChatRelay.ChatServer.Attach | test/chat_server.cpp:252-267 | the session that waits in the room and is not closing is taken, otherwise this one waits |
| ChatRelay.ChatServer.Pair | test/chat_server.cpp:770-806 | each of the two gets what the other had kept for it, in order, then the server's frames, all counted, and then its summary, with a stop if it ends with its plans, exactly if the plans are complete |
| ChatRelay.ChatServer.Greet | test/chat_server.cpp:739-755 | a solo session is acknowledged, told it is ready and sent the server's frames, counted; those may complete its plans |
| ChatRelay.ChatServer.Await | test/chat_server.cpp:735-758 | a session that waits is told so, and its timer is armed if it has a time limit |
| ChatRelay.ChatServer.FlushLoop | test/chat_server.cpp:615-624 | the kept frames go to the peer's queue one by one and are counted |
| ChatRelay.ChatServer.PushLoop | test/chat_server.cpp:626-638 | the server's frames are queued and counted |
| ChatRelay.ChatServer.DataFrame | test/chat_server.cpp:837-869 | a frame too small, of the wrong size or over plan ends the session with error, summary and stop; any other is counted and is taken from a solo session, kept without a live peer, or passed on; then exactly those due get their summary and stop; the relay's invariants hold |
| ChatRelay.ChatServer.Pass | test/chat_server.cpp:866-869 | a frame goes straight to the live peer and is counted on both sides; each of the two then gets its summary exactly if its plans are now complete, with a stop if it ends with them |
| ChatRelay.ChatServer.Keep | test/chat_server.cpp:862-865 | without a live peer a frame is counted and kept, in order, and nothing is queued |
| ChatRelay.ChatServer.TakeSolo | test/chat_server.cpp:858-861 | a solo session's frame is counted, and the summary follows exactly if that completes its plans |
| ChatRelay.ChatServer.RefuseOverPlan | test/chat_server.cpp:851-856 | a frame over plan is counted and ends the session with error, summary and stop |
| ChatRelay.ChatServer.Reject | test/chat_server.cpp:489-517 | fail_session: the queue gains the error, the summary unless queued before and the stop unless queued before, in this order; the session closes, and nothing else of it or of others changes |
| ChatRelay.ChatServer.Done | test/chat_server.cpp:820-822 | the summary is queued once the plans are complete, with a stop if the session ends with its plan |
| ChatRelay.ChatServer.PingControl | test/chat_server.cpp:823-828 | a ping gains exactly one control frame in the queue |
| ChatRelay.ChatServer.NotifyPeer | test/chat_server.cpp:580-613 | the peer that stays is unlinked and told; its summary follows unless queued before, and a stop unless queued before, if its plan is incomplete or ends with its completion |
| ChatRelay.ChatServer.WaitTimeout | test/chat_server.cpp:530-563 | an armed timeout of an unpaired session takes it out of its room and ends it with error, summary and stop; any other changes nothing but the timer |
| ChatRelay.ChatServer.ReaderEnd | test/chat_server.cpp:872-881 | the session leaves its room, its peer is unlinked and told as `NotifyPeer` says, and it ends with summary and stop, each unless queued before |
| ChatRelay.RelayConserved | test/chat_server.cpp:851-869 | for every paired session: what its peer got, then what is kept, are its accepted frames in order, and both counters account for each, plus one for a frame over plan |
| ChatRelay.OneSummaryOneStop | test/chat_server.cpp:477-517 | no session's queue ever has two summaries or two stop sentinels |
| ChatRelay.SummaryBeforeStop | test/chat_server.cpp:202-224 | a stop sentinel is always preceded by the summary |

## Left out

- io/usb_device.hpp: the transfer-slot pool; another token pool with a waiting list, next to the semaphore and the serial slot.
- Sockets, epoll, IOCP, AFD, libusb, OpenSSL, llhttp, nghttp2, JSON and getaddrinfo: foreign calls, whose results are arguments here.
- net/tls.hpp, net/dns_resolver.cpp, the listeners and the tcp, udp and unix wrappers, io/file_io.hpp, io/iocp_reactor.hpp: plumbing, or repetitions of the serial slot and of the reactor's table.
- sync/inotify.hpp, the HTTP, SOCKS and curl examples, logging, command lines and scripts.
- The recv awaiter: its slot is the same serial slot; only the send direction is modelled.
- serial_collect_waiters and serial_post_pending: closing gives up the slot under its holder, so exclusion is stated up to close.
- The WebSocket handshake, and send errors in send_frame: the socket is taken to accept what is sent.
- port_wait's timeout arithmetic and active_poll_count: whether a control operation is followed by an update of the events is the caller's choice of `UpdateEvents` after it.
- The runner's guard, waiter magic numbers and pointer plausibility in callback_wq: waiters are taken to be valid and to outlive their entries.
- Memory order below locks and atomic exchanges, and the steps inside await_suspend, which is one step.
- SerialSlot.NeverStuck: says that a step is possible, not that the kernel ever accepts anything.
- CallbackQueue.PostedIsStarted: speaks of runs in which the flag comes down; that it can always come to that is `NeverStuck` and `StepsRunOut`.
- Reactor.EpollReactor.UpdateInterest: epoll_ctl fails only with ENOENT on a change; other failures are not modelled.
- ChatRelay.ChatServer.Hello: a session's record stays in the table after it ends, so a room never holds an expired pointer.
- The wait timer of a chat session is its armed flag; the JSON texts of control frames, and the count a client reports as done, which only shows in them, are not modelled.
