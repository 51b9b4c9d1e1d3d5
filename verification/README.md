# Verification of the event loop's hard core

This project models six components of a C event-loop and networking toolkit and proves what they are for.
The operating system is a nondeterministic answer or step everywhere: sockets take any part of what they
are offered, AFD and the completion port answer as they like, threads interleave freely.

* **The ordered tree of wepoll** (`TreeShape`, `TreeRemoval`, `RedBlackTree`). The intrusive red-black tree is
  a heap of `Node` objects with `left`, `right`, `parent`, `key` and `red`, changed field by field as in the C
  macros. A ghost tree and a zipper into it say where the loops stand. Adding, deleting any linked node and
  finding keep order, links in both directions, a black root, no red node below a red one and equal black
  heights, and they refine a finite map; both rebalancing loops end.
* **The epoll port of wepoll.** `EpollEvents` holds the event masks, `WepollQueue` the circular linked queue,
  `WepollLinks` the records linked into the two queues and the tree, `PollGroups` the poll groups. `WepollPort`
  and `WepollRuns` have one function per C function and per section of the port lock; `WepollMachine` is the
  port object itself, over records that hold their own nodes in the linked queues and the tree; its methods
  change all of them in place and are proved equal to those functions. `WepollSafety` and `WepollLifetime` prove the results over all runs:
  no missed readiness, with the exact condition on AFD's answers; each record freed at most once and never
  while a completion is owed; reports only about what was asked for; `EPOLLONESHOT`; and `port_delete`.
* **The reflock and the tree of handles** (`Reflock`), the protocol that lets one thread close a port while
  others are still inside it.
* **The bounded MPSC queue** (`Mpsc`): one step per atomic operation, for any number of producers, one consumer
  and any interleaving, refined to a bounded FIFO.
* **The thread pool** (`ThreadPool`, with `TaskList` for the linked list): a counting invariant over semaphore,
  workers and pushers, drain over any number of starts and finis, and freedom from deadlock with a bound on the
  steps still to go.
* **The poller**: the indexed timer heap as an array of timer objects (`HeapOrder`, `TimerHeap`), the order
  in which a flush fires (`FlushOrder`), and the task list, wake pipe and delayed tasks as a step machine
  (`PollerTasks`).
* **Outgoing TCP data over shared buffers**: the session, its linked queue and what it
  offers the socket (`OutQueue`, `TcpOut`, `SendTrace`), the reference
  count as interleaved atomic operations (`RefCount`) and the size-class pool (`BufPool`).

`Tally` sums over the threads of a protocol, `TaskOrder` is about lines of tasks, `Bits` about masks.

## What turned out not to hold

* A port whose update pass meets an AFD error other than "socket closed" leaves a registered socket
  unwatched while threads wait, unless all that the pass had still to do were watched all along, by polls for other
  events with the same AFD mask: `WepollSafety.StepExact` is the exact condition, `WepollSafety.OneRefusalMisses`
  is a two-step run that does it, and in it `epoll_ctl` even answers success.
* Fini does not run every accepted task. By `ThreadPool.FiniDrains`, over any number of starts and finis, the
  tasks not run when the last worker has left, and so when fini is over, are just those pushed since that moment;
  tasks pushed during fini while a worker is still there are run. Such a late task is run if and only if the pool
  is started again (`ThreadPool.LateTasksRun`, at the next moment without workers; `ThreadPool.LatePushIsLost`
  for every continuation without a start). `ThreadPool.LastWorkerLeft` reaches the moment with a thread that is
  about to push.
* `ztk_thread_pool_start` does not return after every failure. By `ThreadPool.FailedStart` it returns if the first
  worker cannot be created, and never if a later one cannot: the workers it then joins wait for tokens.
* A flush of the timer heap may fire a timer twice and out of order. `TimerHeap.Heap.Flush` is exact when neither
  its bound of 256 nor a cancellation cuts it short: each timer fires once if and only if no sum of the time
  and a re-arming delay reaches 2^64, and deadlines rise if and only if no such sum wraps to before the deadline
  just served. Without these two hypotheses the conditions are still sufficient.
  `TimerHeap.Heap.WrappedFiresTwice` is a flush that fires one timer twice.
* When the earliest deadline is 2^63 ms or more away, the cast to `int64_t` is negative and an infinite request
  stays infinite; `TimerHeap.ResolvedExact` gives the exact condition.
* A cancel on the poller's own thread is not always final. By `PollerTasks.OwnCancelExact` some run links the
  timer again if and only if an insert task for it is still in the batch or in the queue at the cancel. Even
  then no callback starts (`PollerTasks.FlaggedIsSilent`). A cancel posted from another thread is final.
* `buf_create_from_pool` and `buf_create_malloc` add the header to the capacity in `size_t`. By
  `BufPool.Pool.CreateBuf` the memory obtained has room for what was asked for if and only if the sum stays below
  2^64. Where it wraps, the buffer states its block's smaller capacity truly, except where it wraps to zero: then
  no block comes from the pool, and the fallback states the full capacity over an empty allocation.
* A queue of capacity one would overwrite an unread item (`Mpsc.OneSlotOverruns`); the power-of-two test, which
  refuses it, is what the proofs rest on.

## Model

| member | source | states |
|---|---|---|
| RedBlackTree.TreeObject.constructor | src/platform/win32/wepoll/wepoll.c:1788-1790 | An empty tree: all invariants, no key. |
| RedBlackTree.TreeObject.RotateLeftFields | src/platform/win32/wepoll/wepoll.c:1796-1819 | A left rotation writes the pivot, its child, the moved grandchild and the parent or root, and nothing else. |
| RedBlackTree.TreeObject.RotateRightFields | src/platform/win32/wepoll/wepoll.c:1796-1823 | The mirror image of the left rotation. |
| RedBlackTree.TreeObject.Rotate | src/platform/win32/wepoll/wepoll.c:1796-1823 | A rotation anywhere in the tree keeps all links both ways and the order of the entries. |
| RedBlackTree.TreeObject.FlipColours | src/platform/win32/wepoll/wepoll.c:1833-1840 | With a red uncle, three colours change and the loop moves on to the grandparent of a consistent tree. |
| RedBlackTree.TreeObject.RebalanceAfterInsert | src/platform/win32/wepoll/wepoll.c:1833-1850 | One round of the insert loop keeps links and order and leaves at most one red-red edge, higher up. |
| RedBlackTree.TreeObject.FixAfterInsert | src/platform/win32/wepoll/wepoll.c:1875-1882 | The insert loop ends with a black root and every red-black invariant restored. |
| RedBlackTree.TreeObject.Descend | src/platform/win32/wepoll/wepoll.c:1852-1868 | The descent finds the key or the one empty place where it belongs. |
| RedBlackTree.TreeObject.Add | src/platform/win32/wepoll/wepoll.c:1852-1885 | tree_add keeps every invariant, returns -1 with no field changed exactly when the key is present, and otherwise maps the key to the node and changes no other entry. |
| RedBlackTree.TreeObject.LiftSibling | src/platform/win32/wepoll/wepoll.c:1890-1895 | A red sibling is rotated above the parent; the missing black node stays where it was. |
| RedBlackTree.TreeObject.BringRedFar | src/platform/win32/wepoll/wepoll.c:1897-1902 | A red near nephew becomes the far one. |
| RedBlackTree.TreeObject.RepayWithNephew | src/platform/win32/wepoll/wepoll.c:1903-1907 | A red far nephew pays for the missing black node and the loop is done. |
| RedBlackTree.TreeObject.RebalanceAfterRemove | src/platform/win32/wepoll/wepoll.c:1887-1909 | One round of the delete loop either finishes or moves the missing black node one level up. |
| RedBlackTree.TreeObject.FixAfterRemove | src/platform/win32/wepoll/wepoll.c:1968-1982 | The delete loop ends with every red-black invariant restored. |
| RedBlackTree.TreeObject.RemoveWithOneChild | src/platform/win32/wepoll/wepoll.c:1911-1966 | Deleting a node with at most one child. |
| RedBlackTree.TreeObject.RemoveWithTwoChildren | src/platform/win32/wepoll/wepoll.c:1911-1966 | Deleting a node with two children: the next node takes over place, colour and links. |
| RedBlackTree.TreeObject.Del | src/platform/win32/wepoll/wepoll.c:1911-1982 | tree_del of any linked node keeps every invariant and removes exactly its key from the map and the node from the tree. |
| RedBlackTree.TreeObject.Find | src/platform/win32/wepoll/wepoll.c:1984-1995 | tree_find is the lookup of the map, and visits at most 2*log2(n+1) nodes. |
| TreeShape.RotatedLinks | src/platform/win32/wepoll/wepoll.c:1796-1815 | The four writes of a rotation give the links of the rotated tree. |
| TreeShape.StraightenedBalance | src/platform/win32/wepoll/wepoll.c:1842-1849 | With a black uncle, one or two rotations and two colours restore the balance. |
| TreeShape.FlippedBalance | src/platform/win32/wepoll/wepoll.c:1837-1840 | The colour flip keeps black heights and moves the only possible red-red edge up. |
| TreeShape.RepaidBalance | src/platform/win32/wepoll/wepoll.c:1896-1908 | The rotations with a red nephew restore the black heights on all paths. |
| TreeShape.PostponedBalance | src/platform/win32/wepoll/wepoll.c:1909-1909 | Painting the sibling red passes the missing black node to the parent. |
| TreeShape.InsertedModel | src/platform/win32/wepoll/wepoll.c:1825-1873 | Linking a leaf at the place of the descent adds one entry to the map and keeps the order. |
| TreeShape.HeightBounds | src/platform/win32/wepoll/wepoll.c:1852-1885 | A balanced tree of black height h holds at least 2^h - 1 entries and is at most twice as high. |
| TreeShape.SearchDepth | src/platform/win32/wepoll/wepoll.c:1984-1995 | The height of a valid tree is at most 2*log2(n+1). |
| TreeRemoval.SplicedModel | src/platform/win32/wepoll/wepoll.c:1918-1959 | Putting the only child in the node's place removes just its key. |
| TreeRemoval.ReplacedModel | src/platform/win32/wepoll/wepoll.c:1923-1958 | Putting the next node in the place of one with two children removes just the latter's key and keeps the order. |
| TreeRemoval.ReplacedLinks | src/platform/win32/wepoll/wepoll.c:1928-1960 | The field writes of the two-children case give the links of the new tree. |
| TreeRemoval.ReplacedBalance | src/platform/win32/wepoll/wepoll.c:1937-1956 | The colour exchange leaves at most one missing black node, where the next node was. |
| WepollQueue.Queue.constructor | src/platform/win32/wepoll/wepoll.c:1297-1304 | An empty ring. |
| WepollQueue.Queue.IsEmpty | src/platform/win32/wepoll/wepoll.c:1348-1350 | True exactly for the empty queue. |
| WepollQueue.Queue.First | src/platform/win32/wepoll/wepoll.c:1311-1313 | The first node or NULL. |
| WepollQueue.Queue.Last | src/platform/win32/wepoll/wepoll.c:1315-1317 | The last node or NULL. |
| WepollQueue.Queue.Prepend | src/platform/win32/wepoll/wepoll.c:1319-1324 | The ring is linked both ways with the node in front. |
| WepollQueue.Queue.Append | src/platform/win32/wepoll/wepoll.c:1326-1331 | The ring is linked both ways with the node at the end. |
| WepollQueue.Queue.Detach | src/platform/win32/wepoll/wepoll.c:1306-1309 | The rest of the ring stays linked in its order. |
| WepollQueue.Queue.MoveToStart | src/platform/win32/wepoll/wepoll.c:1333-1336 | The node is first, the others keep their order. |
| WepollQueue.Queue.MoveToEnd | src/platform/win32/wepoll/wepoll.c:1338-1341 | The node is last, the others keep their order. |
| WepollQueue.Queue.Remove | src/platform/win32/wepoll/wepoll.c:1343-1346 | The node leaves the ring and links to itself. |
| WepollQueue.Queue.EnqueuedMeansLinked | src/platform/win32/wepoll/wepoll.c:1352-1354 | The test on one link tells members from nodes in no queue. |
| WepollLinks.PortQueues.constructor | src/platform/win32/wepoll/wepoll.c:962-991 | Both queues are empty. |
| WepollLinks.PortQueues.Adopt | src/platform/win32/wepoll/wepoll.c:1473-1500 | The queue node of a new record is in no queue. |
| WepollLinks.PortQueues.RequestUpdate | src/platform/win32/wepoll/wepoll.c:1254-1258 | On the linked queues: the record joins the end of the update queue unless its one node is in either queue, and the other queue stays linked as it was. |
| WepollLinks.PortQueues.CancelUpdate | src/platform/win32/wepoll/wepoll.c:1260-1265 | On the linked queues: a registered record leaves the update queue if it is there, the others keep their order. |
| WepollLinks.PortQueues.AddDeleted | src/platform/win32/wepoll/wepoll.c:1267-1271 | On the linked queues: the record joins the end of the deleted queue unless its one node is in either queue. |
| WepollLinks.PortQueues.RemoveDeleted | src/platform/win32/wepoll/wepoll.c:1273-1278 | On the linked queues: a record that awaits no update leaves the deleted queue if it is there. |
| WepollLinks.PortQueues.FirstUpdate | src/platform/win32/wepoll/wepoll.c:1044-1060 | The record behind the first node is the head of the update queue; NULL exactly when that is empty. |
| WepollLinks.PortQueues.FirstDeleted | src/platform/win32/wepoll/wepoll.c:1013-1042 | The same for the deleted queue. |
| WepollLinks.SocketTree.Register | src/platform/win32/wepoll/wepoll.c:1237-1241 | On the red-black tree: the table gains key and record, or is unchanged exactly when the key is there. |
| WepollLinks.SocketTree.Unregister | src/platform/win32/wepoll/wepoll.c:1243-1245 | On the red-black tree: the table loses exactly the key of the record's node. |
| WepollLinks.SocketTree.FindSocket | src/platform/win32/wepoll/wepoll.c:1247-1252 | On the red-black tree: the record that the table has for the key, NULL exactly when it has none. |
| WepollLinks.SocketTree.FirstSocket | src/platform/win32/wepoll/wepoll.c:1013-1042 | The root's record is one of the table; NULL exactly when the table is empty. |
| WepollLinks.PortLinks.Register | src/platform/win32/wepoll/wepoll.c:1237-1241 | On queues and tree together: a new record, in no queue, enters the table unless its key is there. |
| WepollLinks.PortLinks.Unregister | src/platform/win32/wepoll/wepoll.c:1243-1245 | On queues and tree together: the table loses the key under which it has the record, the queues stay as they are. |
| WepollLinks.PortLinks.Forget | src/platform/win32/wepoll/wepoll.c:1518-1521 | The links of a record that is in no queue and not in the table are given up with it; nothing else changes. |
| PollGroups.AcquireKeeps | src/platform/win32/wepoll/wepoll.c:885-900 | Full groups stay in front, each size is the number of member sockets and at most 32, and a new group is opened exactly when every existing one is full. |
| PollGroups.ReleaseKeeps | src/platform/win32/wepoll/wepoll.c:902-912 | The socket's own group, and no other, shrinks by one and moves to the end, its size is in range as the assert demands, and the queue's order holds. |
| PollGroups.EmptyGroups | src/platform/win32/wepoll/wepoll.c:870-875 | Without sockets every group has size zero, as poll_group_delete asserts. |
| EpollEvents.CoversAfd | src/platform/win32/wepoll/wepoll.c:1553-1572 | A poll that covers the wanted epoll events was submitted with an AFD mask that covers theirs. |
| EpollEvents.NothingLostInTranslation | src/platform/win32/wepoll/wepoll.c:1553-1592 | Asking AFD for a mask and translating a full answer back gives every event of the mask but EPOLLMSG. |
| EpollEvents.EveryAnswerIsAnEvent | src/platform/win32/wepoll/wepoll.c:1574-1592 | Each AFD event but the local close stands for at least one known epoll event. |
| EpollEvents.AlwaysAsksForErrors | src/platform/win32/wepoll/wepoll.c:1538-1548 | With EPOLLERR and EPOLLHUP added, an idle socket always needs an update. |
| EpollEvents.Delivered | src/platform/win32/wepoll/wepoll.c:1553-1592 | If something the user asks for is true of the socket, a poll whose AFD mask covers it brings at least one asked-for event. |
| WepollPort.DeleteKeeps | src/platform/win32/wepoll/wepoll.c:1503-1528 | sock__delete keeps the port's invariant; the record is freed at once exactly when it is idle, and otherwise waits for its completion. |
| WepollPort.FeedKeeps | src/platform/win32/wepoll/wepoll.c:1655-1704 | Feeding a completion keeps the invariant, with what AFD was asked among it, and settles exactly this debt. |
| WepollPort.FeedExact | src/platform/win32/wepoll/wepoll.c:1655-1704 | The record goes exactly if it was deleted or the socket closed; else its poll is over, a new one is asked for, and its events are cleared exactly by a report under EPOLLONESHOT. A cancelled or empty poll reports nothing, a failed one EPOLLERR, all masked by what the user asked for. |
| WepollPort.RequestKeeps | src/platform/win32/wepoll/wepoll.c:1254-1258 | A queued socket may be unwatched. |
| WepollPort.SettledKeeps | src/platform/win32/wepoll/wepoll.c:1594-1653 | A socket leaves the update queue only with a poll at AFD whose mask covers its events, or one whose cancellation was asked for. |
| WepollPort.UpdateWays | src/platform/win32/wepoll/wepoll.c:1594-1653 | sock_update is never called on a deleted socket, and either settles it, drops it as closed, or fails with nothing changed. |
| WepollPort.UpdateAsks | src/platform/win32/wepoll/wepoll.c:1594-1653 | AFD is asked for a poll with the user's mask exactly if the socket is idle, for a cancellation exactly if a pending poll does not cover the events, and else for nothing. |
| WepollPort.DeleteAsks | src/platform/win32/wepoll/wepoll.c:1503-1528 | Deleting a registered record asks AFD to cancel its pending poll, and nothing else. |
| WepollPort.SockUpdateKeeps | src/platform/win32/wepoll/wepoll.c:1594-1653 | A successful sock_update takes the socket, and only it, off the queue. |
| WepollPort.UpdateEventsKeeps | src/platform/win32/wepoll/wepoll.c:1044-1060 | The pass ends, keeps the invariant, and empties the queue exactly when it succeeds. |
| WepollPort.FeedEventsKeeps | src/platform/win32/wepoll/wepoll.c:1066-1079 | A batch of packets keeps the invariant and settles exactly the debts it names. |
| WepollPort.WithoutAt | src/platform/win32/wepoll/wepoll.c:1343-1346 | Removal from the queue as a sequence is the removal that the linked queue makes. |
| WepollPort.OneNodeIsEnough | src/platform/win32/wepoll/wepoll.c:1254-1278 | A record has one queue node for two queues: under the invariant its test does the same as a test on the right queue, for an update request, its cancellation and the whole of sock__delete. |
| WepollRuns.SpareKeeps | src/platform/win32/wepoll/wepoll.c:1473-1500 | sock_new with a duplicate key gives its poll group back and leaves the port consistent. |
| WepollRuns.CtlAddKeeps | src/platform/win32/wepoll/wepoll.c:1180-1193 | EPOLL_CTL_ADD keeps the invariant on every path; a refused one leaves the update queue alone. |
| WepollRuns.CtlAddExact | src/platform/win32/wepoll/wepoll.c:1180-1193 | EPOLL_CTL_ADD registers handle, events and data exactly when the handle is usable and new; otherwise no registration changes, and the error says why. |
| WepollRuns.CtlModExact | src/platform/win32/wepoll/wepoll.c:1195-1206 | EPOLL_CTL_MOD changes the events and data of that record only, and is refused exactly for an unknown key. |
| WepollRuns.CtlDelExact | src/platform/win32/wepoll/wepoll.c:1208-1216 | EPOLL_CTL_DEL removes exactly the key; the record stays only while a completion is owed. |
| WepollRuns.CtlDelCancels | src/platform/win32/wepoll/wepoll.c:1208-1216 | EPOLL_CTL_DEL of a pending socket asks AFD to give its poll back and marks it cancelled, unless AFD refuses. |
| WepollRuns.SetEventKeeps | src/platform/win32/wepoll/wepoll.c:1538-1551 | After sock_set_event the socket is queued or its pending poll covers the new events. |
| WepollRuns.CtlModKeeps | src/platform/win32/wepoll/wepoll.c:1195-1206 | EPOLL_CTL_MOD keeps the invariant; an unknown key changes nothing. |
| WepollRuns.CtlDelKeeps | src/platform/win32/wepoll/wepoll.c:1208-1216 | EPOLL_CTL_DEL keeps the invariant; an unknown key changes nothing. |
| WepollRuns.WaitBegunKeeps | src/platform/win32/wepoll/wepoll.c:1081-1092 | Going to sleep keeps the invariant, also when the update pass fails. |
| WepollRuns.TakenKeeps | src/platform/win32/wepoll/wepoll.c:1093-1105 | Waking up with or without packets keeps the invariant. |
| WepollRuns.WaitGoesOn | src/platform/win32/wepoll/wepoll.c:1107-1167 | The wait goes on exactly if packets came, none is worth reporting, time is left and the next pass succeeds. |
| WepollRuns.ApplyKeeps | src/platform/win32/wepoll/wepoll.c:1107-1235 | Every critical section of the port keeps the invariant, whatever AFD answers. |
| WepollSafety.UpdateEventsExact | src/platform/win32/wepoll/wepoll.c:1044-1060 | An update pass succeeds exactly when AFD refuses none of the requests it needs, and leaves every registered socket watched by AFD's own masks exactly when it serves. |
| WepollSafety.PassExact | src/platform/win32/wepoll/wepoll.c:1062-1065 | With a thread waiting, the pass leaves nothing missed exactly when it serves. |
| WepollSafety.QuietMisses | src/platform/win32/wepoll/wepoll.c:1044-1060 | An empty update queue means that AFD watches every registered socket for all its user asks. |
| WepollSafety.StepExact | src/platform/win32/wepoll/wepoll.c:1044-1240 | A critical section leaves readiness that could be missed exactly when its own pass does not serve: AFD refuses a request it needs, and stops it before a socket that is not watched already. |
| WepollSafety.NeverMisses | src/platform/win32/wepoll/wepoll.c:1107-1240 | Over every run without AFD errors: while the lock is free and a thread waits, the update queue is empty, and AFD has for each registered socket a poll submitted with a mask that covers its events, or was asked to cancel it. |
| WepollSafety.OneRefusalMisses | src/platform/win32/wepoll/wepoll.c:1180-1193 | A run in which one refused poll leaves a socket unwatched while a thread waits. |
| WepollLifetime.FreedOnce | src/platform/win32/wepoll/wepoll.c:1462-1528 | Over every run, with any answers: no record is lost, a freed one stays freed, and none is freed while a completion is owed to it. |
| WepollLifetime.OneQueue | src/platform/win32/wepoll/wepoll.c:1254-1278 | A record is in at most one of the update and deleted queues. |
| WepollLifetime.FeedEventsReports | src/platform/win32/wepoll/wepoll.c:1066-1079 | A batch yields at most one report a packet, about different registered sockets, with their own data and only events they asked for. |
| WepollLifetime.EventReachesUser | src/platform/win32/wepoll/wepoll.c:1655-1704 | Anything true of a socket that its user asks for ends in a report with the user's data, when AFD answers for the mask it was given. |
| WepollLifetime.OneShotSilences | src/platform/win32/wepoll/wepoll.c:1693-1699 | A report about an EPOLLONESHOT socket silences it, errors included. |
| WepollLifetime.SilentUntilMod | src/platform/win32/wepoll/wepoll.c:1655-1704 | Over every run: a silenced socket is not reported before an EPOLL_CTL_MOD of its key. |
| WepollLifetime.StepStands | src/platform/win32/wepoll/wepoll.c:1107-1240 | A step changes data or events of a record only by a MOD of its key or a report under EPOLLONESHOT. |
| WepollLifetime.AskedUntilMod | src/platform/win32/wepoll/wepoll.c:1655-1704 | Over every run: as long as its key sees no EPOLL_CTL_MOD, a record keeps its data, and its events but for a report under EPOLLONESHOT, which clears them. |
| WepollMachine.NewPort | src/platform/win32/wepoll/wepoll.c:962-991 | A new port, with empty queues and tree, satisfies the invariant. |
| WepollMachine.PortState.CancelPoll | src/platform/win32/wepoll/wepoll.c:1451-1460 | A failed cancellation changes nothing; a successful one asks AFD and marks this record, and no other, and forgets its pending events. |
| WepollMachine.PortState.SockNew | src/platform/win32/wepoll/wepoll.c:1473-1500 | A new record with its own nodes is registered exactly when its key is new; otherwise its poll group is given back and the port is as before. |
| WepollMachine.PortState.FreeSock | src/platform/win32/wepoll/wepoll.c:1446-1449 | A record that is linked nowhere leaves the port, which stays consistent. |
| WepollMachine.PortState.SockDelete | src/platform/win32/wepoll/wepoll.c:1503-1528 | The changes to record, queues and tree in place are the function Delete. |
| WepollMachine.PortState.SockSetEvent | src/platform/win32/wepoll/wepoll.c:1538-1551 | The changes to record and queue in place are the function SetEvent. |
| WepollMachine.PortState.UpdateSock | src/platform/win32/wepoll/wepoll.c:1594-1653 | The changes in place are the function SockUpdate, result included. |
| WepollMachine.PortState.UpdateAll | src/platform/win32/wepoll/wepoll.c:1044-1060 | The loop over the linked queue ends and is the function UpdateEvents. |
| WepollMachine.PortState.FeedSock | src/platform/win32/wepoll/wepoll.c:1655-1704 | The changes in place and the report are the function FeedEvent. |
| WepollMachine.PortState.FeedAll | src/platform/win32/wepoll/wepoll.c:1066-1079 | The loop is the function FeedEvents, reports in order. |
| WepollMachine.PortState.CtlAdd | src/platform/win32/wepoll/wepoll.c:1180-1193 | The method is the Add step of the runs, error answers included. |
| WepollMachine.PortState.CtlMod | src/platform/win32/wepoll/wepoll.c:1195-1206 | The method is the Mod step of the runs, with ERROR_NOT_FOUND exactly for an unknown key. |
| WepollMachine.PortState.CtlDel | src/platform/win32/wepoll/wepoll.c:1208-1216 | The method is the Del step of the runs, with ERROR_NOT_FOUND exactly for an unknown key. |
| WepollMachine.PortState.BeginWait | src/platform/win32/wepoll/wepoll.c:1081-1092 | The method is the WaitBegin step of the runs. |
| WepollMachine.PortState.EndWait | src/platform/win32/wepoll/wepoll.c:1093-1167 | The method is the WaitEnd step of the runs; it goes round again exactly if packets came, none is reported, time is left and the next pass succeeds. |
| WepollMachine.PortState.PortDelete | src/platform/win32/wepoll/wepoll.c:1013-1042 | port_delete takes the tree and the deleted queue apart and frees every remaining record once, whatever is queued or owed, and AFD is asked to cancel just the polls still pending; every group is empty when deleted and the update queue is empty, so the asserts hold. |
| WepollMachine.ForceDeleteKeeps | src/platform/win32/wepoll/wepoll.c:1534-1536 | A forced deletion frees exactly its record and keeps what the loops of port_delete rely on. |
| Reflock.Masks | src/platform/win32/wepoll/wepoll.c:1356-1360 | The masks of the C code select the reference count and the flags of the model's state, and the tests on them decide what the model asks of the flags. |
| Reflock.StepKeeps | src/platform/win32/wepoll/wepoll.c:1387-1417 | Every interleaving of fewer than 2^28 threads keeps the invariant, and each assert on the way holds. |
| Reflock.RunKeeps | src/platform/win32/wepoll/wepoll.c:1387-1417 | Over every run, all asserts hold. |
| Reflock.RefLimit | src/platform/win32/wepoll/wepoll.c:1387-1393 | The bound on references is exact: the next one breaks the assert. |
| Reflock.OneWinner | src/platform/win32/wepoll/wepoll.c:1750-1764 | At most one thread's epoll_close gets the port. |
| Reflock.SignalsAndWaits | src/platform/win32/wepoll/wepoll.c:1395-1417 | Who signals finds the closer waiting, and a waiting closer has a holder left or its signal on the way. |
| Reflock.DeleteAlone | src/platform/win32/wepoll/wepoll.c:495-518 | port_delete starts only when no other thread holds a reference or can still get one. |
| Reflock.FoundWhileInTree | src/platform/win32/wepoll/wepoll.c:1750-1764 | The port is found, and a reference taken, exactly while its handle is in the tree; closing takes it out; who does not find it leaves no trace. |
| Reflock.WorkFalls | src/platform/win32/wepoll/wepoll.c:1387-1417 | Each step inside brings the end nearer. |
| Reflock.NeverStuck | src/platform/win32/wepoll/wepoll.c:1395-1417 | While a thread is inside, one of them can go on. |
| Reflock.CloseEnds | src/platform/win32/wepoll/wepoll.c:1387-1417 | However the threads inside are scheduled, a bounded number of their steps gets all out, and then a closed port has been deleted. |
| Reflock.EveryRun | src/platform/win32/wepoll/wepoll.c:1387-1417 | Over every run from a new port: all asserts hold, one thread at most closes it, and the one that deletes it is alone. |
| Mpsc.Create | src/util/mpsc.c:70-95 | A queue is created exactly for powers of two from 2 on. |
| Bits.PowerOfTwoTest | src/util/mpsc.c:65-68 | n & (n - 1) is zero exactly for powers of two. |
| Bits.MaskIsModulo | src/util/mpsc.c:118-118 | The mask selects the position modulo the capacity. |
| Mpsc.NextKeeps | src/util/mpsc.c:105-158 | Every atomic step of every producer and the consumer keeps the invariant. |
| Mpsc.StepRefines | src/util/mpsc.c:122-155 | A step is a push, a pop or nothing of the bounded FIFO: the push at the CAS, the pop where the slot is freed. |
| Mpsc.RunRefines | src/util/mpsc.c:105-158 | A run is a run of the bounded FIFO. |
| Mpsc.EveryRunIsFifo | src/util/mpsc.c:105-158 | For any number of producers and any interleaving, the items popped are the items pushed in the order of their CAS, none lost, doubled or invented. |
| Mpsc.AgainIsExact | src/util/mpsc.c:119-125 | The turn of the slot at an up-to-date tail is behind exactly when every slot is claimed and not yet freed; at a stale one in no other case. |
| Mpsc.NullIsExact | src/util/mpsc.c:147-152 | The turn of the head slot is not up exactly when the head position is unclaimed or unpublished. |
| Mpsc.PushAnswers | src/util/mpsc.c:105-134 | The step that answers AGAIN does so only when every slot is taken, and always then with an up-to-date tail; OK follows the publication; a failed compare-and-swap never leaves the call. |
| Mpsc.PopAnswers | src/util/mpsc.c:136-158 | The step that answers NULL does so exactly when the head position is unclaimed or unpublished as the sequence is read; every other pop takes the claimed item. |
| Mpsc.PushAlone | src/util/mpsc.c:105-134 | An undisturbed push ends with its item claimed and published if there is room, and with nothing changed otherwise. |
| Mpsc.PopAlone | src/util/mpsc.c:136-158 | An undisturbed pop takes the head item if it is published, and nothing otherwise. |
| Mpsc.ReadAfterWrite | src/util/mpsc.c:154-154 | The consumer reads what the claiming producer wrote. |
| Mpsc.SlotsExclusive | src/util/mpsc.c:131-132 | A slot has one writer at a time, never together with the reader. |
| Mpsc.OneSlotOverruns | src/util/mpsc.c:65-68 | With a capacity of one the second push would overwrite the first item. |
| ThreadPool.StepKeeps | src/thread/thread_pool.c:53-101 | Every step keeps: tokens in the semaphore, in hand or owed equal queued tasks plus shutdown tokens minus exited workers; and which workers exist in which phase. |
| ThreadPool.EveryRun | src/thread/thread_pool.c:53-101 | Over every run, with any number of starts and finis: the tokens balance, started and queued tasks are the accepted ones, and no worker exits but between fini's post and its end. |
| ThreadPool.ExitNeedsFini | src/thread/thread_pool.c:58-70 | A worker that finds the queue empty holds a shutdown token. |
| ThreadPool.NoDeadlock | src/thread/thread_pool.c:178-188 | Until a start or a fini that is under way is over, some thread inside the pool can always go on. |
| ThreadPool.NoWorkerStuck | src/thread/thread_pool.c:53-74 | After fini has posted, live workers are never all stuck. |
| ThreadPool.WorkFalls | src/thread/thread_pool.c:53-74 | Each step inside the pool lessens the work still to do. |
| ThreadPool.FiniEnds | src/thread/thread_pool.c:178-188 | However it is scheduled, fini ends after a bounded number of steps. |
| ThreadPool.FiniDrains | src/thread/thread_pool.c:140-149 | Over every run, with any number of starts and finis: whenever the last worker has left, and so when fini is over, each accepted task has been run exactly once but for those pushed since; all have been run if and only if there are none such. |
| ThreadPool.LatePushIsLost | src/thread/thread_pool.c:76-101 | A push after the last worker has left is accepted, and not run in any continuation in which no worker is created again. |
| ThreadPool.LateTasksRun | src/thread/thread_pool.c:151-188 | From one moment without workers to another: what had been accepted has all been run if and only if none of it was late or the pool has been started in between. |
| ThreadPool.FailedStart | src/thread/thread_pool.c:151-176 | A start that fails at its first worker can return at once and changes nothing; after a later failure it is still joining in every continuation. |
| ThreadPool.LastWorkerLeft | src/thread/thread_pool.c:178-188 | A run reaches such a state with a thread that has passed the test of ztk_thread_pool_async and not yet pushed. |
| ThreadPool.LineGrows | src/thread/thread_pool.c:36-45 | Tasks start in the order of the queue: a new one joins at its end or, pushed first or run inline, right behind those started. |
| ThreadPool.FirstInFirstOut | src/thread/thread_pool.c:36-101 | Over every run: the tasks that were neither pushed first nor run inline are started in the order in which they were pushed, none lost or doubled. |
| TaskList.List.PushFront | src/poller/poller_task.c:72-78 | The linked list gains the task in front. |
| TaskList.List.PushBack | src/poller/poller_task.c:79-86 | The linked list gains the task at its end. |
| TaskList.List.Pop | src/thread/thread_pool.c:36-45 | The first task leaves the list, or NULL when it is empty. |
| TaskList.List.Detach | src/poller/poller_task.c:37-42 | The whole list changes hands and an empty one is left. |
| TaskList.RunAll | src/poller/poller_task.c:44-50 | The detached tasks run in list order, each once. |
| HeapOrder.SwapUp | src/poller/poller_timer.c:45-54 | One round upwards moves the only wrong edge to the parent. |
| HeapOrder.SwapDown | src/poller/poller_timer.c:56-74 | One round downwards leaves only the edges below the moved timer unsettled. |
| HeapOrder.AnyDeadline | src/poller/poller_timer.c:150-158 | Overwriting one deadline spoils only the edges at its own slot. |
| HeapOrder.RootIsMin | src/poller/poller_timer.c:86-101 | The root of an ordered heap has the earliest deadline. |
| TimerHeap.Heap.Swap | src/poller/poller_timer.c:36-43 | Two timers change places and indices; every stored index still names its slot. |
| TimerHeap.Heap.BubbleUp | src/poller/poller_timer.c:45-54 | Restores the order above the slot. |
| TimerHeap.Heap.BubbleDown | src/poller/poller_timer.c:56-74 | Restores the order below the slot. |
| TimerHeap.Heap.Push | src/poller/poller_timer.c:76-84 | Adds exactly the timer; order and stored indices hold. |
| TimerHeap.Heap.PopMin | src/poller/poller_timer.c:86-101 | Removes exactly one timer with the earliest deadline, or returns NULL on the empty heap. |
| TimerHeap.Heap.Remove | src/poller/poller_timer.c:103-118 | Removes exactly the timer, wherever it is and even if its own deadline is out of order. |
| TimerHeap.Heap.InsertLocked | src/poller/poller_timer.c:150-158 | Rescheduling a linked or unlinked timer gives a valid heap with it under the new deadline. |
| TimerHeap.Heap.FlushOne | src/poller/poller_timer.c:181-200 | One round: the earliest due timer is dropped if flagged, else fired, and armed again exactly if asked and not flagged meanwhile. |
| FlushOrder.FireSettles | src/poller/poller_timer.c:180-196 | A round keeps: as far as no sum wraps, what has fired is in order, single and before all that is armed. |
| FlushOrder.FireStands | src/poller/poller_timer.c:180-196 | A round keeps: a timer whose sum has wrapped is due again or has already spoilt the order. |
| FlushOrder.FireRearms | src/poller/poller_timer.c:190-199 | A round keeps: what fired and is armed is due at now plus its last callback's answer, in 64 bits. |
| FlushOrder.OrderExact | src/poller/poller_timer.c:176-208 | When nothing due is left, a timer has fired twice exactly if a sum has wrapped, and a firing was out of order exactly if a sum has wrapped to before the deadline just served. |
| TimerHeap.Heap.Flush | src/poller/poller_timer.c:176-208 | At most 256 rounds; only due and unflagged timers fire; nothing due is left unless the bound was reached; a timer that fired is linked exactly if its last callback wants it and no flag forbids it, and due when that wants; the delay is that of the earliest timer left; once each and in order of deadline, with the exact conditions on wrapping sums. |
| TimerHeap.Heap.ResolveTimeout | src/poller/poller_timer.c:210-227 | After the flush the wait is the smaller of a non-negative request, or INT_MAX for an infinite one, and the time to the earliest deadline, and the request when that is 2^63 ms or more away. |
| TimerHeap.ResolvedExact | src/poller/poller_timer.c:220-226 | The wait stays within the earliest deadline exactly unless an infinite request meets one 2^63 ms or more away. |
| TimerHeap.RearmedLater | src/poller/poller_timer.c:195-196 | A timer armed again is due later than now exactly if the sum stays below 2^64. |
| TimerHeap.Heap.WrappedFiresTwice | src/poller/poller_timer.c:180-196 | A flush whose first answer makes the sum wrap fires its one timer more than once. |
| PollerTasks.WakeKeeps | src/poller/poller_epoll.c:202-261 | Every step keeps: queued tasks imply a byte in the pipe, a wake to come, or the poller on its way to the list. |
| PollerTasks.NeverSleepsOnTasks | src/poller/poller_task.c:72-88 | Over every run: a poller about to block or blocked with tasks queued has a non-empty pipe or a producer between list and wake; when blocked with a byte in the pipe it can return. |
| PollerTasks.WakeServes | src/poller/poller_epoll.c:202-261 | Over every run: after epoll_wait has returned with the wake descriptor, all tasks queued at that moment have been run before it is entered again. |
| PollerTasks.TurnServes | src/poller/poller_epoll.c:202-261 | A sleeping poller with a byte in its pipe, left to itself, runs the queued tasks in order, each once, and sleeps again with pipe and queue empty. |
| PollerTasks.WakeWrites | src/poller/poller_epoll.c:273-285 | A wake leaves a byte in the pipe, also when it is full. |
| PollerTasks.LineGrows | src/poller/poller_task.c:32-51 | A step adds at most the task it pushes, at the end of the line or, pushed in front, behind all detached ones; nothing else moves. |
| PollerTasks.FirstInFirstOut | src/poller/poller_task.c:32-88 | Over every run: run, detached and queued tasks together are the posted ones, each once; and but for those pushed in front they run in the order of posting. |
| PollerTasks.OrderKeeps | src/poller/poller_timer.c:261-267 | Every step keeps each insert task before the cancel tasks of its timer. |
| PollerTasks.CancelIsFinal | src/poller/poller_timer.c:272-305 | Over every run: once a posted cancel has run, its insert has run before and the timer is out of the heap for good. |
| PollerTasks.FlaggedIsSilent | src/poller/poller_timer.c:184-200 | Over every run: after the flag is set no callback of the timer starts. |
| PollerTasks.OwnCancelExact | src/poller/poller_timer.c:289-296 | After a cancel on the poller's own thread some run links the timer again if and only if an insert task for it was in the batch or in the queue. |
| PollerTasks.TimersExact | src/poller/poller_timer.c:176-208 | A due timer's callback starts exactly if its flag is not set, and the timer is linked again exactly if the callback asks and no flag was set meanwhile; an insert task links, a cancel task unlinks. |
| PollerTasks.DelayLinks | src/poller/poller_timer.c:229-262 | A delay from another thread posts its insert in front; on the poller's own thread the timer is linked at once. |
| OutQueue.Buf.Unref | src/util/buf.c:148-160 | One reference less; the memory is given back exactly on the way from 1 to 0. |
| OutQueue.Buf.TryRef | src/util/buf.c:117-146 | Succeeds exactly while the count is positive. |
| OutQueue.HeadShrunk | src/net/tcp_server.c:292-297 | A partly sent chunk stands for the rest of its bytes. |
| OutQueue.ChunkList.Append | src/net/tcp_server.c:223-228 | The chunk is linked at the end. |
| OutQueue.ChunkList.Pop | src/net/tcp_server.c:176-181 | The first chunk leaves the linked list. |
| OutQueue.ChunkList.Shrink | src/net/tcp_server.c:292-293 | The head chunk gives up its first bytes in place, the others stay. |
| TcpOut.Session.PopChunk | src/net/tcp_server.c:174-187 | The first chunk leaves with its reference; pending is exact and never saturates. |
| TcpOut.Session.Enqueue | src/net/tcp_server.c:219-232 | The rest of a buffer is queued with one more reference. |
| TcpOut.Session.AppendMem | src/net/tcp_server.c:234-253 | The copy is queued, and the one queued chunk is its only holder. |
| TcpOut.Session.AdvanceSent | src/net/tcp_server.c:275-299 | Exactly the bytes sent leave the front of the queue. |
| TcpOut.Session.Gather | src/net/tcp_server.c:301-331 | The gather write offers exactly the first sixteen chunks, a prefix of the queue. |
| TcpOut.Session.Flush | src/net/tcp_server.c:333-371 | The flush goes on until the queue is empty or the socket refuses, and no longer; each offer is a non-empty front part of the bytes then queued, and the stream is kept. |
| SendTrace.ProgressTakes | src/net/tcp_server.c:333-371 | What the socket took over the offers of a flush, followed by what is left, are the bytes that were queued. |
| TcpOut.Session.Send | src/net/tcp_server.c:681-710 | A send behind a queue joins it and flushes; one on an empty queue offers its data at once and queues and flushes what is not taken; an error is just the socket's own, other than ERR_AGAIN, on an empty queue, and adds nothing to the stream. |
| TcpOut.Session.SendV | src/net/tcp_server.c:712-773 | The same for the first sixteen parts in order, in one offer; an empty one among them is an error and nothing is offered. |
| TcpOut.Session.AppendUnsent | src/net/tcp_server.c:745-761 | After a partial gather write exactly the unsent bytes are queued. |
| TcpOut.Session.SendBuf | src/net/tcp_server.c:775-824 | The same for the buffer's bytes, with the caller's references untouched; an empty buffer offers nothing. |
| TcpOut.Session.Discard | src/net/tcp_server.c:836-843 | Every queued reference is given up and nothing more reaches the socket. |
| TcpOut.Session.ReleasedOnce | src/util/buf.c:148-160 | A buffer is released at most once, exactly when neither a holder nor a queued chunk is left. |
| TcpOut.Session.HolderTryRef | src/util/buf.c:117-146 | try_ref succeeds exactly while the buffer has not been released. |
| TcpOut.Session.Run | src/net/tcp_server.c:681-829 | Over any script of sends, discards and holders' references, on buffers the session need not have met, and any partial writes: references are conserved; and without a discard the bytes taken by the socket followed by the queued ones are the accepted payloads in call order. |
| RefCount.StepKeeps | src/util/buf.c:108-160 | Every interleaving of ref, try_ref and unref keeps the count equal to the references held. |
| RefCount.ReleasedOnce | src/util/buf.c:108-160 | Over every run the buffer is released at most once, at zero, and the count stays zero from then on. |
| RefCount.EveryRun | src/util/buf.c:108-160 | Over every run from a new buffer: the count is the number of references held, and the memory has been given back, once, exactly if none is held and no thread is about to. |
| RefCount.DeadStays | src/util/buf.c:117-146 | A compare-and-swap of try_ref that is in flight at zero gains no reference. |
| RefCount.HoldsExact | src/util/buf.c:108-160 | Each call moves just its own reference, and the unref that takes the count to zero is the one that gives the memory back. |
| RefCount.TryRefExact | src/util/buf.c:117-146 | An undisturbed try_ref gains a reference exactly if the count is positive, a disturbed one exactly if it finds the count it has read. |
| BufPool.BucketForSize | src/util/buf.c:233-246 | The smallest bucket that fits, none above 2 MiB. |
| BufPool.BucketOfCap | src/util/buf.c:248-258 | The bucket of exactly this capacity. |
| BufPool.Pool.constructor | src/util/buf.c:316-338 | An empty pool. |
| BufPool.Pool.Acquire | src/util/buf.c:366-410 | The block fits, its stated capacity is the true one, it is now the caller's alone, and it comes from the free list exactly when that is not empty. |
| BufPool.Pool.CreateBuf | src/util/buf.c:59-84 | The memory obtained has room for header and request if and only if their size_t sum does not wrap, and for header and stated capacity if and only if a block came from the pool, which is unless the sum wraps to zero; a block's true capacity is remembered. |
| BufPool.CreateMalloc | src/util/buf.c:43-57 | The fallback states the capacity asked for, and has room for it if and only if the size_t sum does not wrap. |
| BufPool.Pool.ReleaseNow | src/util/buf.c:274-301 | The block goes to the free list of its capacity if there is room, and is freed otherwise. |
| BufPool.Pool.ReleaseBlock | src/util/buf.c:412-438 | A release by another thread than the owner's is deferred, else done at once. |
| BufPool.Pool.RunDeferred | src/util/buf.c:303-314 | A deferred release takes effect once, where a direct one would have. |
| BufPool.Pool.ResetStats | src/util/buf.c:454-462 | Only the statistics start over. |
| BufPool.Pool.OnePlace | src/util/buf.c:274-314 | A block is in one free list at most, of its own capacity, and in none while its release is deferred. |

## Left out

- System calls, AFD, the completion port, the keyed event, pipes, clocks and thread creation are nondeterministic results or steps; a wake write succeeds or sees a full pipe.
- Allocation failure: several paths drop data or a timer on it; allocation succeeds here.
- A zero return of `send` on non-empty data, which `ztk_tcp_session_send` would report as success; a socket takes at least one byte or fails.
- The Windows keyed event is a rendezvous of signaller and waiter, as its documentation says; the abort on its failure is not modelled.
- The runs are over a port as a value, which `WepollMachine` proves its object to be; the map from identities to records stands for the memory that malloc gave, the owner of a node for `container_of`. The poll-group queue is a sequence, also in `WepollMachine`.
- The packets of one GetQueuedCompletionStatusEx call are chosen when the lock is taken again; they are any distinct owed completions with any content.
- The rest of `port_wait`: the stack or heap array of packets, the arithmetic of the time-out and the error codes; `expired` stands for the test of the clock.
- The assert that the completion-port handle is not NULL while a group is created during a concurrent close.
- The protocols with several threads (`Mpsc`, `ThreadPool`, `Reflock`, `PollerTasks`, `RefCount`) are state machines over values with sequentially consistent atomics; the order of plain memory accesses between them is not modelled.
- Positions of the MPSC queue are unbounded: their wrap past 2^63 is not modelled. Payloads are not NULL.
- A failing semaphore wait, calls of start and fini that overlap, a pool finished by one of its own workers, `ztk_thread_pool_destroy`, and thread ids that the system gives out again while a pool remembers them.
- Callbacks of timers do not call the timer API again and do not close sessions; the lifetime of timer handles that were cancelled or fired is not modelled.
- The timer heap in `PollerTasks` is the set of linked timers; `TimerHeap` is the array behind it.
- The high-water callback of the outgoing queue, and chunks of kind ZTK_TCP_OUT_MEM, which no code creates.
- The bytes of a buffer do not change while it is queued; a caller that rewrites them changes what is sent.
- Miss, drop and oversize statistics, `ztk_buf_pool_destroy`, and a deferred release whose post fails.
- `try_ref` on a block that the pool has recycled, whose free-list link overlays the count: the claim is for one lifetime.
- Order of TLS writes, least-loaded choice of a poller, the select, stub and wepoll pollers, UDP and TCP clients, logging, load figures, byte buffers and port allocation.
