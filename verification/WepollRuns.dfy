/** Runs of an epoll port. Between two of these steps the port lock is free; whoever is inside
    GetQueuedCompletionStatusEx then is counted by activePolls. */
module WepollRuns {
  import opened EpollEvents
  import opened PollGroups
  import opened WepollPort

  const INVALID_SOCKET: nat := 0xFFFF_FFFF_FFFF_FFFF

  function Empty(): Port {
    Port(map[], map[], [], [], [], 0, map[], {})
  }

  // ---- the control operations ----

  /** sock_new with a duplicate key: the poll group that was acquired is released again. */
  function GroupReturned(p: Port, spare: GroupId): Port {
    p.(groups := Release(Acquire(p.groups, spare), Acquired(p.groups, spare)))
  }

  /** sock_new with a new key. */
  function Registered(p: Port, key: nat, id: SockId, spare: GroupId): Port {
    p.(socks := p.socks[id := Sock(key, Acquired(p.groups, spare), Idle, 0, 0, 0, false)],
       tree := p.tree[key := id], groups := Acquire(p.groups, spare))
  }

  predicate Fresh(p: Port, id: SockId, spare: GroupId) {
    id !in p.socks && id !in p.freed && !Listed(p.groups, spare)
  }

  /** The socket joins, before update_events_if_polling. */
  function Joined(p: Port, key: nat, events: bv32, data: nat, id: SockId, spare: GroupId): Port {
    SetEvent(Registered(p, key, id, spare), id, events, data)
  }

  lemma SpareKeeps(p: Port, id: SockId, spare: GroupId)
    requires Inv(p) && Fresh(p, id, spare)
    ensures Inv(GroupReturned(p, spare))
    ensures GroupReturned(p, spare).updateQueue == p.updateQueue
  {
    hide Unique, GroupsOk, SizesOk, FullFirst, Covers, Acquire, Release, Acquired;
    var g, m := Acquired(p.groups, spare), GroupOf(p.socks);
    AcquireKeeps(p.groups, m, id, spare);
    ReleaseKeeps(Acquire(p.groups, spare), m[id := g], id);
    assert m[id := g] - {id} == m;
    var p' := GroupReturned(p, spare);
    forall other | other in p'.socks ensures SockOk(p', other) {
      assert SockOk(p, other);
    }
  }

  lemma RegisteredKeeps(p: Port, key: nat, id: SockId, spare: GroupId)
    requires Inv(p) && Fresh(p, id, spare) && key !in p.tree
    ensures var p' := Registered(p, key, id, spare);
      InvBut(p', id) && id in p'.socks && p'.socks[id] == Sock(key, Acquired(p.groups, spare), Idle, 0, 0, 0, false)
  {
    hide Unique, GroupsOk, GroupOf, Covers, AfdCovers, Acquire, Acquired, SockOk;
    RegisteredGroups(p, key, id, spare);
    var p' := Registered(p, key, id, spare);
    forall other | other in p'.socks && other != id ensures SockOk(p', other) {
      assert SockOk(p, other);
      AlikeOk(p, p', other);
    }
  }

  lemma RegisteredGroups(p: Port, key: nat, id: SockId, spare: GroupId)
    requires GroupsOk(p.groups, GroupOf(p.socks)) && Fresh(p, id, spare)
    ensures GroupsOk(Registered(p, key, id, spare).groups, GroupOf(Registered(p, key, id, spare).socks))
  {
    hide GroupsOk, Acquire, Acquired;
    AcquireKeeps(p.groups, GroupOf(p.socks), id, spare);
    assert GroupOf(Registered(p, key, id, spare).socks) == GroupOf(p.socks)[id := Acquired(p.groups, spare)];
  }

  /** sock_set_event takes one of two ways. */
  lemma SetEventWays(p: Port, id: SockId, events: bv32, data: nat)
    requires id in p.socks
    ensures var e := events | EPOLLERR | EPOLLHUP; var s := p.socks[id].(userEvents := e, userData := data);
      SetEvent(p, id, events, data) == if Covers(s.pendingEvents, e) then Update(p, id, s) else Request(Update(p, id, s), id)
  {
    hide Covers;
  }

  /** A poll that covers every event of a MOD is pending; otherwise the socket asks for an update. */
  lemma SetEventKeeps(p: Port, id: SockId, events: bv32, data: nat)
    requires InvBut(p, id) && id in p.socks && !p.socks[id].deletePending
    ensures Inv(SetEvent(p, id, events, data))
  {
    var e := events | EPOLLERR | EPOLLHUP;
    var s := p.socks[id].(userEvents := e, userData := data);
    hide *;
    SetEventWays(p, id, events, data);
    UserKeeps(p, id, s);
    if Covers(s.pendingEvents, e) {
      CoveredIsPending(p, id, events);
      WholeIfWatched(Update(p, id, s), id);
    } else {
      RequestKeeps(Update(p, id, s), id);
    }
  }

  lemma CoveredIsPending(p: Port, id: SockId, events: bv32)
    requires InvBut(p, id) && id in p.socks && Covers(p.socks[id].pendingEvents, events | EPOLLERR | EPOLLHUP)
    ensures p.socks[id].status.Pending?
  {
    AlwaysAsksForErrors(events);
  }

  lemma WholeIfWatched(p: Port, id: SockId)
    requires InvBut(p, id) && id in p.socks && !p.socks[id].deletePending
    requires p.socks[id].status.Pending? && Covers(p.socks[id].pendingEvents, p.socks[id].userEvents)
    ensures Inv(p)
  {
    hide Covers, AfdCovers, ToAfd;
    CoversAfd(p.socks[id].pendingEvents, p.socks[id].userEvents);
    assert SockOk(p, id);
  }

  lemma PollsKeeps(p: Port, n: nat)
    requires Inv(p)
    ensures Inv(p.(activePolls := n))
  {
    hide Unique, GroupsOk, GroupOf, Covers;
    forall id | id in p.socks ensures SockOk(p.(activePolls := n), id) {
      assert SockOk(p, id);
    }
  }

  lemma IfPollingKeeps(p: Port, afd: SockId -> Afd)
    requires Inv(p)
    ensures var p' := UpdateIfPolling(p, afd); Inv(p') && p'.activePolls == p.activePolls
  {
    hide Inv, UpdateEvents;
    UpdateEventsKeeps(p, afd);
  }

  datatype Refusal = NoRefusal | InvalidHandle | NoBaseSocket | AlreadyExists | NotFound

  datatype Outcome = Outcome(port: Port, refusal: Refusal)

  /** port__ctl_add with sock_new: the outcome before update_events_if_polling. */
  function CtlAdd(p: Port, key: nat, events: bv32, data: nat, based: bool, id: SockId, spare: GroupId): Outcome {
    if key == 0 || key == INVALID_SOCKET then Outcome(p, InvalidHandle)
    else if !based then Outcome(p, NoBaseSocket)
    else if key in p.tree then Outcome(GroupReturned(p, spare), AlreadyExists)
    else Outcome(Joined(p, key, events, data, id, spare), NoRefusal)
  }

  /** port__ctl_mod, before update_events_if_polling. */
  function CtlMod(p: Port, key: nat, events: bv32, data: nat): Outcome
    requires key in p.tree ==> p.tree[key] in p.socks
  {
    if key !in p.tree then Outcome(p, NotFound) else Outcome(SetEvent(p, p.tree[key], events, data), NoRefusal)
  }

  /** port__ctl_del. */
  function CtlDel(p: Port, key: nat, cancel: Afd): Outcome
    requires key in p.tree ==> p.tree[key] in p.socks
  {
    if key !in p.tree then Outcome(p, NotFound) else Outcome(Delete(p, p.tree[key], false, cancel), NoRefusal)
  }

  lemma CtlAddKeeps(p: Port, key: nat, events: bv32, data: nat, based: bool, id: SockId, spare: GroupId)
    requires Inv(p) && Fresh(p, id, spare)
    ensures var o := CtlAdd(p, key, events, data, based, id, spare);
      Inv(o.port) && (!o.refusal.NoRefusal? ==> o.port.updateQueue == p.updateQueue) && o.port.activePolls == p.activePolls
  {
    hide Inv, InvBut, Fresh, Acquire, Acquired, Release, SetEvent;
    SpareKeeps(p, id, spare);
    if key !in p.tree {
      RegisteredKeeps(p, key, id, spare);
      SetEventKeeps(Registered(p, key, id, spare), id, events, data);
      SetEventPolls(Registered(p, key, id, spare), id, events, data);
    }
  }

  /** EPOLL_CTL_ADD registers the socket with its events and data exactly when the handle is usable and new;
      otherwise no registration changes. */
  lemma CtlAddExact(p: Port, key: nat, events: bv32, data: nat, based: bool, id: SockId, spare: GroupId)
    requires Fresh(p, id, spare)
    ensures var o := CtlAdd(p, key, events, data, based, id, spare); var p' := o.port;
      && (o.refusal.NoRefusal? <==> key != 0 && key != INVALID_SOCKET && based && key !in p.tree)
      && (o.refusal.InvalidHandle? <==> key == 0 || key == INVALID_SOCKET)
      && (o.refusal.AlreadyExists? <==> key != 0 && key != INVALID_SOCKET && based && key in p.tree)
      && !o.refusal.NotFound?
      && (!o.refusal.NoRefusal? ==> p'.tree == p.tree && p'.socks == p.socks)
      && (o.refusal.NoRefusal? ==>
            && p'.tree == p.tree[key := id] && p'.socks.Keys == p.socks.Keys + {id} && p'.socks - {id} == p.socks
            && p'.socks[id].key == key && p'.socks[id].userData == data && p'.socks[id].userEvents == events | EPOLLERR | EPOLLHUP)
  {
    hide Covers, Enqueue, Acquire, Acquired, Release;
    if key !in p.tree {
      SetEventWays(Registered(p, key, id, spare), id, events, data);
    }
  }

  /** EPOLL_CTL_MOD changes the events and data of the registered socket and nothing else of any record. */
  lemma CtlModExact(p: Port, key: nat, events: bv32, data: nat)
    requires key in p.tree ==> p.tree[key] in p.socks
    ensures var o := CtlMod(p, key, events, data); var p' := o.port;
      && (if key in p.tree then o.refusal.NoRefusal? else o.refusal.NotFound?) && p'.tree == p.tree
      && (key in p.tree ==> p'.socks == p.socks[p.tree[key] :=
            p.socks[p.tree[key]].(userEvents := events | EPOLLERR | EPOLLHUP, userData := data)])
  {
    hide Covers, Enqueue;
    if key in p.tree {
      SetEventWays(p, p.tree[key], events, data);
    }
  }

  /** EPOLL_CTL_DEL takes exactly the key out of the table; the record lives on only while its poll is owed. */
  lemma CtlDelExact(p: Port, key: nat, cancel: Afd)
    requires Inv(p)
    ensures key in p.tree ==> p.tree[key] in p.socks
    ensures var o := CtlDel(p, key, cancel); var p' := o.port;
      && (if key in p.tree then o.refusal.NoRefusal? else o.refusal.NotFound?) && p'.tree == p.tree - {key}
      && (key in p.tree ==> (p.tree[key] in p'.socks <==> p.tree[key] in p.owed))
      && forall other :: other in p.socks && (key in p.tree ==> other != p.tree[key]) ==>
           other in p'.socks && p'.socks[other] == p.socks[other]
  {
    hide Covers, Enqueue, Without, Release, Unique, GroupsOk, GroupOf;
    if key in p.tree {
      assert SockOk(p, p.tree[key]);
    }
  }

  /** EPOLL_CTL_DEL tells AFD to give a pending poll back, and marks it so unless AFD refuses. */
  lemma CtlDelCancels(p: Port, key: nat, cancel: Afd)
    requires Inv(p) && key in p.tree && p.tree[key] in p.owed
    ensures p.tree[key] in p.socks
    ensures var id := p.tree[key]; var p' := CtlDel(p, key, cancel).port;
      && id in p'.socks && p'.socks[id].deletePending && id in p'.owed
      && (p.socks[id].status.Pending? && cancel.Failed? ==> p'.socks[id].status.Pending? && p'.owed == p.owed)
      && (!(p.socks[id].status.Pending? && cancel.Failed?) ==>
            p'.socks[id].status.Cancelled? && p'.owed == p.owed[id := p.owed[id].(cancelled := true)])
  {
    hide Covers, AfdCovers, ToAfd, Enqueue, Without, Release, Unique, GroupsOk, GroupOf;
    assert SockOk(p, p.tree[key]);
    assert p.owed[p.tree[key]].cancelled ==> p.owed[p.tree[key] := p.owed[p.tree[key]].(cancelled := true)] == p.owed;
  }

  lemma SetEventPolls(p: Port, id: SockId, events: bv32, data: nat)
    requires id in p.socks
    ensures SetEvent(p, id, events, data).activePolls == p.activePolls
  {
  }

  lemma KeyFound(p: Port, key: nat)
    requires Inv(p) && key in p.tree
    ensures p.tree[key] in p.socks && !p.socks[p.tree[key]].deletePending
  {
  }

  lemma CtlModKeeps(p: Port, key: nat, events: bv32, data: nat)
    requires Inv(p)
    ensures key in p.tree ==> p.tree[key] in p.socks
    ensures var o := CtlMod(p, key, events, data);
      Inv(o.port) && (!o.refusal.NoRefusal? ==> o.port == p) && o.port.activePolls == p.activePolls
  {
    hide Inv, InvBut, SetEvent;
    if key in p.tree {
      KeyFound(p, key);
      WholeBut(p, p.tree[key]);
      SetEventKeeps(p, p.tree[key], events, data);
      SetEventPolls(p, p.tree[key], events, data);
    }
  }

  lemma CtlDelKeeps(p: Port, key: nat, cancel: Afd)
    requires Inv(p)
    ensures key in p.tree ==> p.tree[key] in p.socks
    ensures var o := CtlDel(p, key, cancel);
      && Inv(o.port) && (!o.refusal.NoRefusal? ==> o.port == p) && o.port.activePolls == p.activePolls
      && (p.updateQueue == [] ==> o.port.updateQueue == [])
  {
    hide Inv, InvBut, Delete;
    if key in p.tree {
      KeyFound(p, key);
      WholeBut(p, p.tree[key]);
      DeleteKeeps(p, p.tree[key], cancel);
    }
  }

  // ---- waiting ----

  /** The start of port__poll; when the update fails port_wait leaves. */
  function WaitBegun(p: Port, afd: SockId -> Afd, retry: SockId -> Afd): Port
    requires Inv(p)
  {
    var u := UpdateEvents(p, afd);
    UpdateEventsKeeps(p, afd);
    if u.ok then u.port.(activePolls := u.port.activePolls + 1) else UpdateIfPolling(u.port, retry)
  }

  lemma WaitBegunKeeps(p: Port, afd: SockId -> Afd, retry: SockId -> Afd)
    requires Inv(p)
    ensures Inv(WaitBegun(p, afd, retry))
  {
    hide Inv, UpdateEvents, UpdateIfPolling;
    UpdateEventsKeeps(p, afd);
    var u := UpdateEvents(p, afd);
    PollsKeeps(u.port, u.port.activePolls + 1);
    IfPollingKeeps(u.port, retry);
  }

  /** What GetQueuedCompletionStatusEx brought. */
  datatype Dequeued = NothingCame | Came(packets: seq<Packet>)

  predicate Deliverable(p: Port, got: Dequeued) {
    p.activePolls > 0 && (got.Came? ==> OwedPackets(p.owed, got.packets))
  }

  /** The end of port__poll: the packets are fed. */
  function Taken(p: Port, got: Dequeued): Fed
    requires Inv(p) && Deliverable(p, got)
  {
    var p1 := p.(activePolls := p.activePolls - 1);
    PollsKeeps(p, p.activePolls - 1);
    match got
    case NothingCame => Fed(p1, [])
    case Came(packets) => FeedEvents(p1, packets)
  }

  lemma TakenKeeps(p: Port, got: Dequeued)
    requires Inv(p) && Deliverable(p, got)
    ensures Inv(Taken(p, got).port) && Taken(p, got).port.activePolls == p.activePolls - 1
  {
    hide Inv, FeedEvents, OwedPackets;
    PollsKeeps(p, p.activePolls - 1);
    if got.Came? {
      FeedEventsKeeps(p.(activePolls := p.activePolls - 1), got.packets);
    }
  }

  /** port_wait goes round again when packets came, none of them is worth reporting and time is left. */
  predicate GoesRound(got: Dequeued, reports: seq<Report>, expired: bool) {
    got.Came? && reports == [] && !expired
  }

  // ---- steps ----

  datatype Step =
    | Add(key: nat, events: bv32, data: nat, based: bool, id: SockId, spare: GroupId, afd: SockId -> Afd)
    | Mod(key: nat, events: bv32, data: nat, afd: SockId -> Afd)
    | Del(key: nat, cancel: Afd)
    | WaitBegin(afd: SockId -> Afd, retry: SockId -> Afd)
    | WaitEnd(got: Dequeued, expired: bool, afd: SockId -> Afd, retry: SockId -> Afd)

  predicate Enabled(p: Port, step: Step) {
    match step
    case Add(_, _, _, _, id, spare, _) => Fresh(p, id, spare)
    case WaitEnd(got, _, _, _) => Deliverable(p, got)
    case _ => true
  }

  /** One critical section: the change of state, then its update pass. */
  function Apply(p: Port, step: Step): Port
    requires Inv(p) && Enabled(p, step)
  {
    match step
    case Add(key, events, data, based, id, spare, afd) =>
      CtlAddKeeps(p, key, events, data, based, id, spare);
      var o := CtlAdd(p, key, events, data, based, id, spare);
      if o.refusal.NoRefusal? then UpdateIfPolling(o.port, afd) else o.port
    case Mod(key, events, data, afd) =>
      CtlModKeeps(p, key, events, data);
      var o := CtlMod(p, key, events, data);
      if o.refusal.NoRefusal? then UpdateIfPolling(o.port, afd) else o.port
    case Del(key, cancel) =>
      CtlDelKeeps(p, key, cancel);
      CtlDel(p, key, cancel).port
    case WaitBegin(afd, retry) => WaitBegun(p, afd, retry)
    case WaitEnd(got, expired, afd, retry) =>
      TakenKeeps(p, got);
      var f := Taken(p, got);
      if GoesRound(got, f.reports, expired) then WaitBegun(f.port, afd, retry) else UpdateIfPolling(f.port, afd)
  }

  /** A wait goes on exactly if packets came, none of them is worth reporting, time is left and the next pass
      succeeds: the thread stays counted among the waiting ones then, and else leaves them. */
  lemma WaitGoesOn(p: Port, got: Dequeued, expired: bool, afd: SockId -> Afd, retry: SockId -> Afd)
    requires Inv(p) && Deliverable(p, got)
    ensures Inv(Taken(p, got).port)
    ensures var f, p' := Taken(p, got), Apply(p, WaitEnd(got, expired, afd, retry));
      p'.activePolls ==
      if got.Came? && f.reports == [] && !expired && UpdateEvents(f.port, afd).ok then p.activePolls else p.activePolls - 1
  {
    hide Inv, Taken, UpdateEvents, Deliverable;
    DeliverableHere(p, got);
    TakenKeeps(p, got);
    var p1 := Taken(p, got).port;
    UpdateEventsKeeps(p1, afd);
    IfPollingKeeps(p1, afd);
    IfPollingKeeps(UpdateEvents(p1, afd).port, retry);
  }

  lemma DeliverableHere(p: Port, got: Dequeued)
    requires Deliverable(p, got)
    ensures p.activePolls > 0
  {
  }

  lemma ApplyKeeps(p: Port, step: Step)
    requires Inv(p) && Enabled(p, step)
    ensures Inv(Apply(p, step))
  {
    hide Inv, CtlAdd, CtlMod, CtlDel, UpdateIfPolling, WaitBegun, Taken, Deliverable, Fresh, GoesRound;
    match step
    case Add(key, events, data, based, id, spare, afd) =>
      CtlAddKeeps(p, key, events, data, based, id, spare);
      IfPollingKeeps(CtlAdd(p, key, events, data, based, id, spare).port, afd);
    case Mod(key, events, data, afd) =>
      CtlModKeeps(p, key, events, data);
      IfPollingKeeps(CtlMod(p, key, events, data).port, afd);
    case Del(key, cancel) => CtlDelKeeps(p, key, cancel);
    case WaitBegin(afd, retry) => WaitBegunKeeps(p, afd, retry);
    case WaitEnd(got, expired, afd, retry) =>
      TakenKeeps(p, got);
      WaitBegunKeeps(Taken(p, got).port, afd, retry);
      IfPollingKeeps(Taken(p, got).port, afd);
  }
}
