/** The epoll port of wepoll.c as a value: its socket table, its queues and its poll groups, with one
    function per C function. Everything the port lock protects changes in one critical section, so a
    run of many threads is a sequence of the critical sections in module WepollRuns. */
module WepollPort {
  import opened EpollEvents
  import opened PollGroups

  type SockId = nat

  datatype Status = Idle | Pending | Cancelled

  datatype Sock = Sock(
    key: nat, group: GroupId, status: Status,
    userEvents: bv32, userData: nat, pendingEvents: bv32, deletePending: bool)

  /** A request that AFD has taken: the AFD events it was submitted with, and whether its cancellation was asked
      for since. */
  datatype Poll = Poll(mask: bv32, cancelled: bool)

  /** `owed` is AFD's side: the polls of the sockets whose completion packet has been neither fed nor given up.
      `freed` is history. */
  datatype Port = Port(
    socks: map<SockId, Sock>,
    tree: map<nat, SockId>,
    updateQueue: seq<SockId>,
    deletedQueue: seq<SockId>,
    groups: seq<Group>,
    activePolls: nat,
    owed: map<SockId, Poll>,
    freed: set<SockId>)

  /** What AFD answers: to a poll submission any of the three, to a cancellation only whether it failed. */
  datatype Afd = Accepted | SocketClosed | Failed

  /** What a completion packet says. */
  datatype Completion = WasCancelled | RequestFailed | NoHandles | Reported(afdEvents: bv32)

  /** What epoll_wait hands out; `id` is history. */
  datatype Report = Report(id: SockId, data: nat, events: bv32)

  function Without<T(==)>(q: seq<T>, x: T): seq<T> {
    if q == [] then []
    else if q[0] == x then q[1..]
    else [q[0]] + Without(q[1..], x)
  }

  /** queue_append behind a queue_is_enqueued test. */
  function Enqueue<T(==)>(q: seq<T>, x: T): seq<T> {
    if x in q then q else q + [x]
  }

  /** afd_poll and afd_cancel_poll, where AFD agrees. */
  function Submit(p: Port, id: SockId, mask: bv32): Port {
    p.(owed := p.owed[id := Poll(mask, false)])
  }

  function AskCancel(p: Port, id: SockId): Port {
    if id in p.owed then p.(owed := p.owed[id := p.owed[id].(cancelled := true)]) else p
  }

  function Update(p: Port, id: SockId, s: Sock): Port {
    p.(socks := p.socks[id := s])
  }

  /** sock__delete. */
  function Delete(p: Port, id: SockId, force: bool, cancel: Afd): Port
    requires id in p.socks
  {
    var p1 := if p.socks[id].deletePending then p else Unregister(p, id, cancel);
    if force || p1.socks[id].status.Idle? then Free(p1, id)
    else p1.(deletedQueue := Enqueue(p1.deletedQueue, id))
  }

  /** sock__cancel_poll, when it succeeds. */
  function CancelPoll(p: Port, id: SockId): Port
    requires id in p.socks
  {
    Update(AskCancel(p, id), id, p.socks[id].(status := Cancelled, pendingEvents := 0))
  }

  function Unregister(p: Port, id: SockId, cancel: Afd): Port
    requires id in p.socks
  {
    var p1 := if p.socks[id].status.Pending? && !cancel.Failed? then CancelPoll(p, id) else p;
    var s := p1.socks[id].(deletePending := true);
    Update(p1, id, s).(updateQueue := Without(p.updateQueue, id), tree := p.tree - {s.key})
  }

  function Free(p: Port, id: SockId): Port
    requires id in p.socks
  {
    p.(deletedQueue := Without(p.deletedQueue, id), groups := Release(p.groups, p.socks[id].group),
       socks := p.socks - {id}, freed := p.freed + {id})
  }

  /** sock_set_event. */
  function SetEvent(p: Port, id: SockId, events: bv32, data: nat): Port
    requires id in p.socks
  {
    var e := events | EPOLLERR | EPOLLHUP;
    var s := p.socks[id];
    var p1 := Update(p, id, s.(userEvents := e, userData := data));
    if Covers(s.pendingEvents, e) then p1 else Request(p1, id)
  }

  datatype Updated = Updated(port: Port, ok: bool)

  /** sock_update. */
  function SockUpdate(p: Port, id: SockId, afd: Afd): Updated
    requires id in p.socks
  {
    var s := p.socks[id];
    var dequeued := p.(updateQueue := Without(p.updateQueue, id));
    match s.status
    case Pending =>
      if Covers(s.pendingEvents, s.userEvents) then Updated(dequeued, true)
      else if !afd.Failed? then Updated(CancelPoll(dequeued, id), true)
      else Updated(p, false)
    case Cancelled => Updated(dequeued, true)
    case Idle =>
      match afd
      case Accepted =>
        Updated(Update(Submit(dequeued, id, ToAfd(s.userEvents)), id, s.(status := Pending, pendingEvents := s.userEvents)), true)
      case SocketClosed => Updated(Delete(p, id, false, afd), true)
      case Failed => Updated(p, false)
  }

  datatype Fed = Fed(port: Port, reports: seq<Report>)

  /** The first half of sock_feed_event: AFD has delivered what it owed. */
  function Completed(p: Port, id: SockId): Port
    requires id in p.socks
  {
    Update(p, id, p.socks[id].(status := Idle, pendingEvents := 0)).(owed := p.owed - {id})
  }

  /** port_request_socket_update. */
  function Request(p: Port, id: SockId): Port {
    p.(updateQueue := Enqueue(p.updateQueue, id))
  }

  /** The events that a completion stands for, before the user's mask. */
  function Found(c: Completion): bv32 {
    match c
    case WasCancelled => 0
    case RequestFailed => EPOLLERR
    case NoHandles => 0
    case Reported(afdEvents) => ToEpoll(afdEvents)
  }

  predicate LocallyClosed(c: Completion) {
    c.Reported? && c.afdEvents & AFD_LOCAL_CLOSE != 0
  }

  /** The events to report. */
  function Wanted(c: Completion, userEvents: bv32): bv32 {
    Found(c) & userEvents
  }

  predicate OneShot(userEvents: bv32) {
    userEvents & EPOLLONESHOT != 0
  }

  /** sock_feed_event. */
  function FeedEvent(p: Port, id: SockId, c: Completion): Fed
    requires id in p.socks
  {
    var p1 := Completed(p, id);
    var s := p1.socks[id];
    if s.deletePending || LocallyClosed(c) then Fed(Delete(p1, id, false, Accepted), [])
    else
      var events := Wanted(c, s.userEvents);
      if events == 0 then Fed(Request(p1, id), [])
      else
        var s' := if OneShot(s.userEvents) then s.(userEvents := 0) else s;
        Fed(Update(Request(p1, id), id, s'), [Report(id, s.userData, events)])
  }

  datatype Packet = Packet(id: SockId, completion: Completion)

  // ---- the invariant ----

  predicate Unique<T(==)>(q: seq<T>) {
    forall i, j :: 0 <= i < j < |q| ==> q[i] != q[j]
  }

  /** AFD watches the socket for everything its user asks for, or has been told to give it back. */
  predicate Watched(p: Port, id: SockId)
    requires id in p.socks
  {
    id in p.owed && (p.owed[id].cancelled || AfdCovers(p.owed[id].mask, p.socks[id].userEvents))
  }

  /** The record says of its poll what AFD was asked. */
  predicate PollOk(s: Sock, poll: Poll) {
    match s.status
    case Idle => false
    case Pending => poll == Poll(ToAfd(s.pendingEvents), false)
    case Cancelled => poll.cancelled
  }

  /** The socket's fields agree with the table, the two queues and AFD. */
  predicate SockLinks(p: Port, id: SockId)
    requires id in p.socks
  {
    var s := p.socks[id];
    && (id in p.owed <==> !s.status.Idle?)
    && (id in p.owed ==> PollOk(s, p.owed[id]))
    && (!s.status.Pending? ==> s.pendingEvents == 0)
    && (s.deletePending <==> id in p.deletedQueue)
    && (s.deletePending ==> id !in p.updateQueue)
    && (!s.deletePending ==> s.key in p.tree && p.tree[s.key] == id)
  }

  predicate SockOk(p: Port, id: SockId)
    requires id in p.socks
  {
    && SockLinks(p, id)
    && (if p.socks[id].deletePending then !p.socks[id].status.Idle? else id in p.updateQueue || Watched(p, id))
  }

  ghost predicate TablesOk(p: Port) {
    && (forall k :: k in p.tree ==> p.tree[k] in p.socks && p.socks[p.tree[k]].key == k && !p.socks[p.tree[k]].deletePending)
    && (forall id :: id in p.updateQueue ==> id in p.socks)
    && (forall id :: id in p.deletedQueue ==> id in p.socks)
    && Unique(p.updateQueue) && Unique(p.deletedQueue)
    && p.owed.Keys <= p.socks.Keys && p.socks.Keys !! p.freed
    && GroupsOk(p.groups, GroupOf(p.socks))
  }

  /** What holds whenever the port lock is free. */
  ghost predicate Inv(p: Port) {
    TablesOk(p) && forall id :: id in p.socks ==> SockOk(p, id)
  }

  /** The invariant in the middle of an operation on one socket. */
  ghost predicate InvBut(p: Port, id: SockId) {
    && TablesOk(p)
    && id in p.socks && SockLinks(p, id)
    && forall other :: other in p.socks && other != id ==> SockOk(p, other)
  }

  function GroupOf(socks: map<SockId, Sock>): map<SockId, GroupId> {
    map id | id in socks :: socks[id].group
  }

  lemma {:induction false} WithoutIs<T>(q: seq<T>, x: T)
    requires Unique(q)
    ensures Unique(Without(q, x))
    ensures forall y :: y in Without(q, x) <==> y in q && y != x
    ensures |Without(q, x)| == |q| - (if x in q then 1 else 0)
  {
    if q != [] {
      assert forall y :: y in q <==> y == q[0] || y in q[1..];
      assert forall j :: 1 <= j < |q| ==> q[1..][j - 1] == q[j] && q[j] != q[0];
      if q[0] != x {
        WithoutIs(q[1..], x);
        var r := Without(q[1..], x);
        assert Without(q, x) == [q[0]] + r;
        assert forall y :: y in [q[0]] + r <==> y == q[0] || y in r;
        assert q[0] !in q[1..];
        assert forall i :: 0 <= i < |r| ==> r[i] in r;
      }
    }
  }

  /** queue_remove of the node at `k` leaves what the linked queue keeps. */
  lemma {:induction false} WithoutAt<T>(q: seq<T>, k: nat)
    requires Unique(q) && k < |q|
    ensures Without(q, q[k]) == q[..k] + q[k + 1..]
  {
    if k > 0 {
      assert forall i :: 0 <= i < |q| - 1 ==> q[1..][i] == q[i + 1];
      WithoutAt(q[1..], k - 1);
      assert q[..k] == [q[0]] + q[1..][..k - 1];
    }
  }

  lemma EnqueueIs<T>(q: seq<T>, x: T)
    requires Unique(q)
    ensures Unique(Enqueue(q, x)) && forall y :: y in Enqueue(q, x) <==> y in q || y == x
  {
    assert forall y :: y in q + [x] <==> y in q || y == x;
    assert x !in q ==> forall i :: 0 <= i < |q| ==> q[i] != x;
  }

  /** The table has the socket under this key. */
  predicate At(p: Port, key: nat, id: SockId) {
    key in p.tree && p.tree[key] == id
  }

  /** The operation has left this socket alone. */
  predicate Alike(p: Port, p': Port, other: SockId) {
    && other in p.socks && other in p'.socks && p'.socks[other] == p.socks[other]
    && (other in p'.updateQueue <==> other in p.updateQueue) && (other in p'.deletedQueue <==> other in p.deletedQueue)
    && (other in p'.owed <==> other in p.owed) && (other in p.owed ==> p'.owed[other] == p.owed[other])
    && (!p.socks[other].deletePending && At(p, p.socks[other].key, other) ==> At(p', p.socks[other].key, other))
  }

  lemma AlikeOk(p: Port, p': Port, other: SockId)
    requires Alike(p, p', other) && SockOk(p, other)
    ensures SockOk(p', other)
  {
    hide Covers;
  }

  lemma GroupOfUpdate(socks: map<SockId, Sock>, id: SockId, s: Sock)
    requires id in socks && s.group == socks[id].group
    ensures GroupOf(socks[id := s]) == GroupOf(socks)
  {
  }

  lemma GroupOfFree(socks: map<SockId, Sock>, id: SockId)
    requires id in socks
    ensures GroupOf(socks - {id}) == GroupOf(socks) - {id}
  {
  }

  lemma {:induction false} UnregisterKeeps(p: Port, id: SockId, cancel: Afd)
    requires InvBut(p, id) && !p.socks[id].deletePending
    ensures var p' := Unregister(p, id, cancel);
      && id in p'.socks && p'.socks[id].deletePending && (p'.socks[id].status.Idle? <==> p.socks[id].status.Idle?)
      && InvBut(p'.(deletedQueue := Enqueue(p'.deletedQueue, id)), id)
      && id !in p'.updateQueue && id !in p'.deletedQueue
  {
    hide Unique, GroupsOk, GroupOf, Without, Enqueue, Covers, AfdCovers, ToAfd, SockOk;
    var p' := Unregister(p, id, cancel);
    WithoutIs(p.updateQueue, id);
    EnqueueIs(p.deletedQueue, id);
    assert p'.socks == p.socks[id := p'.socks[id]];
    GroupOfUpdate(p.socks, id, p'.socks[id]);
    var p'' := p'.(deletedQueue := Enqueue(p'.deletedQueue, id));
    forall other | other in p''.socks && other != id ensures SockOk(p'', other) {
      assert SockOk(p, other);
      AlikeOk(p, p'', other);
    }
  }

  /** The socket was already out of the table and nothing is owed for it any more. */
  lemma {:induction false} FreeKeeps(p: Port, id: SockId)
    requires InvBut(p, id) && p.socks[id].deletePending && p.socks[id].status.Idle?
    ensures Inv(Free(p, id)) && id !in Free(p, id).socks
  {
    hide Unique, GroupsOk, GroupOf, Without, Release, SockOk;
    var p' := Free(p, id);
    WithoutIs(p.deletedQueue, id);
    FreeGroups(p, id);
    forall other | other in p'.socks ensures SockOk(p', other) {
      assert SockOk(p, other);
      AlikeOk(p, p', other);
    }
  }

  lemma FreeGroups(p: Port, id: SockId)
    requires id in p.socks && GroupsOk(p.groups, GroupOf(p.socks))
    ensures GroupsOk(Free(p, id).groups, GroupOf(Free(p, id).socks))
  {
    hide GroupsOk, Release;
    GroupOfFree(p.socks, id);
    ReleaseKeeps(p.groups, GroupOf(p.socks), id);
  }

  lemma EnqueueTwice<T>(q: seq<T>, x: T)
    requires Unique(q) && x !in q
    ensures Without(Enqueue(q, x), x) == q
    decreases |q|
  {
    if q != [] {
      EnqueueTwice(q[1..], x);
      assert (q + [x])[1..] == q[1..] + [x];
    }
  }

  lemma {:induction false} NotThere<T>(q: seq<T>, x: T)
    requires x !in q
    ensures Without(q, x) == q
  {
    if q != [] {
      NotThere(q[1..], x);
    }
  }

  /** sock__delete, unforced: an idle socket is freed at once, another one waits for its completion. */
  lemma {:induction false} DeleteKeeps(p: Port, id: SockId, cancel: Afd)
    requires id in p.socks && InvBut(p, id)
    ensures var p' := Delete(p, id, false, cancel);
      && Inv(p') && (id in p'.socks <==> !p.socks[id].status.Idle?)
      && p'.owed.Keys == p.owed.Keys && (p.socks[id].status.Idle? ==> p'.owed == p.owed)
      && p'.activePolls == p.activePolls && p'.updateQueue == Without(p.updateQueue, id)
  {
    hide Inv, InvBut, TablesOk, Without, Enqueue, Release;
    var s := p.socks[id];
    if s.deletePending {
      InvButFacts(p, id);
      if s.status.Idle? {
        FreeKeeps(p, id);
      } else {
        WholeAgain(p, id);
      }
    } else {
      var p1 := Unregister(p, id, cancel);
      UnregisterKeeps(p, id, cancel);
      var p2 := p1.(deletedQueue := Enqueue(p1.deletedQueue, id));
      if s.status.Idle? {
        FreeKeeps(p2, id);
        UnregisteredQueue(p, id);
        assert Free(p2, id) == Free(p1, id);
      } else {
        WholeAgain(p2, id);
      }
    }
  }

  lemma InvButFacts(p: Port, id: SockId)
    requires InvBut(p, id) && p.socks[id].deletePending
    ensures Without(p.updateQueue, id) == p.updateQueue && Enqueue(p.deletedQueue, id) == p.deletedQueue
  {
    NotThere(p.updateQueue, id);
  }

  lemma UnregisteredQueue(p: Port, id: SockId)
    requires InvBut(p, id) && !p.socks[id].deletePending
    ensures Without(Enqueue(p.deletedQueue, id), id) == Without(p.deletedQueue, id)
  {
    EnqueueTwice(p.deletedQueue, id);
    NotThere(p.deletedQueue, id);
  }

  lemma WholeAgain(p: Port, id: SockId)
    requires InvBut(p, id) && p.socks[id].deletePending && !p.socks[id].status.Idle?
    ensures Inv(p)
  {
  }

  /** sock_feed_event takes one of three ways. */
  lemma FeedWays(p: Port, id: SockId, c: Completion)
    requires id in p.socks
    ensures var f := FeedEvent(p, id, c); var p1 := Completed(p, id); var s := p1.socks[id];
      || f.port == Delete(p1, id, false, Accepted)
      || (!s.deletePending && f.port == Request(p1, id))
      || (!s.deletePending && f.port == Update(Request(p1, id), id, s.(userEvents := 0)))
  {
    hide Delete, Enqueue, Wanted, OneShot;
    var p1 := Request(Completed(p, id), id);
    assert p1.socks[id := p1.socks[id]] == p1.socks;
  }

  /** The socket behind the completion was closed, by its owner. */
  predicate Closed(c: Completion) {
    c.Reported? && c.afdEvents & AFD_LOCAL_CLOSE != 0
  }

  /** What the user can hear of a completion: of a cancelled or empty poll nothing, of a failed one an error, else
      what AFD reports; and only what was asked for. */
  function Heard(c: Completion, userEvents: bv32): bv32 {
    match c
    case WasCancelled => 0
    case NoHandles => 0
    case RequestFailed => EPOLLERR & userEvents
    case Reported(afdEvents) => ToEpoll(afdEvents) & userEvents
  }

  /** What a completion does to the record and says to the user: the record is gone if it was deleted or the socket
      closed; else its poll is over, it asks for a new one, and its events are cleared exactly if it reports under
      EPOLLONESHOT. */
  lemma FeedExact(p: Port, id: SockId, c: Completion)
    requires Inv(p) && id in p.owed
    ensures id in p.socks
    ensures var f := FeedEvent(p, id, c); var s, heard := p.socks[id], Heard(c, p.socks[id].userEvents);
      && (id in f.port.socks <==> !s.deletePending && !Closed(c))
      && f.reports == (if id in f.port.socks && heard != 0 then [Report(id, s.userData, heard)] else [])
      && (id in f.port.socks ==>
            && f.port.socks[id] == s.(status := Idle, pendingEvents := 0, userEvents := f.port.socks[id].userEvents)
            && f.port.socks[id].userEvents == (if f.reports != [] && s.userEvents & EPOLLONESHOT != 0 then 0 else s.userEvents)
            && id in f.port.updateQueue && f.port.tree == p.tree)
  {
    hide Inv, Heard, Closed, Wanted, OneShot, LocallyClosed, Delete, Enqueue;
    OwedIn(p, id);
    HeardIs(c, p.socks[id].userEvents);
    DeleteIdle(Completed(p, id), id);
    EnqueueHas(p.updateQueue, id);
  }

  lemma HeardIs(c: Completion, events: bv32)
    ensures Wanted(c, events) == Heard(c, events) && (LocallyClosed(c) <==> Closed(c))
    ensures OneShot(events) <==> events & EPOLLONESHOT != 0
  {
    hide *;
    ClosedIs(c);
    OneShotIs(events);
    match c {
      case WasCancelled => SilentHeard(events);
      case NoHandles => SilentHeard(events);
      case RequestFailed => FailedHeard(events);
      case Reported(afdEvents) => ReportedHeard(afdEvents, events);
    }
  }

  lemma SilentHeard(events: bv32)
    ensures Wanted(WasCancelled, events) == Heard(WasCancelled, events) && Wanted(NoHandles, events) == Heard(NoHandles, events)
  {
  }

  lemma FailedHeard(events: bv32)
    ensures Wanted(RequestFailed, events) == Heard(RequestFailed, events)
  {
  }

  lemma ReportedHeard(afdEvents: bv32, events: bv32)
    ensures Wanted(Reported(afdEvents), events) == Heard(Reported(afdEvents), events)
  {
    hide ToEpoll;
  }

  lemma ClosedIs(c: Completion)
    ensures LocallyClosed(c) <==> Closed(c)
  {
  }

  lemma OneShotIs(events: bv32)
    ensures OneShot(events) <==> events & EPOLLONESHOT != 0
  {
  }

  lemma OwedIn(p: Port, id: SockId)
    requires Inv(p) && id in p.owed
    ensures id in p.socks
  {
  }

  lemma DeleteIdle(p: Port, id: SockId)
    requires id in p.socks && p.socks[id].status.Idle?
    ensures id !in Delete(p, id, false, Accepted).socks
  {
    hide Without, Release, Enqueue;
  }

  lemma EnqueueHas<T>(q: seq<T>, x: T)
    ensures x in Enqueue(q, x)
  {
  }

  lemma {:induction false} FeedKeeps(p: Port, id: SockId, c: Completion)
    requires Inv(p) && id in p.owed
    ensures id in p.socks
    ensures var p' := FeedEvent(p, id, c).port;
      Inv(p') && p'.owed == p.owed - {id} && p'.activePolls == p.activePolls
  {
    hide *;
    CompletedKeeps(p, id);
    var p1 := Completed(p, id);
    var s := p1.socks[id];
    FeedWays(p, id, c);
    var p' := FeedEvent(p, id, c).port;
    if p' == Delete(p1, id, false, Accepted) {
      DeleteKeeps(p1, id, Accepted);
    } else if p' == Request(p1, id) {
      RequestKeeps(p1, id);
    } else {
      var s' := s.(userEvents := 0);
      UserKeeps(p1, id, s');
      RequestAfter(p1, id, s');
      RequestKeeps(Update(p1, id, s'), id);
    }
  }

  lemma CompletedLinks(p: Port, id: SockId)
    requires Inv(p) && id in p.owed
    ensures id in p.socks && SockLinks(Completed(p, id), id)
  {
    hide Unique, GroupsOk, GroupOf, Covers, AfdCovers, ToAfd;
    assert SockOk(p, id);
  }

  lemma CompletedKeeps(p: Port, id: SockId)
    requires Inv(p) && id in p.owed
    ensures id in p.socks
    ensures var p1 := Completed(p, id);
      && InvBut(p1, id) && id in p1.socks && p1.socks[id].status.Idle? && p1.owed == p.owed - {id} && p1.activePolls == p.activePolls
  {
    hide Unique, GroupsOk, GroupOf, Covers, AfdCovers, ToAfd, SockOk;
    var p1 := Completed(p, id);
    CompletedLinks(p, id);
    GroupOfUpdate(p.socks, id, p1.socks[id]);
    forall other | other in p1.socks && other != id ensures SockOk(p1, other) {
      assert SockOk(p, other);
      AlikeOk(p, p1, other);
    }
  }

  /** The user's part of a socket says nothing about the queues. */
  lemma UserKeeps(p: Port, id: SockId, s: Sock)
    requires InvBut(p, id)
    requires s == p.socks[id].(userEvents := s.userEvents, userData := s.userData)
    ensures InvBut(Update(p, id, s), id)
    ensures Update(p, id, s).owed == p.owed && Update(p, id, s).activePolls == p.activePolls
    ensures Update(p, id, s).socks[id] == s && Update(p, id, s).updateQueue == p.updateQueue
  {
    hide Unique, GroupsOk, GroupOf, Covers, SockOk;
    var p' := Update(p, id, s);
    GroupOfUpdate(p.socks, id, s);
    forall other | other in p'.socks && other != id ensures SockOk(p', other) {
      assert SockOk(p, other);
      AlikeOk(p, p', other);
    }
  }

  lemma RequestAfter(p: Port, id: SockId, s: Sock)
    ensures Update(Request(p, id), id, s) == Request(Update(p, id, s), id)
  {
  }

  /** port_request_socket_update. */
  lemma {:induction false} RequestKeeps(p: Port, id: SockId)
    requires InvBut(p, id) && !p.socks[id].deletePending
    ensures Inv(Request(p, id)) && Request(p, id).owed == p.owed && Request(p, id).activePolls == p.activePolls
  {
    hide Unique, GroupsOk, GroupOf, Enqueue, Covers, AfdCovers, ToAfd;
    var p' := Request(p, id);
    EnqueueIs(p.updateQueue, id);
    forall other | other in p'.socks && other != id ensures SockOk(p', other) {
      assert SockOk(p, other);
      AlikeOk(p, p', other);
    }
  }

  /** The completion packets of one GetQueuedCompletionStatusEx call. */
  predicate OwedPackets(owed: map<SockId, Poll>, packets: seq<Packet>) {
    && (forall i :: 0 <= i < |packets| ==> packets[i].id in owed)
    && (forall i, j :: 0 <= i < j < |packets| ==> packets[i].id != packets[j].id)
  }

  /** The socket has left the update queue with a completion owed to it. */
  function Settled(p: Port, id: SockId, s: Sock, poll: Poll): Port {
    Update(p, id, s).(updateQueue := Without(p.updateQueue, id), owed := p.owed[id := poll])
  }

  /** What sock_update leaves of a socket: a poll that covers its events, or a cancelled one; and with AFD. */
  predicate Rests(s: Sock, s': Sock, poll: Poll) {
    && s' == s.(status := s'.status, pendingEvents := s'.pendingEvents) && PollOk(s', poll)
    && ((s'.status.Pending? && Covers(s'.pendingEvents, s'.userEvents)) || (s'.status.Cancelled? && s'.pendingEvents == 0))
  }

  lemma SettledKeeps(p: Port, id: SockId, s: Sock, poll: Poll)
    requires Inv(p) && id in p.updateQueue && id in p.socks
    requires Rests(p.socks[id], s, poll)
    ensures Inv(Settled(p, id, s, poll))
  {
    hide Unique, GroupsOk, GroupOf, Without, Covers, AfdCovers, SockOk, Rests;
    var p' := Settled(p, id, s, poll);
    SettledOk(p, id, s, poll);
    WithoutIs(p.updateQueue, id);
    SameGroup(p.socks[id], s, poll);
    GroupOfUpdate(p.socks, id, s);
    forall other | other in p'.socks && other != id ensures SockOk(p', other) {
      assert SockOk(p, other);
      AlikeOk(p, p', other);
    }
  }

  lemma SameGroup(s: Sock, s': Sock, poll: Poll)
    requires Rests(s, s', poll)
    ensures s'.group == s.group && s'.key == s.key && s'.deletePending == s.deletePending
  {
  }

  lemma SettledOk(p: Port, id: SockId, s: Sock, poll: Poll)
    requires Inv(p) && id in p.updateQueue && id in p.socks && Rests(p.socks[id], s, poll)
    ensures SockOk(Settled(p, id, s, poll), id)
  {
    hide Unique, GroupsOk, GroupOf, Without, Covers, AfdCovers, ToAfd;
    assert SockOk(p, id);
    WithoutIs(p.updateQueue, id);
    if s.status.Pending? {
      CoversAfd(s.pendingEvents, s.userEvents);
    }
  }

  /** sock_update takes one of four ways. */
  lemma UpdateWays(p: Port, id: SockId, afd: Afd)
    requires Inv(p) && id in p.updateQueue
    ensures id in p.socks && !p.socks[id].deletePending
    ensures var u := SockUpdate(p, id, afd); var s := p.socks[id];
      if s.status.Idle? && afd.SocketClosed? then u == Updated(Delete(p, id, false, afd), true)
      else if !u.ok then u.port == p && afd.Failed?
      else exists s', poll :: u.port == Settled(p, id, s', poll) && Rests(s, s', poll)
  {
    hide Unique, GroupsOk, GroupOf, Without, Covers, AfdCovers, ToAfd, Delete;
    assert SockOk(p, id);
    var s, u := p.socks[id], SockUpdate(p, id, afd);
    CoversSelf(s.userEvents);
    if u.ok && !(s.status.Idle? && afd.SocketClosed?) {
      assert p.socks[id := s] == p.socks;
      assert id in p.owed ==> p.owed[id := p.owed[id]] == p.owed;
      assert u.port == Settled(p, id, u.port.socks[id], u.port.owed[id]);
      assert Rests(s, u.port.socks[id], u.port.owed[id]);
    }
  }

  /** What sock_update asks AFD for: a poll for the user's events of an idle socket, the cancellation of a pending
      poll that does not cover them, and nothing else. */
  lemma UpdateAsks(p: Port, id: SockId, afd: Afd)
    requires Inv(p) && id in p.updateQueue && id in p.socks
    ensures var s, owed := p.socks[id], SockUpdate(p, id, afd).port.owed;
      if s.status.Idle? then id !in p.owed && owed == if afd.Accepted? then p.owed[id := Poll(ToAfd(s.userEvents), false)] else p.owed
      else
        && id in p.owed
        && owed == if s.status.Pending? && !Covers(s.pendingEvents, s.userEvents) && !afd.Failed?
                   then p.owed[id := p.owed[id].(cancelled := true)] else p.owed
  {
    hide Unique, GroupsOk, GroupOf, Without, Covers, AfdCovers, ToAfd, Delete;
    assert SockOk(p, id);
    DeleteAsks(p, id, false, afd);
  }

  /** What sock__delete asks AFD for: the cancellation of a pending poll. */
  lemma DeleteAsks(p: Port, id: SockId, force: bool, cancel: Afd)
    requires id in p.socks
    ensures var s := p.socks[id];
      Delete(p, id, force, cancel).owed ==
      if !s.deletePending && s.status.Pending? && !cancel.Failed? then AskCancel(p, id).owed else p.owed
  {
    hide Without, Enqueue, Release;
  }

  /** sock_update takes the socket off the queue unless AFD fails; then nothing is changed. */
  lemma SockUpdateKeeps(p: Port, id: SockId, afd: Afd)
    requires Inv(p) && id in p.updateQueue
    ensures id in p.socks
    ensures var u := SockUpdate(p, id, afd);
      && Inv(u.port) && u.port.activePolls == p.activePolls
      && (if u.ok then u.port.updateQueue == Without(p.updateQueue, id) else u.port == p && afd.Failed?)
  {
    hide *;
    UpdateWays(p, id, afd);
    var u, s := SockUpdate(p, id, afd), p.socks[id];
    if s.status.Idle? && afd.SocketClosed? {
      WholeBut(p, id);
      DeleteKeeps(p, id, afd);
    } else if u.ok {
      var s', poll :| u.port == Settled(p, id, s', poll) && Rests(s, s', poll);
      SettledKeeps(p, id, s', poll);
      SettledPart(p, id, s', poll);
    }
  }

  lemma SettledPart(p: Port, id: SockId, s: Sock, poll: Poll)
    ensures var p' := Settled(p, id, s, poll); p'.activePolls == p.activePolls && p'.updateQueue == Without(p.updateQueue, id)
  {
  }

  lemma WholeBut(p: Port, id: SockId)
    requires Inv(p) && id in p.socks
    ensures InvBut(p, id)
  {
    assert SockOk(p, id);
  }

  lemma HeadLeaves(p: Port, id: SockId, q: seq<SockId>)
    requires Inv(p) && p.updateQueue != [] && id == p.updateQueue[0] && q == Without(p.updateQueue, id)
    ensures |q| == |p.updateQueue| - 1 && forall other :: other in q ==> other in p.updateQueue
  {
    WithoutIs(p.updateQueue, id);
  }

  /** port__update_events. `afd` answers for each socket, which is asked about at most once. */
  function UpdateEvents(p: Port, afd: SockId -> Afd): Updated
    requires Inv(p)
    decreases |p.updateQueue|
  {
    if p.updateQueue == [] then Updated(p, true)
    else
      var id := p.updateQueue[0];
      SockUpdateKeeps(p, id, afd(id));
      var u := SockUpdate(p, id, afd(id));
      if !u.ok then u
      else
        HeadLeaves(p, id, u.port.updateQueue);
        UpdateEvents(u.port, afd)
  }

  /** port__update_events empties the update queue exactly when no submission or cancellation fails;
      it stops at the first socket whose does. */
  lemma {:induction false} UpdateEventsKeeps(p: Port, afd: SockId -> Afd)
    requires Inv(p)
    ensures var u := UpdateEvents(p, afd);
      && Inv(u.port) && u.port.activePolls == p.activePolls
      && (u.ok <==> u.port.updateQueue == [])
      && (!u.ok ==> u.port.updateQueue[0] in p.updateQueue && afd(u.port.updateQueue[0]).Failed?)
    decreases |p.updateQueue|
  {
    hide Inv, SockUpdate, Without;
    if p.updateQueue != [] {
      var id := p.updateQueue[0];
      SockUpdateKeeps(p, id, afd(id));
      var u := SockUpdate(p, id, afd(id));
      if u.ok {
        HeadLeaves(p, id, u.port.updateQueue);
        UpdateEventsKeeps(u.port, afd);
      }
    }
  }

  /** port__update_events_if_polling. */
  function UpdateIfPolling(p: Port, afd: SockId -> Afd): Port
    requires Inv(p)
  {
    if p.activePolls > 0 then UpdateEvents(p, afd).port else p
  }

  function Named(packets: seq<Packet>): set<SockId> {
    set i | 0 <= i < |packets| :: packets[i].id
  }

  lemma NamedRest(p: Port, packets: seq<Packet>)
    requires packets != [] && OwedPackets(p.owed, packets)
    ensures Named(packets) == {packets[0].id} + Named(packets[1..])
    ensures OwedPackets(p.owed - {packets[0].id}, packets[1..]) && packets[0].id in p.owed
  {
    assert forall i :: 0 <= i < |packets| - 1 ==> packets[1..][i] == packets[i + 1];
  }

  /** port__feed_events. */
  function FeedEvents(p: Port, packets: seq<Packet>): Fed
    requires Inv(p) && OwedPackets(p.owed, packets)
    decreases |packets|
  {
    if packets == [] then Fed(p, [])
    else
      NamedRest(p, packets);
      FeedKeeps(p, packets[0].id, packets[0].completion);
      var f := FeedEvent(p, packets[0].id, packets[0].completion);
      var g := FeedEvents(f.port, packets[1..]);
      Fed(g.port, f.reports + g.reports)
  }

  lemma {:induction false} FeedEventsKeeps(p: Port, packets: seq<Packet>)
    requires Inv(p) && OwedPackets(p.owed, packets)
    ensures var p' := FeedEvents(p, packets).port;
      Inv(p') && p'.activePolls == p.activePolls && p'.owed == p.owed - Named(packets)
    decreases |packets|
  {
    hide Inv, OwedPackets, FeedEvent, Named;
    if packets == [] {
      NamedNone();
    } else {
      NamedRest(p, packets);
      FeedKeeps(p, packets[0].id, packets[0].completion);
      FeedEventsKeeps(FeedEvent(p, packets[0].id, packets[0].completion).port, packets[1..]);
    }
  }

  lemma NamedNone()
    ensures Named([]) == {}
  {
  }

  // ---- the one queue node of a record ----

  /** queue_is_enqueued: the node of the record is linked into some queue. */
  predicate NodeLinked(p: Port, id: SockId) {
    id in p.updateQueue || id in p.deletedQueue
  }

  /** queue_remove, from whichever queue it is. */
  function NodeRemoved(p: Port, id: SockId): Port {
    if NodeLinked(p, id) then
      p.(updateQueue := Without(p.updateQueue, id), deletedQueue := Without(p.deletedQueue, id))
    else p
  }

  /** port_request_socket_update and port_add_deleted_socket, as they test the node. */
  function NodeRequest(p: Port, id: SockId): Port {
    if NodeLinked(p, id) then p else p.(updateQueue := p.updateQueue + [id])
  }

  function NodeAddDeleted(p: Port, id: SockId): Port {
    if NodeLinked(p, id) then p else p.(deletedQueue := p.deletedQueue + [id])
  }

  /** sock__delete with the tests on the node. */
  function NodeDelete(p: Port, id: SockId, force: bool, cancel: Afd): Port
    requires id in p.socks
  {
    var p1 :=
      if p.socks[id].deletePending then p
      else
        var p2 := NodeRemoved(if p.socks[id].status.Pending? && !cancel.Failed? then CancelPoll(p, id) else p, id);
        var s := p2.socks[id];
        Update(p2, id, s.(deletePending := true)).(tree := p2.tree - {s.key});
    if force || p1.socks[id].status.Idle? then
      var p2 := NodeRemoved(p1, id);
      p2.(groups := Release(p2.groups, p2.socks[id].group), socks := p2.socks - {id}, freed := p2.freed + {id})
    else NodeAddDeleted(p1, id)
  }

  /** The test on the one node does what a test on the right queue would do, wherever wepoll makes it: asking
      for an update or giving it up for a registered socket, and deleting any. */
  lemma OneNodeIsEnough(p: Port, id: SockId, force: bool, cancel: Afd)
    requires id in p.socks && InvBut(p, id)
    ensures !p.socks[id].deletePending ==> NodeRequest(p, id) == Request(p, id)
    ensures !p.socks[id].deletePending ==> NodeRemoved(p, id) == p.(updateQueue := Without(p.updateQueue, id))
    ensures NodeDelete(p, id, force, cancel) == Delete(p, id, force, cancel)
  {
    hide TablesOk, SockOk, Release, GroupOf, Without, Watched, Delete, NodeDelete;
    NotThereIf(p.updateQueue, id);
    NotThereIf(p.deletedQueue, id);
    if p.socks[id].deletePending {
      DeletePendingNode(p, id, force, cancel);
    } else {
      DeleteLiveNode(p, id, force, cancel);
    }
  }

  lemma DeletePendingNode(p: Port, id: SockId, force: bool, cancel: Afd)
    requires id in p.socks && p.socks[id].deletePending && id !in p.updateQueue && id in p.deletedQueue
    ensures NodeDelete(p, id, force, cancel) == Delete(p, id, force, cancel)
  {
    hide Release, Without;
    NotThereIf(p.updateQueue, id);
  }

  lemma DeleteLiveNode(p: Port, id: SockId, force: bool, cancel: Afd)
    requires InvBut(p, id) && id in p.socks && !p.socks[id].deletePending && id !in p.deletedQueue
    ensures NodeDelete(p, id, force, cancel) == Delete(p, id, force, cancel)
  {
    hide Release, Without, InvBut, Enqueue, NodeRemoved, CancelPoll;
    CancelKeepsLinks(p, id);
    NotThereIf(p.deletedQueue, id);
    EnqueueNew(p.deletedQueue, id);
    WithoutOnce(p, id);
    var p1 := if p.socks[id].status.Pending? && !cancel.Failed? then CancelPoll(p, id) else p;
    NodeOfLive(p1, id);
    NodeOfLive(Unregister(p, id, cancel), id);
  }

  lemma CancelKeepsLinks(p: Port, id: SockId)
    requires id in p.socks
    ensures var p' := CancelPoll(p, id);
      && p' == p.(socks := p'.socks, owed := p'.owed) && id in p'.socks
      && p'.socks[id].key == p.socks[id].key && p'.socks[id].group == p.socks[id].group
  {
  }

  lemma NodeOfLive(p: Port, id: SockId)
    requires id !in p.deletedQueue
    ensures NodeRemoved(p, id) == p.(updateQueue := Without(p.updateQueue, id))
    ensures id !in p.updateQueue ==> NodeRemoved(p, id) == p
  {
    hide Without;
    NotThereIf(p.deletedQueue, id);
    NotThereIf(p.updateQueue, id);
  }

  lemma EnqueueNew<T>(q: seq<T>, x: T)
    requires x !in q
    ensures Enqueue(q, x) == q + [x]
  {
  }

  lemma NotThereIf<T>(q: seq<T>, x: T)
    ensures x !in q ==> Without(q, x) == q
  {
    if x !in q {
      NotThere(q, x);
    }
  }

  lemma WithoutOnce(p: Port, id: SockId)
    requires id in p.socks && InvBut(p, id)
    ensures id !in Without(p.updateQueue, id) && Without(Without(p.updateQueue, id), id) == Without(p.updateQueue, id)
  {
    hide GroupsOk, GroupOf, SockOk;
    WithoutIs(p.updateQueue, id);
    NotThere(Without(p.updateQueue, id), id);
  }
}
