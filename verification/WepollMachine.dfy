/** The epoll port as the object that wepoll.c updates in place. Each method does what the C function does to
    the fields and is proved equal to the function of the same name in WepollPort and WepollRuns. */
module WepollMachine {
  import opened EpollEvents
  import opened PollGroups
  import opened WepollPort
  import opened WepollRuns
  import opened WepollLifetime
  import opened WepollLinks
  import opened WepollQueue
  import TreeShape
  import WepollSafety

  datatype Option<T> = None | Some(value: T)

  /** sock_state_t, changed in place, with the nodes by which it is linked. */
  class SockState {
    const queueNode: QueueNode
    const treeNode: TreeShape.Node
    const group: GroupId
    var status: Status
    var userEvents: bv32
    var userData: nat
    var pendingEvents: bv32
    var deletePending: bool
    /** What the tree node holds while it is linked. */
    ghost const key: nat

    constructor (group: GroupId, ghost key: nat)
      ensures Value() == Sock(key, group, Idle, 0, 0, 0, false)
      ensures fresh(queueNode) && fresh(treeNode) && queueNode.prev == queueNode
    {
      queueNode := new QueueNode();
      treeNode := new TreeShape.Node();
      this.group, this.key := group, key;
      status, userEvents, userData, pendingEvents, deletePending := Idle, 0, 0, 0, false;
    }

    ghost function Value(): Sock
      reads this
    {
      Sock(key, group, status, userEvents, userData, pendingEvents, deletePending)
    }
  }

  /** port_state_t. The map from identities to records stands for the memory that malloc gave. */
  class PortState {
    const links: PortLinks
    var socks: map<SockId, SockState>
    var groups: seq<Group>
    var activePolls: nat
    ghost var owed: map<SockId, Poll>
    ghost var freed: set<SockId>

    /** The objects that the port consists of. */
    ghost function Footprint(): set<object>
      reads this, links.queues, links.queues.updates, links.queues.deleted, links.table, links.table.tree
    {
      links.Objects() + socks.Values
    }

    /** The links are consistent, and their nodes are just those of the records. */
    ghost predicate Valid()
      reads this, Footprint()
    {
      links.Valid() && Embedded(socks, links.State())
    }

    ghost function Values(): map<SockId, Sock>
      reads this, socks.Values
    {
      map id | id in socks :: socks[id].Value()
    }

    ghost function View(): Port
      requires Valid()
      reads this, Footprint()
    {
      var s := links.State();
      Port(Values(), s.table, s.updates, s.deleted, groups, activePolls, owed, freed)
    }

    constructor (links: PortLinks)
      ensures this.links == links && socks == map[] && groups == [] && activePolls == 0 && owed == map[] && freed == {}
    {
      this.links, socks, groups, activePolls := links, map[], [], 0;
      owed, freed := map[], {};
    }

    /** The links and the records have no object in common. */
    lemma Separate()
      ensures links.Objects() !! socks.Values && this !in links.Objects()
    {
    }

    lemma NoLink(record: SockState)
      ensures record !in links.Objects()
    {
    }

    // ---- the links ----

    method RequestSocketUpdate(id: SockId)
      requires Valid() && id in socks && id !in View().deletedQueue
      modifies links.Objects()
      ensures Valid() && links.Objects() == old(links.Objects()) && socks == old(socks)
      ensures View() == Request(old(View()), id)
    {
      hide PortLinks.Valid, PortLinks.State, PortLinks.Objects;
      Separate();
      links.RequestUpdate(socks[id].queueNode);
    }

    method CancelSocketUpdate(id: SockId)
      requires Valid() && id in socks && id !in View().deletedQueue
      modifies links.Objects()
      ensures Valid() && links.Objects() == old(links.Objects()) && socks == old(socks)
      ensures View() == UpdateCancelled(old(View()), id)
    {
      hide PortLinks.Valid, PortLinks.State, PortLinks.Objects;
      Separate();
      links.CancelUpdate(socks[id].queueNode);
    }

    method AddDeletedSocket(id: SockId)
      requires Valid() && id in socks && id !in View().updateQueue
      modifies links.Objects()
      ensures Valid() && links.Objects() == old(links.Objects()) && socks == old(socks)
      ensures View() == DeletedAdded(old(View()), id)
    {
      hide PortLinks.Valid, PortLinks.State, PortLinks.Objects;
      Separate();
      links.AddDeleted(socks[id].queueNode);
    }

    method RemoveDeletedSocket(id: SockId)
      requires Valid() && id in socks && id !in View().updateQueue
      modifies links.Objects()
      ensures Valid() && links.Objects() == old(links.Objects()) && socks == old(socks)
      ensures View() == DeletedRemoved(old(View()), id)
    {
      hide PortLinks.Valid, PortLinks.State, PortLinks.Objects;
      Separate();
      links.RemoveDeleted(socks[id].queueNode);
    }

    method UnregisterSocket(id: SockId)
      requires Valid() && id in socks && InTable(View(), id)
      modifies links.Objects()
      ensures Valid() && links.Objects() <= old(links.Objects()) && socks == old(socks)
      ensures View() == OutOfTable(old(View()), id)
    {
      hide PortLinks.Valid, PortLinks.State, PortLinks.Objects;
      Separate();
      links.Unregister(socks[id].treeNode, socks[id].key);
    }

    method RegisterSocket(id: SockId, record: SockState, key: nat) returns (ok: bool)
      requires Valid() && id !in socks && record.key == key && record !in socks.Values
      requires record.treeNode !in Footprint() && record.queueNode !in Footprint() && record.queueNode.prev == record.queueNode
      requires record.queueNode !in links.State().queueOwner && record.treeNode !in links.State().treeOwner
      modifies this`socks, links.Objects(), record.treeNode
      ensures Valid() && Footprint() <= old(Footprint()) + {record, record.queueNode, record.treeNode}
      ensures ok == (key !in old(View()).tree)
      ensures View() == if ok then WithSock(old(View()), id, old(record.Value())) else old(View())
    {
      hide PortLinks.Valid, PortLinks.State, PortLinks.Objects, Embedded;
      Separate();
      NoLink(record);
      EmbeddedWith(socks, links.State(), id, record, key);
      ok := links.Register(record.queueNode, record.treeNode, key, id);
      assert Values() == old(Values());
      if ok {
        Own(id, record);
      }
    }

    /** A record whose nodes the links know becomes one of the port's. */
    method Own(id: SockId, record: SockState)
      requires links.Valid() && id !in socks && Embedded(socks[id := record], links.State())
      modifies this`socks
      ensures Valid() && socks == old(socks)[id := record] && links.State() == old(links.State())
      ensures links.Objects() == old(links.Objects()) && Values() == old(Values())[id := record.Value()]
    {
      hide PortLinks.Valid, PortLinks.State, PortLinks.Objects, Embedded;
      Separate();
      socks := socks[id := record];
      links.Kept();
    }

    /** The record that sock_new allocates is new to the port. */
    method NewSock(group: GroupId, ghost key: nat) returns (record: SockState)
      requires Valid()
      ensures Valid() && View() == old(View()) && Footprint() == old(Footprint())
      ensures fresh(record) && fresh(record.queueNode) && fresh(record.treeNode)
      ensures record.Value() == Sock(key, group, Idle, 0, 0, 0, false) && record.queueNode.prev == record.queueNode
      ensures record !in socks.Values && record.queueNode !in Footprint() && record.treeNode !in Footprint()
      ensures record.queueNode !in links.State().queueOwner && record.treeNode !in links.State().treeOwner
    {
      hide PortLinks.Valid, PortQueues.Updates, PortQueues.Deleted, SocketTree.Table, Embedded;
      record := new SockState(group, key);
      links.Kept();
    }

    /** sock__free of a record that is linked nowhere any more. */
    method FreeSock(id: SockId)
      requires Valid() && id in socks && FreeOfLinks(View(), id)
      modifies this`socks, this`freed, links.Objects()
      ensures Valid() && Footprint() <= old(Footprint())
      ensures View() == WithoutSock(old(View()), id)
    {
      hide PortLinks.Valid, PortLinks.State, PortLinks.Objects, Embedded;
      Separate();
      EmbeddedWithout(socks, links.State(), id);
      var record := socks[id];
      Disown(id);
      Separate();
      links.Forget(record.queueNode, record.treeNode);
    }

    method Disown(id: SockId)
      requires Valid() && id in socks
      modifies this`socks, this`freed
      ensures links.Valid() && links.State() == old(links.State()) && links.Objects() == old(links.Objects())
      ensures socks == old(socks) - {id} && freed == old(freed) + {id} && Values() == old(Values()) - {id}
    {
      hide PortLinks.Valid, PortLinks.State, PortLinks.Objects, Embedded;
      Separate();
      socks, freed := socks - {id}, freed + {id};
      links.Kept();
    }

    /** The record at the head of either queue, if any. */
    method FirstUpdate() returns (id: Option<SockId>)
      requires Valid()
      ensures Valid() && View() == old(View()) && Footprint() == old(Footprint())
      ensures IsFirst(id, View().updateQueue)
    {
      hide PortQueues.Valid, PortQueues.Updates, PortQueues.Deleted, SocketTree.Valid, SocketTree.Table, Embedded;
      var node := links.queues.FirstUpdate();
      id := if node == null then None else Some(links.queues.owner[node]);
      links.Kept();
    }

    // ---- records changed in place ----

    twostate lemma ValuesChanged(id: SockId)
      requires id in socks && socks == old(socks)
      requires forall other :: other in socks && other != id ==> socks[other].Value() == old(socks[other].Value())
      ensures Values() == old(Values())[id := socks[id].Value()]
    {
    }

    /** Records have changed and nothing else. */
    twostate lemma Changed()
      requires old(Valid()) && unchanged(this) && unchanged(old(links.Objects()))
      ensures Valid() && links.Objects() == old(links.Objects()) && View() == old(View()).(socks := Values())
    {
      hide PortLinks.Valid, PortLinks.State, PortLinks.Objects, Embedded, PortState.Values, SockState.Value;
      links.Kept();
    }

    /** The poll has been cancelled. */
    method SetCancelled(id: SockId)
      requires Valid() && id in socks
      modifies socks[id]
      ensures Valid() && links.Objects() == old(links.Objects()) && View() == Cancelling(old(View()), id)
    {
      hide PortLinks.Valid, PortLinks.State, PortLinks.Objects, Embedded;
      Apart(socks, links.State(), id);
      Separate();
      socks[id].status := Cancelled;
      socks[id].pendingEvents := 0;
      ValuesChanged(id);
      Changed();
    }

    /** The last step of taking a record out of use. */
    method SetDeletePending(id: SockId)
      requires Valid() && id in socks
      modifies socks[id]
      ensures Valid() && links.Objects() == old(links.Objects()) && View() == DeletePending(old(View()), id)
    {
      hide PortLinks.Valid, PortLinks.State, PortLinks.Objects, Embedded;
      Apart(socks, links.State(), id);
      Separate();
      socks[id].deletePending := true;
      ValuesChanged(id);
      Changed();
    }

    /** user_events and user_data. */
    method SetInterest(id: SockId, events: bv32, data: nat)
      requires Valid() && id in socks
      modifies socks[id]
      ensures Valid() && links.Objects() == old(links.Objects()) && View() == Interested(old(View()), id, events, data)
    {
      hide PortLinks.Valid, PortLinks.State, PortLinks.Objects, Embedded;
      Apart(socks, links.State(), id);
      Separate();
      socks[id].userEvents := events;
      socks[id].userData := data;
      ValuesChanged(id);
      Changed();
    }

    /** A poll is under way for what the user asks for. */
    method SetPending(id: SockId)
      requires Valid() && id in socks
      modifies socks[id]
      ensures Valid() && links.Objects() == old(links.Objects()) && View() == Polling(old(View()), id)
    {
      hide PortLinks.Valid, PortLinks.State, PortLinks.Objects, Embedded;
      Apart(socks, links.State(), id);
      Separate();
      socks[id].status := Pending;
      socks[id].pendingEvents := socks[id].userEvents;
      ValuesChanged(id);
      Changed();
    }

    /** The poll is over. */
    method SetIdle(id: SockId)
      requires Valid() && id in socks
      modifies socks[id]
      ensures Valid() && links.Objects() == old(links.Objects()) && View() == Idling(old(View()), id)
    {
      hide PortLinks.Valid, PortLinks.State, PortLinks.Objects, Embedded;
      Apart(socks, links.State(), id);
      Separate();
      socks[id].status := Idle;
      socks[id].pendingEvents := 0;
      ValuesChanged(id);
      Changed();
    }

    // ---- the port's own fields ----

    /** The poll groups. */
    method SetGroups(queue: seq<Group>)
      requires Valid()
      modifies this`groups
      ensures Valid() && links.Objects() == old(links.Objects()) && socks == old(socks) && View() == old(View()).(groups := queue)
    {
      hide PortLinks.Valid, PortLinks.State, PortLinks.Objects, Embedded;
      Separate();
      groups := queue;
      links.Kept();
      assert Values() == old(Values());
    }

    /** The number of threads in GetQueuedCompletionStatusEx. */
    method SetActivePolls(polls: nat)
      requires Valid()
      modifies this`activePolls
      ensures Valid() && links.Objects() == old(links.Objects()) && socks == old(socks) && View() == old(View()).(activePolls := polls)
    {
      hide PortLinks.Valid, PortLinks.State, PortLinks.Objects, Embedded;
      Separate();
      activePolls := polls;
      links.Kept();
      assert Values() == old(Values());
    }

    /** What AFD owes. */
    ghost method SetOwed(polls: map<SockId, Poll>)
      requires Valid()
      modifies this`owed
      ensures Valid() && links.Objects() == old(links.Objects()) && socks == old(socks) && View() == old(View()).(owed := polls)
    {
      hide PortLinks.Valid, PortLinks.State, PortLinks.Objects, Embedded;
      Separate();
      owed := polls;
      links.Kept();
      assert Values() == old(Values());
    }

    lemma InView(id: SockId)
      requires Valid()
      ensures View().groups == groups && View().activePolls == activePolls && View().owed == owed
      ensures id in socks <==> id in View().socks
      ensures id in socks ==> View().socks[id] == socks[id].Value()
    {
    }

    // ---- the handlers ----

    /** sock__cancel_poll. */
    method CancelPoll(id: SockId, cancel: Afd) returns (ok: bool)
      requires Valid() && id in socks && socks[id].status.Pending?
      modifies this`owed, socks[id]
      ensures Valid() && links.Objects() == old(links.Objects()) && ok == !cancel.Failed? && socks == old(socks)
      ensures View() == if ok then WepollPort.CancelPoll(old(View()), id) else old(View())
    {
      hide PortLinks.Valid, PortLinks.State, PortLinks.Objects, PortState.Valid, PortState.View, PortState.Values;
      InView(id);
      if cancel.Failed? {
        return false;
      }
      SetOwed(AskCancel(View(), id).owed);
      SetCancelled(id);
      return true;
    }

    /** sock__delete, first half: the record goes out of use. */
    method Retire(id: SockId, cancel: Afd)
      requires Valid() && Deletable(View(), id) && id in socks && !socks[id].deletePending
      modifies this`owed, socks[id], links.Objects()
      ensures Valid() && links.Objects() <= old(links.Objects()) && socks == old(socks)
      ensures View() == Unregister(old(View()), id, cancel)
    {
      hide PortLinks.Valid, PortLinks.State, PortLinks.Objects, PortState.Valid, PortState.View, PortState.Values,
        Without, Release, Unique, Deletable;
      InView(id);
      UnlinkedBy(View(), id, cancel);
      Separate();
      if socks[id].status.Pending? {
        var _ := CancelPoll(id, cancel);
      }
      CancelSocketUpdate(id);
      UnregisterSocket(id);
      SetDeletePending(id);
    }

    /** sock__delete. */
    method SockDelete(id: SockId, force: bool, cancel: Afd)
      requires Valid() && Deletable(View(), id)
      modifies this, Footprint()
      ensures Valid() && Footprint() <= old(Footprint()) && View() == Delete(old(View()), id, force, cancel)
    {
      hide PortLinks.Valid, PortLinks.State, PortLinks.Objects, PortState.Valid, PortState.View, PortState.Values,
        Without, Release, Unique, Deletable, Unregister;
      InView(id);
      UnlinkedBy(View(), id, cancel);
      if !socks[id].deletePending {
        Retire(id, cancel);
      }
      InView(id);
      if force || socks[id].status.Idle? {
        RemoveDeletedSocket(id);
        InView(id);
        SetGroups(Release(groups, socks[id].group));
        FreeSock(id);
      } else {
        AddDeletedSocket(id);
      }
    }

    /** sock_set_event. */
    method SockSetEvent(id: SockId, events: bv32, data: nat)
      requires Valid() && id in View().socks && id !in View().deletedQueue
      modifies this, Footprint()
      ensures Valid() && Footprint() <= old(Footprint()) && View() == SetEvent(old(View()), id, events, data)
    {
      hide PortLinks.Valid, PortLinks.State, PortLinks.Objects, PortState.Valid, PortState.View, PortState.Values,
        Covers, Enqueue;
      InView(id);
      var e := events | EPOLLERR | EPOLLHUP;
      SetInterest(id, e, data);
      InView(id);
      if !Covers(socks[id].pendingEvents, e) {
        RequestSocketUpdate(id);
      }
    }

    /** sock_update; `afd` answers the one request that is made. */
    method UpdateSock(id: SockId, afd: Afd) returns (ok: bool)
      requires Valid() && Deletable(View(), id) && !View().socks[id].deletePending
      modifies this, Footprint()
      ensures Valid() && Footprint() <= old(Footprint())
      ensures Updated(View(), ok) == SockUpdate(old(View()), id, afd)
    {
      hide PortLinks.Valid, PortLinks.State, PortLinks.Objects, PortState.Valid, PortState.View, PortState.Values,
        Covers, Delete, Without, Unique;
      InView(id);
      match socks[id].status {
        case Pending =>
          if !Covers(socks[id].pendingEvents, socks[id].userEvents) {
            ok := CancelPoll(id, afd);
            if !ok {
              return;
            }
          }
        case Cancelled =>
        case Idle =>
          match afd {
            case SocketClosed =>
              SockDelete(id, false, afd);
              return true;
            case Failed =>
              return false;
            case Accepted =>
              SetOwed(Submit(View(), id, ToAfd(socks[id].userEvents)).owed);
              SetPending(id);
          }
      }
      CancelSocketUpdate(id);
      ok := true;
    }

    /** port__update_events. */
    method UpdateAll(afd: SockId -> Afd) returns (ok: bool)
      requires Valid() && Inv(View())
      modifies this, Footprint()
      ensures Valid() && Footprint() <= old(Footprint())
      ensures Updated(View(), ok) == UpdateEvents(old(View()), afd) && Inv(View())
    {
      hide PortLinks.Valid, PortLinks.State, PortLinks.Objects, PortState.Valid, PortState.View, PortState.Values,
        Inv, Deletable;
      var id := FirstUpdate();
      while id.Some?
        invariant Valid() && Footprint() <= old(Footprint())
        invariant Inv(View()) && UpdateEvents(View(), afd) == UpdateEvents(old(View()), afd)
        invariant IsFirst(id, View().updateQueue)
        decreases |View().updateQueue|
      {
        ghost var p := View();
        QueuedDeletable(p);
        SockUpdateKeeps(p, id.value, afd(id.value));
        ok := UpdateSock(id.value, afd(id.value));
        if !ok {
          return;
        }
        HeadLeaves(p, id.value, View().updateQueue);
        id := FirstUpdate();
      }
      ok := true;
    }

    method UpdateAllIfPolling(afd: SockId -> Afd)
      requires Valid() && Inv(View())
      modifies this, Footprint()
      ensures Valid() && Footprint() <= old(Footprint())
      ensures View() == UpdateIfPolling(old(View()), afd) && Inv(View())
    {
      hide PortLinks.Valid, PortLinks.State, PortLinks.Objects, PortState.Valid, PortState.View, PortState.Values,
        Inv, UpdateEvents;
      InView(0);
      if activePolls > 0 {
        var _ := UpdateAll(afd);
      }
    }

    /** sock_feed_event. */
    method FeedSock(id: SockId, c: Completion) returns (reports: seq<Report>)
      requires Valid() && Deletable(View(), id)
      modifies this, Footprint()
      ensures Valid() && Footprint() <= old(Footprint())
      ensures Fed(View(), reports) == FeedEvent(old(View()), id, c)
    {
      hide PortLinks.Valid, PortLinks.State, PortLinks.Objects, PortState.Valid, PortState.View, PortState.Values,
        Delete, Wanted, OneShot, LocallyClosed, Enqueue, Unique;
      InView(id);
      SetOwed(owed - {id});
      SetIdle(id);
      InView(id);
      assert View() == Completed(old(View()), id);
      if socks[id].deletePending || LocallyClosed(c) {
        SockDelete(id, false, Accepted);
        return [];
      }
      RequestSocketUpdate(id);
      InView(id);
      var events := Wanted(c, socks[id].userEvents);
      if events == 0 {
        return [];
      }
      reports := [Report(id, socks[id].userData, events)];
      if OneShot(socks[id].userEvents) {
        SetInterest(id, 0, socks[id].userData);
      }
    }

    /** port__feed_events. */
    method FeedAll(packets: seq<Packet>) returns (reports: seq<Report>)
      requires Valid() && Inv(View()) && OwedPackets(View().owed, packets)
      modifies this, Footprint()
      ensures Valid() && Footprint() <= old(Footprint())
      ensures Fed(View(), reports) == FeedEvents(old(View()), packets) && Inv(View())
    {
      hide PortLinks.Valid, PortLinks.State, PortLinks.Objects, PortState.Valid, PortState.View, PortState.Values,
        Inv, OwedPackets, FeedEvent, Named, Deletable;
      reports := [];
      assert packets[0..] == packets;
      for i := 0 to |packets|
        invariant Valid() && Footprint() <= old(Footprint())
        invariant Inv(View()) && OwedPackets(View().owed, packets[i..])
        invariant var g, f := FeedEvents(View(), packets[i..]), FeedEvents(old(View()), packets);
          g.port == f.port && reports + g.reports == f.reports
      {
        ghost var p, rest := View(), packets[i..];
        assert rest[1..] == packets[i + 1..] && rest[0] == packets[i];
        NamedRest(p, rest);
        FeedKeeps(p, packets[i].id, packets[i].completion);
        InvDeletable(p, packets[i].id);
        var found := FeedSock(packets[i].id, packets[i].completion);
        ghost var g := FeedEvents(View(), packets[i + 1..]);
        assert reports + (found + g.reports) == (reports + found) + g.reports;
        reports := reports + found;
      }
    }

    /** sock_new of a usable handle. */
    method SockNew(key: nat, id: SockId, spare: GroupId) returns (ok: bool)
      requires Valid() && id !in View().socks
      modifies this, Footprint()
      ensures Valid() && fresh(Footprint() - old(Footprint())) && ok == (key !in old(View()).tree)
      ensures View() == if ok then Registered(old(View()), key, id, spare) else GroupReturned(old(View()), spare)
    {
      hide PortLinks.Valid, PortLinks.State, PortLinks.Objects, PortState.Valid, PortState.View, PortState.Values,
        Acquire, Acquired, Release;
      InView(id);
      var group := Acquired(groups, spare);
      SetGroups(Acquire(groups, spare));
      var record := NewSock(group, key);
      ok := RegisterSocket(id, record, key);
      InView(id);
      if !ok {
        SetGroups(Release(groups, group));
      }
    }

    /** epoll_ctl with EPOLL_CTL_ADD. malloc gives the record's identity and, if need be, the group's. */
    method CtlAdd(key: nat, events: bv32, data: nat, based: bool, id: SockId, spare: GroupId, afd: SockId -> Afd)
      returns (refusal: Refusal)
      requires Valid() && Inv(View()) && Fresh(View(), id, spare)
      modifies this, Footprint()
      ensures Valid() && fresh(Footprint() - old(Footprint()))
      ensures refusal == WepollRuns.CtlAdd(old(View()), key, events, data, based, id, spare).refusal
      ensures Makes(old(View()), Add(key, events, data, based, id, spare, afd), View())
    {
      hide PortLinks.Valid, PortLinks.State, PortLinks.Objects, PortState.Valid, PortState.View, PortState.Values,
        Inv, Fresh, SetEvent, UpdateIfPolling, Registered, GroupReturned;
      CtlAddKeeps(View(), key, events, data, based, id, spare);
      if key == 0 || key == INVALID_SOCKET {
        return InvalidHandle;
      }
      if !based {
        return NoBaseSocket;
      }
      NewToPort(View(), key, id, spare);
      var ok := SockNew(key, id, spare);
      if !ok {
        return AlreadyExists;
      }
      SockSetEvent(id, events, data);
      UpdateAllIfPolling(afd);
      refusal := NoRefusal;
    }

    /** port_find_socket. */
    method FindSocket(key: nat) returns (id: Option<SockId>)
      requires Valid()
      ensures Valid() && View() == old(View()) && Footprint() == old(Footprint())
      ensures id == if key in View().tree then Some(View().tree[key]) else None
    {
      hide PortQueues.Valid, PortQueues.Updates, PortQueues.Deleted, SocketTree.Valid, SocketTree.Table, Embedded;
      var node := links.table.FindSocket(key);
      id := if node == null then None else Some(links.table.owner[node]);
      links.Kept();
    }

    /** epoll_ctl with EPOLL_CTL_MOD. */
    method CtlMod(key: nat, events: bv32, data: nat, afd: SockId -> Afd) returns (refusal: Refusal)
      requires Valid() && Inv(View())
      modifies this, Footprint()
      ensures Valid() && Footprint() <= old(Footprint())
      ensures refusal == if key in old(View()).tree then NoRefusal else NotFound
      ensures Makes(old(View()), Mod(key, events, data, afd), View())
    {
      hide PortLinks.Valid, PortLinks.State, PortLinks.Objects, PortState.Valid, PortState.View, PortState.Values,
        Inv, SetEvent, UpdateIfPolling, Deletable;
      CtlModKeeps(View(), key, events, data);
      RootDeletable(View(), key);
      var id := FindSocket(key);
      if id.None? {
        return NotFound;
      }
      SockSetEvent(id.value, events, data);
      UpdateAllIfPolling(afd);
      refusal := NoRefusal;
    }

    /** epoll_ctl with EPOLL_CTL_DEL. */
    method CtlDel(key: nat, cancel: Afd) returns (refusal: Refusal)
      requires Valid() && Inv(View())
      modifies this, Footprint()
      ensures Valid() && Footprint() <= old(Footprint())
      ensures refusal == if key in old(View()).tree then NoRefusal else NotFound
      ensures Makes(old(View()), Del(key, cancel), View())
    {
      hide PortLinks.Valid, PortLinks.State, PortLinks.Objects, PortState.Valid, PortState.View, PortState.Values,
        Inv, Delete, Deletable;
      CtlDelKeeps(View(), key, cancel);
      RootDeletable(View(), key);
      var id := FindSocket(key);
      if id.None? {
        return NotFound;
      }
      SockDelete(id.value, false, cancel);
      refusal := NoRefusal;
    }

    /** port_wait from taking the lock, or from going round again, until port__poll gives it up. */
    method BeginWait(afd: SockId -> Afd, retry: SockId -> Afd) returns (waiting: bool)
      requires Valid() && Inv(View())
      modifies this, Footprint()
      ensures Valid() && Footprint() <= old(Footprint())
      ensures Makes(old(View()), WaitBegin(afd, retry), View())
      ensures waiting == UpdateEvents(old(View()), afd).ok
    {
      hide PortLinks.Valid, PortLinks.State, PortLinks.Objects, PortState.Valid, PortState.View, PortState.Values,
        Inv, UpdateEvents, UpdateIfPolling;
      WaitBegunKeeps(View(), afd, retry);
      waiting := UpdateAll(afd);
      InView(0);
      if waiting {
        SetActivePolls(activePolls + 1);
      } else {
        UpdateAllIfPolling(retry);
      }
    }

    /** port_wait from the return of GetQueuedCompletionStatusEx until the lock is free again. */
    method EndWait(got: Dequeued, expired: bool, afd: SockId -> Afd, retry: SockId -> Afd)
      returns (reports: seq<Report>, waiting: bool)
      requires Valid() && Inv(View()) && Deliverable(View(), got)
      modifies this, Footprint()
      ensures Valid() && Footprint() <= old(Footprint())
      ensures Makes(old(View()), WaitEnd(got, expired, afd, retry), View())
      ensures reports == Taken(old(View()), got).reports
      ensures waiting <==> got.Came? && reports == [] && !expired && View().activePolls == old(View()).activePolls
    {
      hide PortLinks.Valid, PortLinks.State, PortLinks.Objects, PortState.Valid, PortState.View, PortState.Values,
        Inv, FeedEvents, UpdateIfPolling, WaitBegun, OwedPackets;
      InView(0);
      TakenKeeps(View(), got);
      WaitGoesOn(View(), got, expired, afd, retry);
      PollsKeeps(View(), activePolls - 1);
      SetActivePolls(activePolls - 1);
      reports, waiting := [], false;
      if got.Came? {
        reports := FeedAll(got.packets);
      }
      if GoesRound(got, reports, expired) {
        waiting := BeginWait(afd, retry);
      } else {
        UpdateAllIfPolling(afd);
      }
    }

    // ---- port_delete ----

    /** sock_force_delete. */
    method ForceDelete(id: SockId, cancel: Afd)
      requires Valid() && AllLinked(View()) && id in View().socks
      modifies this, Footprint()
      ensures Valid() && Footprint() <= old(Footprint())
      ensures AllLinked(View()) && View().socks.Keys == old(View()).socks.Keys - {id}
      ensures View().freed == old(View()).freed + {id} && View().tree.Keys <= old(View()).tree.Keys
      ensures View() == Delete(old(View()), id, true, cancel)
    {
      hide PortLinks.Valid, PortLinks.State, PortLinks.Objects, PortState.Valid, PortState.View, PortState.Values,
        AllLinked, Delete, Deletable;
      LinkedDeletable(View(), id);
      ForceDeleteKeeps(View(), id, cancel);
      SockDelete(id, true, cancel);
    }

    /** tree_root and the record around it. */
    method FirstRegistered() returns (id: Option<SockId>)
      requires Valid()
      ensures Valid() && View() == old(View()) && Footprint() == old(Footprint())
      ensures id.None? <==> View().tree == map[]
      ensures id.Some? ==> exists key :: key in View().tree && View().tree[key] == id.value
    {
      hide PortQueues.Valid, PortQueues.Updates, PortQueues.Deleted, SocketTree.Valid, SocketTree.Table, Embedded;
      var node, key := links.table.FirstSocket();
      id := if node == null then None else Some(links.table.owner[node]);
      links.Kept();
      assert id.Some? ==> key in View().tree && View().tree[key] == id.value;
    }

    method FirstDeleted() returns (id: Option<SockId>)
      requires Valid()
      ensures Valid() && View() == old(View()) && Footprint() == old(Footprint())
      ensures IsFirst(id, View().deletedQueue)
    {
      hide PortQueues.Valid, PortQueues.Updates, PortQueues.Deleted, SocketTree.Valid, SocketTree.Table, Embedded;
      var node := links.queues.FirstDeleted();
      id := if node == null then None else Some(links.queues.owner[node]);
      links.Kept();
    }

    method DeleteRegistered(cancel: SockId -> Afd)
      requires Valid() && AllLinked(View())
      modifies this, Footprint()
      ensures Valid() && Footprint() <= old(Footprint()) && AllLinked(View()) && View().tree == map[]
      ensures Accounted(View()) == Accounted(old(View()))
      ensures forall p0 :: GivenBack(p0, old(View()), cancel) ==> GivenBack(p0, View(), cancel)
    {
      hide PortLinks.Valid, PortLinks.State, PortLinks.Objects, PortState.Valid, PortState.View, PortState.Values,
        AllLinked;
      var id := FirstRegistered();
      RootsLinked(View());
      while id.Some?
        invariant Valid() && Footprint() <= old(Footprint()) && AllLinked(View())
        invariant Accounted(View()) == Accounted(old(View()))
        invariant forall p0 :: GivenBack(p0, old(View()), cancel) ==> GivenBack(p0, View(), cancel)
        invariant id.None? ==> View().tree == map[]
        invariant id.Some? ==> id.value in View().socks
        decreases |View().socks.Keys|
      {
        ghost var p := View();
        ForceDelete(id.value, cancel(id.value));
        GivesBack(p, id.value, cancel);
        id := FirstRegistered();
        RootsLinked(View());
      }
    }

    method DeleteDeleted(cancel: SockId -> Afd)
      requires Valid() && AllLinked(View()) && View().tree == map[]
      modifies this, Footprint()
      ensures Valid() && Footprint() <= old(Footprint()) && AllLinked(View()) && View().tree == map[]
      ensures View().deletedQueue == [] && Accounted(View()) == Accounted(old(View()))
      ensures forall p0 :: GivenBack(p0, old(View()), cancel) ==> GivenBack(p0, View(), cancel)
    {
      hide PortLinks.Valid, PortLinks.State, PortLinks.Objects, PortState.Valid, PortState.View, PortState.Values,
        AllLinked;
      var id := FirstDeleted();
      while id.Some?
        invariant Valid() && Footprint() <= old(Footprint()) && AllLinked(View()) && View().tree == map[]
        invariant Accounted(View()) == Accounted(old(View())) && IsFirst(id, View().deletedQueue)
        invariant forall p0 :: GivenBack(p0, old(View()), cancel) ==> GivenBack(p0, View(), cancel)
        decreases |View().socks.Keys|
      {
        LinkedFirst(View());
        ghost var p := View();
        ForceDelete(id.value, cancel(id.value));
        GivesBack(p, id.value, cancel);
        assert View().tree.Keys == {};
        id := FirstDeleted();
      }
    }

    method DeleteGroups()
      requires Valid() && forall i :: 0 <= i < |groups| ==> groups[i].size == 0
      modifies this`groups
      ensures Valid() && View() == old(View()).(groups := [])
    {
      hide PortLinks.Valid, PortLinks.State, PortLinks.Objects, PortState.Valid, PortState.View, PortState.Values;
      InView(0);
      while groups != []
        invariant Valid() && View() == old(View()).(groups := groups)
        invariant forall i :: 0 <= i < |groups| ==> groups[i].size == 0
      {
        assert groups[0].size == 0;
        SetGroups(groups[1..]);
        InView(0);
      }
      InView(0);
    }

    /** port_delete, whatever is still registered, queued or owed. The asserts of the C code hold: every
        group is empty when it is deleted, and nothing is left in the update queue. */
    method PortDelete(cancel: SockId -> Afd)
      requires Valid() && Inv(View())
      modifies this, Footprint()
      ensures Valid()
      ensures var p := View(); p.socks == map[] && p.tree == map[] && p.updateQueue == [] && p.deletedQueue == [] && p.groups == []
      ensures var p, p' := old(View()), View(); p'.freed == p.freed + p.socks.Keys && p.socks.Keys !! p.freed
      // AFD is asked to give back each poll that is still pending.
      ensures var p, p' := old(View()), View(); forall id :: id in p.owed ==>
        && id in p.socks && id in p'.owed && p'.owed[id].mask == p.owed[id].mask
        && (p'.owed[id].cancelled <==> p.owed[id].cancelled || Cancellable(p, id, cancel))
    {
      hide PortLinks.Valid, PortLinks.State, PortLinks.Objects, PortState.Valid, PortState.View, PortState.Values,
        AllLinked, Inv;
      ghost var p := View();
      InvLinked(p);
      NoneGivenBack(p, cancel);
      DeleteRegistered(cancel);
      DeleteDeleted(cancel);
      LinkedNothing(View());
      InView(0);
      DeleteGroups();
      AllGivenBack(p, View(), cancel);
    }
  }

  /** port_new. */
  method NewPort() returns (port: PortState)
    ensures fresh(port) && port.Valid() && port.View() == Empty() && Inv(port.View()) && fresh(port.Footprint())
  {
    hide PortLinks.Valid, PortLinks.State, PortLinks.Objects, Inv;
    var links, objects := NewLinks();
    label Made:
    port := new PortState(links);
    links.Kept@Made();
    WepollSafety.EmptyInv();
  }

  /** Each record has its own two nodes, and no other node is known to the links. */
  ghost predicate Embedded(socks: map<SockId, SockState>, s: LinkState) {
    && (forall id :: id in socks ==> Owns(socks[id], s, id))
    && (forall n :: n in s.queueOwner ==> s.queueOwner[n] in socks && socks[s.queueOwner[n]].queueNode == n)
    && (forall n :: n in s.treeOwner ==> s.treeOwner[n] in socks && socks[s.treeOwner[n]].treeNode == n)
  }

  ghost predicate Owns(record: SockState, s: LinkState, id: SockId) {
    && record.queueNode in s.queueOwner && s.queueOwner[record.queueNode] == id
    && record.treeNode in s.treeOwner && s.treeOwner[record.treeNode] == id
  }

  lemma EmbeddedWith(socks: map<SockId, SockState>, s: LinkState, id: SockId, record: SockState, key: nat)
    requires Embedded(socks, s) && id !in socks
    requires record.queueNode !in s.queueOwner && record.treeNode !in s.treeOwner
    ensures id !in s.queueOwner.Values && id !in s.treeOwner.Values
    ensures Embedded(socks[id := record], Entered(s, record.queueNode, record.treeNode, key, id))
  {
    assert forall other :: other in socks ==> Owns(socks[other], s, other);
  }

  lemma EmbeddedWithout(socks: map<SockId, SockState>, s: LinkState, id: SockId)
    requires Embedded(socks, s) && id in socks
    ensures Owns(socks[id], s, id)
    ensures Embedded(socks - {id}, s.(
      queueOwner := s.queueOwner - {socks[id].queueNode}, treeOwner := s.treeOwner - {socks[id].treeNode}))
  {
    assert Owns(socks[id], s, id);
    assert forall other :: other in socks ==> Owns(socks[other], s, other);
  }

  /** Different records are different objects. */
  lemma Apart(socks: map<SockId, SockState>, s: LinkState, id: SockId)
    requires Embedded(socks, s) && id in socks
    ensures forall other :: other in socks && other != id ==> socks[other] != socks[id]
  {
    assert Owns(socks[id], s, id);
    assert forall other :: other in socks ==> Owns(socks[other], s, other);
  }

  /** What each link operation does to the port. */
  function UpdateCancelled(p: Port, id: SockId): Port {
    p.(updateQueue := Without(p.updateQueue, id))
  }

  function DeletedAdded(p: Port, id: SockId): Port {
    p.(deletedQueue := Enqueue(p.deletedQueue, id))
  }

  function DeletedRemoved(p: Port, id: SockId): Port {
    p.(deletedQueue := Without(p.deletedQueue, id))
  }

  predicate InTable(p: Port, id: SockId) {
    id in p.socks && p.socks[id].key in p.tree && p.tree[p.socks[id].key] == id
  }

  function OutOfTable(p: Port, id: SockId): Port
    requires id in p.socks
  {
    p.(tree := p.tree - {p.socks[id].key})
  }

  function WithSock(p: Port, id: SockId, s: Sock): Port {
    p.(socks := p.socks[id := s], tree := p.tree[s.key := id])
  }

  predicate FreeOfLinks(p: Port, id: SockId) {
    id !in p.updateQueue && id !in p.deletedQueue && forall key :: key in p.tree ==> p.tree[key] != id
  }

  function WithoutSock(p: Port, id: SockId): Port {
    p.(socks := p.socks - {id}, freed := p.freed + {id})
  }

  function DeletePending(p: Port, id: SockId): Port
    requires id in p.socks
  {
    Update(p, id, p.socks[id].(deletePending := true))
  }

  function Interested(p: Port, id: SockId, events: bv32, data: nat): Port
    requires id in p.socks
  {
    Update(p, id, p.socks[id].(userEvents := events, userData := data))
  }

  function Polling(p: Port, id: SockId): Port
    requires id in p.socks
  {
    Update(p, id, p.socks[id].(status := Pending, pendingEvents := p.socks[id].userEvents))
  }

  function Idling(p: Port, id: SockId): Port
    requires id in p.socks
  {
    Update(p, id, p.socks[id].(status := Idle, pendingEvents := 0))
  }

  /** What wepoll relies on when it deletes a record: where it is linked, and that it is nowhere twice. */
  predicate Deletable(p: Port, id: SockId) {
    && id in p.socks && LinkedSock(p, id)
    && Unique(p.updateQueue) && Unique(p.deletedQueue)
    && forall key :: key in p.tree && p.tree[key] == id ==> key == p.socks[id].key && !p.socks[id].deletePending
  }

  /** One critical section of the runs. */
  ghost predicate Makes(p: Port, step: Step, p': Port) {
    Inv(p) && Enabled(p, step) && p' == Apply(p, step) && Inv(p')
  }

  predicate IsFirst(id: Option<SockId>, queue: seq<SockId>) {
    match id
    case None => queue == []
    case Some(first) => queue != [] && queue[0] == first
  }

  lemma InvDeletable(p: Port, id: SockId)
    requires Inv(p) && id in p.socks
    ensures Deletable(p, id) && (id in p.updateQueue ==> !p.socks[id].deletePending)
  {
    hide Unique, GroupsOk, GroupOf, Watched;
    assert SockOk(p, id);
  }

  lemma RootDeletable(p: Port, key: nat)
    requires Inv(p)
    ensures key in p.tree ==> var id := p.tree[key]; Deletable(p, id) && id !in p.deletedQueue
  {
    hide Unique, GroupsOk, GroupOf, Watched, SockOk;
    if key in p.tree {
      InvDeletable(p, p.tree[key]);
    }
  }

  lemma NewToPort(p: Port, key: nat, id: SockId, spare: GroupId)
    requires Inv(p) && Fresh(p, id, spare)
    ensures id !in p.socks && id in Registered(p, key, id, spare).socks && id !in Registered(p, key, id, spare).deletedQueue
  {
  }

  lemma QueuedDeletable(p: Port)
    requires Inv(p)
    ensures p.updateQueue != [] ==>
      var id := p.updateQueue[0]; id in p.updateQueue && Deletable(p, id) && !p.socks[id].deletePending
  {
    hide Unique, GroupsOk, GroupOf, Watched, SockOk, Deletable;
    if p.updateQueue != [] {
      assert p.updateQueue[0] in p.updateQueue;
      InvDeletable(p, p.updateQueue[0]);
    }
  }

  /** Out of the table and the queue of updates, the record is free of links but for the deleted queue. */
  lemma UnlinkedBy(p: Port, id: SockId, cancel: Afd)
    requires Deletable(p, id)
    ensures id in p.socks && (!p.socks[id].deletePending ==> id !in p.deletedQueue && InTable(p, id))
    ensures var p1 := if p.socks[id].deletePending then p else Unregister(p, id, cancel);
      id !in p1.updateQueue && FreeOfLinks(DeletedRemoved(p1, id), id)
  {
    hide Unique;
    WithoutIs(p.updateQueue, id);
    WithoutIs(p.deletedQueue, id);
  }

  function Cancelling(p: Port, id: SockId): Port
    requires id in p.socks
  {
    Update(p, id, p.socks[id].(status := Cancelled, pendingEvents := 0))
  }

  /** The part of the invariant that a forced deletion keeps: completions may be owed to nobody. */
  ghost predicate AllLinked(p: Port) {
    LinkedTree(p) && LinkedSocks(p) && LinkedQueues(p) && GroupsOk(p.groups, GroupOf(p.socks))
  }

  ghost predicate LinkedTree(p: Port) {
    forall k :: k in p.tree ==> p.tree[k] in p.socks && p.socks[p.tree[k]].key == k && !p.socks[p.tree[k]].deletePending
  }

  ghost predicate LinkedSocks(p: Port) {
    forall id :: id in p.socks ==> LinkedSock(p, id)
  }

  ghost predicate LinkedQueues(p: Port) {
    && (forall id :: id in p.updateQueue ==> id in p.socks) && (forall id :: id in p.deletedQueue ==> id in p.socks)
    && Unique(p.updateQueue) && Unique(p.deletedQueue)
  }

  predicate LinkedSock(p: Port, id: SockId)
    requires id in p.socks
  {
    if p.socks[id].deletePending then id in p.deletedQueue && id !in p.updateQueue
    else p.socks[id].key in p.tree && p.tree[p.socks[id].key] == id && id !in p.deletedQueue
  }

  lemma InvLinked(p: Port)
    requires Inv(p)
    ensures AllLinked(p) && p.socks.Keys !! p.freed
  {
    hide Unique, GroupsOk, GroupOf, Watched;
    forall id | id in p.socks ensures LinkedSock(p, id) {
      assert SockOk(p, id);
    }
  }

  /** Deleting the record asks AFD to cancel its poll, and AFD agrees. */
  predicate Cancellable(p: Port, id: SockId, cancel: SockId -> Afd)
    requires id in p.socks
  {
    p.socks[id].status.Pending? && !p.socks[id].deletePending && !cancel(id).Failed?
  }

  /** Since `p0` records have only been deleted, with these answers to their cancellation. */
  ghost predicate GivenBack(p0: Port, p: Port, cancel: SockId -> Afd) {
    && p.owed.Keys == p0.owed.Keys && p.socks.Keys <= p0.socks.Keys
    && (forall id :: id in p.socks ==> p.socks[id] == p0.socks[id])
    && forall id :: id in p.owed && id in p0.socks ==>
         p.owed[id] == if id !in p.socks && Cancellable(p0, id, cancel) then p0.owed[id].(cancelled := true) else p0.owed[id]
  }

  lemma NoneGivenBack(p: Port, cancel: SockId -> Afd)
    ensures GivenBack(p, p, cancel)
  {
  }

  lemma GivesBack(p: Port, id: SockId, cancel: SockId -> Afd)
    requires AllLinked(p) && id in p.socks
    ensures forall p0 :: GivenBack(p0, p, cancel) ==> GivenBack(p0, Delete(p, id, true, cancel(id)), cancel)
  {
    hide Delete, AllLinked;
    ForcedFields(p, id, cancel(id));
    DeleteAsks(p, id, true, cancel(id));
  }

  lemma AllGivenBack(p: Port, p': Port, cancel: SockId -> Afd)
    requires Inv(p) && GivenBack(p, p', cancel) && p'.socks == map[]
    ensures forall id :: id in p.owed ==>
      && id in p.socks && id in p'.owed && p'.owed[id].mask == p.owed[id].mask
      && (p'.owed[id].cancelled <==> p.owed[id].cancelled || Cancellable(p, id, cancel))
  {
    hide GroupsOk, Unique;
  }

  /** The records that are still there or have been freed. */
  function Accounted(p: Port): set<SockId> {
    p.freed + p.socks.Keys
  }

  lemma LinkedDeletable(p: Port, id: SockId)
    requires AllLinked(p) && id in p.socks
    ensures Deletable(p, id)
  {
    hide Unique, GroupsOk, GroupOf;
    assert LinkedSock(p, id);
  }

  lemma RootsLinked(p: Port)
    requires AllLinked(p)
    ensures forall key :: key in p.tree ==> p.tree[key] in p.socks
  {
  }

  lemma LinkedFirst(p: Port)
    requires AllLinked(p) && p.deletedQueue != []
    ensures p.deletedQueue[0] in p.socks && p.socks[p.deletedQueue[0]].deletePending
  {
    assert p.deletedQueue[0] in p.deletedQueue;
    assert LinkedSock(p, p.deletedQueue[0]);
  }

  lemma RetiredFields(p: Port, id: SockId, cancel: Afd)
    requires id in p.socks
    ensures var p' := Unregister(p, id, cancel);
      && id in p'.socks && p'.socks - {id} == p.socks - {id} && p'.socks[id].group == p.socks[id].group
      && p'.freed == p.freed && p'.updateQueue == Without(p.updateQueue, id) && p'.deletedQueue == p.deletedQueue
      && p'.tree == p.tree - {p.socks[id].key} && p'.groups == p.groups
  {
    hide Without;
  }

  lemma ForcedFields(p: Port, id: SockId, cancel: Afd)
    requires AllLinked(p) && id in p.socks
    ensures var p' := Delete(p, id, true, cancel); var s := p.socks[id];
      && p'.socks == p.socks - {id} && p'.freed == p.freed + {id}
      && p'.updateQueue == Without(p.updateQueue, id) && p'.deletedQueue == Without(p.deletedQueue, id)
      && p'.tree == (if s.deletePending then p.tree else p.tree - {s.key}) && p'.groups == Release(p.groups, s.group)
  {
    hide Unique, GroupsOk, GroupOf, Release, Unregister, Without;
    assert LinkedSock(p, id);
    if p.socks[id].deletePending {
      NotThere(p.updateQueue, id);
    } else {
      RetiredFields(p, id, cancel);
    }
  }

  /** sock_force_delete frees exactly this socket, owed or not. */
  lemma ForceDeleteKeeps(p: Port, id: SockId, cancel: Afd)
    requires AllLinked(p) && id in p.socks
    ensures var p' := Delete(p, id, true, cancel);
      && AllLinked(p') && p'.socks.Keys == p.socks.Keys - {id} && |p'.socks| < |p.socks| && p'.freed == p.freed + {id}
      && p'.tree.Keys <= p.tree.Keys
  {
    hide LinkedTree, LinkedSocks, LinkedQueues, GroupsOk, GroupOf, Without, Delete;
    ForcedFields(p, id, cancel);
    ForcedQueues(p, id, cancel);
    ForcedTree(p, id, cancel);
    ForcedGroups(p, id, cancel);
    Fewer(p.socks, id);
  }

  lemma ForcedQueues(p: Port, id: SockId, cancel: Afd)
    requires AllLinked(p) && id in p.socks
    ensures LinkedQueues(Delete(p, id, true, cancel))
  {
    hide Unique, GroupsOk, GroupOf, Without, Delete, LinkedTree, LinkedSocks;
    ForcedFields(p, id, cancel);
    WithoutIs(p.updateQueue, id);
    WithoutIs(p.deletedQueue, id);
  }

  lemma ForcedTree(p: Port, id: SockId, cancel: Afd)
    requires AllLinked(p) && id in p.socks
    ensures LinkedTree(Delete(p, id, true, cancel)) && LinkedSocks(Delete(p, id, true, cancel))
  {
    hide Unique, GroupsOk, GroupOf, Without, Delete;
    var p' := Delete(p, id, true, cancel);
    ForcedFields(p, id, cancel);
    WithoutIs(p.updateQueue, id);
    WithoutIs(p.deletedQueue, id);
    assert LinkedSock(p, id);
    forall other | other in p'.socks ensures LinkedSock(p', other) {
      assert LinkedSock(p, other);
    }
  }

  lemma Fewer(socks: map<SockId, Sock>, id: SockId)
    requires id in socks
    ensures |socks - {id}| < |socks|
  {
    assert (socks - {id}).Keys == socks.Keys - {id};
    assert |(socks - {id}).Keys| == |socks - {id}|;
  }

  lemma ForcedGroups(p: Port, id: SockId, cancel: Afd)
    requires AllLinked(p) && id in p.socks
    ensures var p' := Delete(p, id, true, cancel); GroupsOk(p'.groups, GroupOf(p'.socks))
  {
    hide GroupsOk, Release, Delete, LinkedTree, LinkedSocks, LinkedQueues;
    ForcedFields(p, id, cancel);
    ReleaseKeeps(p.groups, GroupOf(p.socks), id);
    assert GroupOf(p.socks - {id}) == GroupOf(p.socks) - {id};
  }

  lemma LinkedNothing(p: Port)
    requires AllLinked(p) && p.tree == map[] && p.deletedQueue == []
    ensures p.socks == map[] && p.updateQueue == [] && forall i :: 0 <= i < |p.groups| ==> p.groups[i].size == 0
  {
    hide GroupsOk, GroupOf, Unique;
    assert forall id :: id in p.socks ==> LinkedSock(p, id);
    assert p.socks.Keys == {};
    assert p.socks == map[];
    HeadListed(p.updateQueue);
    NoGroups();
    EmptyGroups(p.groups);
  }

  lemma HeadListed(q: seq<SockId>)
    ensures q != [] ==> q[0] in q
  {
  }

  lemma NoGroups()
    ensures GroupOf(map[]) == map[]
  {
  }
}
