/** The life of a socket record over every run: it is freed at most once, never while AFD owes it a
    completion, and what is reported about it was asked for. */
module WepollLifetime {
  import opened EpollEvents
  import opened PollGroups
  import opened WepollPort
  import opened WepollRuns
  import opened WepollSafety

  /** What any operation but a new registration or a MOD does to a socket; only one that feeds completions may
      clear its events. */
  predicate Follows(s: Sock, s': Sock, feeds: bool) {
    && s'.key == s.key && s'.group == s.group && s'.userData == s.userData
    && (s'.userEvents == s.userEvents || (feeds && s'.userEvents == 0))
    && (s.deletePending ==> s'.deletePending)
  }

  ghost predicate Later(p: Port, p': Port, feeds: bool := false) {
    && p.freed <= p'.freed && p.socks.Keys <= p'.socks.Keys + p'.freed && p'.socks.Keys <= p.socks.Keys
    && (forall id :: id in p'.socks ==> id in p.socks && Follows(p.socks[id], p'.socks[id], feeds))
  }

  lemma LaterTrans(p: Port, p1: Port, p2: Port, feeds: bool := false)
    requires Later(p, p1, feeds) && Later(p1, p2, feeds)
    ensures Later(p, p2, feeds)
  {
  }

  lemma LaterFed(p: Port, p': Port)
    requires Later(p, p')
    ensures Later(p, p', true)
  {
  }

  lemma DeleteLater(p: Port, id: SockId, force: bool, cancel: Afd)
    requires id in p.socks
    ensures Later(p, Delete(p, id, force, cancel)) && OthersSame(p, Delete(p, id, force, cancel), id)
    ensures id in Delete(p, id, force, cancel).socks ==> Delete(p, id, force, cancel).socks[id].deletePending
  {
    hide Without, Enqueue, Release, Unregister;
    if !p.socks[id].deletePending {
      UnregisterLater(p, id, cancel);
      FreeLater(p, Unregister(p, id, cancel), id);
    } else {
      LaterSelf(p);
      FreeLater(p, p, id);
    }
  }

  lemma LaterSelf(p: Port)
    ensures Later(p, p)
  {
  }

  lemma UnregisterLater(p: Port, id: SockId, cancel: Afd)
    requires id in p.socks
    ensures var p' := Unregister(p, id, cancel);
      Later(p, p') && OthersSame(p, p', id) && p'.socks.Keys == p.socks.Keys && p'.socks[id].deletePending
  {
    hide Without;
  }

  lemma FreeLater(p: Port, p1: Port, id: SockId)
    requires Later(p, p1) && OthersSame(p, p1, id) && id in p1.socks
    ensures Later(p, Free(p1, id)) && OthersSame(p, Free(p1, id), id) && id !in Free(p1, id).socks
    ensures forall q :: Later(p, p1.(deletedQueue := q)) && OthersSame(p, p1.(deletedQueue := q), id)
  {
    hide Without, Release;
  }

  lemma SockUpdateLater(p: Port, id: SockId, afd: Afd)
    requires id in p.socks
    ensures Later(p, SockUpdate(p, id, afd).port)
  {
    hide Without, Delete, Covers;
    DeleteLater(p, id, false, afd);
  }

  lemma {:induction false} UpdateEventsLater(p: Port, afd: SockId -> Afd)
    requires Inv(p)
    ensures Later(p, UpdateEvents(p, afd).port)
    decreases |p.updateQueue|
  {
    hide Inv, SockUpdate, Later;
    if p.updateQueue == [] {
      LaterSame(p);
    } else {
      var id := p.updateQueue[0];
      SockUpdateKeeps(p, id, afd(id));
      SockUpdateLater(p, id, afd(id));
      var u := SockUpdate(p, id, afd(id));
      if u.ok {
        HeadLeaves(p, id, u.port.updateQueue);
        UpdateEventsLater(u.port, afd);
        LaterTrans(p, u.port, UpdateEvents(u.port, afd).port);
      }
    }
  }

  lemma LaterSame(p: Port)
    ensures forall n, q :: Later(p, p.(activePolls := n, updateQueue := q))
  {
  }

  lemma CompletedLater(p: Port, id: SockId)
    requires id in p.socks
    ensures var p1 := Completed(p, id); id in p1.socks && Later(p, p1) && OthersSame(p, p1, id)
  {
  }

  lemma RequestLater(p: Port, id: SockId)
    requires id in p.socks
    ensures Later(p, Request(p, id)) && OthersSame(p, Request(p, id), id) && id in Request(p, id).socks
    ensures var p1 := Update(Request(p, id), id, p.socks[id].(userEvents := 0)); Later(p, p1, true) && OthersSame(p, p1, id)
  {
    hide Enqueue;
  }

  lemma OthersTrans(p: Port, p1: Port, p2: Port, id: SockId)
    requires OthersSame(p, p1, id) && OthersSame(p1, p2, id)
    ensures OthersSame(p, p2, id)
  {
  }

  lemma FeedEventLater(p: Port, id: SockId, c: Completion)
    requires id in p.socks
    ensures Later(p, FeedEvent(p, id, c).port, true) && OthersSame(p, FeedEvent(p, id, c).port, id)
  {
    hide *;
    CompletedLater(p, id);
    FeedWays(p, id, c);
    var p1 := Completed(p, id);
    DeleteLater(p1, id, false, Accepted);
    RequestLater(p1, id);
    LaterFed(p, p1);
    LaterFed(p1, Delete(p1, id, false, Accepted));
    LaterFed(p1, Request(p1, id));
    LaterTrans(p, p1, FeedEvent(p, id, c).port, true);
    OthersTrans(p, p1, FeedEvent(p, id, c).port, id);
  }

  lemma {:induction false} FeedEventsLater(p: Port, packets: seq<Packet>)
    requires Inv(p) && OwedPackets(p.owed, packets)
    ensures Later(p, FeedEvents(p, packets).port, true)
    decreases |packets|
  {
    hide Inv, FeedEvent, OwedPackets, Later, Named;
    if packets == [] {
      LaterSame(p);
      assert p == p.(activePolls := p.activePolls, updateQueue := p.updateQueue);
      LaterFed(p, p);
    } else {
      NamedRest(p, packets);
      FeedKeeps(p, packets[0].id, packets[0].completion);
      FeedEventLater(p, packets[0].id, packets[0].completion);
      var p1 := FeedEvent(p, packets[0].id, packets[0].completion).port;
      FeedEventsLater(p1, packets[1..]);
      LaterTrans(p, p1, FeedEvents(p1, packets[1..]).port, true);
    }
  }

  lemma IfPollingLater(p: Port, afd: SockId -> Afd)
    requires Inv(p)
    ensures Later(p, UpdateIfPolling(p, afd))
  {
    hide Inv, Later, UpdateEvents;
    UpdateEventsLater(p, afd);
    LaterSame(p);
    assert p == p.(activePolls := p.activePolls, updateQueue := p.updateQueue);
  }

  lemma WaitLater(p: Port, afd: SockId -> Afd, retry: SockId -> Afd)
    requires Inv(p)
    ensures Later(p, WaitBegun(p, afd, retry))
  {
    hide Inv, Later, UpdateEvents, UpdateIfPolling;
    UpdateEventsKeeps(p, afd);
    UpdateEventsLater(p, afd);
    var p1 := UpdateEvents(p, afd).port;
    LaterSame(p1);
    IfPollingLater(p1, retry);
    assert Later(p1, p1.(activePolls := p1.activePolls + 1, updateQueue := p1.updateQueue));
    LaterTrans(p, p1, WaitBegun(p, afd, retry));
  }

  lemma TakenLater(p: Port, got: Dequeued)
    requires Inv(p) && Deliverable(p, got)
    ensures Later(p, Taken(p, got).port, true)
  {
    hide Inv, Later, FeedEvents, OwedPackets;
    var p1 := p.(activePolls := p.activePolls - 1);
    PollsKeeps(p, p.activePolls - 1);
    LaterSame(p);
    assert Later(p, p.(activePolls := p.activePolls - 1, updateQueue := p.updateQueue));
    LaterFed(p, p1);
    if got.Came? {
      FeedEventsLater(p1, got.packets);
      LaterTrans(p, p1, Taken(p, got).port, true);
    }
  }

  // ---- reports ----

  /** A report about a registered socket, with its own data and only events that were asked for. */
  predicate Asked(p: Port, r: Report) {
    && r.id in p.socks && !p.socks[r.id].deletePending && r.data == p.socks[r.id].userData
    && r.events != 0 && r.events & !p.socks[r.id].userEvents == 0
  }

  lemma FeedEventReports(p: Port, id: SockId, c: Completion)
    requires id in p.socks
    ensures var f := FeedEvent(p, id, c); |f.reports| <= 1 && forall r :: r in f.reports ==> r.id == id && Asked(p, r)
  {
    hide Delete, Enqueue, Found, LocallyClosed;
    Masked(Found(c), p.socks[id].userEvents);
  }

  lemma Masked(a: bv32, b: bv32)
    ensures a & b & !b == 0
  {
  }

  /** One batch of packets: at most one report each, about different sockets, all asked for. */
  lemma {:induction false} FeedEventsReports(p: Port, packets: seq<Packet>)
    requires Inv(p) && OwedPackets(p.owed, packets)
    ensures var rs := FeedEvents(p, packets).reports;
      && |rs| <= |packets|
      && (forall r :: r in rs ==> r.id in Named(packets) && Asked(p, r))
      && (forall i, j :: 0 <= i < j < |rs| ==> rs[i].id != rs[j].id)
    decreases |packets|
  {
    hide Inv, FeedEvent, OwedPackets, Named, Asked;
    if packets != [] {
      NamedRest(p, packets);
      var id := packets[0].id;
      FeedKeeps(p, id, packets[0].completion);
      FeedEventLater(p, id, packets[0].completion);
      FeedEventReports(p, id, packets[0].completion);
      var f := FeedEvent(p, id, packets[0].completion);
      FeedEventsReports(f.port, packets[1..]);
      var g := FeedEvents(f.port, packets[1..]);
      FirstNotNamed(p, packets);
      forall r | r in g.reports ensures r.id != id && Asked(p, r) {
        StillAsked(p, f.port, id, r);
      }
    }
  }

  lemma FirstNotNamed(p: Port, packets: seq<Packet>)
    requires packets != [] && OwedPackets(p.owed, packets)
    ensures packets[0].id !in Named(packets[1..])
  {
  }

  lemma StillAsked(p: Port, p': Port, id: SockId, r: Report)
    requires Later(p, p', true) && OthersSame(p, p', id) && Asked(p', r) && r.id != id
    ensures Asked(p, r)
  {
  }

  /** From the socket to the user: AFD reports of what is true of the socket what the poll was submitted for. While
      it watches the socket and its cancellation was not asked for, anything true that the user's events ask for,
      short of the socket's closing, ends in a report with the user's own data. */
  lemma EventReachesUser(p: Port, id: SockId, s: Sock, mask: bv32, truth: bv32, afdEvents: bv32, events: bv32)
    requires id in p.socks && s == p.socks[id] && !s.deletePending
    requires Watched(p, id) && p.owed[id] == Poll(mask, false)
    requires truth & ToAfd(s.userEvents) & !AFD_LOCAL_CLOSE != 0 && truth & AFD_LOCAL_CLOSE == 0
    requires afdEvents == truth & mask && events == ToEpoll(afdEvents) & s.userEvents
    ensures events != 0 && FeedEvent(p, id, Reported(afdEvents)).reports == [Report(id, s.userData, events)]
  {
    hide *;
    WatchedCovers(p, id, mask);
    CoveredReaches(p, id, s, mask, truth, afdEvents, events);
  }

  lemma CoveredReaches(p: Port, id: SockId, s: Sock, mask: bv32, truth: bv32, afdEvents: bv32, events: bv32)
    requires id in p.socks && s == p.socks[id] && !s.deletePending && AfdCovers(mask, s.userEvents)
    requires truth & ToAfd(s.userEvents) & !AFD_LOCAL_CLOSE != 0 && truth & AFD_LOCAL_CLOSE == 0
    requires afdEvents == truth & mask && events == ToEpoll(afdEvents) & s.userEvents
    ensures events != 0 && FeedEvent(p, id, Reported(afdEvents)).reports == [Report(id, s.userData, events)]
  {
    hide *;
    WantedHere(mask, s.userEvents, truth, afdEvents);
    FeedReports(p, id, s, Reported(afdEvents), events);
  }

  lemma WatchedCovers(p: Port, id: SockId, mask: bv32)
    requires id in p.socks && Watched(p, id) && p.owed[id] == Poll(mask, false)
    ensures AfdCovers(mask, p.socks[id].userEvents)
  {
  }

  lemma WantedIs(afdEvents: bv32, wanted: bv32)
    ensures Wanted(Reported(afdEvents), wanted) == ToEpoll(afdEvents) & wanted
    ensures afdEvents & AFD_LOCAL_CLOSE == 0 ==> !LocallyClosed(Reported(afdEvents))
  {
    hide ToEpoll;
  }

  lemma WantedHere(mask: bv32, wanted: bv32, truth: bv32, afdEvents: bv32)
    requires AfdCovers(mask, wanted) && afdEvents == truth & mask
    requires truth & ToAfd(wanted) & !AFD_LOCAL_CLOSE != 0 && truth & AFD_LOCAL_CLOSE == 0
    ensures !LocallyClosed(Reported(afdEvents)) && Wanted(Reported(afdEvents), wanted) == ToEpoll(afdEvents) & wanted
    ensures ToEpoll(afdEvents) & wanted != 0
  {
    hide *;
    Delivered(mask, wanted, truth);
    NotClosed(truth, mask);
    WantedIs(afdEvents, wanted);
  }

  lemma FeedReports(p: Port, id: SockId, s: Sock, c: Completion, events: bv32)
    requires id in p.socks && s == p.socks[id] && !s.deletePending && !LocallyClosed(c)
    requires events == Wanted(c, s.userEvents) && events != 0
    ensures FeedEvent(p, id, c).reports == [Report(id, s.userData, events)]
  {
    hide Delete, Enqueue, Wanted, LocallyClosed, OneShot;
  }

  lemma NotClosed(truth: bv32, asked: bv32)
    requires truth & AFD_LOCAL_CLOSE == 0
    ensures (truth & asked) & AFD_LOCAL_CLOSE == 0
  {
  }

  // ---- runs ----

  function Reports(p: Port, step: Step): seq<Report>
    requires Inv(p) && Enabled(p, step)
  {
    if step.WaitEnd? then Taken(p, step.got).reports else []
  }

  /** `id` names a socket with this key that has been told to be silent, or a freed one. */
  predicate Silent(p: Port, id: SockId, key: nat) {
    if id in p.socks then p.socks[id].key == key && (p.socks[id].userEvents == 0 || p.socks[id].deletePending)
    else id in p.freed
  }

  lemma LaterSilent(p: Port, p': Port, id: SockId, key: nat, feeds: bool := false)
    requires Later(p, p', feeds) && Silent(p, id, key)
    ensures Silent(p', id, key)
  {
  }

  lemma FreedOrKept(p: Port, step: Step)
    requires Inv(p) && Enabled(p, step)
    ensures var p' := Apply(p, step); p.freed <= p'.freed && p.socks.Keys <= p'.socks.Keys + p'.freed
  {
    hide Inv, UpdateIfPolling, WaitBegun, Taken, Deliverable, GoesRound, Delete, SetEvent, Registered;
    match step
    case Add(key, events, data, based, id, spare, afd) =>
      CtlAddKeeps(p, key, events, data, based, id, spare);
      AddSilent(p, key, events, data, based, id, spare);
      IfPollingLater(CtlAdd(p, key, events, data, based, id, spare).port, afd);
    case Mod(key, events, data, afd) =>
      CtlModKeeps(p, key, events, data);
      ModSame(p, key, events, data);
      IfPollingLater(CtlMod(p, key, events, data).port, afd);
    case Del(key, cancel) =>
      CtlDelKeeps(p, key, cancel);
      if key in p.tree {
        DeleteLater(p, p.tree[key], false, cancel);
      }
    case WaitBegin(afd, retry) => WaitLater(p, afd, retry);
    case WaitEnd(got, expired, afd, retry) => EndLater(p, step);
  }

  lemma EndLater(p: Port, step: Step)
    requires Inv(p) && step.WaitEnd? && Enabled(p, step)
    ensures Later(p, Apply(p, step), true)
  {
    hide Inv, Later, UpdateIfPolling, WaitBegun, Taken, Deliverable, GoesRound;
    TakenKeeps(p, step.got);
    TakenLater(p, step.got);
    var p1 := Taken(p, step.got).port;
    WaitLater(p1, step.afd, step.retry);
    IfPollingLater(p1, step.afd);
    LaterFed(p1, Apply(p, step));
    LaterTrans(p, p1, Apply(p, step), true);
  }

  /** A new registration leaves the other sockets as they were. */
  lemma AddSilent(p: Port, key: nat, events: bv32, data: nat, based: bool, id: SockId, spare: nat)
    requires Fresh(p, id, spare)
    ensures var p' := CtlAdd(p, key, events, data, based, id, spare).port;
      && p'.freed == p.freed && p.socks.Keys <= p'.socks.Keys
      && (forall other :: other in p.socks ==> other in p'.socks && p'.socks[other] == p.socks[other])
      && (forall other :: other in p'.socks && other != id ==> other in p.socks)
  {
    hide Covers, Enqueue;
  }

  lemma ModSame(p: Port, key: nat, events: bv32, data: nat)
    requires key in p.tree ==> p.tree[key] in p.socks
    ensures var p' := CtlMod(p, key, events, data).port;
      p'.freed == p.freed && p'.socks.Keys == p.socks.Keys
      && forall other :: other in p.socks && !(key in p.tree && p.tree[key] == other) ==> p'.socks[other] == p.socks[other]
  {
    hide Covers, Enqueue;
  }

  /** A socket that has been silenced says nothing and stays silent until a MOD of its key. */
  lemma StepSilent(p: Port, step: Step, id: SockId, key: nat)
    requires Inv(p) && Enabled(p, step) && Silent(p, id, key) && !(step.Mod? && step.key == key)
    ensures Silent(Apply(p, step), id, key)
    ensures forall r :: r in Reports(p, step) ==> r.id != id
  {
    hide Inv, CtlAdd, CtlMod, UpdateIfPolling, WaitBegun, Taken, Deliverable, GoesRound, Delete, SetEvent, Later,
      Silent;
    match step
    case Add(k, events, data, based, newId, spare, afd) =>
      CtlAddKeeps(p, k, events, data, based, newId, spare);
      AddSilent(p, k, events, data, based, newId, spare);
      SilentKnown(p, newId, spare, id, key);
      var p1 := CtlAdd(p, k, events, data, based, newId, spare).port;
      SilentAgain(p, p1, id, key);
      IfPollingLater(p1, afd);
      LaterSilent(p1, UpdateIfPolling(p1, afd), id, key);
    case Mod(k, events, data, afd) =>
      CtlModKeeps(p, k, events, data);
      ModSame(p, k, events, data);
      var p1 := CtlMod(p, k, events, data).port;
      OtherKey(p, k, id, key);
      SilentAgain(p, p1, id, key);
      IfPollingLater(p1, afd);
      LaterSilent(p1, UpdateIfPolling(p1, afd), id, key);
    case Del(k, cancel) =>
      CtlDelKeeps(p, k, cancel);
      if k in p.tree {
        DeleteLater(p, p.tree[k], false, cancel);
        LaterSilent(p, Apply(p, step), id, key);
      }
    case WaitBegin(afd, retry) =>
      WaitLater(p, afd, retry);
      LaterSilent(p, Apply(p, step), id, key);
    case WaitEnd(got, expired, afd, retry) =>
      EndLater(p, step);
      LaterSilent(p, Apply(p, step), id, key, true);
      TakenSilent(p, got, id, key);
  }

  lemma SilentKnown(p: Port, newId: SockId, spare: nat, id: SockId, key: nat)
    requires Silent(p, id, key) && Fresh(p, newId, spare)
    ensures newId != id
  {
  }

  lemma OtherKey(p: Port, k: nat, id: SockId, key: nat)
    requires Inv(p) && Silent(p, id, key) && k != key
    ensures k in p.tree && id in p.socks ==> p.tree[k] != id
  {
  }

  lemma SilentAgain(p: Port, p': Port, id: SockId, key: nat)
    requires Silent(p, id, key) && p.freed <= p'.freed
    requires id in p.socks ==> id in p'.socks && p'.socks[id] == p.socks[id]
    requires id !in p.socks ==> id !in p'.socks
    ensures Silent(p', id, key)
  {
  }

  lemma TakenSilent(p: Port, got: Dequeued, id: SockId, key: nat)
    requires Inv(p) && Deliverable(p, got) && Silent(p, id, key)
    ensures forall r :: r in Taken(p, got).reports ==> r.id != id
  {
    hide Inv, FeedEvents, OwedPackets;
    PollsKeeps(p, p.activePolls - 1);
    if got.Came? {
      FeedEventsReports(p.(activePolls := p.activePolls - 1), got.packets);
      forall r | r in Taken(p, got).reports ensures r.id != id {
        Unmasked(r.events);
      }
    }
  }

  lemma Unmasked(events: bv32)
    requires events != 0
    ensures events & !(0 as bv32) != 0
  {
  }

  /** Reporting an EPOLLONESHOT socket silences it, EPOLLERR and EPOLLHUP included. */
  lemma OneShotSilences(p: Port, id: SockId, c: Completion)
    requires id in p.socks && FeedEvent(p, id, c).reports != [] && OneShot(p.socks[id].userEvents)
    ensures Silent(FeedEvent(p, id, c).port, id, p.socks[id].key)
  {
    hide Delete, Enqueue, Wanted, LocallyClosed;
  }

  function AllReports(p: Port, steps: seq<Step>, ghost q: Port): seq<Report>
    requires Runs(p, steps, q)
    decreases |steps|
  {
    if steps == [] then [] else Reports(p, steps[0]) + AllReports(Apply(p, steps[0]), steps[1..], q)
  }

  /** Over any run: a silent socket is never reported before a MOD of its key. */
  lemma {:induction false} SilentUntilMod(p: Port, steps: seq<Step>, q: Port, id: SockId, key: nat)
    requires Inv(p) && Runs(p, steps, q) && Silent(p, id, key)
    requires forall i :: 0 <= i < |steps| && steps[i].Mod? ==> steps[i].key != key
    ensures forall r :: r in AllReports(p, steps, q) ==> r.id != id
    decreases |steps|
  {
    hide Inv, Silent, Apply, Reports, Enabled;
    if steps != [] {
      StepSilent(p, steps[0], id, key);
      ApplyKeeps(p, steps[0]);
      SilentUntilMod(Apply(p, steps[0]), steps[1..], q, id, key);
    }
  }

  // ---- what the user asked for stays ----

  predicate ReportedIn(reports: seq<Report>, id: SockId) {
    exists r :: r in reports && r.id == id
  }

  /** The record still has its key, its data and its events, but for those that a report under EPOLLONESHOT takes. */
  predicate Standing(s: Sock, s': Sock, reported: bool) {
    && s'.key == s.key && s'.userData == s.userData
    && s'.userEvents == if reported && s.userEvents & EPOLLONESHOT != 0 then 0 else s.userEvents
  }

  lemma ReportedJoin(a: seq<Report>, b: seq<Report>, id: SockId)
    ensures ReportedIn(a + b, id) <==> ReportedIn(a, id) || ReportedIn(b, id)
  {
    assert forall r :: r in a + b <==> r in a || r in b;
  }

  lemma StandingTrans(s: Sock, s1: Sock, s2: Sock, first: bool, second: bool)
    requires Standing(s, s1, first) && Standing(s1, s2, second)
    ensures Standing(s, s2, first || second)
  {
    NoOneShot();
  }

  lemma NoOneShot()
    ensures (0 as bv32) & EPOLLONESHOT == 0
  {
  }

  lemma FeedEventStands(p: Port, named: SockId, c: Completion, id: SockId)
    requires Inv(p) && named in p.owed && id in p.socks
    ensures var f := FeedEvent(p, named, c);
      id in f.port.socks ==> Standing(p.socks[id], f.port.socks[id], ReportedIn(f.reports, id))
  {
    hide *;
    FeedExact(p, named, c);
    FeedKeeps(p, named, c);
    FeedEventLater(p, named, c);
    FeedEventReports(p, named, c);
    if id == named {
      NamedStands(p, id, c);
    } else {
      OtherStands(p, named, c, id);
    }
  }

  lemma NamedStands(p: Port, id: SockId, c: Completion)
    requires Inv(p) && id in p.owed && id in p.socks
    ensures var f := FeedEvent(p, id, c);
      id in f.port.socks ==> Standing(p.socks[id], f.port.socks[id], ReportedIn(f.reports, id))
  {
    hide Inv, FeedEvent, Heard, Closed;
    FeedExact(p, id, c);
    var f := FeedEvent(p, id, c);
    if f.reports != [] {
      assert f.reports[0] in f.reports && f.reports[0].id == id;
    }
  }

  lemma OtherStands(p: Port, named: SockId, c: Completion, id: SockId)
    requires named in p.socks && id in p.socks && id != named && OthersSame(p, FeedEvent(p, named, c).port, named)
    requires forall r :: r in FeedEvent(p, named, c).reports ==> r.id == named
    ensures var f := FeedEvent(p, named, c);
      id in f.port.socks ==> Standing(p.socks[id], f.port.socks[id], ReportedIn(f.reports, id))
  {
    hide FeedEvent;
  }

  lemma {:induction false} FeedEventsStand(p: Port, packets: seq<Packet>, id: SockId)
    requires Inv(p) && OwedPackets(p.owed, packets) && id in p.socks
    ensures var f := FeedEvents(p, packets);
      id in f.port.socks ==> Standing(p.socks[id], f.port.socks[id], ReportedIn(f.reports, id))
    decreases |packets|
  {
    hide Inv, FeedEvent, OwedPackets, Named, Standing, ReportedIn, Later;
    if packets == [] {
      StandsStill(p.socks[id]);
    } else {
      NamedRest(p, packets);
      FeedKeeps(p, packets[0].id, packets[0].completion);
      FeedEventStands(p, packets[0].id, packets[0].completion, id);
      var f := FeedEvent(p, packets[0].id, packets[0].completion);
      FeedEventsLater(f.port, packets[1..]);
      var g := FeedEvents(f.port, packets[1..]);
      ReportedJoin(f.reports, g.reports, id);
      LaterKnown(f.port, g.port, id, true);
      if id in g.port.socks {
        FeedEventsStand(f.port, packets[1..], id);
        StandingTrans(p.socks[id], f.port.socks[id], g.port.socks[id], ReportedIn(f.reports, id), ReportedIn(g.reports, id));
      }
    }
  }

  lemma StandsStill(s: Sock)
    ensures Standing(s, s, false) && forall id :: !ReportedIn([], id)
  {
  }

  lemma LaterKnown(p: Port, p': Port, id: SockId, feeds: bool)
    requires Later(p, p', feeds)
    ensures id in p'.socks ==> id in p.socks && (!feeds ==> Standing(p.socks[id], p'.socks[id], false))
  {
  }

  /** A step leaves what a user asked for as it is, but for a MOD of the key and a report under EPOLLONESHOT. */
  lemma StepStands(p: Port, step: Step, id: SockId)
    requires Inv(p) && Enabled(p, step) && id in p.socks && !(step.Mod? && step.key == p.socks[id].key)
    ensures id in Apply(p, step).socks ==> Standing(p.socks[id], Apply(p, step).socks[id], ReportedIn(Reports(p, step), id))
  {
    hide Inv, CtlAdd, CtlMod, UpdateIfPolling, WaitBegun, Taken, Deliverable, GoesRound, Delete, SetEvent, Later,
      Standing, ReportedIn, Fresh;
    StandsStill(p.socks[id]);
    match step
    case Add(k, events, data, based, newId, spare, afd) =>
      CtlAddKeeps(p, k, events, data, based, newId, spare);
      AddSilent(p, k, events, data, based, newId, spare);
      var p1 := CtlAdd(p, k, events, data, based, newId, spare).port;
      IfPollingLater(p1, afd);
      LaterKnown(p1, UpdateIfPolling(p1, afd), id, false);
    case Mod(k, events, data, afd) =>
      CtlModKeeps(p, k, events, data);
      ModSame(p, k, events, data);
      NotItsKey(p, k, id);
      var p1 := CtlMod(p, k, events, data).port;
      IfPollingLater(p1, afd);
      LaterKnown(p1, UpdateIfPolling(p1, afd), id, false);
    case Del(k, cancel) =>
      CtlDelKeeps(p, k, cancel);
      if k in p.tree {
        DeleteLater(p, p.tree[k], false, cancel);
        LaterKnown(p, Apply(p, step), id, false);
      }
    case WaitBegin(afd, retry) =>
      WaitLater(p, afd, retry);
      LaterKnown(p, Apply(p, step), id, false);
    case WaitEnd(got, expired, afd, retry) => EndStands(p, step, id);
  }

  lemma NotItsKey(p: Port, k: nat, id: SockId)
    requires Inv(p) && id in p.socks && k != p.socks[id].key
    ensures k in p.tree ==> p.tree[k] != id
  {
  }

  lemma EndStands(p: Port, step: Step, id: SockId)
    requires Inv(p) && step.WaitEnd? && Enabled(p, step) && id in p.socks
    ensures id in Apply(p, step).socks ==> Standing(p.socks[id], Apply(p, step).socks[id], ReportedIn(Reports(p, step), id))
  {
    hide Inv, Later, UpdateIfPolling, WaitBegun, Taken, Deliverable, GoesRound, Standing, ReportedIn;
    TakenKeeps(p, step.got);
    TakenStands(p, step.got, id);
    var p1 := Taken(p, step.got).port;
    WaitLater(p1, step.afd, step.retry);
    IfPollingLater(p1, step.afd);
    LaterKnown(p1, Apply(p, step), id, false);
    if id in Apply(p, step).socks {
      StandingTrans(p.socks[id], p1.socks[id], Apply(p, step).socks[id], ReportedIn(Reports(p, step), id), false);
    }
  }

  lemma TakenStands(p: Port, got: Dequeued, id: SockId)
    requires Inv(p) && Deliverable(p, got) && id in p.socks
    ensures var f := Taken(p, got);
      id in f.port.socks ==> Standing(p.socks[id], f.port.socks[id], ReportedIn(f.reports, id))
  {
    hide Inv, FeedEvents, OwedPackets, Standing, ReportedIn;
    StandsStill(p.socks[id]);
    PollsKeeps(p, p.activePolls - 1);
    if got.Came? {
      FeedEventsStand(p.(activePolls := p.activePolls - 1), got.packets, id);
    }
  }

  /** Over any run: as long as its key sees no MOD, a record that is still there has the data it was registered with,
      and its events, but that a report about it has cleared them if they include EPOLLONESHOT. */
  lemma {:induction false} AskedUntilMod(p: Port, steps: seq<Step>, q: Port, id: SockId)
    requires Inv(p) && Runs(p, steps, q) && id in p.socks && id in q.socks
    requires forall i :: 0 <= i < |steps| && steps[i].Mod? ==> steps[i].key != p.socks[id].key
    ensures Standing(p.socks[id], q.socks[id], ReportedIn(AllReports(p, steps, q), id))
    decreases |steps|
  {
    hide Inv, Standing, ReportedIn, Apply, Reports, Enabled;
    if steps == [] {
      StandsStill(p.socks[id]);
    } else {
      var p1 := Apply(p, steps[0]);
      StepStands(p, steps[0], id);
      ApplyKeeps(p, steps[0]);
      FreedOrKept(p, steps[0]);
      FreedOnce(p1, steps[1..], q);
      assert id in p1.socks;
      SameKey(p.socks[id], p1.socks[id], ReportedIn(Reports(p, steps[0]), id));
      AskedUntilMod(p1, steps[1..], q, id);
      ReportedJoin(Reports(p, steps[0]), AllReports(p1, steps[1..], q), id);
      var first, later := ReportedIn(Reports(p, steps[0]), id), ReportedIn(AllReports(p1, steps[1..], q), id);
      StandingTrans(p.socks[id], p1.socks[id], q.socks[id], first, later);
    }
  }

  lemma SameKey(s: Sock, s': Sock, reported: bool)
    requires Standing(s, s', reported)
    ensures s'.key == s.key
  {
  }

  /** Over any run, with any answers of AFD: the invariant holds, no socket record is lost, a freed one
      stays freed, and none is freed while a completion is owed to it. */
  lemma {:induction false} FreedOnce(p: Port, steps: seq<Step>, q: Port)
    requires Inv(p) && Runs(p, steps, q)
    ensures Inv(q) && p.freed <= q.freed && p.socks.Keys <= q.socks.Keys + q.freed
    ensures q.socks.Keys !! q.freed && q.owed.Keys !! q.freed
    decreases |steps|
  {
    hide Inv, Apply, Enabled;
    if steps == [] {
      NoneFreedOwed(q);
    } else {
      ApplyKeeps(p, steps[0]);
      FreedOrKept(p, steps[0]);
      FreedOnce(Apply(p, steps[0]), steps[1..], q);
    }
  }

  lemma NoneFreedOwed(p: Port)
    requires Inv(p)
    ensures p.socks.Keys !! p.freed && p.owed.Keys !! p.freed
  {
  }

  /** A socket is in one queue at most, so the one link in its record is enough for both. */
  lemma OneQueue(p: Port, id: SockId)
    requires Inv(p) && id in p.updateQueue
    ensures id !in p.deletedQueue
  {
    assert p.socks[id].deletePending <==> id in p.deletedQueue by {
      assert SockOk(p, id);
    }
    assert SockOk(p, id);
  }
}
