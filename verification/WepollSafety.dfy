/** What holds over every run of an epoll port: no readiness is missed while a thread waits, a socket is
    freed once and never while AFD owes it a completion, and only asked-for events are reported. */
module WepollSafety {
  import opened EpollEvents
  import opened WepollPort
  import opened WepollRuns

  // ---- no missed readiness ----

  /** AFD refuses a request that this socket needs. */
  predicate Refused(s: Sock, a: Afd) {
    a.Failed? && (s.status.Idle? || (s.status.Pending? && !Covers(s.pendingEvents, s.userEvents)))
  }

  ghost predicate Granted(p: Port, afd: SockId -> Afd) {
    forall id :: id in p.updateQueue ==> id in p.socks && !Refused(p.socks[id], afd(id))
  }

  /** AFD watches every registered socket for all that its user asks for, or is to give it back. */
  ghost predicate AllWatched(p: Port) {
    forall key :: key in p.tree ==> p.tree[key] in p.socks && Watched(p, p.tree[key])
  }

  ghost predicate NoMissed(p: Port) {
    p.activePolls > 0 ==> AllWatched(p)
  }

  /** A pass over these sockets leaves none unwatched: AFD refuses none of the requests it needs, or the pass stops
      where all that are left have been watched all along, by a poll for other events with the same AFD mask. */
  ghost predicate Serves(p: Port, queue: seq<SockId>, afd: SockId -> Afd)
    requires forall id :: id in queue ==> id in p.socks
  {
    if queue == [] then true
    else if Refused(p.socks[queue[0]], afd(queue[0])) then forall id :: id in queue ==> Watched(p, id)
    else Serves(p, queue[1..], afd)
  }

  ghost predicate PassServes(p: Port, afd: SockId -> Afd)
    requires Inv(p)
  {
    Serves(p, p.updateQueue, afd)
  }

  predicate Quiet(p: Port) {
    p.activePolls > 0 ==> p.updateQueue == []
  }

  ghost predicate OthersSame(p: Port, p': Port, id: SockId) {
    forall other :: other in p.socks && other != id ==> other in p'.socks && p'.socks[other] == p.socks[other]
  }

  ghost predicate OthersOwed(p: Port, p': Port, id: SockId) {
    forall other :: other != id ==> (other in p'.owed <==> other in p.owed) && (other in p.owed ==> p'.owed[other] == p.owed[other])
  }

  lemma QuietMisses(p: Port)
    requires Inv(p) && Quiet(p)
    ensures NoMissed(p)
  {
    hide Covers, AfdCovers, Watched;
    forall key | p.activePolls > 0 && key in p.tree ensures p.tree[key] in p.socks && Watched(p, p.tree[key]) {
      assert SockOk(p, p.tree[key]);
    }
  }

  /** Only sockets that ask for an update can be unwatched. */
  lemma QueueDecides(p: Port)
    requires Inv(p)
    ensures AllWatched(p) <==> forall id :: id in p.updateQueue ==> Watched(p, id)
  {
    hide Covers, AfdCovers, Watched;
    forall key | key in p.tree ensures p.tree[key] in p.socks && (p.tree[key] in p.updateQueue || Watched(p, p.tree[key])) {
      assert SockOk(p, p.tree[key]);
    }
    forall id | id in p.updateQueue ensures p.socks[id].key in p.tree && p.tree[p.socks[id].key] == id {
      assert SockOk(p, id);
    }
  }

  lemma SockUpdateExact(p: Port, id: SockId, afd: Afd)
    requires Inv(p) && id in p.updateQueue
    ensures id in p.socks
    ensures var u := SockUpdate(p, id, afd);
      (u.ok <==> !Refused(p.socks[id], afd)) && OthersSame(p, u.port, id) && OthersOwed(p, u.port, id)
  {
    hide Inv, SockOk, Without, Enqueue, Covers, ToAfd;
    UpdateWays(p, id, afd);
    UpdateAsks(p, id, afd);
  }

  /** A pass over the update queue succeeds exactly when AFD refuses nothing that it needs, and leaves every
      registered socket watched exactly when it serves. */
  lemma {:induction false} UpdateEventsExact(p: Port, afd: SockId -> Afd)
    requires Inv(p)
    ensures var u := UpdateEvents(p, afd);
      (u.ok <==> Granted(p, afd)) && (AllWatched(u.port) <==> PassServes(p, afd)) && (u.ok ==> PassServes(p, afd))
    decreases |p.updateQueue|
  {
    hide Inv, SockUpdate, Without, Covers, AllWatched, Watched;
    QueueDecides(p);
    if p.updateQueue != [] {
      var id := p.updateQueue[0];
      SockUpdateKeeps(p, id, afd(id));
      SockUpdateExact(p, id, afd(id));
      var u := SockUpdate(p, id, afd(id));
      if u.ok {
        HeadLeaves(p, id, u.port.updateQueue);
        UpdateEventsExact(u.port, afd);
        RestGranted(p, u.port, afd);
        RestServes(p, u.port, afd);
      } else {
        assert u.port == p;
      }
    }
  }

  lemma RestGranted(p: Port, p1: Port, afd: SockId -> Afd)
    requires Inv(p) && p.updateQueue != [] && OthersSame(p, p1, p.updateQueue[0])
    requires p1.updateQueue == Without(p.updateQueue, p.updateQueue[0])
    requires p.updateQueue[0] in p.socks && !Refused(p.socks[p.updateQueue[0]], afd(p.updateQueue[0]))
    ensures Granted(p1, afd) <==> Granted(p, afd)
  {
    hide Covers, AfdCovers, Refused, SockOk, Without;
    var head := p.updateQueue[0];
    WithoutIs(p.updateQueue, head);
    assert forall id :: id in p.updateQueue ==> id in p.socks;
    assert forall id :: id in p.updateQueue ==> id == head || id in p1.updateQueue;
  }

  lemma RestServes(p: Port, p1: Port, afd: SockId -> Afd)
    requires Inv(p) && Inv(p1) && p.updateQueue != []
    requires OthersSame(p, p1, p.updateQueue[0]) && OthersOwed(p, p1, p.updateQueue[0])
    requires p1.updateQueue == Without(p.updateQueue, p.updateQueue[0])
    requires !Refused(p.socks[p.updateQueue[0]], afd(p.updateQueue[0]))
    ensures PassServes(p1, afd) <==> PassServes(p, afd)
  {
    hide Covers, AfdCovers, SockOk, Refused;
    var rest := p.updateQueue[1..];
    assert Without(p.updateQueue, p.updateQueue[0]) == rest;
    WithoutIs(p.updateQueue, p.updateQueue[0]);
    forall id | id in rest ensures id != p.updateQueue[0] && id in p.socks && id in p1.socks {
      assert id in p.updateQueue && id in p1.updateQueue;
    }
    SameServes(p, p1, p.updateQueue[0], rest, afd);
  }

  lemma {:induction false} SameServes(p: Port, p1: Port, head: SockId, queue: seq<SockId>, afd: SockId -> Afd)
    requires OthersSame(p, p1, head) && OthersOwed(p, p1, head)
    requires forall id :: id in queue ==> id != head && id in p.socks && id in p1.socks
    ensures Serves(p1, queue, afd) <==> Serves(p, queue, afd)
  {
    hide Covers, AfdCovers, Refused;
    if queue != [] {
      assert queue[0] in queue && forall id :: id in queue[1..] ==> id in queue;
      SameServes(p, p1, head, queue[1..], afd);
      assert forall id :: id in queue ==> (Watched(p1, id) <==> Watched(p, id));
    }
  }

  /** With a thread waiting, the pass leaves nothing missed exactly when it serves. */
  lemma PassExact(p: Port, afd: SockId -> Afd)
    requires Inv(p) && p.activePolls > 0
    ensures NoMissed(UpdateIfPolling(p, afd)) <==> PassServes(p, afd)
    ensures Granted(p, afd) ==> Quiet(UpdateIfPolling(p, afd)) && PassServes(p, afd)
  {
    hide Inv, UpdateEvents, Watched, Serves, AllWatched;
    UpdateEventsKeeps(p, afd);
    UpdateEventsExact(p, afd);
  }

  /** What a wait needs: its first pass grants all, or nobody else waits, or the pass that follows serves. */
  ghost predicate WaitServes(p: Port, afd: SockId -> Afd, retry: SockId -> Afd)
    requires Inv(p)
  {
    Granted(p, afd) || p.activePolls == 0 || (UpdateEventsKeeps(p, afd); PassServes(UpdateEvents(p, afd).port, retry))
  }

  ghost predicate WaitGranted(p: Port, afd: SockId -> Afd, retry: SockId -> Afd)
    requires Inv(p)
  {
    Granted(p, afd) || p.activePolls == 0 || Granted(UpdateEvents(p, afd).port, retry)
  }

  /** AFD grants what the step's own update pass needs. */
  ghost predicate PassGranted(p: Port, step: Step)
    requires Inv(p) && Enabled(p, step)
  {
    match step
    case Add(key, events, data, based, id, spare, afd) =>
      var o := CtlAdd(p, key, events, data, based, id, spare);
      o.refusal.NoRefusal? && p.activePolls > 0 ==> Granted(o.port, afd)
    case Mod(key, events, data, afd) =>
      CtlModKeeps(p, key, events, data);
      var o := CtlMod(p, key, events, data);
      o.refusal.NoRefusal? && p.activePolls > 0 ==> Granted(o.port, afd)
    case Del(key, cancel) => true
    case WaitBegin(afd, retry) => WaitGranted(p, afd, retry)
    case WaitEnd(got, expired, afd, retry) =>
      TakenKeeps(p, got);
      var f := Taken(p, got);
      if GoesRound(got, f.reports, expired) then WaitGranted(f.port, afd, retry)
      else f.port.activePolls > 0 ==> Granted(f.port, afd)
  }

  /** The step's own update pass leaves no socket unwatched. */
  ghost predicate PassServed(p: Port, step: Step)
    requires Inv(p) && Enabled(p, step)
  {
    match step
    case Add(key, events, data, based, id, spare, afd) =>
      CtlAddKeeps(p, key, events, data, based, id, spare);
      var o := CtlAdd(p, key, events, data, based, id, spare);
      o.refusal.NoRefusal? && p.activePolls > 0 ==> PassServes(o.port, afd)
    case Mod(key, events, data, afd) =>
      CtlModKeeps(p, key, events, data);
      var o := CtlMod(p, key, events, data);
      o.refusal.NoRefusal? && p.activePolls > 0 ==> PassServes(o.port, afd)
    case Del(key, cancel) => true
    case WaitBegin(afd, retry) => WaitServes(p, afd, retry)
    case WaitEnd(got, expired, afd, retry) =>
      TakenKeeps(p, got);
      var f := Taken(p, got);
      if GoesRound(got, f.reports, expired) then WaitServes(f.port, afd, retry)
      else f.port.activePolls > 0 ==> PassServes(f.port, afd)
  }

  lemma QuietStays(p: Port, p': Port)
    requires Inv(p') && Quiet(p) && p'.activePolls == p.activePolls && (p.updateQueue == [] ==> p'.updateQueue == [])
    ensures NoMissed(p') && Quiet(p')
  {
    hide Inv;
    QuietMisses(p');
  }

  lemma IfPollingExact(p: Port, afd: SockId -> Afd)
    requires Inv(p)
    ensures var p' := UpdateIfPolling(p, afd);
      && (NoMissed(p') <==> p.activePolls > 0 ==> PassServes(p, afd))
      && ((p.activePolls > 0 ==> Granted(p, afd)) ==> Quiet(p'))
  {
    hide Inv, Granted, Serves, AllWatched;
    IfPollingKeeps(p, afd);
    if p.activePolls > 0 {
      PassExact(p, afd);
    }
  }

  lemma WaitExact(p: Port, afd: SockId -> Afd, retry: SockId -> Afd)
    requires Inv(p)
    ensures var p' := WaitBegun(p, afd, retry);
      (NoMissed(p') <==> WaitServes(p, afd, retry)) && (WaitGranted(p, afd, retry) ==> Quiet(p'))
  {
    hide Inv, Granted, UpdateEvents, UpdateIfPolling, Serves, AllWatched;
    UpdateEventsKeeps(p, afd);
    UpdateEventsExact(p, afd);
    var u := UpdateEvents(p, afd);
    IfPollingExact(u.port, retry);
    IfPollingKeeps(u.port, retry);
    if u.ok {
      WaitBegunKeeps(p, afd, retry);
      QuietMisses(WaitBegun(p, afd, retry));
    }
  }

  lemma StepQuiet(p: Port, step: Step)
    requires Inv(p) && Enabled(p, step) && Quiet(p)
    ensures PassGranted(p, step) ==> Quiet(Apply(p, step))
  {
    hide Inv, NoMissed, Granted, WaitGranted, WaitServes, Serves, CtlAdd, CtlMod, CtlDel, UpdateIfPolling,
      WaitBegun, Taken, Deliverable, Fresh, GoesRound;
    match step
    case Add(key, events, data, based, id, spare, afd) =>
      CtlAddKeeps(p, key, events, data, based, id, spare);
      var o := CtlAdd(p, key, events, data, based, id, spare);
      IfPollingExact(o.port, afd);
      if !o.refusal.NoRefusal? {
        QuietStays(p, o.port);
      }
    case Mod(key, events, data, afd) =>
      CtlModKeeps(p, key, events, data);
      var o := CtlMod(p, key, events, data);
      IfPollingExact(o.port, afd);
      if !o.refusal.NoRefusal? {
        QuietStays(p, o.port);
      }
    case Del(key, cancel) =>
      CtlDelKeeps(p, key, cancel);
      QuietStays(p, CtlDel(p, key, cancel).port);
    case WaitBegin(afd, retry) =>
      WaitExact(p, afd, retry);
    case WaitEnd(got, expired, afd, retry) =>
      TakenKeeps(p, got);
      WaitExact(Taken(p, got).port, afd, retry);
      IfPollingExact(Taken(p, got).port, afd);
  }

  /** A step misses readiness exactly when its update pass does not serve, which takes a refusal by AFD. */
  lemma StepExact(p: Port, step: Step)
    requires Inv(p) && Enabled(p, step) && Quiet(p)
    ensures PassServed(p, step) <==> NoMissed(Apply(p, step))
    ensures PassGranted(p, step) ==> Quiet(Apply(p, step)) && NoMissed(Apply(p, step))
  {
    hide Inv, NoMissed, Granted, WaitGranted, WaitServes, Serves, CtlAdd, CtlMod, CtlDel, UpdateIfPolling,
      WaitBegun, Taken, Deliverable, Fresh, GoesRound;
    ApplyKeeps(p, step);
    StepQuiet(p, step);
    if PassGranted(p, step) {
      QuietMisses(Apply(p, step));
    }
    match step
    case Add(key, events, data, based, id, spare, afd) =>
      CtlAddKeeps(p, key, events, data, based, id, spare);
      var o := CtlAdd(p, key, events, data, based, id, spare);
      IfPollingExact(o.port, afd);
      if !o.refusal.NoRefusal? {
        QuietStays(p, o.port);
      }
    case Mod(key, events, data, afd) =>
      CtlModKeeps(p, key, events, data);
      var o := CtlMod(p, key, events, data);
      IfPollingExact(o.port, afd);
      if !o.refusal.NoRefusal? {
        QuietStays(p, o.port);
      }
    case Del(key, cancel) =>
      CtlDelKeeps(p, key, cancel);
      QuietStays(p, CtlDel(p, key, cancel).port);
    case WaitBegin(afd, retry) =>
      WaitExact(p, afd, retry);
    case WaitEnd(got, expired, afd, retry) =>
      TakenKeeps(p, got);
      WaitExact(Taken(p, got).port, afd, retry);
      IfPollingExact(Taken(p, got).port, afd);
  }

  // ---- runs ----

  ghost predicate Runs(p: Port, steps: seq<Step>, q: Port)
    decreases |steps|
  {
    if steps == [] then p == q
    else Inv(p) && Enabled(p, steps[0]) && Runs(Apply(p, steps[0]), steps[1..], q)
  }

  /** No answer of AFD in the step is an error other than "socket closed". */
  ghost predicate NeverFails(step: Step) {
    match step
    case Add(_, _, _, _, _, _, afd) => forall id :: !afd(id).Failed?
    case Mod(_, _, _, afd) => forall id :: !afd(id).Failed?
    case Del(_, _) => true
    case WaitBegin(afd, retry) => forall id :: !afd(id).Failed?
    case WaitEnd(_, _, afd, _) => forall id :: !afd(id).Failed?
  }

  lemma EmptyInv()
    ensures Inv(Empty()) && Quiet(Empty())
  {
  }

  lemma WithoutFailureGranted(p: Port, step: Step)
    requires Inv(p) && Enabled(p, step) && NeverFails(step)
    ensures PassGranted(p, step)
  {
    hide Inv, CtlAdd, CtlMod, Taken, Deliverable, Fresh, GoesRound, Covers;
    match step
    case Add(key, events, data, based, id, spare, afd) =>
      CtlAddKeeps(p, key, events, data, based, id, spare);
      AllGranted(CtlAdd(p, key, events, data, based, id, spare).port, afd);
    case Mod(key, events, data, afd) =>
      CtlModKeeps(p, key, events, data);
      AllGranted(CtlMod(p, key, events, data).port, afd);
    case Del(key, cancel) =>
    case WaitBegin(afd, retry) => AllGranted(p, afd);
    case WaitEnd(got, expired, afd, retry) =>
      TakenKeeps(p, got);
      AllGranted(Taken(p, got).port, afd);
  }

  lemma AllGranted(p: Port, afd: SockId -> Afd)
    requires Inv(p) && forall id :: !afd(id).Failed?
    ensures Granted(p, afd)
  {
  }

  /** The readiness theorem: from the empty port on, as long as AFD fails no request, a waiting thread
      never sleeps past a socket. */
  lemma {:induction false} NeverMisses(p: Port, steps: seq<Step>, q: Port)
    requires Inv(p) && Quiet(p) && Runs(p, steps, q)
    requires forall i :: 0 <= i < |steps| ==> NeverFails(steps[i])
    ensures Inv(q) && Quiet(q) && NoMissed(q)
    decreases |steps|
  {
    hide Inv, NoMissed, Apply, Enabled, PassGranted, NeverFails, Quiet;
    if steps == [] {
      QuietMisses(p);
    } else {
      WithoutFailureGranted(p, steps[0]);
      StepExact(p, steps[0]);
      ApplyKeeps(p, steps[0]);
      NeverMisses(Apply(p, steps[0]), steps[1..], q);
    }
  }

  /** One refusal is enough: a thread waits on the empty port, a socket is added, and AFD fails to take
      its poll. The call reports success all the same. */
  lemma OneRefusalMisses(spare: nat)
    ensures var grant := (id: SockId) => Accepted; var refuse := (id: SockId) => Failed;
      var steps := [WaitBegin(grant, grant), Add(1, EPOLLIN, 0, true, 0, spare, refuse)];
      exists q :: Runs(Empty(), steps, q) && !NoMissed(q)
  {
    EmptyInv();
    var grant, refuse := (id: SockId) => Accepted, (id: SockId) => Failed;
    var first, second := WaitBegin(grant, grant), Add(1, EPOLLIN, 0, true, 0, spare, refuse);
    var p := Apply(Empty(), first);
    assert p == Empty().(activePolls := 1);
    ApplyKeeps(Empty(), first);
    assert Fresh(p, 0, spare);
    var o := CtlAdd(p, 1, EPOLLIN, 0, true, 0, spare);
    NewcomerQueued(p, spare);
    assert !Granted(o.port, refuse);
    StepExact(p, second);
    var q := Apply(p, second);
    var steps := [first, second];
    assert steps[1..] == [second] && [second][1..] == [];
    assert Runs(q, [], q) && Runs(p, [second], q) && Runs(Empty(), steps, q);
  }

  lemma NewcomerQueued(p: Port, spare: nat)
    requires p == Empty().(activePolls := 1)
    ensures var o := CtlAdd(p, 1, EPOLLIN, 0, true, 0, spare);
      o.refusal.NoRefusal? && 0 in o.port.updateQueue && 0 in o.port.socks && o.port.socks[0].status.Idle?
  {
    AlwaysAsksForErrors(EPOLLIN);
  }
}
