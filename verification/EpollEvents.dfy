/** The event masks of wepoll.c and their translation to and from AFD poll masks. */
module EpollEvents {

  const EPOLLIN: bv32 := 0x1
  const EPOLLPRI: bv32 := 0x2
  const EPOLLOUT: bv32 := 0x4
  const EPOLLERR: bv32 := 0x8
  const EPOLLHUP: bv32 := 0x10
  const EPOLLRDNORM: bv32 := 0x40
  const EPOLLRDBAND: bv32 := 0x80
  const EPOLLWRNORM: bv32 := 0x100
  const EPOLLWRBAND: bv32 := 0x200
  const EPOLLMSG: bv32 := 0x400
  const EPOLLRDHUP: bv32 := 0x2000
  const EPOLLONESHOT: bv32 := 0x8000_0000

  const KNOWN_EVENTS: bv32 :=
    EPOLLIN | EPOLLPRI | EPOLLOUT | EPOLLERR | EPOLLHUP | EPOLLRDNORM | EPOLLRDBAND | EPOLLWRNORM
    | EPOLLWRBAND | EPOLLMSG | EPOLLRDHUP

  const AFD_RECEIVE: bv32 := 0x1
  const AFD_RECEIVE_EXPEDITED: bv32 := 0x2
  const AFD_SEND: bv32 := 0x4
  const AFD_DISCONNECT: bv32 := 0x8
  const AFD_ABORT: bv32 := 0x10
  const AFD_LOCAL_CLOSE: bv32 := 0x20
  const AFD_ACCEPT: bv32 := 0x80
  const AFD_CONNECT_FAIL: bv32 := 0x100

  function When(mask: bv32, trigger: bv32, result: bv32): bv32 {
    if mask & trigger != 0 then result else 0
  }

  /** sock__epoll_events_to_afd_events. */
  function ToAfd(events: bv32): bv32 {
    AFD_LOCAL_CLOSE
    | When(events, EPOLLIN | EPOLLRDNORM, AFD_RECEIVE | AFD_ACCEPT)
    | When(events, EPOLLPRI | EPOLLRDBAND, AFD_RECEIVE_EXPEDITED)
    | When(events, EPOLLOUT | EPOLLWRNORM | EPOLLWRBAND, AFD_SEND)
    | When(events, EPOLLIN | EPOLLRDNORM | EPOLLRDHUP, AFD_DISCONNECT)
    | When(events, EPOLLHUP, AFD_ABORT)
    | When(events, EPOLLERR, AFD_CONNECT_FAIL)
  }

  /** sock__afd_events_to_epoll_events. */
  function ToEpoll(afd: bv32): bv32 {
    When(afd, AFD_RECEIVE | AFD_ACCEPT, EPOLLIN | EPOLLRDNORM)
    | When(afd, AFD_RECEIVE_EXPEDITED, EPOLLPRI | EPOLLRDBAND)
    | When(afd, AFD_SEND, EPOLLOUT | EPOLLWRNORM | EPOLLWRBAND)
    | When(afd, AFD_DISCONNECT, EPOLLIN | EPOLLRDNORM | EPOLLRDHUP)
    | When(afd, AFD_ABORT, EPOLLHUP)
    | When(afd, AFD_CONNECT_FAIL, EPOLLIN | EPOLLOUT | EPOLLERR | EPOLLRDNORM | EPOLLWRNORM | EPOLLRDHUP)
  }

  /** The poll with `pending` watches every known event that `wanted` asks for. */
  predicate Covers(pending: bv32, wanted: bv32) {
    wanted & KNOWN_EVENTS & !pending == 0
  }

  /** A poll submitted with `mask` watches everything that stands for `wanted`. */
  predicate AfdCovers(mask: bv32, wanted: bv32) {
    ToAfd(wanted) & !mask == 0
  }

  /** A pending poll that covers the wanted events on the epoll side covers them on the AFD side. */
  lemma CoversAfd(pending: bv32, wanted: bv32)
    requires Covers(pending, wanted)
    ensures AfdCovers(ToAfd(pending), wanted)
  {
  }

  /** Asking AFD for `wanted` and translating a full answer back gives every wanted event that AFD can
      report (EPOLLMSG never is). */
  lemma NothingLostInTranslation(wanted: bv32)
    ensures wanted & KNOWN_EVENTS & !EPOLLMSG & !ToEpoll(ToAfd(wanted)) == 0
  {
  }

  /** Only AFD_LOCAL_CLOSE brings no epoll event. */
  lemma EveryAnswerIsAnEvent(afd: bv32)
    requires afd & ToAfd(KNOWN_EVENTS) & !AFD_LOCAL_CLOSE != 0
    ensures ToEpoll(afd) != 0 && ToEpoll(afd) & !KNOWN_EVENTS == 0
  {
  }

  /** The mask stored by sock_set_event always asks for something, so an idle socket is always queued. */
  lemma AlwaysAsksForErrors(events: bv32)
    ensures !Covers(0, events | EPOLLERR | EPOLLHUP)
  {
  }

  lemma CoversSelf(events: bv32)
    ensures Covers(events, events)
  {
  }

  /** What is true of a socket reaches the user: a poll that covers the wanted events brings at least one of
      them, when anything true has been asked for. */
  lemma Delivered(mask: bv32, wanted: bv32, truth: bv32)
    requires AfdCovers(mask, wanted) && truth & ToAfd(wanted) & !AFD_LOCAL_CLOSE != 0
    ensures ToEpoll(truth & mask) & wanted != 0
  {
  }
}
