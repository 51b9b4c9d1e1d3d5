/** The task list, the wake pipe and the delayed tasks of a poller: one step per critical section, pipe
    operation or system call. */
module PollerTasks {
  import opened TaskOrder

  type TimerId = nat

  /** delay_insert_async, timer_cancel_async, or any other function. */
  datatype Task = Insert(timer: TimerId) | Cancel(timer: TimerId) | Other(id: nat)

  /** A thread that posts: outside, between flag and list in ztk_poller_timer_cancel, or between the list and
      ztk_poller_wake. */
  datatype Producer = Outside | Cancelling(timer: TimerId) | Waking

  /** The poller's thread: anywhere in its loop, between the resolved time-out and epoll_wait, in epoll_wait,
      reading the pipe, and between the empty pipe and the lock of the task list. */
  datatype Pc = Busy | Entering | Blocked | ReadingPipe | PipeEmpty

  datatype Timer = Timer(cancelled: bool, linked: bool)

  datatype Firing = NoFiring | InCallback(timer: TimerId)

  /** `batch` is the detached list, `wakeSeen` the wake descriptor among the events of this turn, `owes` the
      poller's own wake to come. `ran` is history. */
  datatype Poller = Poller(
    queue: seq<Task>, pipe: nat, producers: seq<Producer>,
    pc: Pc, batch: seq<Task>, wakeSeen: bool, owes: bool,
    timers: map<TimerId, Timer>, firing: Firing, ran: seq<Task>)

  datatype Step =
    // producers
    | Post(i: nat, id: nat, front: bool)
    | Delay(i: nat, timer: TimerId)
    | CancelFlag(i: nat, timer: TimerId)
    | CancelPost(i: nat)
    | Wake(i: nat)
    // the poller's thread, inside a callback or a task
    | OwnPost(id: nat, front: bool)
    | OwnDelay(timer: TimerId)
    | OwnCancel(timer: TimerId)
    | OwnWake
    // its loop
    | FlushPop(timer: TimerId)
    | CallbackReturns(again: bool)
    | Enter
    | Sleep
    | Return(wake: bool)
    | StartReading
    | ReadPipe(n: nat)
    | ReadNothing
    | Detach
    | DrainPending
    | RunTask

  const READ_SIZE: nat := 256

  function Created(n: nat): Poller {
    Poller([], 0, seq(n, _ => Outside), Busy, [], false, false, map[], NoFiring, [])
  }

  function Pushed(q: seq<Task>, task: Task, front: bool): seq<Task> {
    if front then [task] + q else q + [task]
  }

  predicate ProducerAt(p: Poller, i: nat, pc: Producer) {
    i < |p.producers| && p.producers[i] == pc
  }

  /** The poller's thread is in user code or between two calls of its loop. */
  predicate Free(p: Poller) {
    p.pc.Busy? && !p.owes
  }

  predicate Enabled(p: Poller, s: Step) {
    match s
    case Post(i, _, _) => ProducerAt(p, i, Outside)
    case Delay(i, timer) => ProducerAt(p, i, Outside) && timer !in p.timers
    case CancelFlag(i, timer) => ProducerAt(p, i, Outside) && timer in p.timers
    case CancelPost(i) => i < |p.producers| && p.producers[i].Cancelling?
    case Wake(i) => ProducerAt(p, i, Waking)
    case OwnPost(_, _) => Free(p)
    case OwnDelay(timer) => Free(p) && p.firing.NoFiring? && timer !in p.timers
    case OwnCancel(timer) => Free(p) && p.firing.NoFiring? && timer in p.timers
    case OwnWake => p.owes
    case FlushPop(timer) => Free(p) && p.batch == [] && p.firing.NoFiring? && timer in p.timers && p.timers[timer].linked
    case CallbackReturns(_) => Free(p) && p.firing.InCallback? && p.firing.timer in p.timers
    case Enter => Free(p) && p.batch == [] && p.firing.NoFiring? && !p.wakeSeen
    case Sleep => p.pc.Entering?
    case Return(wake) => p.pc.Blocked? && (wake ==> p.pipe > 0)
    case StartReading => Free(p) && p.batch == [] && p.firing.NoFiring? && p.wakeSeen
    case ReadPipe(n) => p.pc.ReadingPipe? && 0 < n <= p.pipe && n <= READ_SIZE
    case ReadNothing => p.pc.ReadingPipe? && p.pipe == 0
    case Detach => p.pc.PipeEmpty?
    case DrainPending => Free(p) && p.batch == [] && p.firing.NoFiring?
    case RunTask => Free(p) && p.batch != [] && p.firing.NoFiring?
  }

  /** Writing to a full pipe is answered by EAGAIN and changes nothing. */
  function Woken(p: Poller, capacity: nat): Poller {
    p.(pipe := if p.pipe < capacity then p.pipe + 1 else p.pipe)
  }

  function Posted(p: Poller, i: nat, task: Task, front: bool): Poller
    requires i < |p.producers|
  {
    p.(queue := Pushed(p.queue, task, front), producers := p.producers[i := Waking])
  }

  function Linked(p: Poller, timer: TimerId, linked: bool): Poller {
    if timer in p.timers then p.(timers := p.timers[timer := p.timers[timer].(linked := linked)]) else p
  }

  function Flagged(p: Poller, timer: TimerId): Poller {
    if timer in p.timers then p.(timers := p.timers[timer := p.timers[timer].(cancelled := true)]) else p
  }

  function Apply(p: Poller, s: Step, capacity: nat): Poller
    requires Enabled(p, s)
  {
    match s
    case Post(i, id, front) => Posted(p, i, Other(id), front)
    case Delay(i, timer) => Posted(p, i, Insert(timer), true).(timers := p.timers[timer := Timer(false, false)])
    case CancelFlag(i, timer) => Flagged(p, timer).(producers := p.producers[i := Cancelling(timer)])
    case CancelPost(i) => Posted(p, i, Cancel(p.producers[i].timer), false)
    case Wake(i) => Woken(p, capacity).(producers := p.producers[i := Outside])
    case OwnPost(id, front) => p.(queue := Pushed(p.queue, Other(id), front), owes := true)
    case OwnDelay(timer) => p.(timers := p.timers[timer := Timer(false, true)], owes := true)
    case OwnCancel(timer) => Linked(Flagged(p, timer), timer, false)
    case OwnWake => Woken(p, capacity).(owes := false)
    case FlushPop(timer) => Linked(p, timer, false).(firing := if p.timers[timer].cancelled then NoFiring else InCallback(timer))
    case CallbackReturns(again) =>
      var timer := p.firing.timer;
      (if again && !p.timers[timer].cancelled then Linked(p, timer, true) else p).(firing := NoFiring)
    case Enter => p.(pc := Entering)
    case Sleep => p.(pc := Blocked)
    case Return(wake) => p.(pc := Busy, wakeSeen := wake)
    case StartReading => p.(pc := ReadingPipe, wakeSeen := false)
    case ReadPipe(n) => p.(pipe := p.pipe - n)
    case ReadNothing => p.(pc := PipeEmpty)
    case Detach => p.(pc := Busy, batch := p.queue, queue := [])
    case DrainPending => p.(batch := p.queue, queue := [])
    case RunTask => Ran(p, p.batch[0]).(batch := p.batch[1..], ran := p.ran + [p.batch[0]])
  }

  function Ran(p: Poller, task: Task): Poller {
    match task
    case Insert(timer) => Linked(p, timer, true)
    case Cancel(timer) => Linked(p, timer, false)
    case Other(_) => p
  }

  // ---- no lost wake-up ----

  predicate SomeoneWakes(p: Poller) {
    exists i :: 0 <= i < |p.producers| && p.producers[i].Waking?
  }

  predicate WakeInv(p: Poller) {
    && (p.owes ==> p.pc.Busy?)
    && (p.queue != [] ==> p.pipe > 0 || p.owes || p.pc.ReadingPipe? || p.pc.PipeEmpty? || SomeoneWakes(p))
    && (!p.pc.Busy? ==> p.batch == [] && p.firing.NoFiring?)
  }

  lemma SomeoneStays(p: Poller, i: nat, pc: Producer)
    requires i < |p.producers| && SomeoneWakes(p) && (pc.Waking? || !p.producers[i].Waking?)
    ensures SomeoneWakes(p.(producers := p.producers[i := pc]))
  {
    var w :| 0 <= w < |p.producers| && p.producers[w].Waking?;
    assert p.producers[i := pc][w].Waking?;
  }

  lemma ThisOneWakes(p: Poller, i: nat)
    requires i < |p.producers| && p.producers[i].Waking?
    ensures SomeoneWakes(p)
  {
  }

  lemma SameProducers(p: Poller, p': Poller)
    requires p.producers == p'.producers
    ensures SomeoneWakes(p) <==> SomeoneWakes(p')
  {
  }

  lemma WakeKeeps(p: Poller, s: Step, capacity: nat)
    requires WakeInv(p) && Enabled(p, s) && capacity > 0
    ensures WakeInv(Apply(p, s, capacity))
  {
    hide SomeoneWakes, Pushed;
    var p' := Apply(p, s, capacity);
    if p'.producers == p.producers {
      SameProducers(p, p');
    }
    match s
    case Post(i, _, _) => ThisOneWakes(p', i);
    case Delay(i, _) => ThisOneWakes(p', i);
    case CancelPost(i) => ThisOneWakes(p', i);
    case CancelFlag(i, timer) =>
      SameProducers(p.(producers := p'.producers), p');
      if SomeoneWakes(p) {
        SomeoneStays(p, i, Cancelling(timer));
      }
    case _ =>
  }

  /** The wake-up theorem. */
  lemma NoLostWakeup(p: Poller)
    requires WakeInv(p) && (p.pc.Entering? || p.pc.Blocked?) && p.queue != []
    ensures p.pipe > 0 || SomeoneWakes(p)
    ensures p.pc.Blocked? && !SomeoneWakes(p) ==> Enabled(p, Return(true))
  {
  }

  // ---- the order of tasks ----

  /** Tasks run, then tasks detached, then tasks queued. */
  function Line(p: Poller): seq<Task> {
    p.ran + p.batch + p.queue
  }

  /** Where a task pushed in front goes: behind all that has been run or detached. */
  function Front(p: Poller): nat {
    |p.ran + p.batch|
  }

  /** The task that a step pushes. */
  function TaskOf(p: Poller, s: Step): Task
    requires Pushes(s) && Enabled(p, s)
  {
    match s
    case Post(_, id, _) => Other(id)
    case Delay(_, timer) => Insert(timer)
    case CancelPost(i) => Cancel(p.producers[i].timer)
    case OwnPost(id, _) => Other(id)
  }

  predicate Pushes(s: Step) {
    s.Post? || s.Delay? || s.CancelPost? || s.OwnPost?
  }

  predicate InFront(s: Step) {
    s.Delay? || (s.Post? && s.front) || (s.OwnPost? && s.front)
  }

  lemma PushedLine(p: Poller, task: Task, front: bool)
    ensures p.ran + p.batch + Pushed(p.queue, task, front) == With(Line(p), if front then Front(p) else |Line(p)|, task)
  {
  }

  /** No task is lost, doubled or overtaken: the line only grows, at its end or right behind what has been
      detached, and only by the task that the step pushes. */
  lemma LineGrows(p: Poller, s: Step, capacity: nat)
    requires WakeInv(p) && Enabled(p, s)
    ensures var l' := Line(Apply(p, s, capacity));
      l' == if Pushes(s) then With(Line(p), if InFront(s) then Front(p) else |Line(p)|, TaskOf(p, s)) else Line(p)
  {
    hide WakeInv, With, Pushed, Apply, Enabled, TaskOf, Pushes, InFront;
    if Pushes(s) {
      PushedQueue(p, s, capacity);
      PushedLine(p, TaskOf(p, s), InFront(s));
    } else if s.Detach? || s.DrainPending? || s.RunTask? {
      MovedLine(p, s, capacity);
    } else {
      OtherQueues(p, s, capacity);
    }
  }

  lemma PushedQueue(p: Poller, s: Step, capacity: nat)
    requires Enabled(p, s) && Pushes(s)
    ensures var p' := Apply(p, s, capacity);
      p'.ran == p.ran && p'.batch == p.batch && p'.queue == Pushed(p.queue, TaskOf(p, s), InFront(s))
  {
    hide Pushed;
  }

  lemma MovedLine(p: Poller, s: Step, capacity: nat)
    requires WakeInv(p) && Enabled(p, s) && (s.Detach? || s.DrainPending? || s.RunTask?)
    ensures !Pushes(s) && Line(Apply(p, s, capacity)) == Line(p)
  {
    hide WakeInv, SomeoneWakes;
    if s.RunTask? {
      assert p.batch == [p.batch[0]] + p.batch[1..];
    } else {
      if s.Detach? {
        NoBatch(p);
      }
      assert p.ran + [] + p.queue == p.ran + p.queue + [];
    }
  }

  lemma OtherQueues(p: Poller, s: Step, capacity: nat)
    requires Enabled(p, s) && !Pushes(s) && !s.Detach? && !s.DrainPending? && !s.RunTask?
    ensures var p' := Apply(p, s, capacity); p'.ran == p.ran && p'.batch == p.batch && p'.queue == p.queue
  {
  }

  lemma NoBatch(p: Poller)
    requires WakeInv(p) && p.pc.PipeEmpty?
    ensures p.batch == []
  {
  }

  /** Every insert task stands before every cancel task of its timer. */
  predicate InsertFirst(l: seq<Task>) {
    forall i, j :: 0 <= i < |l| && 0 <= j < |l| && l[i].Insert? && l[j] == Cancel(l[i].timer) ==> i < j
  }

  predicate OrderInv(p: Poller) {
    && InsertFirst(Line(p))
    && (forall t :: t in Line(p) && !t.Other? ==> t.timer in p.timers)
    && (forall i :: 0 <= i < |p.producers| && p.producers[i].Cancelling? ==> p.producers[i].timer in p.timers)
  }

  lemma InsertFirstWith(l: seq<Task>, k: nat, task: Task)
    requires InsertFirst(l) && k <= |l|
    requires task.Insert? ==> Cancel(task.timer) !in l
    requires task.Cancel? ==> k == |l|
    ensures InsertFirst(With(l, k, task))
  {
    var l' := With(l, k, task);
    assert forall i :: 0 <= i < |l'| && i != k ==> l'[i] == l[if i < k then i else i - 1] && l'[i] in l;
  }

  lemma OrderKeeps(p: Poller, s: Step, capacity: nat)
    requires WakeInv(p) && OrderInv(p) && Enabled(p, s)
    ensures OrderInv(Apply(p, s, capacity))
  {
    hide WakeInv, InsertFirst, Line, With;
    var p' := Apply(p, s, capacity);
    LineGrows(p, s, capacity);
    FrontInLine(p);
    TimersStay(p, s, capacity);
    if Pushes(s) {
      var k := if InFront(s) then Front(p) else |Line(p)|;
      InsertFirstWith(Line(p), k, TaskOf(p, s));
      MembersWith(Line(p), k, TaskOf(p, s));
    }
  }

  lemma FrontInLine(p: Poller)
    ensures Front(p) <= |Line(p)|
  {
  }

  lemma MembersWith(l: seq<Task>, k: nat, task: Task)
    requires k <= |l|
    ensures forall t :: t in With(l, k, task) <==> t in l || t == task
  {
    assert l == l[..k] + l[k..];
  }

  lemma TimersStay(p: Poller, s: Step, capacity: nat)
    requires Enabled(p, s)
    ensures p.timers.Keys <= Apply(p, s, capacity).timers.Keys
  {
  }

  // ---- cancelled timers ----

  /** A cancel task, posted or still to be posted, belongs to a flagged timer; and once it has run the timer
      is out of the heap for good. */
  predicate CancelInv(p: Poller) {
    && (forall t :: t in Line(p) && t.Cancel? ==> t.timer in p.timers && p.timers[t.timer].cancelled)
    && (forall i :: 0 <= i < |p.producers| && p.producers[i].Cancelling? ==>
                      p.producers[i].timer in p.timers && p.timers[p.producers[i].timer].cancelled)
    && (forall t :: t in p.ran && t.Cancel? && t.timer in p.timers ==> !p.timers[t.timer].linked)
  }

  predicate Inv(p: Poller) {
    WakeInv(p) && OrderInv(p) && CancelInv(p)
  }

  /** The first task of the batch is an insert: its cancel has not been run. */
  lemma InsertBeforeCancel(p: Poller)
    requires OrderInv(p) && p.batch != [] && p.batch[0].Insert?
    ensures Cancel(p.batch[0].timer) !in p.ran
  {
    var l, task := Line(p), p.batch[0];
    assert l[|p.ran|] == task;
    assert forall j :: 0 <= j < |p.ran| ==> l[j] == p.ran[j];
  }

  /** How a step changes a timer that exists. */
  lemma TimerSteps(p: Poller, s: Step, capacity: nat, timer: TimerId)
    requires Enabled(p, s) && timer in p.timers
    ensures var p' := Apply(p, s, capacity);
      && timer in p'.timers
      && (p.timers[timer].cancelled ==> p'.timers[timer].cancelled)
      && (p'.timers[timer].linked && !p.timers[timer].linked ==>
            || (s.CallbackReturns? && !p.timers[timer].cancelled)
            || (s.RunTask? && p.batch[0] == Insert(timer)))
  {
  }

  lemma RanSteps(p: Poller, s: Step, capacity: nat)
    requires Enabled(p, s)
    ensures var p' := Apply(p, s, capacity); p'.ran == if s.RunTask? then p.ran + [p.batch[0]] else p.ran
    ensures s.RunTask? && p.batch[0].Cancel? && p.batch[0].timer in p.timers ==> (
      !Apply(p, s, capacity).timers[p.batch[0].timer].linked)
  {
  }

  lemma FlaggedLine(p: Poller, s: Step, capacity: nat)
    requires Inv(p) && Enabled(p, s)
    ensures var p' := Apply(p, s, capacity);
      forall t :: t in Line(p') && t.Cancel? ==> t.timer in p'.timers && p'.timers[t.timer].cancelled
  {
    hide WakeInv, OrderInv, Line, With, Apply;
    var p' := Apply(p, s, capacity);
    LineGrows(p, s, capacity);
    FrontInLine(p);
    if Pushes(s) {
      MembersWith(Line(p), if InFront(s) then Front(p) else |Line(p)|, TaskOf(p, s));
    }
    forall t | t in Line(p') && t.Cancel? ensures t.timer in p'.timers && p'.timers[t.timer].cancelled {
      TimerSteps(p, s, capacity, t.timer);
    }
  }

  lemma FlaggedProducers(p: Poller, s: Step, capacity: nat)
    requires CancelInv(p) && Enabled(p, s)
    ensures var p' := Apply(p, s, capacity);
      forall i :: 0 <= i < |p'.producers| && p'.producers[i].Cancelling? ==>
        p'.producers[i].timer in p'.timers && p'.timers[p'.producers[i].timer].cancelled
  {
    hide Line, Pushed;
  }

  lemma GoneStays(p: Poller, s: Step, capacity: nat)
    requires Inv(p) && Enabled(p, s)
    ensures var p' := Apply(p, s, capacity);
      forall t :: t in p'.ran && t.Cancel? && t.timer in p'.timers ==> !p'.timers[t.timer].linked
  {
    hide WakeInv, OrderInv, Apply;
    var p' := Apply(p, s, capacity);
    RanSteps(p, s, capacity);
    if s.RunTask? && p.batch[0].Insert? {
      InsertBeforeCancel(p);
    }
    forall t | t in p'.ran && t.Cancel? && t.timer in p'.timers ensures !p'.timers[t.timer].linked {
      RanInLine(p, t);
      KnownTask(p, t);
      TimerSteps(p, s, capacity, t.timer);
    }
  }

  lemma RanInLine(p: Poller, t: Task)
    ensures t in p.ran || (p.batch != [] && t == p.batch[0]) ==> t in Line(p)
  {
  }

  lemma KnownTask(p: Poller, t: Task)
    requires Inv(p) && t in Line(p) && t.Cancel?
    ensures t.timer in p.timers && p.timers[t.timer].cancelled
  {
  }

  lemma StepKeeps(p: Poller, s: Step, capacity: nat)
    requires Inv(p) && Enabled(p, s) && capacity > 0
    ensures Inv(Apply(p, s, capacity))
  {
    hide WakeInv, OrderInv, Apply, Line;
    WakeKeeps(p, s, capacity);
    OrderKeeps(p, s, capacity);
    FlaggedLine(p, s, capacity);
    FlaggedProducers(p, s, capacity);
    GoneStays(p, s, capacity);
  }

  // ---- runs ----

  predicate Runs(p: Poller, steps: seq<Step>, capacity: nat, q: Poller)
    decreases |steps|
  {
    if steps == [] then p == q else Enabled(p, steps[0]) && Runs(Apply(p, steps[0], capacity), steps[1..], capacity, q)
  }

  lemma {:induction false} RunKeeps(p: Poller, steps: seq<Step>, capacity: nat, q: Poller)
    requires Inv(p) && Runs(p, steps, capacity, q) && capacity > 0
    ensures Inv(q)
    decreases |steps|
  {
    if steps != [] {
      hide Inv, Apply, Enabled;
      StepKeeps(p, steps[0], capacity);
      RunKeeps(Apply(p, steps[0], capacity), steps[1..], capacity, q);
    }
  }

  lemma CreatedInv(n: nat)
    ensures Inv(Created(n))
  {
  }

  /** Over every run: a poller that is about to block, or blocked, with tasks queued has a byte in its pipe or
      a producer on its way to write one. */
  lemma NeverSleepsOnTasks(n: nat, steps: seq<Step>, capacity: nat, p: Poller)
    requires capacity > 0 && Runs(Created(n), steps, capacity, p)
    requires (p.pc.Entering? || p.pc.Blocked?) && p.queue != []
    ensures p.pipe > 0 || SomeoneWakes(p)
    ensures p.pc.Blocked? && !SomeoneWakes(p) ==> Enabled(p, Return(true))
  {
    CreatedInv(n);
    RunKeeps(Created(n), steps, capacity, p);
    NoLostWakeup(p);
  }

  /** Over every run: when a posted cancel has been run, its timer is out of the heap, and what was posted to
      put it there has been run before. */
  lemma CancelIsFinal(n: nat, steps: seq<Step>, capacity: nat, p: Poller, timer: TimerId)
    requires capacity > 0 && Runs(Created(n), steps, capacity, p) && Cancel(timer) in p.ran
    ensures timer in p.timers && p.timers[timer].cancelled && !p.timers[timer].linked
    ensures Insert(timer) !in p.batch && Insert(timer) !in p.queue
  {
    CreatedInv(n);
    RunKeeps(Created(n), steps, capacity, p);
    RanInLine(p, Cancel(timer));
    KnownTask(p, Cancel(timer));
    LaterInserts(p, timer);
  }

  lemma LaterInserts(p: Poller, timer: TimerId)
    requires OrderInv(p) && Cancel(timer) in p.ran
    ensures Insert(timer) !in p.batch && Insert(timer) !in p.queue
  {
    var l := Line(p);
    var j :| 0 <= j < |p.ran| && p.ran[j] == Cancel(timer);
    assert l[j] == Cancel(timer);
    assert forall i :: 0 <= i < |p.batch| ==> l[|p.ran| + i] == p.batch[i];
    assert forall i :: 0 <= i < |p.queue| ==> l[|p.ran| + |p.batch| + i] == p.queue[i];
  }

  /** The tasks that a run posts, in order; with `behind`, only those that are not pushed in front. */
  function PostedIn(p: Poller, steps: seq<Step>, capacity: nat, ghost q: Poller, behind: bool): seq<Task>
    requires Runs(p, steps, capacity, q)
    decreases |steps|
  {
    if steps == [] then []
    else
      (if Pushes(steps[0]) && (behind ==> !InFront(steps[0])) then [TaskOf(p, steps[0])] else [])
      + PostedIn(Apply(p, steps[0], capacity), steps[1..], capacity, q, behind)
  }

  /** The tasks of `out` hold all that the run pushes in front. */
  predicate FrontsIn(p: Poller, steps: seq<Step>, capacity: nat, ghost q: Poller, out: set<Task>)
    requires Runs(p, steps, capacity, q)
    decreases |steps|
  {
    steps != [] ==>
      && (Pushes(steps[0]) && InFront(steps[0]) ==> TaskOf(p, steps[0]) in out)
      && FrontsIn(Apply(p, steps[0], capacity), steps[1..], capacity, q, out)
  }

  /** A due timer's callback starts unless its flag is set, and the timer is linked again exactly if the callback
      asks for it and no flag was set meanwhile; an insert task links its timer, a cancel task unlinks it. */
  lemma TimersExact(p: Poller, s: Step, capacity: nat, timer: TimerId)
    requires Inv(p) && Enabled(p, s) && timer in p.timers
    ensures var p' := Apply(p, s, capacity); var was, now := p.timers[timer].linked, timer in p'.timers && p'.timers[timer].linked;
      && (s == FlushPop(timer) ==> !now && (p'.firing == InCallback(timer) <==> !p.timers[timer].cancelled))
      && (s.CallbackReturns? && p.firing == InCallback(timer) ==> (now <==> was || (s.again && !p.timers[timer].cancelled)))
      && (s.RunTask? && p.batch[0] == Insert(timer) ==> now)
      && (s.RunTask? && p.batch[0] == Cancel(timer) ==> !now)
      && (s == OwnCancel(timer) ==> !now && p'.timers[timer].cancelled)
      && (s.CancelFlag? && s.timer == timer ==> p'.timers[timer].cancelled)
  {
    hide Inv, Pushed;
  }

  // ---- a wake is served ----

  /** These tasks are on their way to be run before the next epoll_wait. */
  predicate OnTheirWay(p: Poller, ts: multiset<Task>) {
    && ts <= multiset(p.ran) + multiset(p.batch) + multiset(p.queue)
    && (p.wakeSeen || p.pc.ReadingPipe? || p.pc.PipeEmpty? || ts <= multiset(p.ran) + multiset(p.batch))
    && (p.pc.Entering? || p.pc.Blocked? ==> ts <= multiset(p.ran) + multiset(p.batch))
  }

  lemma WayKeeps(p: Poller, s: Step, capacity: nat, ts: multiset<Task>)
    requires WakeInv(p) && Enabled(p, s) && OnTheirWay(p, ts)
    ensures OnTheirWay(Apply(p, s, capacity), ts)
  {
    hide *;
    if Pushes(s) {
      WayPushed(p, s, capacity, ts);
    } else if s.RunTask? || s.Detach? || s.DrainPending? {
      WayMoved(p, s, capacity, ts);
    } else {
      WayStill(p, s, capacity, ts);
    }
  }

  lemma WayMoved(p: Poller, s: Step, capacity: nat, ts: multiset<Task>)
    requires WakeInv(p) && Enabled(p, s) && OnTheirWay(p, ts) && (s.RunTask? || s.Detach? || s.DrainPending?)
    ensures OnTheirWay(Apply(p, s, capacity), ts)
  {
    if s.RunTask? {
      hide WakeInv, OnTheirWay, Ran;
      var p' := Apply(p, s, capacity);
      RanMoves(p);
      RunOnWay(p, p', ts);
    } else {
      hide SomeoneWakes, Linked;
    }
  }

  lemma RunOnWay(p: Poller, p': Poller, ts: multiset<Task>)
    requires OnTheirWay(p, ts) && p.pc.Busy? && p.batch != []
    requires p'.ran == p.ran + [p.batch[0]] && p'.batch == p.batch[1..] && p'.queue == p.queue
    requires p'.pc == p.pc && p'.wakeSeen == p.wakeSeen
    ensures OnTheirWay(p', ts)
  {
    assert p.batch == [p.batch[0]] + p.batch[1..];
    assert multiset(p'.ran) + multiset(p'.batch) == multiset(p.ran) + multiset(p.batch);
  }

  lemma RanMoves(p: Poller)
    requires p.batch != []
    ensures var p' := Ran(p, p.batch[0]);
      p'.ran == p.ran && p'.batch == p.batch && p'.queue == p.queue && p'.pc == p.pc && p'.wakeSeen == p.wakeSeen
  {
  }

  /** Such a step moves no task. */
  lemma WayStill(p: Poller, s: Step, capacity: nat, ts: multiset<Task>)
    requires Enabled(p, s) && OnTheirWay(p, ts) && !Pushes(s) && !s.RunTask? && !s.Detach? && !s.DrainPending?
    ensures OnTheirWay(Apply(p, s, capacity), ts)
  {
    hide OnTheirWay;
    StillThere(p, s, capacity);
    StillOnWay(p, Apply(p, s, capacity), ts);
  }

  lemma StillThere(p: Poller, s: Step, capacity: nat)
    requires Enabled(p, s) && !Pushes(s) && !s.RunTask? && !s.Detach? && !s.DrainPending?
    ensures var p' := Apply(p, s, capacity);
      && p'.ran == p.ran && p'.batch == p.batch && p'.queue == p.queue
      && (p.wakeSeen || p.pc.ReadingPipe? || p.pc.PipeEmpty? ==> p'.wakeSeen || p'.pc.ReadingPipe? || p'.pc.PipeEmpty? || p.pc.Blocked?)
      && (p'.pc.Entering? || p'.pc.Blocked? ==> p.pc.Entering? || p.pc.Blocked? || (!p.wakeSeen && p.pc.Busy?))
  {
  }

  lemma StillOnWay(p: Poller, p': Poller, ts: multiset<Task>)
    requires OnTheirWay(p, ts) && p'.ran == p.ran && p'.batch == p.batch && p'.queue == p.queue
    requires p.wakeSeen || p.pc.ReadingPipe? || p.pc.PipeEmpty? ==> p'.wakeSeen || p'.pc.ReadingPipe? || p'.pc.PipeEmpty? || p.pc.Blocked?
    requires p'.pc.Entering? || p'.pc.Blocked? ==> p.pc.Entering? || p.pc.Blocked? || (!p.wakeSeen && p.pc.Busy?)
    ensures OnTheirWay(p', ts)
  {
  }

  lemma WayPushed(p: Poller, s: Step, capacity: nat, ts: multiset<Task>)
    requires Enabled(p, s) && OnTheirWay(p, ts) && Pushes(s)
    ensures OnTheirWay(Apply(p, s, capacity), ts)
  {
    hide Pushed;
    TaskPushed(p.queue, TaskOf(p, s), InFront(s));
  }

  lemma TaskPushed(q: seq<Task>, task: Task, front: bool)
    ensures multiset(Pushed(q, task, front)) == multiset(q) + multiset{task}
  {
  }

  lemma {:induction false} RunWay(p: Poller, steps: seq<Step>, capacity: nat, q: Poller, ts: multiset<Task>)
    requires Inv(p) && Runs(p, steps, capacity, q) && capacity > 0 && OnTheirWay(p, ts)
    ensures Inv(q) && OnTheirWay(q, ts)
    decreases |steps|
  {
    hide Inv, Apply, Enabled, OnTheirWay;
    if steps != [] {
      StepKeeps(p, steps[0], capacity);
      InvWakes(p);
      WayKeeps(p, steps[0], capacity, ts);
      RunWay(Apply(p, steps[0], capacity), steps[1..], capacity, q, ts);
    }
  }

  lemma InvWakes(p: Poller)
    requires Inv(p)
    ensures WakeInv(p)
  {
  }

  /** When epoll_wait returns with the wake descriptor, all tasks that are queued then have been run before the poller
      is about to call epoll_wait again. */
  lemma WakeServes(p: Poller, steps: seq<Step>, capacity: nat, q: Poller)
    requires Inv(p) && capacity > 0 && Enabled(p, Return(true))
    requires Runs(Apply(p, Return(true), capacity), steps, capacity, q) && q.pc.Entering?
    ensures multiset(p.ran) + multiset(p.queue) <= multiset(q.ran)
  {
    hide Runs, SomeoneWakes;
    var ts := multiset(p.ran) + multiset(p.queue);
    StepKeeps(p, Return(true), capacity);
    RunWay(Apply(p, Return(true), capacity), steps, capacity, q, ts);
    InvWakes(q);
  }

  /** Over every run: each posted task is run, detached or queued, just once; and but for the tasks pushed in
      front they are run in the order of posting. */
  lemma {:induction false} FirstInFirstOut(p: Poller, steps: seq<Step>, capacity: nat, q: Poller, out: set<Task>)
    requires Inv(p) && Runs(p, steps, capacity, q) && capacity > 0
    ensures multiset(Line(q)) == multiset(Line(p)) + multiset(PostedIn(p, steps, capacity, q, false))
    ensures FrontsIn(p, steps, capacity, q, out) ==>
      Except(Line(q), out) == Except(Line(p), out) + Except(PostedIn(p, steps, capacity, q, true), out)
    decreases |steps|
  {
    hide Inv, Apply, Enabled, Line, Except, InFront, Pushes, TaskOf;
    if steps != [] {
      var s, p1 := steps[0], Apply(p, steps[0], capacity);
      OneMore(p, s, capacity, out);
      StepKeeps(p, s, capacity);
      FirstInFirstOut(p1, steps[1..], capacity, q, out);
      var first := if Pushes(s) && !InFront(s) then [TaskOf(p, s)] else [];
      var rest := PostedIn(p1, steps[1..], capacity, q, true);
      if FrontsIn(p, steps, capacity, q, out) {
        ExceptJoin(Line(p), Line(p1), Line(q), first, rest, out);
        assert PostedIn(p, steps, capacity, q, true) == first + rest;
      }
    } else {
      ExceptNone(out);
    }
  }

  lemma OneMore(p: Poller, s: Step, capacity: nat, out: set<Task>)
    requires Inv(p) && Enabled(p, s)
    ensures var l, l' := Line(p), Line(Apply(p, s, capacity));
      && multiset(l') == multiset(l) + multiset(if Pushes(s) then [TaskOf(p, s)] else [])
      && ((Pushes(s) && InFront(s) ==> TaskOf(p, s) in out) ==>
            Except(l', out) == Except(l, out) + Except(if Pushes(s) && !InFront(s) then [TaskOf(p, s)] else [], out))
  {
    hide WakeInv, OrderInv, CancelInv, Apply, Enabled, Line, Except, InFront, Pushes, TaskOf;
    LineGrows(p, s, capacity);
    FrontInLine(p);
    if Pushes(s) {
      ExceptWith(Line(p), if InFront(s) then Front(p) else |Line(p)|, TaskOf(p, s), out);
    }
    ExceptNone(out);
  }

  /** The callbacks that a run starts. */
  function Started(p: Poller, steps: seq<Step>, capacity: nat, ghost q: Poller): seq<TimerId>
    requires Runs(p, steps, capacity, q)
    decreases |steps|
  {
    if steps == [] then []
    else
      var p' := Apply(p, steps[0], capacity);
      (if steps[0].FlushPop? && p'.firing.InCallback? then [p'.firing.timer] else [])
      + Started(p', steps[1..], capacity, q)
  }

  /** Over every run: no callback of a flagged timer starts. */
  lemma {:induction false} FlaggedIsSilent(p: Poller, steps: seq<Step>, capacity: nat, q: Poller, timer: TimerId)
    requires Runs(p, steps, capacity, q) && timer in p.timers && p.timers[timer].cancelled
    ensures timer !in Started(p, steps, capacity, q)
    decreases |steps|
  {
    if steps != [] {
      hide Apply, Enabled;
      TimerSteps(p, steps[0], capacity, timer);
      if steps[0].FlushPop? && Apply(p, steps[0], capacity).firing.InCallback? {
        WhatStarts(p, steps[0], capacity);
      }
      FlaggedIsSilent(Apply(p, steps[0], capacity), steps[1..], capacity, q, timer);
    }
  }

  lemma WhatStarts(p: Poller, s: Step, capacity: nat)
    requires Enabled(p, s) && s.FlushPop? && Apply(p, s, capacity).firing.InCallback?
    ensures var timer := Apply(p, s, capacity).firing.timer; timer in p.timers && !p.timers[timer].cancelled
  {
  }

  // ---- a cancel on the poller's own thread ----

  /** The timer is flagged and out of the heap, and no insert task for it is left. */
  predicate Gone(p: Poller, timer: TimerId) {
    && timer in p.timers && p.timers[timer].cancelled && !p.timers[timer].linked
    && Insert(timer) !in p.batch && Insert(timer) !in p.queue
  }

  lemma GoneStep(p: Poller, s: Step, capacity: nat, timer: TimerId)
    requires Gone(p, timer) && Enabled(p, s)
    ensures Gone(Apply(p, s, capacity), timer)
  {
    TimerSteps(p, s, capacity, timer);
    NoNewInsert(p, s, capacity, timer);
  }

  lemma NoNewInsert(p: Poller, s: Step, capacity: nat, timer: TimerId)
    requires Enabled(p, s) && timer in p.timers && Insert(timer) !in p.batch && Insert(timer) !in p.queue
    ensures var p' := Apply(p, s, capacity); Insert(timer) !in p'.batch && Insert(timer) !in p'.queue
  {
  }

  lemma {:induction false} GoneRun(p: Poller, steps: seq<Step>, capacity: nat, q: Poller, timer: TimerId)
    requires Gone(p, timer) && Runs(p, steps, capacity, q)
    ensures Gone(q, timer)
    decreases |steps|
  {
    hide Gone, Apply, Enabled;
    if steps != [] {
      GoneStep(p, steps[0], capacity, timer);
      GoneRun(Apply(p, steps[0], capacity), steps[1..], capacity, q, timer);
    }
  }

  /** The poller's thread alone gets to an insert task that it has detached or that is queued. */
  lemma {:induction false} RunToInsert(p: Poller, capacity: nat, timer: TimerId) returns (steps: seq<Step>, q: Poller)
    requires Free(p) && p.firing.NoFiring? && timer in p.timers
    requires Insert(timer) in p.batch || Insert(timer) in p.queue
    ensures Runs(p, steps, capacity, q) && timer in q.timers && q.timers[timer].linked
    decreases |p.batch| + 2 * |p.queue|
  {
    var s := if p.batch == [] then DrainPending else RunTask;
    var p1 := Apply(p, s, capacity);
    OneTask(p, s, capacity, timer);
    if p1.timers[timer].linked && p.batch != [] && p.batch[0] == Insert(timer) {
      steps, q := [s], p1;
      OneStep(p, s, capacity, [], q);
    } else {
      steps, q := RunToInsert(p1, capacity, timer);
      OneStep(p, s, capacity, steps, q);
      steps := [s] + steps;
    }
  }

  lemma OneTask(p: Poller, s: Step, capacity: nat, timer: TimerId)
    requires Free(p) && p.firing.NoFiring? && timer in p.timers
    requires Insert(timer) in p.batch || Insert(timer) in p.queue
    requires s == if p.batch == [] then DrainPending else RunTask
    ensures Enabled(p, s)
    ensures var p' := Apply(p, s, capacity);
      && Free(p') && p'.firing.NoFiring? && timer in p'.timers && |p'.batch| + 2 * |p'.queue| < |p.batch| + 2 * |p.queue|
      && (if p.batch != [] && p.batch[0] == Insert(timer) then p'.timers[timer].linked
          else Insert(timer) in p'.batch || Insert(timer) in p'.queue)
  {
  }

  lemma OneStep(p: Poller, s: Step, capacity: nat, steps: seq<Step>, q: Poller)
    requires Enabled(p, s) && Runs(Apply(p, s, capacity), steps, capacity, q)
    ensures Runs(p, [s] + steps, capacity, q)
  {
    hide Apply, Enabled;
    assert ([s] + steps)[1..] == steps;
  }

  /** The run ends with the timer in the heap. */
  predicate Links(p: Poller, steps: seq<Step>, capacity: nat, q: Poller, timer: TimerId) {
    Runs(p, steps, capacity, q) && timer in q.timers && q.timers[timer].linked
  }

  /** A cancel on the poller's own thread is final exactly if no insert task for the timer is outstanding: in the
      other case some run links the flagged timer again, to be dropped in silence when it is due. */
  lemma OwnCancelExact(p: Poller, timer: TimerId, capacity: nat)
    requires Enabled(p, OwnCancel(timer))
    ensures var p1 := Apply(p, OwnCancel(timer), capacity);
      (exists steps, q :: Links(p1, steps, capacity, q, timer)) <==>
      Insert(timer) in p.batch || Insert(timer) in p.queue
  {
    hide Runs, Apply, Enabled, Gone;
    var p1 := Apply(p, OwnCancel(timer), capacity);
    CancelledHere(p, timer, capacity);
    if Insert(timer) in p.batch || Insert(timer) in p.queue {
      var steps, q := RunToInsert(p1, capacity, timer);
      assert Links(p1, steps, capacity, q, timer);
    } else {
      forall steps, q | Runs(p1, steps, capacity, q) ensures !Links(p1, steps, capacity, q, timer) {
        GoneRun(p1, steps, capacity, q, timer);
        GoneIs(q, timer);
      }
    }
  }

  lemma CancelledHere(p: Poller, timer: TimerId, capacity: nat)
    requires Enabled(p, OwnCancel(timer))
    ensures var p1 := Apply(p, OwnCancel(timer), capacity);
      && Free(p1) && p1.firing.NoFiring? && timer in p1.timers && p1.batch == p.batch && p1.queue == p.queue
      && (Insert(timer) !in p.batch && Insert(timer) !in p.queue ==> Gone(p1, timer))
  {
  }

  lemma GoneIs(p: Poller, timer: TimerId)
    requires Gone(p, timer)
    ensures timer in p.timers && !p.timers[timer].linked
  {
  }

  // ---- one turn of the loop ----

  lemma Then(p: Poller, s: Step, capacity: nat, rest: seq<Step>, q: Poller) returns (steps: seq<Step>)
    requires Enabled(p, s) && Runs(Apply(p, s, capacity), rest, capacity, q)
    ensures Runs(p, steps, capacity, q) && steps == [s] + rest
  {
    hide Enabled, Apply;
    steps := [s] + rest;
    assert steps[1..] == rest;
  }

  predicate OfLoop(s: Step) {
    s.Enter? || s.Sleep? || s.Return? || s.StartReading? || s.ReadPipe? || s.ReadNothing? || s.Detach? || s.RunTask?
  }

  predicate Alone(steps: seq<Step>) {
    forall i :: 0 <= i < |steps| ==> OfLoop(steps[i])
  }

  lemma AloneThen(s: Step, rest: seq<Step>)
    requires OfLoop(s) && Alone(rest)
    ensures Alone([s] + rest)
  {
  }

  /** The poller reads the pipe until it is empty, takes the queue, runs it and goes back to sleep. */
  lemma {:induction false} ReadsOn(p: Poller, capacity: nat) returns (steps: seq<Step>, q: Poller)
    requires p.pc.ReadingPipe? && !p.owes && p.batch == [] && p.firing.NoFiring? && !p.wakeSeen
    ensures Runs(p, steps, capacity, q) && Alone(steps) && Asleep(q, p.ran + p.queue, p.producers)
    decreases p.pipe
  {
    hide Runs, Alone;
    if p.pipe > 0 {
      var n := if p.pipe < READ_SIZE then p.pipe else READ_SIZE;
      steps, q := ReadsOn(Apply(p, ReadPipe(n), capacity), capacity);
      AloneThen(ReadPipe(n), steps);
      steps := Then(p, ReadPipe(n), capacity, steps, q);
    } else {
      var p1 := Apply(p, ReadNothing, capacity);
      var p2 := Apply(p1, Detach, capacity);
      steps, q := RunsOn(p2, capacity);
      AloneThen(Detach, steps);
      steps := Then(p1, Detach, capacity, steps, q);
      AloneThen(ReadNothing, steps);
      steps := Then(p, ReadNothing, capacity, steps, q);
    }
  }

  predicate Asleep(p: Poller, ran: seq<Task>, producers: seq<Producer>) {
    p.pc.Blocked? && p.pipe == 0 && p.queue == [] && p.batch == [] && p.ran == ran && p.producers == producers
  }

  lemma {:induction false} RunsOn(p: Poller, capacity: nat) returns (steps: seq<Step>, q: Poller)
    requires Free(p) && p.pipe == 0 && p.queue == [] && p.firing.NoFiring? && !p.wakeSeen
    ensures Runs(p, steps, capacity, q) && Alone(steps) && Asleep(q, p.ran + p.batch, p.producers)
    decreases |p.batch|
  {
    hide Runs, Alone;
    if p.batch != [] {
      var p1 := Apply(p, RunTask, capacity);
      assert p1.ran + p1.batch == p.ran + p.batch;
      steps, q := RunsOn(p1, capacity);
      AloneThen(RunTask, steps);
      steps := Then(p, RunTask, capacity, steps, q);
    } else {
      var p1 := Apply(p, Enter, capacity);
      q := Apply(p1, Sleep, capacity);
      assert p.ran + p.batch == p.ran;
      steps := NoSteps(q, capacity);
      AloneThen(Sleep, steps);
      steps := Then(p1, Sleep, capacity, steps, q);
      AloneThen(Enter, steps);
      steps := Then(p, Enter, capacity, steps, q);
    }
  }

  lemma NoSteps(p: Poller, capacity: nat) returns (steps: seq<Step>)
    ensures steps == [] && Runs(p, steps, capacity, p) && Alone(steps)
  {
    steps := [];
  }

  /** A sleeping poller with a byte in its pipe, left to itself, runs the queued tasks in order, each once, and goes
      back to sleep with pipe and queue empty. */
  lemma TurnServes(p: Poller, capacity: nat) returns (steps: seq<Step>, q: Poller)
    requires Inv(p) && p.pc.Blocked? && p.pipe > 0
    ensures Runs(p, steps, capacity, q) && Alone(steps) && Asleep(q, p.ran + p.queue, p.producers)
  {
    hide Runs, Alone, Asleep;
    var p1 := Apply(p, Return(true), capacity);
    var p2 := Apply(p1, StartReading, capacity);
    steps, q := ReadsOn(p2, capacity);
    AloneThen(StartReading, steps);
    steps := Then(p1, StartReading, capacity, steps, q);
    AloneThen(Return(true), steps);
    steps := Then(p, Return(true), capacity, steps, q);
  }

  /** A wake leaves a byte in the pipe, also when it is full, and the waker done. */
  lemma WakeWrites(p: Poller, s: Step, capacity: nat)
    requires Enabled(p, s) && (s.Wake? || s.OwnWake?) && p.pipe <= capacity && capacity > 0
    ensures var p' := Apply(p, s, capacity);
      && p'.pipe == (if p.pipe < capacity then p.pipe + 1 else capacity) > 0
      && (s.Wake? ==> p'.producers == p.producers[s.i := Outside]) && (s.OwnWake? ==> !p'.owes)
  {
  }

  /** A delay from another thread posts the insert in front and leaves the timer unlinked until that is run; on the
      poller's own thread the timer is linked at once. */
  lemma DelayLinks(p: Poller, s: Step, capacity: nat)
    requires Enabled(p, s) && (s.Delay? || s.OwnDelay?)
    ensures var p' := Apply(p, s, capacity);
      && s.timer in p'.timers && !p'.timers[s.timer].cancelled && p'.timers[s.timer].linked == s.OwnDelay?
      && p'.queue == (if s.Delay? then [Insert(s.timer)] + p.queue else p.queue)
      && (s.Delay? ==> ProducerAt(p', s.i, Waking)) && (s.OwnDelay? ==> p'.owes)
  {
  }
}
