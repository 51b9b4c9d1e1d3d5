/** The semaphore and deque protocol of thread_pool.c, one step per semaphore operation or per
    critical section of the pool's mutex. */
module ThreadPool {
  import opened TaskOrder
  import opened Tally

  type Task = nat

  /** Where a worker thread is: not created or joined and destroyed, in ztk_sem_wait, between it and pop_task,
      inside a task, inside a task and between push_task's critical section and its ztk_sem_post, returned. */
  datatype Worker = Absent | Waiting | Holding | Running(task: Task) | Owing(task: Task) | Exited {
    predicate Gone() {
      Absent? || Exited?
    }
  }

  /** `started` is 0 in the first three phases: no workers, ztk_thread_pool_start that has created some, and the
      same joining what it has created after a failure. ztk_thread_pool_fini has posted its tokens and joined
      some workers in the last one; its end leads back to the first. */
  datatype Phase = Stopped | Starting(created: nat) | Failing(created: nat, joined: nat) | Open | Posted(joined: nat)

  /** `admitted` counts the outside threads between the `started` test of ztk_thread_pool_async and push_task,
      `owed` those between push_task's critical section and its ztk_sem_post. The rest is history: tasks in
      the order they were started, tasks accepted, and those of them pushed since there is no worker. */
  datatype Pool = Pool(
    queue: seq<Task>, sem: nat, workers: seq<Worker>, admitted: nat, owed: nat, phase: Phase,
    ran: seq<Task>, accepted: multiset<Task>, late: multiset<Task>)
  {
    predicate Started() {
      phase.Open? || phase.Posted?
    }
  }

  datatype Step =
    | Start
    | Spawn
    | SpawnFails
    | StartEnd
    | Admit
    | Push(task: Task, first: bool)
    | Post
    | WorkerPush(w: nat, task: Task, first: bool)
    | WorkerPost(w: nat)
    | WorkerInline(w: nat, task: Task)
    | Take(w: nat)
    | Pop(w: nat)
    | Finish(w: nat)
    | FiniPost
    | Join
    | JoinEnd

  /** `n` threads that do not exist. */
  function None(n: nat): seq<Worker> {
    seq(n, _ => Absent)
  }

  function Created(n: nat): Pool {
    Pool([], 0, None(n), 0, 0, Stopped, [], multiset{}, multiset{})
  }

  function Pushed(q: seq<Task>, task: Task, first: bool): seq<Task> {
    if first then [task] + q else q + [task]
  }

  /** The workers that a join is for. */
  function ToJoin(p: Pool): nat {
    match p.phase
    case Failing(created, _) => created
    case _ => |p.workers|
  }

  predicate Joining(p: Pool) {
    p.phase.Posted? || p.phase.Failing?
  }

  predicate Enabled(p: Pool, s: Step) {
    match s
    case Start => p.phase.Stopped?
    case Spawn => p.phase.Starting? && p.phase.created < |p.workers|
    case SpawnFails => p.phase.Starting? && p.phase.created < |p.workers|
    case StartEnd => p.phase.Starting? && p.phase.created == |p.workers|
    case Admit => p.Started()
    case Push(_, _) => p.admitted > 0
    case Post => p.owed > 0
    case WorkerPush(w, _, _) => p.Started() && w < |p.workers| && p.workers[w].Running?
    case WorkerPost(w) => w < |p.workers| && p.workers[w].Owing?
    case WorkerInline(w, _) => p.Started() && w < |p.workers| && p.workers[w].Running?
    case Take(w) => w < |p.workers| && p.workers[w].Waiting? && p.sem > 0
    case Pop(w) => w < |p.workers| && p.workers[w].Holding?
    case Finish(w) => w < |p.workers| && p.workers[w].Running?
    case FiniPost => p.phase.Open?
    case Join => Joining(p) && p.phase.joined < ToJoin(p) <= |p.workers| && p.workers[p.phase.joined].Exited?
    case JoinEnd => Joining(p) && p.phase.joined == ToJoin(p)
  }

  function At(p: Pool, w: nat, pc: Worker): Pool
    requires w < |p.workers|
  {
    p.(workers := p.workers[w := pc])
  }

  function Apply(p: Pool, s: Step): Pool
    requires Enabled(p, s)
  {
    match s
    case Start => p.(phase := Starting(0))
    case Spawn => At(p, p.phase.created, Waiting).(phase := Starting(p.phase.created + 1), late := multiset{})
    case SpawnFails => p.(phase := Failing(p.phase.created, 0))
    case StartEnd => p.(phase := Open)
    case Admit => p.(admitted := p.admitted + 1)
    case Push(task, first) =>
      p.(queue := Pushed(p.queue, task, first), admitted := p.admitted - 1, owed := p.owed + 1,
         accepted := p.accepted + multiset{task}, late := if AllGone(p) then p.late + multiset{task} else p.late)
    case Post => p.(owed := p.owed - 1, sem := p.sem + 1)
    case WorkerPush(w, task, first) =>
      At(p, w, Owing(p.workers[w].task)).(queue := Pushed(p.queue, task, first), accepted := p.accepted + multiset{task})
    case WorkerPost(w) => At(p, w, Running(p.workers[w].task)).(sem := p.sem + 1)
    case WorkerInline(w, task) => p.(ran := p.ran + [task], accepted := p.accepted + multiset{task})
    case Take(w) => At(p, w, Holding).(sem := p.sem - 1)
    case Pop(w) =>
      if p.queue == [] then At(p, w, Exited)
      else At(p, w, Running(p.queue[0])).(queue := p.queue[1..], ran := p.ran + [p.queue[0]])
    case Finish(w) => At(p, w, Waiting)
    case FiniPost => p.(phase := Posted(0), sem := p.sem + |p.workers|)
    case Join => p.(phase := p.phase.(joined := p.phase.joined + 1))
    case JoinEnd => p.(phase := Stopped, workers := None(|p.workers|))
  }

  // ---- sums over the workers ----

  /** The tokens a worker has in hand, owes, or left with. */
  function Token(w: Worker): nat {
    match w
    case Holding => 1
    case Owing(_) => 1
    case Exited => 1
    case _ => 0
  }

  function Left(w: Worker): nat {
    if w.Exited? then 1 else 0
  }

  lemma {:induction false} LeftAtMost(ws: seq<Worker>)
    ensures Sum(ws, Left) <= Sum(ws, Token) && Sum(ws, Left) <= |ws|
    ensures Sum(ws, Left) == |ws| <==> forall w :: 0 <= w < |ws| ==> ws[w].Exited?
    ensures Sum(ws, Left) == 0 <==> forall w :: 0 <= w < |ws| ==> !ws[w].Exited?
  {
    if ws != [] {
      LeftAtMost(ws[1..]);
      assert forall w :: 1 <= w < |ws| ==> ws[w] == ws[1..][w - 1];
      assert forall w :: 0 <= w < |ws| - 1 ==> ws[1..][w] == ws[w + 1];
    }
  }

  // ---- the invariant ----

  /** The tokens that fini has posted for the workers to leave with. */
  function Shutdown(p: Pool): nat {
    if p.phase.Posted? then |p.workers| else 0
  }

  /** Tokens in the semaphore, in a worker's hand or owed by a pusher are as many as the queued tasks and the
      shutdown tokens, less the workers that have exited. */
  predicate Balanced(p: Pool) {
    p.sem + p.owed + Sum(p.workers, Token) == |p.queue| + Shutdown(p)
  }

  predicate AllGone(p: Pool) {
    forall w :: 0 <= w < |p.workers| ==> p.workers[w].Gone()
  }

  /** The first `k` workers are there, and at work or waiting for it; the others do not exist. */
  predicate FirstLive(p: Pool, k: nat) {
    k <= |p.workers| && forall w :: 0 <= w < |p.workers| ==> if w < k then !p.workers[w].Gone() else p.workers[w].Absent?
  }

  /** Which workers exist. Before fini none has exited, so a failed start never joins one. */
  predicate Phased(p: Pool) {
    match p.phase
    case Stopped => FirstLive(p, 0)
    case Starting(created) => FirstLive(p, created)
    case Failing(created, joined) => FirstLive(p, created) && joined == 0
    case Open => FirstLive(p, |p.workers|)
    case Posted(joined) =>
      joined <= |p.workers| && forall w :: 0 <= w < |p.workers| ==> !p.workers[w].Absent? && (w < joined ==> p.workers[w].Exited?)
  }

  /** What is queued while there is no worker came after the last one had left. */
  predicate LateOk(p: Pool) {
    p.late == if AllGone(p) then multiset(p.queue) else multiset{}
  }

  predicate Inv(p: Pool) {
    && p.workers != []
    && Balanced(p)
    && multiset(p.ran) + multiset(p.queue) == p.accepted
    && Phased(p)
    && LateOk(p)
  }

  lemma {:induction false} NoneSum(n: nat, f: Worker -> nat)
    requires f(Absent) == 0
    ensures Sum(None(n), f) == 0
  {
    if n > 0 {
      assert None(n)[1..] == None(n - 1);
      NoneSum(n - 1, f);
    }
  }

  lemma CreatedInv(n: nat)
    requires n > 0
    ensures Inv(Created(n))
  {
    NoneSum(n, Token);
  }

  lemma BalanceKeeps(p: Pool, s: Step)
    requires Balanced(p) && Phased(p) && p.workers != [] && Enabled(p, s)
    ensures Balanced(Apply(p, s))
  {
    hide Phased, AllGone, Sum, None;
    match s
    case Spawn =>
      NextAbsent(p);
      SumUpdate(p.workers, Token, p.phase.created, Waiting);
    case WorkerPush(w, _, _) => SumUpdate(p.workers, Token, w, Owing(p.workers[w].task));
    case WorkerPost(w) => SumUpdate(p.workers, Token, w, Running(p.workers[w].task));
    case Take(w) => SumUpdate(p.workers, Token, w, Holding);
    case Pop(w) => SumUpdate(p.workers, Token, w, if p.queue == [] then Exited else Running(p.queue[0]));
    case Finish(w) => SumUpdate(p.workers, Token, w, Waiting);
    case JoinEnd => JoinedBalance(p);
    case _ =>
  }

  lemma NextAbsent(p: Pool)
    requires Phased(p) && Enabled(p, Spawn)
    ensures p.workers[p.phase.created] == Absent
  {
  }

  /** At the end of a join the tokens that the workers left with are the shutdown tokens. */
  lemma JoinedBalance(p: Pool)
    requires Phased(p) && Joining(p) && p.phase.joined == ToJoin(p)
    ensures Sum(p.workers, Token) == Shutdown(p) && Sum(None(|p.workers|), Token) == 0
    ensures AllGone(p)
  {
    NoneSum(|p.workers|, Token);
    if p.phase.Posted? {
      LeftAtMost(p.workers);
      StuckTokens(p.workers, p.sem);
    } else {
      assert p.workers == None(|p.workers|);
    }
  }

  lemma HistoryKeeps(p: Pool, s: Step)
    requires multiset(p.ran) + multiset(p.queue) == p.accepted && Enabled(p, s)
    ensures var p' := Apply(p, s); multiset(p'.ran) + multiset(p'.queue) == p'.accepted
  {
    hide Pushed, AllGone, Joining, ToJoin, None, Balanced, Sum;
    PushedAdds(p.queue, s);
    if s.Pop? && p.queue != [] {
      assert p.queue == [p.queue[0]] + p.queue[1..];
    }
  }

  lemma PushedAdds(q: seq<Task>, s: Step)
    ensures (s.Push? || s.WorkerPush?) ==> multiset(Pushed(q, s.task, s.first)) == multiset(q) + multiset{s.task}
  {
  }

  /** A worker that finds the queue empty holds a shutdown token. */
  lemma ExitNeedsFini(p: Pool, w: nat)
    requires Balanced(p) && w < |p.workers| && p.workers[w].Holding? && p.queue == []
    ensures p.phase.Posted?
  {
    SumUpdate(p.workers, Token, w, Waiting);
  }

  /** A step moves one worker at most, but for the end of a join; only Spawn brings one to life, and only pop_task
      on an empty queue makes one exit. */
  lemma WhoExits(p: Pool, s: Step)
    requires Enabled(p, s) && !s.Spawn? && !s.JoinEnd?
    ensures var p' := Apply(p, s);
      && |p'.workers| == |p.workers|
      && (forall w :: 0 <= w < |p.workers| ==> (p.workers[w].Absent? <==> p'.workers[w].Absent?))
      && (forall w :: 0 <= w < |p.workers| && p.workers[w].Exited? ==> p'.workers[w].Exited?)
      && (forall w :: 0 <= w < |p.workers| && p'.workers[w].Exited? && !p.workers[w].Exited? ==> s == Pop(w) && p.queue == [])
  {
  }

  /** The steps of start and fini themselves. */
  predicate OfCall(s: Step) {
    s.Start? || s.Spawn? || s.SpawnFails? || s.StartEnd? || s.FiniPost? || s.Join? || s.JoinEnd?
  }

  lemma PhaseKeeps(p: Pool, s: Step)
    requires Balanced(p) && Phased(p) && Enabled(p, s)
    ensures Phased(Apply(p, s))
  {
    if OfCall(s) {
      hide Balanced;
    } else {
      hide Balanced, Apply, Enabled;
      WhoExits(p, s);
      SamePhase(p, s);
      if s.Pop? && p.queue == [] {
        ExitNeedsFini(p, s.w);
      }
    }
  }

  lemma SamePhase(p: Pool, s: Step)
    requires Enabled(p, s) && !OfCall(s)
    ensures Apply(p, s).phase == p.phase && (s.Pop? ==> s.w < |p.workers| && p.workers[s.w].Holding?)
  {
    hide AllGone;
  }

  /** While there is no worker, and until one is created, the queue only takes what is pushed. */
  lemma DeadQueue(p: Pool, s: Step)
    requires Enabled(p, s) && AllGone(p) && !s.Spawn?
    ensures var p' := Apply(p, s);
      AllGone(p') && (if s.Push? then p'.queue == Pushed(p.queue, s.task, s.first) else p'.queue == p.queue)
      && p'.late == (if s.Push? then p.late + multiset{s.task} else p.late) && p'.ran == p.ran
  {
    hide Pushed;
    if !s.JoinEnd? {
      WhoExits(p, s);
    }
  }

  lemma LiveQueue(p: Pool, s: Step)
    requires Enabled(p, s) && !AllGone(p) && !s.Spawn? && !s.JoinEnd?
    ensures var p' := Apply(p, s); p'.late == p.late && (AllGone(p') ==> p'.queue == [])
  {
    WhoExits(p, s);
    var w :| 0 <= w < |p.workers| && !p.workers[w].Gone();
  }

  lemma SpawnLives(p: Pool)
    requires Enabled(p, Spawn)
    ensures !AllGone(Apply(p, Spawn)) && Apply(p, Spawn).late == multiset{}
  {
    assert !Apply(p, Spawn).workers[p.phase.created].Gone();
  }

  lemma LateKeeps(p: Pool, s: Step)
    requires Enabled(p, s) && LateOk(p) && Phased(p)
    ensures LateOk(Apply(p, s))
  {
    hide AllGone, Apply, Enabled, Pushed, Phased;
    if s.Spawn? {
      SpawnLives(p);
    } else if AllGone(p) {
      DeadQueue(p, s);
      PushedAdds(p.queue, s);
    } else {
      LeavesLast(p, s);
      LiveQueue(p, s);
    }
  }

  lemma LeavesLast(p: Pool, s: Step)
    requires Enabled(p, s) && Phased(p)
    ensures s.JoinEnd? ==> AllGone(p)
  {
    if s.JoinEnd? {
      JoinedBalance(p);
    }
  }

  lemma SameWorkers(p: Pool, s: Step)
    requires Enabled(p, s)
    ensures |Apply(p, s).workers| == |p.workers|
  {
  }

  lemma StepKeeps(p: Pool, s: Step)
    requires Inv(p) && Enabled(p, s)
    ensures Inv(Apply(p, s))
  {
    hide Balanced, Phased, LateOk, AllGone, Enabled, Apply;
    SameWorkers(p, s);
    BalanceKeeps(p, s);
    HistoryKeeps(p, s);
    PhaseKeeps(p, s);
    LateKeeps(p, s);
  }

  // ---- shutdown ----

  /** A step that a thread already inside the pool takes by itself; the others are calls from user code. */
  predicate Internal(s: Step) {
    !s.Start? && !s.SpawnFails? && !s.Admit? && !s.Push? && !s.WorkerPush? && !s.WorkerInline? && !s.FiniPost?
  }

  predicate Stuck(w: Worker, sem: nat) {
    w.Gone() || (w.Waiting? && sem == 0)
  }

  lemma {:induction false} StuckTokens(ws: seq<Worker>, sem: nat)
    requires forall w :: 0 <= w < |ws| ==> Stuck(ws[w], sem)
    ensures Sum(ws, Token) == Sum(ws, Left)
  {
    if ws != [] {
      StuckTokens(ws[1..], sem);
    }
  }

  function MoveOf(pc: Worker, w: nat): Step {
    match pc
    case Holding => Pop(w)
    case Running(_) => Finish(w)
    case Owing(_) => WorkerPost(w)
    case _ => Take(w)
  }

  /** No deadlock: until a start or a fini that is under way is over, some thread can go on. */
  lemma NoDeadlock(p: Pool)
    requires Inv(p) && (p.phase.Posted? || p.phase.Starting?)
    ensures exists s :: Internal(s) && Enabled(p, s)
  {
    hide Balanced, LateOk;
    if p.phase.Starting? {
      var s := if p.phase.created < |p.workers| then Spawn else StartEnd;
      assert Internal(s) && Enabled(p, s);
    } else if p.owed > 0 {
      assert Internal(Post) && Enabled(p, Post);
    } else if w :| 0 <= w < |p.workers| && !Stuck(p.workers[w], p.sem) {
      var s := MoveOf(p.workers[w], w);
      assert Internal(s) && Enabled(p, s);
    } else {
      if !AllGone(p) {
        NoWorkerStuck(p);
      }
      var s := if p.phase.joined < |p.workers| then Join else JoinEnd;
      assert Internal(s) && Enabled(p, s);
    }
  }

  /** A worker that is not waiting for a token can always go on, and one that waits can whenever a token is
      there; after fini there is one for the last of them. */
  lemma NoWorkerStuck(p: Pool)
    requires Inv(p) && p.phase.Posted? && p.owed == 0 && !AllGone(p)
    ensures exists w :: 0 <= w < |p.workers| && !Stuck(p.workers[w], p.sem)
  {
    if forall w :: 0 <= w < |p.workers| ==> Stuck(p.workers[w], p.sem) {
      StuckTokens(p.workers, p.sem);
      LeftAtMost(p.workers);
    }
  }

  function Effort(w: Worker): nat {
    match w
    case Owing(_) => 4
    case Running(_) => 3
    case Waiting => 2
    case Holding => 1
    case _ => 0
  }

  /** What a start or a fini has still to do itself. */
  function Calls(p: Pool): nat {
    match p.phase
    case Starting(created) => if created <= |p.workers| then 3 * (|p.workers| - created) + 1 else 0
    case Posted(joined) => if joined <= |p.workers| then |p.workers| - joined + 1 else 0
    case Failing(created, joined) => if joined <= created then created - joined + 1 else 0
    case _ => 0
  }

  /** What is still to do. */
  function Work(p: Pool): nat {
    3 * |p.queue| + Sum(p.workers, Effort) + p.owed + Calls(p)
  }

  /** Every step inside the pool brings the end of the call nearer. */
  lemma WorkFalls(p: Pool, s: Step)
    requires Enabled(p, s) && Internal(s)
    ensures Work(Apply(p, s)) < Work(p)
  {
    hide Sum, None, AllGone;
    match s
    case Spawn => SumUpdate(p.workers, Effort, p.phase.created, Waiting);
    case WorkerPost(w) => SumUpdate(p.workers, Effort, w, Running(p.workers[w].task));
    case Take(w) => SumUpdate(p.workers, Effort, w, Holding);
    case Pop(w) => SumUpdate(p.workers, Effort, w, if p.queue == [] then Exited else Running(p.queue[0]));
    case Finish(w) => SumUpdate(p.workers, Effort, w, Waiting);
    case JoinEnd => NoneSum(|p.workers|, Effort);
    case _ =>
  }

  // ---- runs ----

  predicate Runs(p: Pool, steps: seq<Step>, q: Pool)
    decreases |steps|
  {
    if steps == [] then p == q else Enabled(p, steps[0]) && Runs(Apply(p, steps[0]), steps[1..], q)
  }

  lemma {:induction false} RunKeeps(p: Pool, steps: seq<Step>, q: Pool)
    requires Inv(p) && Runs(p, steps, q)
    ensures Inv(q)
    decreases |steps|
  {
    if steps != [] {
      hide Inv, Apply, Enabled;
      StepKeeps(p, steps[0]);
      RunKeeps(Apply(p, steps[0]), steps[1..], q);
    }
  }

  /** Whatever the threads do: tokens balance, no task is lost or run twice, no worker exits before fini. */
  lemma EveryRun(n: nat, steps: seq<Step>, p: Pool)
    requires n > 0 && Runs(Created(n), steps, p)
    ensures Inv(p) && Balanced(p)
    ensures multiset(p.ran) + multiset(p.queue) == p.accepted
    ensures !p.phase.Posted? ==> forall w :: 0 <= w < |p.workers| ==> !p.workers[w].Exited?
  {
    CreatedInv(n);
    RunKeeps(Created(n), steps, p);
  }

  /** Over every run, with any number of starts and finis: whenever the last worker has left, and so whenever fini
      is over, every accepted task has been run exactly once but those pushed since that moment, which have not:
      all have been run if and only if there are none such. */
  lemma FiniDrains(n: nat, steps: seq<Step>, p: Pool)
    requires n > 0 && Runs(Created(n), steps, p)
    ensures p.phase.Stopped? ==> AllGone(p)
    ensures AllGone(p) ==> p.accepted == multiset(p.ran) + p.late && p.late == multiset(p.queue)
    ensures AllGone(p) ==> (multiset(p.ran) == p.accepted <==> p.late == multiset{})
  {
    EveryRun(n, steps, p);
  }

  /** However the steps inside the pool are scheduled, fini comes to its end in at most Work(p) of them. */
  lemma {:induction false} FiniEnds(p: Pool, steps: seq<Step>, q: Pool)
    requires Inv(p) && p.phase.Posted? && Runs(p, steps, q) && forall i :: 0 <= i < |steps| ==> Internal(steps[i])
    ensures |steps| <= Work(p)
    ensures q.phase.Stopped? || exists s :: Internal(s) && Enabled(q, s)
    decreases |steps|
  {
    hide Inv, Work;
    if steps == [] {
      NoDeadlock(p);
    } else {
      WorkFalls(p, steps[0]);
      StepKeeps(p, steps[0]);
      var p1 := Apply(p, steps[0]);
      if p1.phase.Posted? {
        FiniEnds(p1, steps[1..], q);
      } else {
        AfterFini(p1, steps[1..], q);
      }
    }
  }

  lemma {:induction false} AfterFini(p: Pool, steps: seq<Step>, q: Pool)
    requires p.phase.Stopped? && Runs(p, steps, q) && forall i :: 0 <= i < |steps| ==> Internal(steps[i])
    ensures |steps| <= Work(p) && q.phase.Stopped?
    decreases |steps|
  {
    hide Work;
    if steps != [] {
      WorkFalls(p, steps[0]);
      AfterFini(Apply(p, steps[0]), steps[1..], q);
    }
  }

  /** A start that fails when it has created a worker joins it without having posted a token, and never returns,
      whatever the other threads do; one that fails at the first worker can return at once. */
  lemma FailedStart(p: Pool, steps: seq<Step>, q: Pool)
    requires Inv(p) && Enabled(p, SpawnFails) && Runs(Apply(p, SpawnFails), steps, q)
    ensures p.phase.created > 0 ==> q.phase == Failing(p.phase.created, 0)
    ensures p.phase.created == 0 ==>
      var p1 := Apply(p, SpawnFails); Enabled(p1, JoinEnd) && Apply(p1, JoinEnd) == p.(phase := Stopped)
  {
    hide Inv, Runs;
    StepKeeps(p, SpawnFails);
    FailedJoins(Apply(p, SpawnFails), steps, q);
  }

  lemma {:induction false} FailedJoins(p: Pool, steps: seq<Step>, q: Pool)
    requires Inv(p) && p.phase.Failing? && Runs(p, steps, q)
    ensures p.phase.created > 0 ==> q.phase == p.phase
    ensures p.phase.created == 0 ==> Enabled(p, JoinEnd) && Apply(p, JoinEnd) == p.(phase := Stopped)
    decreases |steps|
  {
    hide Balanced, LateOk, Sum;
    if p.phase.created == 0 {
      FailedFirst(p);
    } else if steps != [] {
      assert !p.workers[0].Gone();
      StepKeeps(p, steps[0]);
      FailedJoins(Apply(p, steps[0]), steps[1..], q);
    }
  }

  lemma FailedFirst(p: Pool)
    requires Inv(p) && p.phase.Failing? && p.phase.created == 0
    ensures Enabled(p, JoinEnd) && Apply(p, JoinEnd) == p.(phase := Stopped)
  {
    assert p.workers == None(|p.workers|);
  }

  // ---- late tasks ----

  predicate Spawns(steps: seq<Step>) {
    exists i :: 0 <= i < |steps| && steps[i].Spawn?
  }

  /** A task pushed by an outside thread after the last worker has left is accepted, and no continuation runs it
      in which the pool is not started again. */
  lemma {:induction false} LatePushIsLost(p: Pool, task: Task, first: bool, steps: seq<Step>, q: Pool)
    requires AllGone(p) && p.admitted > 0 && Runs(Apply(p, Push(task, first)), steps, q) && !Spawns(steps)
    ensures AllGone(q) && q.ran == p.ran && task in q.queue
  {
    hide Apply, Enabled, AllGone, Spawns;
    assert Enabled(p, Push(task, first)) by {
      PushEnabled(p, task, first);
    }
    DeadQueue(p, Push(task, first));
    DeadRun(Apply(p, Push(task, first)), steps, q);
  }

  lemma PushEnabled(p: Pool, task: Task, first: bool)
    requires p.admitted > 0
    ensures Enabled(p, Push(task, first))
  {
  }

  lemma {:induction false} DeadRun(p: Pool, steps: seq<Step>, q: Pool)
    requires AllGone(p) && Runs(p, steps, q) && !Spawns(steps)
    ensures AllGone(q) && q.ran == p.ran && forall t :: t in p.queue ==> t in q.queue
    decreases |steps|
  {
    if steps != [] {
      hide AllGone, Apply, Enabled, Spawns;
      DeadQueue(p, steps[0]);
      SpawnsNext(steps);
      DeadRun(Apply(p, steps[0]), steps[1..], q);
    }
  }

  /** The accepted tasks that are not late: those that the present workers, or the last ones, run or have run. */
  function Served(p: Pool): multiset<Task> {
    p.accepted - p.late
  }

  lemma ServedGrows(p: Pool, s: Step)
    requires Enabled(p, s)
    ensures Served(p) <= Served(Apply(p, s)) && (s.Spawn? ==> Served(Apply(p, s)) == p.accepted)
    ensures p.accepted <= Apply(p, s).accepted
  {
    hide AllGone, Pushed;
  }

  lemma SpawnsNext(steps: seq<Step>)
    requires steps != []
    ensures Spawns(steps) <==> steps[0].Spawn? || Spawns(steps[1..])
  {
    if Spawns(steps[1..]) {
      var i :| 0 <= i < |steps| - 1 && steps[1..][i].Spawn?;
      assert steps[i + 1].Spawn?;
    }
    if Spawns(steps) && !steps[0].Spawn? {
      var i :| 0 <= i < |steps| && steps[i].Spawn?;
      assert steps[1..][i - 1].Spawn?;
    }
  }

  lemma {:induction false} RunServes(p: Pool, steps: seq<Step>, q: Pool)
    requires Inv(p) && Runs(p, steps, q)
    ensures Inv(q) && Served(p) <= Served(q) && (Spawns(steps) ==> p.accepted <= Served(q))
    decreases |steps|
  {
    hide Inv, Apply, Enabled, Served, Spawns;
    if steps != [] {
      StepKeeps(p, steps[0]);
      ServedGrows(p, steps[0]);
      RunServes(Apply(p, steps[0]), steps[1..], q);
      SpawnsNext(steps);
    } else {
      assert !Spawns([]) by {
        NoSpawn();
      }
    }
  }

  lemma NoSpawn()
    ensures !Spawns([])
  {
  }

  /** While there is no worker, what is not late has been run, and nothing else. */
  lemma AtRest(p: Pool)
    requires Inv(p) && AllGone(p)
    ensures Served(p) == multiset(p.ran) && (p.accepted <= multiset(p.ran) <==> p.late == multiset{})
  {
    hide Balanced, Phased, AllGone;
    assert p.accepted == multiset(p.ran) + p.late;
    if t :| t in p.late {
      assert p.accepted[t] == multiset(p.ran)[t] + p.late[t];
    }
  }

  /** From one moment without workers to another: what had been accepted has all been run by then if and only if
      none of it was late or the pool has been started in between. */
  lemma LateTasksRun(p: Pool, steps: seq<Step>, q: Pool)
    requires Inv(p) && AllGone(p) && Runs(p, steps, q) && AllGone(q)
    ensures p.accepted <= multiset(q.ran) <==> p.late == multiset{} || Spawns(steps)
  {
    hide Inv, AllGone, Runs, Spawns, Served;
    RunServes(p, steps, q);
    AtRest(p);
    AtRest(q);
    if !Spawns(steps) {
      DeadRun(p, steps, q);
    }
  }

  /** A moment can be reached at which the only worker has left, fini is still joining it, and an outside thread
      has been admitted. */
  lemma LastWorkerLeft() returns (steps: seq<Step>, p: Pool)
    ensures Runs(Created(1), steps, p) && AllGone(p) && p.phase.Posted? && p.admitted > 0
  {
    hide Runs, Apply, Enabled;
    p := Idle([Exited], 0, Posted(0)).(admitted := 1);
    assert Runs(p, [], p) by {
      NoSteps(p);
    }
    steps := OneWorkerLeaves(p);
    OneWorkerStarts();
    steps := Then(Idle([Waiting], 0, Starting(1)), StartEnd, Idle([Waiting], 0, Open), steps, p);
    steps := Then(Idle([Absent], 0, Starting(0)), Spawn, Idle([Waiting], 0, Starting(1)), steps, p);
    steps := Then(Created(1), Start, Idle([Absent], 0, Starting(0)), steps, p);
  }

  /** A pool that has no task and never had one. */
  function Idle(workers: seq<Worker>, sem: nat, phase: Phase): Pool {
    Pool([], sem, workers, 0, 0, phase, [], multiset{}, multiset{})
  }

  lemma NoSteps(p: Pool)
    ensures Runs(p, [], p)
  {
  }

  lemma Then(p: Pool, s: Step, p1: Pool, rest: seq<Step>, q: Pool) returns (steps: seq<Step>)
    requires Enabled(p, s) && Apply(p, s) == p1 && Runs(p1, rest, q)
    ensures Runs(p, steps, q)
  {
    hide Enabled, Apply;
    steps := [s] + rest;
    assert steps[1..] == rest;
  }

  lemma OneWorkerStarts()
    ensures var p0, p1, p2 := Created(1), Idle([Absent], 0, Starting(0)), Idle([Waiting], 0, Starting(1));
      && Enabled(p0, Start) && Apply(p0, Start) == p1 && Enabled(p1, Spawn) && Apply(p1, Spawn) == p2
      && Enabled(p2, StartEnd) && Apply(p2, StartEnd) == Idle([Waiting], 0, Open)
  {
    assert None(1) == [Absent];
  }

  lemma OneWorkerLeaves(q: Pool) returns (steps: seq<Step>)
    requires q == Idle([Exited], 0, Posted(0)).(admitted := 1)
    ensures Runs(Idle([Waiting], 0, Open), steps, q)
  {
    hide Runs;
    NoSteps(q);
    var p1 := Idle([Waiting], 0, Open).(admitted := 1);
    var p2 := Idle([Waiting], 1, Posted(0)).(admitted := 1);
    var p3 := Idle([Holding], 0, Posted(0)).(admitted := 1);
    steps := Then(p3, Pop(0), q, [], q);
    steps := Then(p2, Take(0), p3, steps, q);
    steps := Then(p1, FiniPost, p2, steps, q);
    steps := Then(Idle([Waiting], 0, Open), Admit, p1, steps, q);
  }

  // ---- order ----

  /** Tasks started, then tasks queued. */
  function Line(p: Pool): seq<Task> {
    p.ran + p.queue
  }

  /** The task that a step adds to the line, if any, and whether behind all others. */
  predicate Adds(s: Step) {
    s.Push? || s.WorkerPush? || s.WorkerInline?
  }

  predicate Behind(s: Step)
    requires Adds(s)
  {
    !s.WorkerInline? && !s.first
  }

  /** Nothing ever overtakes: a new task joins the line at its end, or, pushed first or run inline, right
      behind the tasks already started. */
  lemma LineGrows(p: Pool, s: Step)
    requires Enabled(p, s)
    ensures Line(Apply(p, s)) ==
      if Adds(s) then With(Line(p), if Behind(s) then |Line(p)| else |p.ran|, s.task) else Line(p)
  {
    hide AllGone, With;
    if Adds(s) {
      PushedLine(p.ran, p.queue, s);
    } else if s.Pop? && p.queue != [] {
      assert p.queue == [p.queue[0]] + p.queue[1..];
    }
  }

  lemma PushedLine(ran: seq<Task>, queue: seq<Task>, s: Step)
    requires Adds(s)
    ensures With(ran + queue, if Behind(s) then |ran + queue| else |ran|, s.task) ==
      if s.WorkerInline? then ran + [s.task] + queue else ran + Pushed(queue, s.task, s.first)
  {
  }

  function AddedBehind(s: Step): seq<Task> {
    if Adds(s) && Behind(s) then [s.task] else []
  }

  /** The tasks that a run adds behind all others, in the order of their pushes. */
  function PushedBehind(steps: seq<Step>): seq<Task> {
    if steps == [] then []
    else AddedBehind(steps[0]) + PushedBehind(steps[1..])
  }

  /** First in, first out over every run: leave aside the tasks of `out`, which hold all that were pushed first
      or run inline, and the others are started in the order in which they were pushed. */
  lemma {:induction false} FirstInFirstOut(p: Pool, steps: seq<Step>, q: Pool, out: set<Task>)
    requires Runs(p, steps, q)
    requires forall i :: 0 <= i < |steps| && Adds(steps[i]) && !Behind(steps[i]) ==> steps[i].task in out
    ensures Except(Line(q), out) == Except(Line(p), out) + Except(PushedBehind(steps), out)
    decreases |steps|
  {
    hide Apply, Enabled, Line, Except, AddedBehind;
    if steps != [] {
      var s, p1 := steps[0], Apply(p, steps[0]);
      OneMore(p, s, out);
      FirstInFirstOut(p1, steps[1..], q, out);
      ExceptJoin(Line(p), Line(p1), Line(q), AddedBehind(s), PushedBehind(steps[1..]), out);
    } else {
      ExceptNone(out);
    }
  }

  lemma OneMore(p: Pool, s: Step, out: set<Task>)
    requires Enabled(p, s) && (Adds(s) && !Behind(s) ==> s.task in out)
    ensures Except(Line(Apply(p, s)), out) == Except(Line(p), out) + Except(AddedBehind(s), out)
  {
    hide Apply, Enabled, Line, Except, With;
    LineGrows(p, s);
    StartedInLine(p);
    ExceptNone(out);
    if Adds(s) {
      ExceptWith(Line(p), if Behind(s) then |Line(p)| else |p.ran|, s.task, out);
    }
  }

  lemma StartedInLine(p: Pool)
    ensures |p.ran| <= |Line(p)|
  {
  }
}
