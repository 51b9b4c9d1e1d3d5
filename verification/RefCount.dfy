/** The reference count of one buffer, one step per atomic operation, through one lifetime of the buffer. */
module RefCount {
  import opened Tally

  /** A thread with `held` references; inside ztk_buf_try_ref it has read the count, inside ztk_buf_unref it
      has taken the count to zero and gives the memory back. */
  datatype Thread = Thread(held: nat, pc: Pc)
  datatype Pc = Out | Loaded(seen: int) | Releasing

  datatype Buffer = Buffer(refcnt: int, threads: seq<Thread>, released: nat)

  datatype Step = Ref(t: nat) | Load(t: nat) | Cas(t: nat) | Unref(t: nat) | GiveBack(t: nat) | Pass(t: nat, u: nat)

  predicate Enabled(b: Buffer, s: Step) {
    match s
    case Ref(t) => t < |b.threads| && b.threads[t].pc.Out? && b.threads[t].held > 0
    case Load(t) => t < |b.threads| && b.threads[t].pc.Out?
    case Cas(t) => t < |b.threads| && b.threads[t].pc.Loaded?
    case Unref(t) => t < |b.threads| && b.threads[t].pc.Out? && b.threads[t].held > 0
    case GiveBack(t) => t < |b.threads| && b.threads[t].pc.Releasing?
    case Pass(t, u) => t < |b.threads| && u < |b.threads| && t != u && b.threads[t].held > 0
  }

  function Now(b: Buffer, t: nat, held: nat, pc: Pc): Buffer
    requires t < |b.threads|
  {
    b.(threads := b.threads[t := Thread(held, pc)])
  }

  function Apply(b: Buffer, s: Step): Buffer
    requires Enabled(b, s)
  {
    match s
    case Ref(t) => Now(b, t, b.threads[t].held + 1, Out).(refcnt := b.refcnt + 1)
    case Load(t) => Now(b, t, b.threads[t].held, if b.refcnt <= 0 then Out else Loaded(b.refcnt))
    case Cas(t) =>
      if b.refcnt == b.threads[t].pc.seen then Now(b, t, b.threads[t].held + 1, Out).(refcnt := b.refcnt + 1)
      else Now(b, t, b.threads[t].held, Out)
    case Unref(t) =>
      Now(b, t, b.threads[t].held - 1, if b.refcnt == 1 then Releasing else Out).(refcnt := b.refcnt - 1)
    case GiveBack(t) => Now(b, t, b.threads[t].held, Out).(released := b.released + 1)
    case Pass(t, u) =>
      var b1 := Now(b, t, b.threads[t].held - 1, b.threads[t].pc);
      Now(b1, u, b1.threads[u].held + 1, b1.threads[u].pc)
  }

  function Held(t: Thread): nat {
    t.held
  }

  function Gives(t: Thread): nat {
    if t.pc.Releasing? then 1 else 0
  }

  /** The count is the number of references held; the memory is given back once, after zero. */
  predicate Inv(b: Buffer) {
    && b.refcnt == Sum(b.threads, Held)
    && b.released + Sum(b.threads, Gives) == (if b.refcnt == 0 then 1 else 0)
    && SeenOk(b.threads)
  }

  lemma Counted(b: Buffer, t: nat, held: nat, pc: Pc)
    requires t < |b.threads|
    ensures var ts := Now(b, t, held, pc).threads;
      && Sum(ts, Held) == Sum(b.threads, Held) - b.threads[t].held + held && Sum(b.threads, Held) >= b.threads[t].held
      && Sum(ts, Gives) == Sum(b.threads, Gives) - Gives(b.threads[t]) + Gives(Thread(held, pc))
      && Sum(b.threads, Gives) >= Gives(b.threads[t])
  {
    SumUpdate(b.threads, Held, t, Thread(held, pc));
    SumUpdate(b.threads, Gives, t, Thread(held, pc));
  }

  predicate SeenOk(ts: seq<Thread>) {
    forall t :: 0 <= t < |ts| && ts[t].pc.Loaded? ==> ts[t].pc.seen > 0
  }

  lemma OneKeeps(b: Buffer, s: Step)
    requires Inv(b) && Enabled(b, s) && !s.Pass?
    ensures Inv(Apply(b, s))
  {
    hide Sum, Held, SeenOk;
    var b' := Apply(b, s);
    SeenStays(b, s.t, b'.threads[s.t].held, b'.threads[s.t].pc);
    Counted(b, s.t, b'.threads[s.t].held, b'.threads[s.t].pc);
    assert b'.threads == Now(b, s.t, b'.threads[s.t].held, b'.threads[s.t].pc).threads;
    SeenAt(b, s.t);
  }

  lemma SeenAt(b: Buffer, t: nat)
    requires SeenOk(b.threads) && t < |b.threads|
    ensures b.threads[t].pc.Loaded? ==> b.threads[t].pc.seen > 0
  {
  }

  lemma SeenStays(b: Buffer, t: nat, held: nat, pc: Pc)
    requires SeenOk(b.threads) && t < |b.threads| && (pc.Loaded? ==> pc.seen > 0)
    ensures SeenOk(Now(b, t, held, pc).threads)
  {
  }

  lemma PassKeeps(b: Buffer, t: nat, u: nat)
    requires Inv(b) && Enabled(b, Pass(t, u))
    ensures Inv(Apply(b, Pass(t, u)))
  {
    hide Sum, Held, SeenOk;
    SeenAt(b, t);
    var b1 := Now(b, t, b.threads[t].held - 1, b.threads[t].pc);
    Counted(b, t, b.threads[t].held - 1, b.threads[t].pc);
    SeenStays(b, t, b.threads[t].held - 1, b.threads[t].pc);
    SeenAt(b1, u);
    Counted(b1, u, b1.threads[u].held + 1, b1.threads[u].pc);
    SeenStays(b1, u, b1.threads[u].held + 1, b1.threads[u].pc);
  }

  lemma StepKeeps(b: Buffer, s: Step)
    requires Inv(b) && Enabled(b, s)
    ensures Inv(Apply(b, s))
  {
    hide Inv, Enabled, Apply;
    if s.Pass? {
      PassKeeps(b, s.t, s.u);
    } else {
      OneKeeps(b, s);
    }
  }

  /** A try_ref that nobody disturbs gains a reference exactly if the count is positive; a disturbed one gains it
      exactly if its compare-and-swap finds the count it has read. */
  lemma TryRefExact(b: Buffer, t: nat)
    requires Inv(b) && t < |b.threads|
    ensures Enabled(b, Load(t)) ==> var b1 := Apply(b, Load(t));
      && (Enabled(b1, Cas(t)) <==> b.refcnt > 0) && b1.refcnt == b.refcnt && b1.threads[t].held == b.threads[t].held
      && (Enabled(b1, Cas(t)) ==> Apply(b1, Cas(t)).threads[t] == Thread(b.threads[t].held + 1, Out))
    ensures Enabled(b, Cas(t)) ==>
      Apply(b, Cas(t)).threads[t] == Thread(b.threads[t].held + if b.refcnt == b.threads[t].pc.seen then 1 else 0, Out)
  {
    hide Inv;
  }

  /** Each call moves just the references it says: ref takes one more, unref gives one up and is the one to give the
      memory back exactly when it takes the count to zero, and a holder may pass one on. */
  lemma HoldsExact(b: Buffer, s: Step)
    requires Inv(b) && Enabled(b, s)
    ensures var b' := Apply(b, s);
      && |b'.threads| == |b.threads|
      && (forall u :: 0 <= u < |b.threads| && u != s.t && !(s.Pass? && u == s.u) ==> b'.threads[u] == b.threads[u])
      && (s.Ref? ==> b'.threads[s.t] == Thread(b.threads[s.t].held + 1, Out))
      && (s.Unref? ==> b'.threads[s.t] == Thread(b.threads[s.t].held - 1, if b'.refcnt == 0 then Releasing else Out))
      && (s.GiveBack? ==> b'.threads[s.t] == Thread(b.threads[s.t].held, Out) && b'.released == 1 && b.released == 0)
      && (s.Pass? ==> b'.threads[s.t].held == b.threads[s.t].held - 1 && b'.threads[s.u].held == b.threads[s.u].held + 1)
      && (!s.GiveBack? ==> b'.released == b.released)
  {
    hide SeenOk;
    if s.GiveBack? {
      Counted(b, s.t, 0, Out);
    }
  }

  predicate Runs(b: Buffer, steps: seq<Step>, b': Buffer)
    decreases |steps|
  {
    if steps == [] then b == b' else Enabled(b, steps[0]) && Runs(Apply(b, steps[0]), steps[1..], b')
  }

  /** Over every run: released at most once and only at zero; and after zero the count stays zero, whatever
      try_ref has in flight. */
  lemma {:induction false} ReleasedOnce(b: Buffer, steps: seq<Step>, b': Buffer)
    requires Inv(b) && Runs(b, steps, b')
    ensures Inv(b') && b'.released <= 1 && (b'.released == 1 ==> b'.refcnt == 0)
    ensures b.refcnt == 0 ==> b'.refcnt == 0 && b'.released >= b.released
    decreases |steps|
  {
    if steps != [] {
      hide Inv, Apply, Enabled;
      StepKeeps(b, steps[0]);
      if b.refcnt == 0 {
        DeadStays(b, steps[0]);
      }
      ReleasedOnce(Apply(b, steps[0]), steps[1..], b');
    } else {
      AtZero(b);
    }
  }

  /** A new buffer: of the threads that may get to know it, thread `owner` holds the one reference. */
  function Created(n: nat, owner: nat): Buffer
    requires owner < n
  {
    Buffer(1, Unknown(n)[owner := Thread(1, Out)], 0)
  }

  function Unknown(n: nat): seq<Thread> {
    seq(n, _ => Thread(0, Out))
  }

  lemma {:induction false} UnknownSums(n: nat)
    ensures Sum(Unknown(n), Held) == 0 && Sum(Unknown(n), Gives) == 0
  {
    if n > 0 {
      assert Unknown(n)[1..] == Unknown(n - 1);
      UnknownSums(n - 1);
    }
  }

  lemma CreatedInv(n: nat, owner: nat)
    requires owner < n
    ensures Inv(Created(n, owner))
  {
    UnknownSums(n);
    SumUpdate(Unknown(n), Held, owner, Thread(1, Out));
    SumUpdate(Unknown(n), Gives, owner, Thread(1, Out));
  }

  /** Through the whole life of a buffer the count is the number of references held, and its memory has been given
      back, once, exactly if none is held and no thread is about to. */
  lemma EveryRun(n: nat, owner: nat, steps: seq<Step>, b: Buffer)
    requires owner < n && Runs(Created(n, owner), steps, b)
    ensures b.refcnt == Sum(b.threads, Held) && b.released <= 1
    ensures b.released == 1 <==> b.refcnt == 0 && forall t :: 0 <= t < |b.threads| ==> !b.threads[t].pc.Releasing?
  {
    hide Runs;
    CreatedInv(n, owner);
    ReleasedOnce(Created(n, owner), steps, b);
    if t :| 0 <= t < |b.threads| && b.threads[t].pc.Releasing? {
      SumUpdate(b.threads, Gives, t, b.threads[t]);
    } else if b.released + Sum(b.threads, Gives) > b.released {
      SomeOf(b.threads, Gives);
    }
  }

  lemma AtZero(b: Buffer)
    requires Inv(b)
    ensures b.released <= 1 && (b.released == 1 ==> b.refcnt == 0)
  {
  }

  lemma DeadStays(b: Buffer, s: Step)
    requires Inv(b) && Enabled(b, s) && b.refcnt == 0
    ensures Apply(b, s).refcnt == 0 && Apply(b, s).released >= b.released
    ensures s.Cas? ==> Apply(b, s).threads[s.t].held == b.threads[s.t].held
  {
    if !s.Load? {
      Counted(b, s.t, 0, Out);
    }
  }
}
