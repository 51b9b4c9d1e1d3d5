/** The reflock of an epoll port together with the tree of port handles: one step per interlocked operation,
    per section of the tree's lock and per rendezvous on the keyed event. */
module Reflock {
  import opened Bits
  import opened Tally

  const DESTROY: nat := 0x1000_0000
  const POISON: nat := 0x300d_ead0
  const WORD: nat := 0x1_0000_0000

  /** state & REFLOCK__REF_MASK and the four bits above it. */
  function RefCount(state: nat): nat {
    state % 0x1000_0000
  }

  function Flags(state: nat): nat {
    state / 0x1000_0000
  }

  /** InterlockedAdd on the 32-bit state. */
  function Added(state: nat, delta: int): nat {
    (state + delta) % 0x1_0000_0000
  }

  /** The masks of the C code, REFLOCK__REF_MASK, REFLOCK__DESTROY_MASK and the latter without REFLOCK__DESTROY,
      select just these two parts. */
  lemma Masks(state: nat)
    requires state < WORD
    ensures BitAnd(state, 0x0fff_ffff) == RefCount(state)
    ensures BitAnd(state, 0xf000_0000) == 0x1000_0000 * Flags(state)
    ensures BitAnd(state, 0xf000_0000) == 0 <==> Flags(state) == 0
    ensures BitAnd(state, 0xf000_0000) == DESTROY <==> Flags(state) == 1
    ensures BitAnd(state, 0xe000_0000) == 0 <==> Flags(state) <= 1
  {
    hide BitAnd, IsPowerOfTwo, ShiftRight, ShiftLeft;
    Shift28(1);
    Shift28(15);
    Shift28(14);
    ShiftIsQuotient(state, 28);
    MaskIsModulo(state, 0x1000_0000);
    HighMask(state, 15, 28);
    HighMask(state, 14, 28);
    LowFlags(Flags(state));
    Shift28(BitAnd(Flags(state), 15));
    Shift28(BitAnd(Flags(state), 14));
  }

  lemma LowFlags(flags: nat)
    requires flags < 16
    ensures BitAnd(flags, 15) == flags && (BitAnd(flags, 14) == 0 <==> flags <= 1)
  {
    hide BitAnd, IsPowerOfTwo, ShiftRight;
    assert ShiftLeft(1, 4) == 16 && ShiftLeft(1, 3) == 8 && ShiftLeft(1, 1) == 2 && ShiftLeft(7, 1) == 14;
    ShiftIsQuotient(flags, 4);
    ShiftIsQuotient(flags, 3);
    ShiftIsQuotient(flags, 1);
    MaskIsModulo(flags, 16);
    HighMask(flags, 7, 1);
    MaskIsModulo(flags / 2, 8);
    assert ShiftLeft(BitAnd(flags / 2, 7), 1) == 2 * BitAnd(flags / 2, 7);
  }

  /** Where a thread is with respect to the port: outside it, inside epoll_ctl or epoll_wait, about to signal
      the event, or in epoll_close: before reflock_unref_and_destroy, waiting for the event, before the
      exchange, in port_delete, and past it. */
  datatype Pc = Outside | Holding | Signalling | Closing | Awaiting | Ready | Deleting | Deleted

  datatype Lock = Lock(threads: seq<Pc>, state: nat, inTree: bool)

  datatype Step =
    | FindAndRef(t: nat)
    | DelAndRef(t: nat)
    | Unref(t: nat)
    | Rendezvous(signaller: nat, waiter: nat)
    | UnrefAndDestroy(t: nat)
    | Poison(t: nat)
    | Delete(t: nat)

  predicate AtPc(l: Lock, t: nat, pc: Pc) {
    t < |l.threads| && l.threads[t] == pc
  }

  predicate Enabled(l: Lock, s: Step) {
    match s
    case FindAndRef(t) => AtPc(l, t, Outside)
    case DelAndRef(t) => AtPc(l, t, Outside)
    case Unref(t) => AtPc(l, t, Holding)
    case Rendezvous(signaller, waiter) => AtPc(l, signaller, Signalling) && AtPc(l, waiter, Awaiting)
    case UnrefAndDestroy(t) => AtPc(l, t, Closing)
    case Poison(t) => AtPc(l, t, Ready)
    case Delete(t) => AtPc(l, t, Deleting)
  }

  function Moved(l: Lock, t: nat, pc: Pc, state: nat): Lock
    requires t < |l.threads|
  {
    l.(threads := l.threads[t := pc], state := state)
  }

  function Apply(l: Lock, s: Step): Lock
    requires Enabled(l, s)
  {
    match s
    case FindAndRef(t) => if l.inTree then Moved(l, t, Holding, Added(l.state, 1)) else l
    case DelAndRef(t) => if l.inTree then Moved(l, t, Closing, Added(l.state, 1)).(inTree := false) else l
    case Unref(t) =>
      var state := Added(l.state, -1);
      Moved(l, t, if state == DESTROY then Signalling else Outside, state)
    case Rendezvous(signaller, waiter) => Moved(Moved(l, signaller, Outside, l.state), waiter, Ready, l.state)
    case UnrefAndDestroy(t) =>
      var state := Added(l.state, DESTROY - 1);
      Moved(l, t, if RefCount(state) != 0 then Awaiting else Ready, state)
    case Poison(t) => Moved(l, t, Deleting, POISON)
    case Delete(t) => Moved(l, t, Deleted, l.state)
  }

  /** The asserts of reflock_ref, reflock_unref and reflock_unref_and_destroy in this step. */
  predicate AssertsHold(l: Lock, s: Step) {
    match s
    case FindAndRef(_) => l.inTree ==> Flags(Added(l.state, 1)) == 0
    case DelAndRef(_) => l.inTree ==> Flags(Added(l.state, 1)) == 0
    case Unref(_) => Flags(Added(l.state, -1)) <= 1
    case UnrefAndDestroy(_) => Flags(Added(l.state, DESTROY - 1)) == 1
    case Poison(_) => l.state == DESTROY
    case _ => true
  }

  // ---- the invariant ----

  function Holds(pc: Pc): nat {
    if pc.Holding? then 1 else 0
  }

  function Closings(pc: Pc): nat {
    if pc.Closing? then 1 else 0
  }

  function Signals(pc: Pc): nat {
    if pc.Signalling? then 1 else 0
  }

  function Waits(pc: Pc): nat {
    if pc.Awaiting? then 1 else 0
  }

  function Readies(pc: Pc): nat {
    if pc.Ready? then 1 else 0
  }

  function Poisons(pc: Pc): nat {
    if pc.Deleting? || pc.Deleted? then 1 else 0
  }

  /** The numbers of threads inside a call, closing, about to signal, waiting, ready to poison and past it. */
  datatype Census = Census(holds: nat, closings: nat, signals: nat, waits: nat, readies: nat, poisons: nat)

  function Count(ts: seq<Pc>): Census {
    Census(Sum(ts, Holds), Sum(ts, Closings), Sum(ts, Signals), Sum(ts, Waits), Sum(ts, Readies), Sum(ts, Poisons))
  }

  function CensusOf(pc: Pc): Census {
    Census(Holds(pc), Closings(pc), Signals(pc), Waits(pc), Readies(pc), Poisons(pc))
  }

  /** The references: one for each thread inside a call, and the closer's own before it gives it up. */
  function Refs(c: Census): nat {
    c.holds + c.closings
  }

  predicate Consistent(c: Census, state: nat, inTree: bool) {
    // One thread has won the port once it is out of the tree, and none before.
    && c.closings + c.waits + c.readies + c.poisons == (if inTree then 0 else 1)
    && Refs(c) < DESTROY
    && (if c.poisons > 0 then state == POISON && Refs(c) == 0 && c.signals == 0
        else state == Refs(c) + if c.waits + c.readies > 0 then DESTROY else 0)
    && (c.readies > 0 ==> Refs(c) == 0)
    // A signal is on its way exactly when the closer waits and the last reference is gone.
    && c.signals == (if c.waits > 0 && Refs(c) == 0 then 1 else 0)
  }

  predicate Inv(l: Lock) {
    |l.threads| < DESTROY && Consistent(Count(l.threads), l.state, l.inTree)
  }

  lemma CountMoved(ts: seq<Pc>, t: nat, pc: Pc)
    requires t < |ts|
    ensures var c, c', a, b := Count(ts), Count(ts[t := pc]), CensusOf(ts[t]), CensusOf(pc);
      && c'.holds == c.holds - a.holds + b.holds && c.holds >= a.holds
      && c'.closings == c.closings - a.closings + b.closings && c.closings >= a.closings
      && c'.signals == c.signals - a.signals + b.signals && c.signals >= a.signals
      && c'.waits == c.waits - a.waits + b.waits && c.waits >= a.waits
      && c'.readies == c.readies - a.readies + b.readies && c.readies >= a.readies
      && c'.poisons == c.poisons - a.poisons + b.poisons && c.poisons >= a.poisons
  {
    SumUpdate(ts, Holds, t, pc);
    SumUpdate(ts, Closings, t, pc);
    SumUpdate(ts, Signals, t, pc);
    SumUpdate(ts, Waits, t, pc);
    SumUpdate(ts, Readies, t, pc);
    SumUpdate(ts, Poisons, t, pc);
  }

  lemma {:induction false} HoldsOrCloses(ts: seq<Pc>)
    ensures Sum(ts, Holds) + Sum(ts, Closings) <= |ts|
  {
    if ts != [] {
      HoldsOrCloses(ts[1..]);
    }
  }

  lemma RefsBounded(ts: seq<Pc>)
    requires |ts| < DESTROY
    ensures Refs(Count(ts)) < DESTROY
  {
    HoldsOrCloses(ts);
  }

  lemma {:induction false} AllOutside(n: nat)
    ensures var ts := seq(n, _ => Outside); Count(ts) == Census(0, 0, 0, 0, 0, 0)
  {
    if n > 0 {
      assert seq(n, _ => Outside)[1..] == seq(n - 1, _ => Outside);
      AllOutside(n - 1);
    }
  }

  function Created(n: nat): Lock {
    Lock(seq(n, _ => Outside), 0, true)
  }

  lemma CreatedInv(n: nat)
    requires n < DESTROY
    ensures Inv(Created(n))
  {
    AllOutside(n);
  }

  lemma AddedIs(state: nat, delta: int)
    requires 0 <= state + delta < WORD
    ensures Added(state, delta) == state + delta
  {
  }

  lemma FlagsAre(refs: nat, closed: bool)
    requires refs < DESTROY
    ensures var state := if closed then refs + DESTROY else refs;
      Flags(state) == (if closed then 1 else 0) && RefCount(state) == refs && state < WORD
  {
  }

  lemma RefKeeps(l: Lock, s: Step)
    requires Inv(l) && Enabled(l, s) && (s.FindAndRef? || s.DelAndRef?)
    ensures Inv(Apply(l, s)) && AssertsHold(l, s)
  {
    hide Count, Added, Flags, RefCount;
    var l' := Apply(l, s);
    CountMoved(l.threads, s.t, if s.FindAndRef? then Holding else Closing);
    RefsBounded(l'.threads);
    if l.inTree {
      AddedIs(l.state, 1);
      FlagsAre(l.state + 1, false);
    }
  }

  lemma UnrefKeeps(l: Lock, t: nat)
    requires Inv(l) && Enabled(l, Unref(t))
    ensures Inv(Apply(l, Unref(t))) && AssertsHold(l, Unref(t))
  {
    hide Count, Added, Flags, RefCount;
    var c := Count(l.threads);
    CountMoved(l.threads, t, Apply(l, Unref(t)).threads[t]);
    AddedIs(l.state, -1);
    FlagsAre(Refs(c) - 1, c.waits > 0);
  }

  lemma CloserKeeps(l: Lock, t: nat)
    requires Inv(l) && Enabled(l, UnrefAndDestroy(t))
    ensures Inv(Apply(l, UnrefAndDestroy(t))) && AssertsHold(l, UnrefAndDestroy(t))
  {
    hide Count, Added, Flags, RefCount;
    var c := Count(l.threads);
    CountMoved(l.threads, t, Apply(l, UnrefAndDestroy(t)).threads[t]);
    AddedIs(l.state, DESTROY - 1);
    FlagsAre(Refs(c) - 1, true);
  }

  lemma RestKeeps(l: Lock, s: Step)
    requires Inv(l) && Enabled(l, s) && (s.Rendezvous? || s.Poison? || s.Delete?)
    ensures Inv(Apply(l, s)) && AssertsHold(l, s)
  {
    hide Count;
    match s
    case Rendezvous(signaller, waiter) =>
      CountMoved(l.threads, signaller, Outside);
      CountMoved(l.threads[signaller := Outside], waiter, Ready);
    case Poison(t) => CountMoved(l.threads, t, Deleting);
    case Delete(t) => CountMoved(l.threads, t, Deleted);
    case _ =>
  }

  /** Every interleaving keeps the invariant, and no assert of the reflock ever fails. */
  lemma StepKeeps(l: Lock, s: Step)
    requires Inv(l) && Enabled(l, s)
    ensures Inv(Apply(l, s)) && AssertsHold(l, s)
  {
    hide Inv, AssertsHold, Apply;
    match s
    case FindAndRef(_) => RefKeeps(l, s);
    case DelAndRef(_) => RefKeeps(l, s);
    case Unref(t) => UnrefKeeps(l, t);
    case UnrefAndDestroy(t) => CloserKeeps(l, t);
    case _ => RestKeeps(l, s);
  }

  /** With 2^28 - 1 references out, one more reference breaks the first assert; below that none does. */
  lemma RefLimit(refs: nat)
    requires refs < DESTROY
    ensures Flags(Added(refs, 1)) == 0 <==> refs + 1 < DESTROY
  {
    AddedIs(refs, 1);
    if refs + 1 < DESTROY {
      FlagsAre(refs + 1, false);
    } else {
      FlagsAre(0, true);
    }
  }

  // ---- runs ----

  predicate Runs(l: Lock, steps: seq<Step>, l': Lock)
    decreases |steps|
  {
    if steps == [] then l == l' else Enabled(l, steps[0]) && Runs(Apply(l, steps[0]), steps[1..], l')
  }

  /** In every run of fewer than 2^28 threads every assert on the way holds. */
  predicate AssertsHoldIn(l: Lock, steps: seq<Step>, l': Lock)
    requires Runs(l, steps, l')
    decreases |steps|
  {
    steps == [] || (AssertsHold(l, steps[0]) && AssertsHoldIn(Apply(l, steps[0]), steps[1..], l'))
  }

  lemma {:induction false} RunKeeps(l: Lock, steps: seq<Step>, l': Lock)
    requires Inv(l) && Runs(l, steps, l')
    ensures Inv(l') && AssertsHoldIn(l, steps, l')
    decreases |steps|
  {
    if steps != [] {
      hide Inv, Apply, Enabled, AssertsHold;
      StepKeeps(l, steps[0]);
      RunKeeps(Apply(l, steps[0]), steps[1..], l');
    }
  }

  function Wins(pc: Pc): nat {
    Closings(pc) + Waits(pc) + Readies(pc) + Poisons(pc)
  }

  lemma {:induction false} WinsAdd(ts: seq<Pc>)
    ensures var c := Count(ts); Sum(ts, Wins) == c.closings + c.waits + c.readies + c.poisons
  {
    if ts != [] {
      WinsAdd(ts[1..]);
    }
  }

  /** epoll_close succeeds for one thread at most. */
  lemma OneWinner(l: Lock, t: nat, u: nat)
    requires Inv(l) && t < u < |l.threads|
    ensures Wins(l.threads[t]) == 0 || Wins(l.threads[u]) == 0
  {
    WinsAdd(l.threads);
    TwoOf(l.threads, Wins, t, u);
  }

  predicate OthersOutside(l: Lock, t: nat) {
    forall u :: 0 <= u < |l.threads| && u != t ==> l.threads[u].Outside?
  }

  /** port_delete runs when no other thread is inside the port or still touches its reflock, and none can
      come in any more. */
  lemma DeleteAlone(l: Lock, t: nat)
    requires Inv(l) && AtPc(l, t, Deleting)
    ensures !l.inTree && l.state == POISON && OthersOutside(l, t)
  {
    CountMoved(l.threads, t, Outside);
    forall u | 0 <= u < |l.threads| && u != t ensures l.threads[u].Outside? {
      CountMoved(l.threads, u, Outside);
      OneWinner(l, if t < u then t else u, if t < u then u else t);
    }
  }

  /** epoll_ctl, epoll_wait and epoll_close get the port exactly while its handle is in the tree, and epoll_close
      takes it out; who does not get it leaves no trace. */
  lemma FoundWhileInTree(l: Lock, t: nat)
    requires Enabled(l, FindAndRef(t)) && Enabled(l, DelAndRef(t))
    ensures var l' := Apply(l, FindAndRef(t));
      (l'.threads[t].Holding? <==> l.inTree) && (!l.inTree ==> l' == l) && l'.inTree == l.inTree
    ensures var l' := Apply(l, DelAndRef(t));
      (l'.threads[t].Closing? <==> l.inTree) && (!l.inTree ==> l' == l) && !l'.inTree
    ensures Inv(l) && l.inTree && |l.threads| < DESTROY ==>
      RefCount(Apply(l, FindAndRef(t)).state) == RefCount(l.state) + 1 == RefCount(Apply(l, DelAndRef(t)).state)
  {
    if Inv(l) && l.inTree {
      StepKeeps(l, FindAndRef(t));
      StepKeeps(l, DelAndRef(t));
      OneMoreRef(l, t);
    }
  }

  lemma OneMoreRef(l: Lock, t: nat)
    requires Inv(l) && l.inTree && Enabled(l, FindAndRef(t))
    ensures l.state + 1 < DESTROY && RefCount(Added(l.state, 1)) == RefCount(l.state) + 1
  {
    CountMoved(l.threads, t, Holding);
    RefsBounded(l.threads[t := Holding]);
    AddedIs(l.state, 1);
    FlagsAre(l.state, false);
    FlagsAre(l.state + 1, false);
  }

  /** Over every run of fewer than 2^28 threads from a new port: no assert fails, one thread at most closes the port,
      and the one that deletes it is alone with it. */
  lemma EveryRun(n: nat, steps: seq<Step>, l: Lock)
    requires n < DESTROY && Runs(Created(n), steps, l)
    ensures Inv(l) && AssertsHoldIn(Created(n), steps, l)
    ensures forall t, u :: 0 <= t < u < |l.threads| ==> Wins(l.threads[t]) == 0 || Wins(l.threads[u]) == 0
    ensures forall t :: AtPc(l, t, Deleting) ==> OthersOutside(l, t) && !l.inTree
  {
    hide Runs, Inv, Wins, AssertsHoldIn, AtPc, OthersOutside;
    CreatedInv(n);
    RunKeeps(Created(n), steps, l);
    forall t, u | 0 <= t < u < |l.threads| ensures Wins(l.threads[t]) == 0 || Wins(l.threads[u]) == 0 {
      OneWinner(l, t, u);
    }
    forall t | AtPc(l, t, Deleting) ensures OthersOutside(l, t) && !l.inTree {
      DeleteAlone(l, t);
    }
  }

  /** Signals and waits pair up: who signals finds the closer waiting, and the closer that waits has a
      thread still inside, or its signal on the way. */
  lemma SignalsAndWaits(l: Lock, t: nat)
    requires Inv(l) && t < |l.threads|
    ensures l.threads[t].Signalling? ==> exists w :: Enabled(l, Rendezvous(t, w))
    ensures l.threads[t].Awaiting? ==> exists u :: Enabled(l, Unref(u)) || Enabled(l, Rendezvous(u, t))
  {
    hide *;
    PairFacts(l, t);
    if l.threads[t].Signalling? {
      SomeOf(l.threads, Waits);
      var w :| 0 <= w < |l.threads| && Waits(l.threads[w]) > 0;
      IsPaired(l, t, w);
    } else if l.threads[t].Awaiting? {
      if Sum(l.threads, Holds) > 0 {
        SomeOf(l.threads, Holds);
        var u :| 0 <= u < |l.threads| && Holds(l.threads[u]) > 0;
        IsHolder(l, u);
      } else {
        SomeOf(l.threads, Signals);
        var u :| 0 <= u < |l.threads| && Signals(l.threads[u]) > 0;
        IsPaired(l, u, t);
      }
    }
  }

  lemma PairFacts(l: Lock, t: nat)
    requires Inv(l) && t < |l.threads|
    ensures l.threads[t].Signalling? ==> Sum(l.threads, Waits) > 0 && Signals(l.threads[t]) > 0
    ensures l.threads[t].Awaiting? ==> Waits(l.threads[t]) > 0 && (Sum(l.threads, Holds) > 0 || Sum(l.threads, Signals) > 0)
  {
    CountMoved(l.threads, t, Outside);
  }

  lemma IsPaired(l: Lock, signaller: nat, waiter: nat)
    requires signaller < |l.threads| && waiter < |l.threads|
    requires Signals(l.threads[signaller]) > 0 && Waits(l.threads[waiter]) > 0
    ensures Enabled(l, Rendezvous(signaller, waiter))
  {
  }

  lemma IsHolder(l: Lock, u: nat)
    requires u < |l.threads| && Holds(l.threads[u]) > 0
    ensures Enabled(l, Unref(u))
  {
  }

  // ---- closing comes to an end ----

  /** A step by which a thread that is inside the port gets on; the others are calls from outside. */
  predicate Internal(s: Step) {
    !s.FindAndRef? && !s.DelAndRef?
  }

  function Effort(pc: Pc): nat {
    match pc
    case Closing => 5
    case Awaiting => 4
    case Ready => 3
    case Holding => 2
    case Signalling => 1
    case Deleting => 1
    case _ => 0
  }

  function Work(l: Lock): nat {
    Sum(l.threads, Effort)
  }

  /** Whatever a thread inside does brings the end nearer. */
  lemma WorkFalls(l: Lock, s: Step)
    requires Enabled(l, s) && Internal(s)
    ensures Work(Apply(l, s)) < Work(l)
  {
    hide Sum, Added, RefCount;
    match s
    case Rendezvous(signaller, waiter) =>
      SumUpdate(l.threads, Effort, signaller, Outside);
      SumUpdate(l.threads[signaller := Outside], Effort, waiter, Ready);
    case Unref(t) => SumUpdate(l.threads, Effort, t, Apply(l, s).threads[t]);
    case UnrefAndDestroy(t) => SumUpdate(l.threads, Effort, t, Apply(l, s).threads[t]);
    case Poison(t) => SumUpdate(l.threads, Effort, t, Deleting);
    case Delete(t) => SumUpdate(l.threads, Effort, t, Deleted);
    case _ =>
  }

  predicate AtRest(pc: Pc) {
    pc.Outside? || pc.Deleted?
  }

  /** As long as a thread is inside, one can go on: nobody waits for ever. */
  lemma NeverStuck(l: Lock, t: nat)
    requires Inv(l) && t < |l.threads| && !AtRest(l.threads[t])
    ensures exists s :: Internal(s) && Enabled(l, s)
  {
    hide Inv;
    SignalsAndWaits(l, t);
    if l.threads[t].Signalling? {
      var w :| Enabled(l, Rendezvous(t, w));
      assert Internal(Rendezvous(t, w));
    } else if l.threads[t].Awaiting? {
      var u :| Enabled(l, Unref(u)) || Enabled(l, Rendezvous(u, t));
      var s := if Enabled(l, Unref(u)) then Unref(u) else Rendezvous(u, t);
      assert Internal(s) && Enabled(l, s);
    } else {
      var s := OwnStep(l.threads[t], t);
      assert Internal(s) && Enabled(l, s);
    }
  }

  /** What a thread that waits for nobody does next. */
  function OwnStep(pc: Pc, t: nat): Step {
    if pc.Holding? then Unref(t) else if pc.Closing? then UnrefAndDestroy(t) else if pc.Ready? then Poison(t) else Delete(t)
  }

  /** However the threads inside are scheduled, after a bounded number of their steps all are out; and if the port
      has been closed, one of them has deleted it by then. */
  lemma {:induction false} CloseEnds(l: Lock, steps: seq<Step>, l': Lock)
    requires Inv(l) && Runs(l, steps, l') && forall i :: 0 <= i < |steps| ==> Internal(steps[i])
    ensures |steps| <= Work(l)
    ensures (exists s :: Internal(s) && Enabled(l', s)) || forall t :: 0 <= t < |l'.threads| ==> AtRest(l'.threads[t])
    ensures (forall t :: 0 <= t < |l'.threads| ==> AtRest(l'.threads[t])) && !l'.inTree ==>
      exists t :: 0 <= t < |l'.threads| && l'.threads[t].Deleted?
    decreases |steps|
  {
    hide Inv, Apply, Enabled, Work, AtRest;
    if steps != [] {
      WorkFalls(l, steps[0]);
      StepKeeps(l, steps[0]);
      CloseEnds(Apply(l, steps[0]), steps[1..], l');
    } else {
      if t :| 0 <= t < |l.threads| && !AtRest(l.threads[t]) {
        NeverStuck(l, t);
      } else if !l.inTree {
        ClosedIsDeleted(l);
      }
    }
  }

  lemma ClosedIsDeleted(l: Lock)
    requires Inv(l) && !l.inTree && forall t :: 0 <= t < |l.threads| ==> AtRest(l.threads[t])
    ensures exists t :: 0 <= t < |l.threads| && l.threads[t].Deleted?
  {
    hide Sum;
    WinsAdd(l.threads);
    SomeOf(l.threads, Wins);
  }
}
