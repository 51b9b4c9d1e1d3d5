/** Heap order over the deadlines of an array of timers. */
module HeapOrder {

  function Parent(k: int): int {
    (k - 1) / 2
  }

  /** The slot is not earlier than the slot above it. */
  predicate Edge(d: seq<nat>, k: int)
    requires 0 < k < |d|
  {
    d[Parent(k)] <= d[k]
  }

  predicate Ordered(d: seq<nat>) {
    forall k :: 0 < k < |d| ==> Edge(d, k)
  }

  /** The slots below `i` are not earlier than the slot above it. */
  predicate Skips(d: seq<nat>, i: nat) {
    0 < i < |d| ==> forall k :: 0 < k < |d| && Parent(k) == i ==> d[Parent(i)] <= d[k]
  }

  /** Ordered but for slot `i` and the slot above it. */
  predicate OrderedBelow(d: seq<nat>, i: nat) {
    (forall k :: 0 < k < |d| && k != i ==> Edge(d, k)) && Skips(d, i)
  }

  /** Ordered but for slot `i` and the slots next to it: its deadline may be any. */
  predicate OrderedAround(d: seq<nat>, i: nat) {
    (forall k :: 0 < k < |d| && k != i && Parent(k) != i ==> Edge(d, k)) && Skips(d, i)
  }

  function Swapped(d: seq<nat>, i: nat, j: nat): seq<nat>
    requires i < |d| && j < |d|
  {
    d[i := d[j]][j := d[i]]
  }

  lemma SwapUp(d: seq<nat>, i: nat)
    requires 0 < i < |d| && OrderedBelow(d, i) && d[i] < d[Parent(i)]
    ensures OrderedBelow(Swapped(d, Parent(i), i), Parent(i))
  {
    var p := Parent(i);
    var d' := Swapped(d, p, i);
    forall k | 0 < k < |d| && k != p ensures Edge(d', k) {
      if k != i {
        assert Edge(d, k);
      }
    }
    if 0 < p {
      assert Edge(d, p);
      forall k | 0 < k < |d| && Parent(k) == p ensures d'[Parent(p)] <= d'[k] {
        if k != i {
          assert Edge(d, k);
        }
      }
    }
  }

  lemma UpDone(d: seq<nat>, i: nat)
    requires OrderedBelow(d, i) && (0 < i < |d| ==> Edge(d, i))
    ensures Ordered(d)
  {
  }

  /** `s` is the earlier of the slots below `i`. */
  predicate Smallest(d: seq<nat>, i: nat, s: nat)
    requires i < |d|
  {
    s < |d| && (s == i || Parent(s) == i) && forall k :: 0 < k < |d| && Parent(k) == i ==> d[s] <= d[k]
  }

  lemma Below(d: seq<nat>, i: nat, s: nat)
    requires i < |d| && Smallest(d, i, s) && s != i && i <= s
    ensures i < s < |d|
  {
  }

  lemma SwapDown(d: seq<nat>, i: nat, s: nat)
    requires i < |d| && s != 0 && Smallest(d, i, s) && s != i && OrderedAround(d, i) && d[s] < d[i]
    ensures var d' := Swapped(d, i, s); OrderedAround(d', s) && Edge(d', s)
  {
    var d' := Swapped(d, i, s);
    forall k | 0 < k < |d| && k != s && Parent(k) != s ensures Edge(d', k) {
      if k != i && Parent(k) != i {
        assert Edge(d, k);
      }
    }
    forall k | 0 < k < |d| && Parent(k) == s ensures d'[Parent(s)] <= d'[k] {
      assert Edge(d, k);
    }
  }

  /** Where sifting down stops, only the slot it started from may be earlier than the one above. */
  lemma DownDone(d: seq<nat>, start: nat, i: nat)
    requires start <= i < |d| && OrderedAround(d, i) && Smallest(d, i, i) && (i != start ==> i > 0 && Edge(d, i))
    ensures OrderedBelow(d, start)
  {
    forall k | 0 < k < |d| && k != start ensures Edge(d, k) {
    }
    if start > 0 && i != start {
      forall k | 0 < k < |d| && Parent(k) == start ensures d[Parent(start)] <= d[k] {
        assert Edge(d, start) && Edge(d, k);
      }
    }
  }

  lemma AnyDeadline(d: seq<nat>, i: nat, x: nat)
    requires Ordered(d) && i < |d|
    ensures OrderedAround(d[i := x], i)
  {
    var d' := d[i := x];
    forall k | 0 < k < |d'| && k != i && Parent(k) != i ensures Edge(d', k) {
      assert Edge(d, k);
    }
    if 0 < i {
      forall k | 0 < k < |d'| && Parent(k) == i ensures d'[Parent(i)] <= d'[k] {
        assert Edge(d, k) && Edge(d, i);
      }
    }
  }

  /** The last slot is taken off, and fills the gap at `i`. */
  lemma FillGap(d: seq<nat>, i: nat)
    requires i < |d| - 1 && OrderedAround(d, i)
    ensures OrderedAround(d[..|d| - 1][i := d[|d| - 1]], i)
  {
    var d' := d[..|d| - 1][i := d[|d| - 1]];
    forall k | 0 < k < |d'| && k != i && Parent(k) != i ensures Edge(d', k) {
      assert Edge(d, k);
    }
  }

  lemma DropLast(d: seq<nat>, i: nat)
    requires i == |d| - 1 && OrderedAround(d, i)
    ensures Ordered(d[..|d| - 1])
  {
    var d' := d[..|d| - 1];
    forall k | 0 < k < |d'| ensures Edge(d', k) {
      assert Edge(d, k);
    }
  }

  /** What is left when the slot at `i` is given up. */
  lemma Gap(d: seq<nat>, i: nat)
    requires i < |d| && OrderedAround(d, i)
    ensures var n := |d| - 1; if i < n then OrderedAround(d[..n][i := d[n]], i) else Ordered(d[..n])
  {
    if i < |d| - 1 {
      FillGap(d, i);
    } else {
      DropLast(d, i);
    }
  }

  lemma GapAt(d: seq<nat>, i: nat, x: nat)
    requires i < |d| && Ordered(d) && x == d[i]
    ensures var n := |d| - 1; if i < n then OrderedAround(d[..n][i := d[n]], i) else Ordered(d[..n])
  {
    AnyDeadline(d, i, x);
    assert d[i := x] == d;
    Gap(d, i);
  }

  lemma AddLast(d: seq<nat>, x: nat)
    requires Ordered(d)
    ensures OrderedBelow(d + [x], |d|)
  {
    forall k | 0 < k < |d| ensures Edge(d + [x], k) {
      assert Edge(d, k);
    }
  }

  lemma {:induction false} RootIsMin(d: seq<nat>, k: nat)
    requires Ordered(d) && k < |d|
    ensures d[0] <= d[k]
  {
    if k > 0 {
      assert Edge(d, k);
      RootIsMin(d, Parent(k));
    }
  }
}

/** The timer heap of poller_timer.c: an array of timers that store their own index, changed in place. */
module TimerHeap {
  import opened FlushOrder
  import opened HeapOrder

  /** ZTK_TIMER_HEAP_INDEX_NONE, the all-ones index, which no array reaches. */
  const NONE: int := -1

  type UInt64 = x: nat | x < U64 witness 0

  class Timer {
    var deadline: UInt64
    var heapIndex: int
    var cancelled: bool

    /** The calloc in ztk_poller_do_delay. */
    constructor ()
      ensures heapIndex == NONE && !cancelled && deadline == 0
    {
      deadline, heapIndex, cancelled := 0, NONE, false;
    }
  }

  class Heap {
    var heap: array<Timer?>
    var count: nat
    ghost var timers: set<Timer>

    /** Slots and stored indices name each other. */
    ghost predicate Indexed()
      reads this, heap, timers
    {
      && count <= heap.Length
      && (forall k :: 0 <= k < count ==> heap[k] != null && heap[k] in timers && heap[k].heapIndex == k)
      && (forall t :: t in timers ==> 0 <= t.heapIndex < count && heap[t.heapIndex] == t)
    }

    ghost function Due(): (d: seq<nat>)
      requires Indexed()
      reads this, heap, timers
      ensures |d| == count && forall k :: 0 <= k < count ==> d[k] == heap[k].deadline
    {
      seq(count, k requires 0 <= k < count && Indexed() reads this, heap, timers => heap[k].deadline)
    }

    ghost predicate Valid()
      reads this, heap, timers
    {
      Indexed() && Ordered(Due())
    }

    /** The linked timers with their deadlines. */
    ghost function Armed(): map<Timer, nat>
      reads this`timers, timers
    {
      map t | t in timers :: t.deadline
    }

    ghost predicate Earliest(first: Timer)
      reads this, timers, first
    {
      forall t :: t in timers ==> first.deadline <= t.deadline
    }

    constructor ()
      ensures Valid() && timers == {} && fresh(heap)
    {
      heap := new Timer?[0];
      count, timers := 0, {};
    }

    method Swap(i: int, j: int)
      requires Indexed() && 0 <= i < count && 0 <= j < count && i != j
      modifies heap, timers`heapIndex
      ensures Indexed() && Due() == Swapped(old(Due()), i, j)
    {
      heap[i], heap[j] := heap[j], heap[i];
      heap[i].heapIndex := i;
      heap[j].heapIndex := j;
    }

    method BubbleUp(start: int)
      requires Indexed() && 0 <= start < count && OrderedBelow(Due(), start)
      modifies heap, timers`heapIndex
      ensures Valid()
    {
      hide OrderedBelow, Ordered, Swapped;
      var i := start;
      while i > 0
        invariant 0 <= i < count && Indexed() && OrderedBelow(Due(), i)
        decreases i
      {
        var parent := Parent(i);
        if heap[parent].deadline <= heap[i].deadline {
          break;
        }
        SwapUp(Due(), i);
        Swap(parent, i);
        i := parent;
      }
      UpDone(Due(), i);
    }

    /** Of slot `i` and the slots below it, one with the earliest deadline. */
    method EarliestOf(i: nat) returns (smallest: nat)
      requires Indexed() && i < count
      ensures i <= smallest && Smallest(Due(), i, smallest)
      ensures smallest != i ==> Due()[smallest] < Due()[i]
    {
      var left := i * 2 + 1;
      var right := left + 1;
      smallest := i;
      if left < count && heap[left].deadline < heap[smallest].deadline {
        smallest := left;
      }
      if right < count && heap[right].deadline < heap[smallest].deadline {
        smallest := right;
      }
    }

    method BubbleDown(start: int)
      requires Indexed() && 0 <= start < count && OrderedAround(Due(), start)
      modifies heap, timers`heapIndex
      ensures Indexed() && OrderedBelow(Due(), start)
    {
      hide OrderedAround, OrderedBelow, Swapped, Smallest, Edge;
      var i := start;
      while true
        invariant 0 <= start <= i < count && Indexed() && OrderedAround(Due(), i)
        invariant i != start ==> Edge(Due(), i)
        decreases count - i
      {
        var smallest := EarliestOf(i);
        if smallest == i {
          break;
        }
        Below(Due(), i, smallest);
        SwapDown(Due(), i, smallest);
        Swap(i, smallest);
        i := smallest;
      }
      DownDone(Due(), start, i);
    }

    method Reserve(need: nat)
      requires count <= heap.Length
      modifies this`heap
      ensures heap.Length >= need && count <= heap.Length && heap[..count] == old(heap[..count])
      ensures heap == old(heap) || fresh(heap)
    {
      if need <= heap.Length {
        return;
      }
      var current := heap;
      var cap := if current.Length != 0 then current.Length else 8;
      while cap < need
        invariant cap > 0 && cap >= current.Length
        decreases need - cap
      {
        cap := cap * 2;
      }
      var bigger := new Timer?[cap];
      for k := 0 to count
        invariant heap == current && forall j :: 0 <= j < k ==> bigger[j] == current[j]
      {
        bigger[k] := current[k];
      }
      heap := bigger;
    }

    method Push(timer: Timer)
      requires Valid() && timer !in timers
      modifies this, heap, timers`heapIndex, timer`heapIndex
      ensures Valid() && timers == old(timers) + {timer} && (heap == old(heap) || fresh(heap))
    {
      hide Ordered, OrderedBelow;
      ghost var d := Due();
      Reserve(count + 1);
      assert Indexed() && Due() == d;
      Append(timer);
      AddLast(d, timer.deadline);
      BubbleUp(timer.heapIndex);
    }

    method Append(timer: Timer)
      requires Indexed() && timer !in timers && count < heap.Length
      modifies this`count, this`timers, heap, timer`heapIndex
      ensures Indexed() && Due() == old(Due()) + [timer.deadline]
      ensures timers == old(timers) + {timer} && timer.heapIndex == old(count)
    {
      timer.heapIndex := count;
      heap[count] := timer;
      count := count + 1;
      timers := timers + {timer};
    }

    /** The slot at `i` is given up; the last timer takes it. */
    method Vacate(i: int)
      requires Indexed() && 0 <= i < count
      modifies this`count, this`timers, heap, timers`heapIndex
      ensures Indexed() && timers == old(timers) - {old(heap[i])} && old(heap[i]).heapIndex == NONE
      ensures count == old(count) - 1
      ensures Due() == if i < count then old(Due())[..count][i := old(Due())[count]] else old(Due())[..count]
    {
      var gone := heap[i];
      gone.heapIndex := NONE;
      count := count - 1;
      if i < count {
        heap[i] := heap[count];
        heap[i].heapIndex := i;
      }
      timers := timers - {gone};
    }

    method PopMin() returns (top: Timer?)
      requires Valid()
      modifies this`count, this`timers, heap, timers`heapIndex
      ensures Valid() && (top == null <==> old(timers) == {})
      ensures top == null ==> timers == old(timers)
      ensures top != null ==> top in old(timers) && timers == old(timers) - {top} && top.heapIndex == NONE
      ensures top != null ==> forall t :: t in old(timers) ==> top.deadline <= t.deadline
    {
      hide Ordered, Due;
      if count == 0 {
        return null;
      }
      FirstIsEarliest();
      top := heap[0];
      TakeFirst();
    }

    method TakeFirst()
      requires Valid() && count > 0
      modifies this`count, this`timers, heap, timers`heapIndex
      ensures Valid() && timers == old(timers) - {old(heap[0])} && old(heap[0]).heapIndex == NONE
    {
      hide Ordered, OrderedBelow, OrderedAround, Due;
      GapAt(Due(), 0, Due()[0]);
      Vacate(0);
      if count > 0 {
        BubbleDown(0);
        UpDone(Due(), 0);
      }
    }

    lemma FirstKnown()
      requires Valid() && count > 0
      ensures heap.Length > 0 && heap[0] != null && heap[0] in timers
    {
    }

    lemma FirstIsEarliest()
      requires Valid() && count > 0
      ensures forall t :: t in timers ==> heap[0].deadline <= t.deadline
    {
      hide Ordered;
      forall t | t in timers ensures heap[0].deadline <= t.deadline {
        RootIsMin(Due(), t.heapIndex);
      }
    }

    method Remove(timer: Timer)
      requires Indexed() && (timer in timers || (timer.heapIndex == NONE && Valid()))
      requires timer in timers ==> OrderedAround(Due(), timer.heapIndex)
      modifies this`count, this`timers, heap, timers`heapIndex
      ensures Valid() && timers == old(timers) - {timer} && timer.heapIndex == NONE
    {
      hide Ordered, OrderedBelow, OrderedAround;
      var i := timer.heapIndex;
      if i == NONE || i >= count {
        return;
      }
      ghost var d := Due();
      assert d[i := d[i]] == d;
      Gap(d, i);
      Vacate(i);
      if i < count {
        BubbleDown(i);
        BubbleUp(i);
      }
    }

    /** ztk_poller_timer_insert_locked: a linked timer is removed after its deadline has been overwritten. */
    method InsertLocked(timer: Timer, deadline: UInt64)
      requires Valid() && (timer in timers || timer.heapIndex == NONE)
      modifies this, heap, timers`heapIndex, timer`heapIndex, timer`deadline
      ensures Valid() && timers == old(timers) + {timer} && timer.deadline == deadline
      ensures heap == old(heap) || fresh(heap)
    {
      hide Ordered, OrderedAround;
      ghost var d, i := Due(), timer.heapIndex;
      timer.deadline := deadline;
      if timer.heapIndex != NONE {
        AnyDeadline(d, i, deadline);
        assert Due() == d[i := deadline];
        Remove(timer);
      } else {
        assert Due() == d;
      }
      Push(timer);
    }

    /** The first line of ztk_poller_timer_cancel, which takes no lock. */
    method MarkCancelled(timer: Timer)
      requires Valid()
      modifies timer`cancelled
      ensures Valid() && timer.cancelled
    {
      hide Ordered;
      ghost var d := Due();
      timer.cancelled := true;
      assert Due() == d;
    }

    /** One round of flush_expired_timers. `cancels` and `meanwhile` are another thread setting the flag
        before the callback is considered and while it runs; `next` is what the callback returns. */
    method FlushOne(now: nat, answer: Answer) returns (timer: Timer, fired: bool)
      requires Valid() && count > 0 && heap[0].deadline <= now < U64
      modifies this, heap, timers
      ensures Valid() && (heap == old(heap) || fresh(heap))
      ensures First(old(Armed()), timer, now)
      ensures Armed() == if fired then Fire(old(Armed()), timer, Accepted(answer), now) else old(Armed()) - {timer}
      ensures fired == !(old(timer.cancelled) || answer.cancels)
      ensures timer.cancelled == (old(timer.cancelled) || answer.cancels || (fired && answer.meanwhile))
      ensures forall t :: t in old(timers) && t != timer ==> t.cancelled == old(t.cancelled)
    {
      hide Ordered, Due, Indexed;
      FirstKnown();
      FirstIsEarliest();
      var top := PopMin();
      timer := top;
      fired := false;
      if answer.cancels {
        MarkCancelled(timer);
      }
      if timer.cancelled {
        return;
      }
      fired := true;
      if answer.meanwhile {
        MarkCancelled(timer);
      }
      if answer.next > 0 && !timer.cancelled {
        InsertLocked(timer, (now + answer.next) % U64);
      }
    }

    ghost predicate NoneFlagged()
      reads this`timers, timers
    {
      forall t :: t in timers ==> !t.cancelled
    }

    /** One round of the loop with its history: `fired` becomes `fired'`. */
    method FlushRound(now: nat, env: nat -> Answer, k: nat, ghost fired: seq<Firing<Timer>>)
      returns (ghost fired': seq<Firing<Timer>>)
      requires Valid() && count > 0 && heap[0].deadline <= now < U64 && env(k).next < U64
      requires Settled(Armed(), fired, now) && (NoneCancels(env, k) ==> Outstanding(Armed(), fired, now))
      requires forall t :: t in timers && FiredIn(t, fired) ==> !t.cancelled
      requires ArmedAgain(Armed(), fired, now)
      requires forall f :: f in fired && f.timer !in timers ==> f.timer.cancelled || LastNext(f.timer, fired) == 0
      modifies this, heap, timers
      ensures Valid() && timers <= old(timers) && (heap == old(heap) || fresh(heap))
      ensures |fired'| <= |fired| + 1
      ensures forall f :: f in fired' ==> f in fired || (f.timer in old(timers) && !old(f.timer.cancelled) && f.deadline <= now)
      ensures forall t :: FiredIn(t, fired) ==> FiredIn(t, fired')
      ensures forall t :: t in old(timers) && old(t.cancelled) ==> t.cancelled
      ensures forall t :: t in old(timers) && t !in timers ==> t.cancelled || FiredIn(t, fired')
      ensures forall t :: t in timers && !FiredIn(t, fired') ==> t.deadline == old(t.deadline)
      ensures forall t :: t in timers && FiredIn(t, fired') ==> !t.cancelled
      ensures Settled(Armed(), fired', now) && ArmedAgain(Armed(), fired', now)
      ensures forall f :: f in fired' && f.timer !in timers ==> f.timer.cancelled || LastNext(f.timer, fired') == 0
      ensures NoneCancels(env, k + 1) ==> NoneCancels(env, k) && Outstanding(Armed(), fired', now)
      ensures old(NoneFlagged()) && NoneCancels(env, k + 1) && Undisturbed(fired, k, env) ==>
        NoneFlagged() && Undisturbed(fired', k + 1, env)
    {
      hide Ordered, Due, Indexed, Valid, Rising, Once, FiredIn, Settled, Outstanding, NoneCancels, Undisturbed, ArmedAgain,
        LastNext;
      FirstKnown();
      ghost var before := Armed();
      CancelsLess(env, k);
      var timer, fires := FlushOne(now, env(k));
      ghost var f := Firing(timer, before[timer], Accepted(env(k)));
      if fires {
        Longer(fired, f, now);
        FireSettles(before, fired, timer, f.next, now);
        FireRearms(before, fired, timer, f.next, now);
        if NoneCancels(env, k) {
          FireStands(before, fired, timer, f.next, now);
        }
        UndisturbedMore(fired, k, env, f);
        fired' := fired + [f];
      } else {
        DropSettles(before, fired, timer, now);
        DropRearms(before, fired, timer, now);
        if NoneCancels(env, k + 1) {
          DropStands(before, fired, timer, now);
        }
        fired' := fired;
      }
      assert forall t :: t in timers <==> t in Armed();
    }

    /** The loop of flush_expired_timers. `env` answers for each round; `fired` and `rounds` are history. */
    method FlushDue(now: nat, env: nat -> Answer) returns (ghost fired: seq<Firing<Timer>>, ghost rounds: nat)
      requires Valid() && now < U64 && forall k :: env(k).next < U64
      modifies this, heap, timers
      ensures Valid() && timers <= old(timers) && (heap == old(heap) || fresh(heap))
      // The flush is bounded, and only its bound can make it leave a due timer behind.
      ensures |fired| <= rounds <= FLUSH_MAX && (rounds == 0 ==> Armed() == old(Armed()))
      ensures rounds == FLUSH_MAX || forall t :: t in timers ==> now < t.deadline
      // Only due timers fire that nobody had cancelled; no other way out of the heap than firing or the flag.
      ensures forall f :: f in fired ==> f.timer in old(timers) && !old(f.timer.cancelled) && f.deadline <= now
      ensures forall t :: t in old(timers) && t !in timers ==> t.cancelled || FiredIn(t, fired)
      ensures forall t :: t in timers && !FiredIn(t, fired) ==> t.deadline == old(t.deadline)
      // A timer that has fired is linked exactly if its last callback wants it again and no flag forbids it, and
      // is then due when that wants.
      ensures forall t :: t in timers && FiredIn(t, fired) ==> LastNext(t, fired) > 0 && DueAfter(t.deadline, now, LastNext(t, fired))
      ensures forall f :: f in fired && f.timer !in timers ==> f.timer.cancelled || LastNext(f.timer, fired) == 0
      // In order unless a sum wraps to before the deadline served, once each unless a sum wraps; and exactly
      // so when the flush is not cut short by its bound or by cancellations.
      ensures NoneEarly(fired, now) ==> Rising(fired)
      ensures NoneWraps(fired, now) ==> Once(fired)
      ensures rounds < FLUSH_MAX && NoneCancels(env, rounds) ==> (Rising(fired) <==> NoneEarly(fired, now))
      ensures rounds < FLUSH_MAX && NoneCancels(env, rounds) ==> (Once(fired) <==> NoneWraps(fired, now))
      // Undisturbed, each round fires, and arms its timer with what the callback returns.
      ensures old(NoneFlagged()) && NoneCancels(env, rounds) ==> Undisturbed(fired, rounds, env)
    {
      hide Ordered, Due, Indexed, Rising, Once, FiredIn, Settled, Outstanding, Fire, Undisturbed, NoneCancels,
        LastNext, DueAfter;
      fired, rounds := [], 0;
      var processed := 0;
      if count > 0 {
        FirstKnown();
      }
      NoneFired(Armed(), now, env);
      while processed < FLUSH_MAX && count > 0 && heap[0].deadline <= now
        invariant Valid() && timers <= old(timers) && (heap == old(heap) || fresh(heap))
        invariant count > 0 ==> heap.Length > 0 && heap[0] != null
        invariant |fired| <= processed <= FLUSH_MAX && (processed == 0 ==> Armed() == old(Armed()))
        invariant forall f :: f in fired ==> f.timer in old(timers) && !old(f.timer.cancelled) && f.deadline <= now
        invariant forall t :: t in old(timers) && old(t.cancelled) ==> t.cancelled
        invariant forall t :: t in old(timers) && t !in timers ==> t.cancelled || FiredIn(t, fired)
        invariant forall t :: t in timers && !FiredIn(t, fired) ==> t.deadline == old(t.deadline)
        invariant forall t :: t in timers && FiredIn(t, fired) ==> !t.cancelled
        invariant Settled(Armed(), fired, now) && ArmedAgain(Armed(), fired, now)
        invariant forall f :: f in fired && f.timer !in timers ==> f.timer.cancelled || LastNext(f.timer, fired) == 0
        invariant NoneCancels(env, processed) ==> Outstanding(Armed(), fired, now)
        invariant old(NoneFlagged()) && NoneCancels(env, processed) ==> NoneFlagged() && Undisturbed(fired, processed, env)
        decreases FLUSH_MAX - processed
      {
        fired := FlushRound(now, env, processed, fired);
        processed := processed + 1;
        if count > 0 {
          FirstKnown();
        }
      }
      rounds := processed;
      if count == 0 {
        Empty();
      } else {
        FirstIsEarliest();
      }
      SettledMeans(Armed(), fired, now);
      if rounds < FLUSH_MAX && NoneCancels(env, rounds) {
        OrderExact(Armed(), fired, now);
      }
    }

    /** flush_expired_timers. */
    method Flush(now: nat, env: nat -> Answer) returns (delay: int, ghost fired: seq<Firing<Timer>>, ghost rounds: nat)
      requires Valid() && now < U64 && forall k :: env(k).next < U64
      modifies this, heap, timers
      ensures Valid() && timers <= old(timers) && (heap == old(heap) || fresh(heap))
      // The flush is bounded, and only its bound can make it leave a due timer behind.
      ensures |fired| <= rounds <= FLUSH_MAX && (rounds == 0 ==> Armed() == old(Armed()))
      ensures rounds == FLUSH_MAX || forall t :: t in timers ==> now < t.deadline
      // Only due timers fire that nobody had cancelled; no other way out of the heap than firing or the flag.
      ensures forall f :: f in fired ==> f.timer in old(timers) && !old(f.timer.cancelled) && f.deadline <= now
      ensures forall t :: t in old(timers) && t !in timers ==> t.cancelled || FiredIn(t, fired)
      ensures forall t :: t in timers && !FiredIn(t, fired) ==> t.deadline == old(t.deadline)
      // A timer that has fired is linked exactly if its last callback wants it again and no flag forbids it, and
      // is then due when that wants.
      ensures forall t :: t in timers && FiredIn(t, fired) ==> LastNext(t, fired) > 0 && DueAfter(t.deadline, now, LastNext(t, fired))
      ensures forall f :: f in fired && f.timer !in timers ==> f.timer.cancelled || LastNext(f.timer, fired) == 0
      // In order unless a sum wraps to before the deadline served, once each unless a sum wraps; and exactly
      // so when the flush is not cut short by its bound or by cancellations.
      ensures NoneEarly(fired, now) ==> Rising(fired)
      ensures NoneWraps(fired, now) ==> Once(fired)
      ensures rounds < FLUSH_MAX && NoneCancels(env, rounds) ==> (Rising(fired) <==> NoneEarly(fired, now))
      ensures rounds < FLUSH_MAX && NoneCancels(env, rounds) ==> (Once(fired) <==> NoneWraps(fired, now))
      // Undisturbed, each round fires, and arms its timer with what the callback returns.
      ensures old(NoneFlagged()) && NoneCancels(env, rounds) ==> Undisturbed(fired, rounds, env)
      ensures timers == {} ==> delay == -1
      ensures timers != {} ==> exists first :: first in timers && Earliest(first) && delay == ToInt64(Until(first.deadline, now))
    {
      hide Ordered, Due, Indexed, Rising, Once, FiredIn, NoneWraps, NoneEarly, Undisturbed, NoneCancels;
      fired, rounds := FlushDue(now, env);
      if count == 0 {
        Empty();
        return -1, fired, rounds;
      }
      FirstIsEarliest();
      FirstKnown();
      delay := if heap[0].deadline > now then ToInt64(heap[0].deadline - now) else 0;
      assert Earliest(heap[0]);
    }

    /** ztk_poller_resolve_timeout_ms: flush, then the time to sleep. */
    method ResolveTimeout(now: nat, env: nat -> Answer, request: int)
      returns (wait: int, ghost fired: seq<Firing<Timer>>, ghost rounds: nat)
      requires Valid() && now < U64 && (forall k :: env(k).next < U64) && -INT_MAX - 1 <= request <= INT_MAX
      modifies this, heap, timers
      ensures Valid() && timers <= old(timers)
      ensures rounds <= FLUSH_MAX && (rounds == FLUSH_MAX || forall t :: t in timers ==> now < t.deadline)
      ensures forall f :: f in fired ==> f.timer in old(timers) && !old(f.timer.cancelled) && f.deadline <= now
      ensures forall t :: t in old(timers) && t !in timers ==> t.cancelled || FiredIn(t, fired)
      ensures timers == {} ==> wait == request
      ensures request >= 0 ==> 0 <= wait <= request
      ensures timers != {} ==> exists first :: SleepsUntil(first, now, request, wait)
    {
      hide Ordered, Due, Indexed, Rising, Once, FiredIn, NoneWraps, NoneEarly, NoneCancels, Undisturbed, Earliest,
        ToInt64, Valid;
      var delay: int;
      delay, fired, rounds := Flush(now, env);
      if delay < 0 {
        wait := request;
      } else if request < 0 {
        wait := if delay > INT_MAX then INT_MAX else delay;
      } else if request == 0 {
        wait := 0;
      } else {
        wait := if delay < request then delay else request;
      }
      if timers != {} {
        ghost var first :| first in timers && Earliest(first) && delay == ToInt64(Until(first.deadline, now));
        ResolvedExact(Until(first.deadline, now), request);
        assert SleepsUntil(first, now, request, wait);
      }
    }

    /** The wait is until the earliest deadline or as long as the caller says, whichever is sooner; so never past
        the earliest deadline, unless the caller would wait for ever and it is 2^63 away. */
    ghost predicate SleepsUntil(first: Timer, now: nat, request: int, wait: int)
      reads this, timers, first
    {
      && first in timers && Earliest(first)
      && var until := Until(first.deadline, now);
         && (until < 0x8000_0000_0000_0000 ==> wait == Min(if request >= 0 then request else INT_MAX, until))
         && (until >= 0x8000_0000_0000_0000 ==> wait == request)
         && (0 <= wait <= until <==> request >= 0 || until < 0x8000_0000_0000_0000)
    }

    /** A flush that fires a timer twice: the only timer, due, whose sum wraps in its first round. */
    method WrappedFiresTwice(timer: Timer, now: nat, next: nat) returns (delay: int, ghost fired: seq<Firing<Timer>>)
      requires Valid() && timers == {timer} && timer.deadline <= now < U64 && !timer.cancelled
      requires next < U64 <= now + next
      modifies this, heap, timers
      ensures Valid() && !Once(fired) && forall f :: f in fired ==> f.timer == timer
    {
      hide Ordered, Due, Indexed, Valid, Rising;
      ghost var rounds;
      delay, fired, rounds := Flush(now, (k: nat) => Answer(false, if k == 0 then next else 0, false));
      if rounds == FLUSH_MAX {
        assert fired[0].timer == fired[1].timer;
      } else {
        assert timer in old(Armed());
        assert Wraps(fired[0], now);
      }
    }

    lemma Empty()
      requires Valid() && count == 0
      ensures timers == {}
    {
      hide Ordered;
    }
  }

  const INT_MAX: int := 0x7fff_ffff

  /** ZTK_TIMER_FLUSH_MAX. */
  const FLUSH_MAX: nat := 256

  datatype Answer = Answer(cancels: bool, next: nat, meanwhile: bool)

  /** A timer that fired is armed again unless the callback says 0 or it was cancelled meanwhile. */
  function Accepted(answer: Answer): nat {
    if answer.meanwhile then 0 else answer.next
  }

  /** No other thread cancels the timer of one of the first `n` rounds before its callback is considered. */
  predicate NoneCancels(env: nat -> Answer, n: nat) {
    forall k :: 0 <= k < n ==> !env(k).cancels
  }

  predicate Undisturbed(fired: seq<Firing<Timer>>, n: nat, env: nat -> Answer) {
    |fired| == n && forall k :: 0 <= k < n ==> fired[k].next == Accepted(env(k))
  }

  lemma CancelsLess(env: nat -> Answer, n: nat)
    ensures NoneCancels(env, n + 1) ==> NoneCancels(env, n) && !env(n).cancels
  {
  }

  lemma UndisturbedMore(fired: seq<Firing<Timer>>, n: nat, env: nat -> Answer, f: Firing<Timer>)
    requires f.next == Accepted(env(n))
    ensures Undisturbed(fired, n, env) ==> Undisturbed(fired + [f], n + 1, env)
  {
  }

  lemma NoneFired(armed: map<Timer, nat>, now: nat, env: nat -> Answer)
    ensures Settled(armed, [], now) && Outstanding(armed, [], now) && Undisturbed([], 0, env) && ArmedAgain(armed, [], now)
    ensures forall t: Timer :: !FiredIn(t, [])
  {
  }

  function Min(a: int, b: int): int {
    if a < b then a else b
  }

  function Until(deadline: nat, now: nat): nat {
    if deadline > now then deadline - now else 0
  }

  /** The cast to int64_t. */
  function ToInt64(x: nat): int {
    if x < 0x8000_0000_0000_0000 then x else x - U64
  }

  /** The end of ztk_poller_resolve_timeout_ms. */
  function Resolved(delay: int, request: int): int {
    if delay < 0 then request
    else if request < 0 then if delay > INT_MAX then INT_MAX else delay
    else if request == 0 then 0
    else if delay < request then delay else request
  }

  lemma ResolvedExact(until: nat, request: int)
    requires until < U64 && -INT_MAX - 1 <= request <= INT_MAX
    ensures var wait := Resolved(ToInt64(until), request);
      0 <= wait <= until <==> request >= 0 || until < 0x8000_0000_0000_0000
    ensures if until < 0x8000_0000_0000_0000 then ToInt64(until) == until else ToInt64(until) < 0
  {
  }

  /** A timer armed again is due later than now exactly if the sum does not wrap. */
  lemma RearmedLater(now: nat, next: nat)
    requires now < U64 && 0 < next < U64
    ensures (now + next) % U64 > now <==> now + next < U64
  {
    if now + next >= U64 {
      assert (now + next) % U64 == now + next - U64;
    }
  }
}
