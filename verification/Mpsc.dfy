/** The bounded multi-producer, single-consumer queue of mpsc.c as a step machine: one step per atomic
    load, compare-and-swap or store and per plain data access, in any interleaving. */
module Mpsc {
  import opened Bits

  type Item = nat
  type Thread = nat

  datatype Cell = Cell(data: Item, turn: nat)

  /** Where a producer stands inside ztk_mpsc_push: the next access it will make. */
  datatype Producer =
    | Outside
    | LoadTail(item: Item)
    | LoadTurn(item: Item, pos: nat)
    | CasTail(item: Item, pos: nat)
    | WriteData(item: Item, pos: nat)
    | Publish(item: Item, pos: nat)

  /** Where the consumer stands inside ztk_mpsc_pop. */
  datatype Consumer =
    | Away
    | LoadHead
    | CheckTurn(pos: nat)
    | ReadData(pos: nat)
    | FreeSlot(pos: nat, data: Item)
    | AdvanceHead(pos: nat, data: Item)

  /** `claimed`, `owner` and `popped` are history: what was pushed, and by whom, in the order of the
      successful compare-and-swaps on `tail`, and what was popped, in order. */
  datatype State = State(
    cells: seq<Cell>, head: nat, tail: nat,
    producers: map<Thread, Producer>, consumer: Consumer,
    claimed: seq<Item>, owner: seq<Thread>, popped: seq<Item>)
  {
    function Capacity(): nat { |cells| }

    function Slot(p: nat): Cell
      requires |cells| > 0
    {
      cells[p % |cells|]
    }

    function WithSlot(p: nat, c: Cell): State
      requires |cells| > 0
    {
      this.(cells := cells[p % |cells| := c])
    }
  }

  datatype Created = NoQueue | Queue(state: State)

  /** ztk_mpsc_create. */
  function Create(cap: nat, threads: set<Thread>): (r: Created)
    ensures r.Queue? <==> cap >= 2 && IsPowerOfTwo(cap)
  {
    PowerOfTwoTest(cap);
    if cap >= 2 && BitAnd(cap, cap - 1) == 0 then
      Queue(State(seq(cap, (i: nat) => Cell(0, i)), 0, 0, map t | t in threads :: Outside, Away, [], [], []))
    else NoQueue
  }

  // ---- steps ----

  datatype Action =
    | CallPush(t: Thread, item: Item)
    | StepProducer(t: Thread)
    | CallPop
    | StepConsumer

  predicate Enabled(s: State, a: Action) {
    match a
    case CallPush(t, _) => t in s.producers && s.producers[t].Outside?
    case StepProducer(t) => t in s.producers && !s.producers[t].Outside?
    case CallPop => s.consumer.Away?
    case StepConsumer => !s.consumer.Away?
  }

  function At(s: State, t: Thread, p: Producer): State {
    s.(producers := s.producers[t := p])
  }

  function ProducerStep(s: State, t: Thread): State
    requires Enabled(s, StepProducer(t)) && s.Capacity() > 0
  {
    match s.producers[t]
    case LoadTail(item) => At(s, t, LoadTurn(item, s.tail))
    case LoadTurn(item, pos) =>
      if s.Slot(pos).turn == pos then At(s, t, CasTail(item, pos))
      else if s.Slot(pos).turn < pos then At(s, t, Outside)  // ZTK_ERR_AGAIN
      else At(s, t, LoadTail(item))
    case CasTail(item, pos) =>
      if s.tail == pos then
        At(s, t, WriteData(item, pos)).(tail := pos + 1, claimed := s.claimed + [item], owner := s.owner + [t])
      else At(s, t, LoadTurn(item, s.tail))
    case WriteData(item, pos) =>
      At(s, t, Publish(item, pos)).WithSlot(pos, s.Slot(pos).(data := item))
    case Publish(item, pos) =>
      At(s, t, Outside).WithSlot(pos, s.Slot(pos).(turn := pos + 1))
  }

  function ConsumerStep(s: State): State
    requires Enabled(s, StepConsumer) && s.Capacity() > 0
  {
    match s.consumer
    case LoadHead => s.(consumer := CheckTurn(s.head))
    case CheckTurn(pos) =>
      if s.Slot(pos).turn == pos + 1 then s.(consumer := ReadData(pos)) else s.(consumer := Away)  // NULL
    case ReadData(pos) => s.(consumer := FreeSlot(pos, s.Slot(pos).data))
    case FreeSlot(pos, data) =>
      s.WithSlot(pos, s.Slot(pos).(turn := pos + s.Capacity()))
       .(consumer := AdvanceHead(pos, data), popped := s.popped + [data])
    case AdvanceHead(pos, data) => s.(head := pos + 1, consumer := Away)
  }

  function Next(s: State, a: Action): State
    requires Enabled(s, a) && s.Capacity() > 0
  {
    match a
    case CallPush(t, item) => At(s, t, LoadTail(item))
    case StepProducer(t) => ProducerStep(s, t)
    case CallPop => s.(consumer := LoadHead)
    case StepConsumer => ConsumerStep(s)
  }

  // ---- the invariant ----

  /** The producer that claimed position `p` has not published it yet. */
  predicate InFlight(s: State, p: nat) {
    && p < |s.owner| && s.owner[p] in s.producers
    && var o := s.producers[s.owner[p]];
    (o.WriteData? || o.Publish?) && o.pos == p
  }

  /** The slot of position `p`, for p in the window [|popped|, |popped| + cap). */
  predicate SlotOk(s: State, p: nat)
    requires s.Capacity() > 0 && |s.claimed| == |s.owner| == s.tail
  {
    if p >= s.tail then s.Slot(p).turn == p
    else if InFlight(s, p) then
      && s.Slot(p).turn == p
      && (s.producers[s.owner[p]].Publish? ==> s.Slot(p).data == s.claimed[p])
    else s.Slot(p) == Cell(s.claimed[p], p + 1)
  }

  predicate ProducerOk(s: State, t: Thread)
    requires s.Capacity() > 0 && |s.claimed| == |s.owner| == s.tail && t in s.producers
  {
    match s.producers[t]
    case LoadTurn(_, pos) => pos <= s.tail
    case CasTail(_, pos) => pos <= s.tail && (pos == s.tail ==> s.Slot(pos).turn == pos)
    case WriteData(item, pos) => |s.popped| <= pos < s.tail && s.owner[pos] == t && s.claimed[pos] == item
    case Publish(item, pos) => |s.popped| <= pos < s.tail && s.owner[pos] == t && s.claimed[pos] == item
    case _ => true
  }

  predicate ConsumerOk(s: State)
    requires s.Capacity() > 0 && |s.claimed| == |s.owner| == s.tail
  {
    var h := |s.popped|;
    match s.consumer
    case CheckTurn(pos) => pos == h == s.head
    case ReadData(pos) => pos == h == s.head && h < s.tail && !InFlight(s, h)
    case FreeSlot(pos, data) => pos == h == s.head && h < s.tail && !InFlight(s, h) && data == s.claimed[h]
    case AdvanceHead(pos, _) => pos == s.head && pos + 1 == h
    case _ => s.head == h
  }

  ghost predicate Inv(s: State) {
    && s.Capacity() >= 2
    && |s.claimed| == |s.owner| == s.tail
    && |s.popped| <= s.tail <= |s.popped| + s.Capacity()
    && s.popped == s.claimed[..|s.popped|]
    && (forall p: nat :: |s.popped| <= p < |s.popped| + s.Capacity() ==> SlotOk(s, p))
    && (forall t :: t in s.producers ==> ProducerOk(s, t))
    && ConsumerOk(s)
  }

  // ---- positions and slots ----

  lemma ModShift(p: nat, cap: nat)
    requires cap > 0
    ensures (p + cap) % cap == p % cap
  {
    var q, r := p / cap, p % cap;
    assert p == q * cap + r;
    assert (q + 1) * cap == q * cap + cap;
    ModUnique(p + cap, cap, q + 1, r);
  }

  /** Two positions less than `cap` apart never share a slot. */
  lemma SameSlot(p: nat, q: nat, cap: nat)
    requires cap > 0 && p <= q < p + cap && p % cap == q % cap
    ensures p == q
  {
    var i, j := p / cap, q / cap;
    assert p == i * cap + p % cap && q == j * cap + q % cap;
    Multiples(i, j, cap);
    Multiples(j, i, cap);
  }

  lemma FirstRound(p: nat, cap: nat)
    requires p < cap
    ensures p % cap == p
  {
  }

  lemma {:induction false} Init(cap: nat, threads: set<Thread>)
    requires Create(cap, threads).Queue?
    ensures Inv(Create(cap, threads).state)
  {
    hide BitAnd, IsPowerOfTwo;
    var s := Create(cap, threads).state;
    forall p: nat | p < cap ensures SlotOk(s, p) {
      FirstRound(p, cap);
    }
  }

  // ---- every step keeps the invariant ----

  predicate Holding(p: Producer) {
    p.WriteData? || p.Publish?
  }

  /** A step that only moves one producer between places where it holds no slot. */
  lemma MoveKeeps(s: State, t: Thread, p: Producer)
    requires Inv(s) && t in s.producers && !Holding(s.producers[t]) && !Holding(p)
    requires ProducerOk(At(s, t, p), t)
    ensures Inv(At(s, t, p))
  {
    var s' := At(s, t, p);
    forall q: nat ensures InFlight(s', q) == InFlight(s, q) {
    }
    forall q: nat | |s.popped| <= q < |s.popped| + s.Capacity() ensures SlotOk(s', q) {
      assert SlotOk(s, q);
    }
    forall u | u in s'.producers ensures ProducerOk(s', u) {
      assert u != t ==> ProducerOk(s, u);
    }
  }

  /** With the slot of `tail` carrying the turn `tail`, the queue is not full. */
  lemma TurnMeansRoom(s: State)
    requires Inv(s) && s.Slot(s.tail).turn == s.tail
    ensures s.tail < |s.popped| + s.Capacity()
  {
    var h := |s.popped|;
    ModShift(h, s.Capacity());
    assert SlotOk(s, h);
  }

  lemma ClaimKeeps(s: State, t: Thread)
    requires Inv(s) && t in s.producers && s.producers[t].CasTail? && s.producers[t].pos == s.tail
    ensures Inv(ProducerStep(s, t))
  {
    var s' := ProducerStep(s, t);
    var h := |s.popped|;
    assert ProducerOk(s, t);
    TurnMeansRoom(s);
    forall q: nat ensures InFlight(s', q) == (InFlight(s, q) || q == s.tail) {
    }
    forall q: nat | h <= q < h + s.Capacity() ensures SlotOk(s', q) {
      assert SlotOk(s, q);
    }
    forall u | u in s'.producers ensures ProducerOk(s', u) {
      assert ProducerOk(s, u);
    }
  }

  /** The slot of a claimed, unpublished position is not the one a waiting compare-and-swap looked at. */
  lemma OtherSlot(s: State, p: nat, q: nat)
    requires Inv(s) && |s.popped| <= p < |s.popped| + s.Capacity() && |s.popped| <= q < |s.popped| + s.Capacity()
    requires p != q
    ensures p % s.Capacity() != q % s.Capacity()
  {
    if p % s.Capacity() == q % s.Capacity() {
      if p < q {
        SameSlot(p, q, s.Capacity());
      } else {
        SameSlot(q, p, s.Capacity());
      }
    }
  }

  lemma StoreKeeps(s: State, t: Thread)
    requires Inv(s) && t in s.producers && Holding(s.producers[t])
    ensures Inv(ProducerStep(s, t))
  {
    var s' := ProducerStep(s, t);
    var h, pos := |s.popped|, s.producers[t].pos;
    assert ProducerOk(s, t);
    assert SlotOk(s, pos) && InFlight(s, pos);
    forall q: nat ensures q != pos ==> InFlight(s', q) == InFlight(s, q) {
    }
    forall q: nat | h <= q < h + s.Capacity() ensures SlotOk(s', q) {
      assert SlotOk(s, q);
      if q != pos {
        OtherSlot(s, pos, q);
      }
    }
    forall u | u in s'.producers ensures ProducerOk(s', u) {
      assert ProducerOk(s, u);
    }
  }

  lemma {:induction false} ProducerKeeps(s: State, t: Thread)
    requires Inv(s) && Enabled(s, StepProducer(t))
    ensures Inv(ProducerStep(s, t))
  {
    var p := s.producers[t];
    assert ProducerOk(s, t);
    if Holding(p) {
      StoreKeeps(s, t);
    } else if p.CasTail? && p.pos == s.tail {
      ClaimKeeps(s, t);
    } else {
      MoveKeeps(s, t, ProducerStep(s, t).producers[t]);
    }
  }

  lemma {:induction false} FreeKeeps(s: State)
    requires Inv(s) && s.consumer.FreeSlot?
    ensures Inv(ConsumerStep(s))
  {
    var s' := ConsumerStep(s);
    var h, cap := |s.popped|, s.Capacity();
    assert SlotOk(s, h);
    ModShift(h, cap);
    forall q: nat ensures InFlight(s', q) == InFlight(s, q) {
    }
    forall q: nat | h + 1 <= q < h + 1 + cap ensures SlotOk(s', q) {
      if q < h + cap {
        assert SlotOk(s, q);
        OtherSlot(s, h, q);
      }
    }
    forall u | u in s'.producers ensures ProducerOk(s', u) {
      assert ProducerOk(s, u);
      if s.producers[u].CasTail? && s.producers[u].pos == s.tail {
        TurnMeansRoom(s);
        if s.tail != h {
          OtherSlot(s, h, s.tail);
        }
      }
    }
  }

  /** A step that writes nothing but the consumer's place and `head`. */
  lemma ReadKeeps(s: State, s': State)
    requires Inv(s) && s' == s.(consumer := s'.consumer, head := s'.head) && ConsumerOk(s')
    ensures Inv(s')
  {
    forall q: nat ensures InFlight(s', q) == InFlight(s, q) {
    }
    forall q: nat | |s.popped| <= q < |s.popped| + s.Capacity() ensures SlotOk(s', q) {
      assert SlotOk(s, q);
    }
    forall u | u in s'.producers ensures ProducerOk(s', u) {
      assert ProducerOk(s, u);
    }
  }

  lemma {:induction false} NextKeeps(s: State, a: Action)
    requires Inv(s) && Enabled(s, a)
    ensures Inv(Next(s, a))
  {
    match a
    case CallPush(t, item) => MoveKeeps(s, t, LoadTail(item));
    case StepProducer(t) => ProducerKeeps(s, t);
    case CallPop => ReadKeeps(s, Next(s, a));
    case StepConsumer =>
      if s.consumer.FreeSlot? {
        FreeKeeps(s);
      } else {
        assert SlotOk(s, |s.popped|);
        ReadKeeps(s, Next(s, a));
      }
  }

  // ---- the queue is a bounded FIFO ----

  datatype Fifo = Fifo(capacity: nat, items: seq<Item>)
  datatype Event = Silent | Enqueue(item: Item) | Dequeue(item: Item)
  datatype Outcome = Refused | Now(fifo: Fifo)

  function FifoStep(f: Fifo, e: Event): Outcome {
    match e
    case Silent => Now(f)
    case Enqueue(item) => if |f.items| < f.capacity then Now(f.(items := f.items + [item])) else Refused
    case Dequeue(item) => if f.items != [] && f.items[0] == item then Now(f.(items := f.items[1..])) else Refused
  }

  function FifoRun(f: Fifo, events: seq<Event>): Outcome
    decreases |events|
  {
    if events == [] then Now(f)
    else match FifoStep(f, events[0])
      case Refused => Refused
      case Now(f') => FifoRun(f', events[1..])
  }

  /** A push takes effect at its successful compare-and-swap, a pop when it frees the slot; the item of
      a dequeue is the one that ztk_mpsc_pop will return. */
  function EventOf(s: State, a: Action): Event
    requires Enabled(s, a)
  {
    match a
    case StepProducer(t) =>
      var p := s.producers[t];
      if p.CasTail? && p.pos == s.tail then Enqueue(p.item) else Silent
    case StepConsumer => if s.consumer.FreeSlot? then Dequeue(s.consumer.data) else Silent
    case _ => Silent
  }

  function Abs(s: State): Fifo
    requires |s.popped| <= |s.claimed|
  {
    Fifo(s.Capacity(), s.claimed[|s.popped|..])
  }

  lemma {:induction false} StepRefines(s: State, a: Action)
    requires Inv(s) && Enabled(s, a)
    ensures Inv(Next(s, a)) && FifoStep(Abs(s), EventOf(s, a)) == Now(Abs(Next(s, a)))
  {
    NextKeeps(s, a);
    match EventOf(s, a)
    case Enqueue(item) =>
      assert ProducerOk(s, a.t);
      TurnMeansRoom(s);
      assert Abs(Next(s, a)).items == Abs(s).items + [item];
    case Dequeue(item) =>
      assert Abs(Next(s, a)).items == Abs(s).items[1..];
    case Silent =>
  }

  ghost predicate IsRun(s: State, actions: seq<Action>, s': State)
    decreases |actions|
  {
    if actions == [] then s' == s
    else Enabled(s, actions[0]) && s.Capacity() > 0 && IsRun(Next(s, actions[0]), actions[1..], s')
  }

  function Events(s: State, actions: seq<Action>): seq<Event>
    requires s.Capacity() > 0
    decreases |actions|
  {
    if actions == [] || !Enabled(s, actions[0]) then []
    else [EventOf(s, actions[0])] + Events(Next(s, actions[0]), actions[1..])
  }

  lemma {:induction false} RunRefines(s: State, actions: seq<Action>, s': State)
    requires Inv(s) && IsRun(s, actions, s')
    ensures Inv(s') && s'.Capacity() == s.Capacity()
    ensures FifoRun(Abs(s), Events(s, actions)) == Now(Abs(s'))
    decreases |actions|
  {
    if actions != [] {
      StepRefines(s, actions[0]);
      RunRefines(Next(s, actions[0]), actions[1..], s');
    }
  }

  /** From ztk_mpsc_create on, for any producers and any interleaving: the run is a run of a FIFO of the
      given capacity, and what was popped is what was claimed first, in the order of the claims. */
  lemma EveryRunIsFifo(cap: nat, threads: set<Thread>, actions: seq<Action>, s': State)
    requires Create(cap, threads).Queue? && IsRun(Create(cap, threads).state, actions, s')
    ensures Inv(s') && s'.Capacity() == cap
    ensures FifoRun(Fifo(cap, []), Events(Create(cap, threads).state, actions)) == Now(Abs(s'))
    ensures s'.popped <= s'.claimed && |s'.claimed| - |s'.popped| <= cap
  {
    var s := Create(cap, threads).state;
    Init(cap, threads);
    assert Abs(s) == Fifo(cap, []);
    RunRefines(s, actions, s');
  }

  // ---- the answers are exact, the slots exclusive ----

  /** ZTK_ERR_AGAIN is answered only when every slot is claimed and not yet freed, even when the
      producer's `pos` is stale; with a fresh `pos` it is answered exactly then. */
  lemma AgainIsExact(s: State, t: Thread)
    requires Inv(s) && t in s.producers && s.producers[t].LoadTurn?
    ensures var pos, full := s.producers[t].pos, |s.claimed| - |s.popped| == s.Capacity();
      && (s.Slot(pos).turn < pos ==> full && pos == s.tail)
      && (pos == s.tail ==> (s.Slot(pos).turn < pos <==> full))
  {
    var pos, h, cap := s.producers[t].pos, |s.popped|, s.Capacity();
    assert ProducerOk(s, t);
    ModShift(h, cap);
    var q := h;
    if pos < h + cap {
      q := InWindow(pos, h, cap);
    }
    assert SlotOk(s, q);
  }

  /** Every slot belongs to some position of the window that starts at `h`. */
  lemma {:induction false} InWindow(p: nat, h: nat, cap: nat) returns (q: nat)
    requires cap > 0 && p < h + cap
    ensures h <= q < h + cap && q % cap == p % cap && (p >= h ==> q == p)
    decreases h + cap - p
  {
    ModShift(p, cap);
    if p >= h {
      q := p;
    } else {
      q := InWindow(p + cap, h, cap);
    }
  }

  /** NULL is answered exactly when the head position is unclaimed or its producer has not published. */
  lemma NullIsExact(s: State)
    requires Inv(s) && s.consumer.CheckTurn?
    ensures s.Slot(s.consumer.pos).turn != s.consumer.pos + 1
       <==> |s.popped| == |s.claimed| || InFlight(s, |s.popped|)
  {
    assert SlotOk(s, |s.popped|);
  }

  /** A push leaves the queue with ZTK_ERR_AGAIN only where every slot is claimed and not yet freed, and always
      there if its tail is up to date; it leaves with ZTK_OK only behind its publication. Everywhere else, a
      failed compare-and-swap included, it goes on with the same item. */
  lemma PushAnswers(s: State, t: Thread)
    requires Inv(s) && Enabled(s, StepProducer(t))
    ensures var p, p' := s.producers[t], Next(s, StepProducer(t)).producers[t];
      var full := |s.claimed| - |s.popped| == s.Capacity();
      && (p.LoadTurn? && p'.Outside? ==> full && p.pos == s.tail)
      && (p.LoadTurn? && p.pos == s.tail && full ==> p'.Outside?)
      && (p.Publish? ==> p'.Outside?)
      && (p'.Outside? ==> p.LoadTurn? || p.Publish?)
      && (!p'.Outside? ==> p'.item == p.item)
  {
    if s.producers[t].LoadTurn? {
      AgainIsExact(s, t);
    }
  }

  /** A pop answers NULL exactly if, as the sequence is read, the head position is unclaimed or its producer has
      not published; otherwise it takes the item there and leaves the queue only when the slot is free again. */
  lemma PopAnswers(s: State)
    requires Inv(s) && Enabled(s, StepConsumer)
    ensures var c, c' := s.consumer, Next(s, StepConsumer).consumer;
      && (c.CheckTurn? ==> (c'.Away? <==> |s.popped| == |s.claimed| || InFlight(s, |s.popped|)))
      && (c'.Away? <==> c.AdvanceHead? || (c.CheckTurn? && c'.Away?))
      && (c.ReadData? ==> c'.FreeSlot? && c'.data == s.claimed[|s.popped|])
      && (c.FreeSlot? ==> Next(s, StepConsumer).popped == s.popped + [s.claimed[|s.popped|]])
  {
    if s.consumer.CheckTurn? {
      NullIsExact(s);
    } else if s.consumer.ReadData? {
      ReadAfterWrite(s);
    }
  }

  // ---- calls that nobody disturbs ----

  /** The item at the head of the queue can be taken. */
  predicate HeadPublished(s: State) {
    |s.popped| < |s.claimed| && !InFlight(s, |s.popped|)
  }

  predicate Takes(s: State) {
    s.consumer.ReadData? || s.consumer.FreeSlot? || ((s.consumer.LoadHead? || s.consumer.CheckTurn?) && HeadPublished(s))
  }

  function PopStepsLeft(c: Consumer): nat {
    match c
    case LoadHead => 5
    case CheckTurn(_) => 4
    case ReadData(_) => 3
    case FreeSlot(_, _) => 2
    case AdvanceHead(_, _) => 1
    case Away => 0
  }

  lemma PopStep(s: State)
    requires Inv(s) && Enabled(s, StepConsumer)
    ensures var s' := Next(s, StepConsumer);
      && Inv(s') && s'.claimed == s.claimed && s'.producers == s.producers && s'.owner == s.owner
      && PopStepsLeft(s'.consumer) < PopStepsLeft(s.consumer)
      && s'.popped == (if s.consumer.FreeSlot? then s.popped + [s.claimed[|s.popped|]] else s.popped)
      && (!s.consumer.FreeSlot? ==> (Takes(s') <==> Takes(s)))
      && (s.consumer.FreeSlot? ==> Takes(s) && !Takes(s'))
  {
    hide Inv, SlotOk;
    NextKeeps(s, StepConsumer);
    PopAnswers(s);
    ConsumerFacts(s);
  }

  lemma ConsumerFacts(s: State)
    requires Inv(s)
    ensures s.Capacity() >= 2 && |s.popped| <= |s.claimed| && (s.consumer.ReadData? || s.consumer.FreeSlot? ==> HeadPublished(s))
  {
  }

  lemma {:induction false} FinishPop(s: State) returns (actions: seq<Action>, s': State)
    requires Inv(s)
    ensures IsRun(s, actions, s') && Inv(s') && s'.consumer.Away? && forall i :: 0 <= i < |actions| ==> actions[i].StepConsumer?
    ensures s'.claimed == s.claimed && s'.producers == s.producers
    ensures |s.popped| <= |s.claimed| && (Takes(s) ==> |s.popped| < |s.claimed|)
    ensures s'.popped == if Takes(s) then s.popped + [s.claimed[|s.popped|]] else s.popped
    decreases PopStepsLeft(s.consumer)
  {
    hide Inv, ConsumerStep, InFlight, PopStepsLeft;
    ConsumerFacts(s);
    if s.consumer.Away? {
      actions, s' := [], s;
    } else {
      PopStep(s);
      actions, s' := FinishPop(Next(s, StepConsumer));
      actions := [StepConsumer] + actions;
      RunStep(s, actions, s');
    }
  }

  /** A pop that no producer disturbs takes the first item if that is published, and nothing otherwise. */
  lemma PopAlone(s: State) returns (actions: seq<Action>, s': State)
    requires Inv(s) && s.consumer.Away?
    ensures IsRun(s, actions, s') && Inv(s') && s'.consumer.Away?
    ensures actions != [] && actions[0].CallPop? && forall i :: 1 <= i < |actions| ==> actions[i].StepConsumer?
    ensures s'.claimed == s.claimed && s'.producers == s.producers
    ensures s'.popped == if HeadPublished(s) then s.popped + [s.claimed[|s.popped|]] else s.popped
  {
    hide Inv, InFlight, ConsumerStep;
    ConsumerFacts(s);
    NextKeeps(s, CallPop);
    actions, s' := FinishPop(Next(s, CallPop));
    HeadSame(s, Next(s, CallPop));
    actions := [CallPop] + actions;
    RunStep(s, actions, s');
  }

  lemma HeadSame(s: State, s': State)
    requires s'.popped == s.popped && s'.claimed == s.claimed && s'.producers == s.producers && s'.owner == s.owner
    ensures HeadPublished(s') <==> HeadPublished(s)
  {
  }

  predicate Room(s: State) {
    |s.claimed| < |s.popped| + s.Capacity()
  }

  /** The call is still to claim a slot, and will. */
  predicate Claims(s: State, t: Thread)
    requires t in s.producers
  {
    s.producers[t].CasTail? || ((s.producers[t].LoadTail? || s.producers[t].LoadTurn?) && Room(s))
  }

  function PushStepsLeft(p: Producer): nat {
    match p
    case LoadTail(_) => 5
    case LoadTurn(_, _) => 4
    case CasTail(_, _) => 3
    case WriteData(_, _) => 2
    case Publish(_, _) => 1
    case Outside => 0
  }

  /** The position that the call has read is still the tail. */
  predicate UpToDate(s: State, t: Thread)
    requires t in s.producers
  {
    s.producers[t].LoadTurn? || s.producers[t].CasTail? ==> s.producers[t].pos == s.tail
  }

  lemma PushStep(s: State, t: Thread)
    requires Inv(s) && Enabled(s, StepProducer(t)) && UpToDate(s, t)
    ensures var p := s.producers[t]; var s' := Next(s, StepProducer(t));
      && Inv(s') && s'.popped == s.popped && s'.consumer == s.consumer && s'.Capacity() == s.Capacity()
      && t in s'.producers && s'.producers == s.producers[t := s'.producers[t]]
      && UpToDate(s', t) && PushStepsLeft(s'.producers[t]) < PushStepsLeft(p)
      && (if p.CasTail? then s'.claimed == s.claimed + [p.item] && s'.owner == s.owner + [t] && !Claims(s', t)
          else s'.claimed == s.claimed && s'.owner == s.owner && (Claims(s', t) <==> Claims(s, t)))
      && (!s'.producers[t].Outside? ==> s'.producers[t].item == p.item)
  {
    hide SlotOk, InFlight;
    NextKeeps(s, StepProducer(t));
    PushAnswers(s, t);
    TailTurn(s, t);
  }

  lemma TailTurn(s: State, t: Thread)
    requires Inv(s) && t in s.producers && UpToDate(s, t)
    ensures s.Capacity() >= 2 && |s.claimed| == |s.owner| == s.tail <= |s.popped| + s.Capacity()
    ensures s.producers[t].LoadTurn? ==> s.Slot(s.tail).turn <= s.tail
    ensures s.producers[t].CasTail? ==> Room(s)
  {
    assert ProducerOk(s, t);
    var h, cap := |s.popped|, s.Capacity();
    ModShift(h, cap);
    assert SlotOk(s, h);
    if s.tail < h + cap {
      assert SlotOk(s, s.tail);
    }
    if s.producers[t].CasTail? {
      TurnMeansRoom(s);
    }
  }

  lemma {:induction false} FinishPush(s: State, t: Thread) returns (actions: seq<Action>, s': State)
    requires Inv(s) && t in s.producers && UpToDate(s, t)
    ensures IsRun(s, actions, s') && Inv(s') && forall i :: 0 <= i < |actions| ==> actions[i] == StepProducer(t)
    ensures s'.producers == s.producers[t := Outside] && s'.popped == s.popped && s'.consumer == s.consumer
    ensures |s.owner| == |s.claimed|
    ensures Claims(s, t) ==> s'.claimed == s.claimed + [s.producers[t].item] && s'.owner == s.owner + [t]
    ensures !Claims(s, t) ==> s'.claimed == s.claimed && s'.owner == s.owner
    decreases PushStepsLeft(s.producers[t])
  {
    hide Inv, ProducerStep, PushStepsLeft, Room;
    TailTurn(s, t);
    if s.producers[t].Outside? {
      actions, s' := [], s;
    } else {
      PushStep(s, t);
      actions, s' := FinishPush(Next(s, StepProducer(t)), t);
      actions := [StepProducer(t)] + actions;
      RunStep(s, actions, s');
    }
  }

  /** A push that nobody disturbs ends with its item claimed and published if there is room, and with nothing
      changed otherwise. */
  lemma PushAlone(s: State, t: Thread, item: Item) returns (actions: seq<Action>, s': State)
    requires Inv(s) && t in s.producers && s.producers[t].Outside?
    ensures IsRun(s, actions, s') && Inv(s') && actions != [] && actions[0] == CallPush(t, item)
    ensures forall i :: 1 <= i < |actions| ==> actions[i] == StepProducer(t)
    ensures s'.producers == s.producers && s'.popped == s.popped && s'.consumer == s.consumer
    ensures if Room(s) then s'.claimed == s.claimed + [item] && !InFlight(s', |s.claimed|) else s'.claimed == s.claimed
  {
    hide Inv, ProducerStep;
    TailTurn(s, t);
    NextKeeps(s, CallPush(t, item));
    var s1 := Next(s, CallPush(t, item));
    actions, s' := FinishPush(s1, t);
    actions := [CallPush(t, item)] + actions;
    RunStep(s, actions, s');
  }

  /** The consumer reads a slot only after its producer wrote and published it. */
  lemma ReadAfterWrite(s: State)
    requires Inv(s) && s.consumer.ReadData?
    ensures |s.popped| < |s.claimed| && s.Slot(s.consumer.pos).data == s.claimed[|s.popped|]
  {
    assert SlotOk(s, |s.popped|);
  }

  /** No two producers hold the same slot, and none holds the slot the consumer is reading. */
  lemma SlotsExclusive(s: State, t: Thread)
    requires Inv(s) && t in s.producers && Holding(s.producers[t])
    ensures forall u :: u in s.producers && u != t && Holding(s.producers[u]) ==>
      s.producers[u].pos % s.Capacity() != s.producers[t].pos % s.Capacity()
    ensures s.consumer.ReadData? || s.consumer.FreeSlot? ==>
      s.consumer.pos % s.Capacity() != s.producers[t].pos % s.Capacity()
  {
    var pos := s.producers[t].pos;
    assert ProducerOk(s, t) && InFlight(s, pos);
    forall u | u in s.producers && u != t && Holding(s.producers[u])
      ensures s.producers[u].pos % s.Capacity() != pos % s.Capacity()
    {
      assert ProducerOk(s, u);
      OtherSlot(s, s.producers[u].pos, pos);
    }
    if s.consumer.ReadData? || s.consumer.FreeSlot? {
      OtherSlot(s, s.consumer.pos, pos);
    }
  }

  lemma {:induction false} RunsCompose(s: State, a: seq<Action>, m: State, b: seq<Action>, e: State)
    requires IsRun(s, a, m) && IsRun(m, b, e)
    ensures IsRun(s, a + b, e)
    decreases |a|
  {
    if a == [] {
      assert a + b == b;
    } else {
      RunsCompose(Next(s, a[0]), a[1..], m, b, e);
      assert (a + b)[1..] == a[1..] + b;
    }
  }

  /** One undisturbed push. */
  function FivePushSteps(t: Thread, item: Item): seq<Action> {
    [CallPush(t, item), StepProducer(t), StepProducer(t), StepProducer(t), StepProducer(t), StepProducer(t)]
  }

  /** One step, then the rest of the run. */
  lemma RunStep(s: State, actions: seq<Action>, s': State)
    requires actions != [] && Enabled(s, actions[0]) && s.Capacity() > 0
    requires IsRun(Next(s, actions[0]), actions[1..], s')
    ensures IsRun(s, actions, s')
  {
  }

  lemma OneSlotPush(s: State, item: Item) returns (s': State)
    requires s.Capacity() == 1 && s.producers == map[0 := Outside] && s.cells[0].turn == s.tail
    ensures IsRun(s, FivePushSteps(0, item), s')
    ensures s' == s.(cells := [Cell(item, s.tail + 1)], tail := s.tail + 1,
                     claimed := s.claimed + [item], owner := s.owner + [0])
  {
    var a := FivePushSteps(0, item);
    var s1 := Next(s, a[0]);
    var s2 := Next(s1, a[1]);
    var s3 := Next(s2, a[2]);
    var s4 := Next(s3, a[3]);
    var s5 := Next(s4, a[4]);
    s' := Next(s5, a[5]);
    assert IsRun(s', a[6..], s');
    RunStep(s5, a[5..], s');
    RunStep(s4, a[4..], s');
    RunStep(s3, a[3..], s');
    RunStep(s2, a[2..], s');
    RunStep(s1, a[1..], s');
    assert s'.cells == [Cell(item, s.tail + 1)];
    assert s'.producers == s.producers;
  }

  /** Why a queue of one slot is refused: the turn of an unread item looks like room for the next one,
      which overwrites it. */
  lemma OneSlotOverruns(first: Item, second: Item) returns (s': State)
    ensures IsRun(State([Cell(0, 0)], 0, 0, map[0 := Outside], Away, [], [], []),
                  FivePushSteps(0, first) + FivePushSteps(0, second), s')
    ensures s'.claimed == [first, second] && s'.popped == [] && s'.cells == [Cell(second, 2)]
  {
    var s := State([Cell(0, 0)], 0, 0, map[0 := Outside], Away, [], [], []);
    var m := OneSlotPush(s, first);
    s' := OneSlotPush(m, second);
    RunsCompose(s, FivePushSteps(0, first), m, FivePushSteps(0, second), s');
  }
}
