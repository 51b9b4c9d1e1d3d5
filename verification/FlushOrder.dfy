/** The order of the firings of one flush of the timer heap, on values: what is armed, and what has fired. */
module FlushOrder {

  const U64: nat := 0x1_0000_0000_0000_0000

  /** `next` is the delay with which the timer was armed again, 0 if it was not. */
  datatype Firing<T> = Firing(timer: T, deadline: nat, next: nat)

  predicate FiredIn<T(==)>(t: T, fired: seq<Firing<T>>) {
    exists k :: 0 <= k < |fired| && fired[k].timer == t
  }

  predicate Rising<T>(fired: seq<Firing<T>>) {
    forall i, j :: 0 <= i < j < |fired| ==> fired[i].deadline <= fired[j].deadline
  }

  predicate Once<T(==)>(fired: seq<Firing<T>>) {
    forall i, j :: 0 <= i < j < |fired| ==> fired[i].timer != fired[j].timer
  }

  /** The sum that arms the timer again reaches 2^64. */
  predicate Wraps<T>(f: Firing<T>, now: nat) {
    now + f.next >= U64
  }

  /** It even wraps to before the deadline that has just been served. */
  predicate Early<T>(f: Firing<T>, now: nat) {
    now + f.next >= U64 && now + f.next - U64 < f.deadline
  }

  predicate NoneWraps<T>(fired: seq<Firing<T>>, now: nat) {
    forall k :: 0 <= k < |fired| ==> !Wraps(fired[k], now)
  }

  predicate NoneEarly<T>(fired: seq<Firing<T>>, now: nat) {
    forall k :: 0 <= k < |fired| ==> !Early(fired[k], now)
  }

  /** The timer is due and none is due before it. */
  predicate First<T(==)>(armed: map<T, nat>, t: T, now: nat) {
    t in armed && armed[t] <= now && forall u :: u in armed ==> armed[t] <= armed[u]
  }

  function Fire<T(==)>(armed: map<T, nat>, t: T, next: nat, now: nat): map<T, nat> {
    if next > 0 then armed[t := (now + next) % U64] else armed - {t}
  }

  /** What has fired is in order and single as far as no sum has wrapped. */
  predicate Settled<T(==)>(armed: map<T, nat>, fired: seq<Firing<T>>, now: nat) {
    && (forall k :: 0 <= k < |fired| ==> fired[k].deadline <= now)
    && (NoneEarly(fired, now) ==> Rising(fired) && forall k, t :: 0 <= k < |fired| && t in armed ==> fired[k].deadline <= armed[t])
    && (NoneWraps(fired, now) ==> Once(fired) && forall t :: t in armed && FiredIn(t, fired) ==> now < armed[t])
  }

  /** A timer whose sum has wrapped is due again, or has already spoilt the order. */
  predicate Outstanding<T(==)>(armed: map<T, nat>, fired: seq<Firing<T>>, now: nat) {
    && (forall k :: 0 <= k < |fired| && Wraps(fired[k], now) ==>
          !Once(fired) || (fired[k].timer in armed && armed[fired[k].timer] <= now))
    && (forall k :: 0 <= k < |fired| && Early(fired[k], now) ==>
          !Rising(fired) || (fired[k].timer in armed && armed[fired[k].timer] < fired[k].deadline))
  }

  /** The delay with which the timer was armed at its last firing, if it has fired. */
  function LastNext<T(==)>(t: T, fired: seq<Firing<T>>): nat {
    if fired == [] then 0
    else
      var f := fired[|fired| - 1];
      if f.timer == t then f.next else LastNext(t, fired[..|fired| - 1])
  }

  /** What fired and is armed is due when its last callback wanted, as far as 64 bits can say. */
  predicate ArmedAgain<T(==)>(armed: map<T, nat>, fired: seq<Firing<T>>, now: nat) {
    forall t :: t in armed && FiredIn(t, fired) ==> LastNext(t, fired) > 0 && DueAfter(armed[t], now, LastNext(t, fired))
  }

  predicate DueAfter(deadline: nat, now: nat, delay: nat) {
    deadline == if now + delay < U64 then now + delay else now + delay - U64
  }

  lemma FireRearms<T>(armed: map<T, nat>, fired: seq<Firing<T>>, t: T, next: nat, now: nat)
    requires ArmedAgain(armed, fired, now) && t in armed && now < U64 && next < U64
    ensures var fired' := fired + [Firing(t, armed[t], next)];
      && ArmedAgain(Fire(armed, t, next, now), fired', now)
      && (forall u :: LastNext(u, fired') == if u == t then next else LastNext(u, fired))
  {
    hide Rising, Once, NoneWraps, NoneEarly;
    var f := Firing(t, armed[t], next);
    var fired' := fired + [f];
    assert fired'[..|fired|] == fired;
    Longer(fired, f, now);
    Later(now, next);
  }

  lemma DropRearms<T>(armed: map<T, nat>, fired: seq<Firing<T>>, t: T, now: nat)
    requires ArmedAgain(armed, fired, now)
    ensures ArmedAgain(armed - {t}, fired, now)
  {
  }

  lemma Later(now: nat, next: nat)
    requires now < U64 && next < U64
    ensures (now + next) % U64 == if now + next < U64 then now + next else now + next - U64
  {
  }

  /** The list grows by one firing. */
  lemma Longer<T>(fired: seq<Firing<T>>, f: Firing<T>, now: nat)
    ensures var fired' := fired + [f];
      && (forall t :: FiredIn(t, fired') <==> FiredIn(t, fired) || t == f.timer)
      && (Rising(fired') <==> Rising(fired) && forall k :: 0 <= k < |fired| ==> fired[k].deadline <= f.deadline)
      && (Once(fired') <==> Once(fired) && !FiredIn(f.timer, fired))
      && (NoneWraps(fired', now) <==> NoneWraps(fired, now) && !Wraps(f, now))
      && (NoneEarly(fired', now) <==> NoneEarly(fired, now) && !Early(f, now))
  {
    hide Wraps, Early;
    var fired', n := fired + [f], |fired|;
    assert fired'[n] == f && forall k :: 0 <= k < n ==> fired'[k] == fired[k];
    forall t ensures FiredIn(t, fired') <==> FiredIn(t, fired) || t == f.timer {
      if FiredIn(t, fired) {
        var k :| 0 <= k < n && fired[k].timer == t;
        assert fired'[k].timer == t;
      }
    }
    LongerOnce(fired, f);
    LongerRising(fired, f);
    assert NoneWraps(fired', now) ==> forall k :: 0 <= k < n ==> !Wraps(fired'[k], now);
    assert NoneEarly(fired', now) ==> forall k :: 0 <= k < n ==> !Early(fired'[k], now);
  }

  lemma LongerOnce<T>(fired: seq<Firing<T>>, f: Firing<T>)
    ensures Once(fired + [f]) <==> Once(fired) && !FiredIn(f.timer, fired)
  {
    var fired' := fired + [f];
    if Once(fired') {
      forall i, j | 0 <= i < j < |fired| ensures fired[i].timer != fired[j].timer {
        assert fired'[i].timer != fired'[j].timer;
      }
      forall k | 0 <= k < |fired| ensures fired[k].timer != f.timer {
        assert fired'[k].timer != fired'[|fired|].timer;
      }
    }
  }

  lemma LongerRising<T>(fired: seq<Firing<T>>, f: Firing<T>)
    ensures Rising(fired + [f]) <==> Rising(fired) && forall k :: 0 <= k < |fired| ==> fired[k].deadline <= f.deadline
  {
    var fired' := fired + [f];
    if Rising(fired') {
      forall i, j | 0 <= i < j < |fired| ensures fired[i].deadline <= fired[j].deadline {
        assert fired'[i].deadline <= fired'[j].deadline;
      }
      forall k | 0 <= k < |fired| ensures fired[k].deadline <= f.deadline {
        assert fired'[k].deadline <= fired'[|fired|].deadline;
      }
    }
  }

  lemma FireSettles<T>(armed: map<T, nat>, fired: seq<Firing<T>>, t: T, next: nat, now: nat)
    requires Settled(armed, fired, now) && First(armed, t, now) && now < U64 && next < U64
    ensures Settled(Fire(armed, t, next, now), fired + [Firing(t, armed[t], next)], now)
  {
    hide NoneWraps, NoneEarly, Once, Rising, FiredIn;
    Longer(fired, Firing(t, armed[t], next), now);
    Later(now, next);
  }

  lemma DropSettles<T>(armed: map<T, nat>, fired: seq<Firing<T>>, t: T, now: nat)
    requires Settled(armed, fired, now)
    ensures Settled(armed - {t}, fired, now)
  {
    hide NoneWraps, NoneEarly, Once, Rising, FiredIn;
  }

  lemma FireStands<T>(armed: map<T, nat>, fired: seq<Firing<T>>, t: T, next: nat, now: nat)
    requires Outstanding(armed, fired, now) && First(armed, t, now) && now < U64 && next < U64
    ensures Outstanding(Fire(armed, t, next, now), fired + [Firing(t, armed[t], next)], now)
  {
    hide Once, Rising, NoneWraps, NoneEarly;
    var f := Firing(t, armed[t], next);
    var armed', fired' := Fire(armed, t, next, now), fired + [f];
    Longer(fired, f, now);
    Later(now, next);
    forall k | 0 <= k < |fired'| && Wraps(fired'[k], now)
      ensures !Once(fired') || (fired'[k].timer in armed' && armed'[fired'[k].timer] <= now)
    {
      if k < |fired| {
        assert fired'[k] == fired[k];
        assert fired[k].timer == t ==> FiredIn(t, fired);
      }
    }
    forall k | 0 <= k < |fired'| && Early(fired'[k], now)
      ensures !Rising(fired') || (fired'[k].timer in armed' && armed'[fired'[k].timer] < fired'[k].deadline)
    {
      if k < |fired| {
        assert fired'[k] == fired[k];
      }
    }
  }

  lemma DropStands<T>(armed: map<T, nat>, fired: seq<Firing<T>>, t: T, now: nat)
    requires Outstanding(armed, fired, now) && !FiredIn(t, fired)
    ensures Outstanding(armed - {t}, fired, now)
  {
    hide Once, Rising;
    assert forall k :: 0 <= k < |fired| ==> fired[k].timer != t;
  }

  /** When nothing is due any more, a timer has fired twice exactly if a sum has wrapped, and a firing was out of
      order exactly if a sum has wrapped to before the deadline just served. */
  lemma OrderExact<T>(armed: map<T, nat>, fired: seq<Firing<T>>, now: nat)
    requires Settled(armed, fired, now) && Outstanding(armed, fired, now)
    requires forall t :: t in armed ==> now < armed[t]
    ensures Once(fired) <==> NoneWraps(fired, now)
    ensures Rising(fired) <==> NoneEarly(fired, now)
  {
    hide Once, Rising;
    if k :| 0 <= k < |fired| && Early(fired[k], now) {
      assert !Rising(fired);
    }
  }

  lemma SettledMeans<T>(armed: map<T, nat>, fired: seq<Firing<T>>, now: nat)
    requires Settled(armed, fired, now)
    ensures NoneEarly(fired, now) ==> Rising(fired)
    ensures NoneWraps(fired, now) ==> Once(fired)
  {
  }
}
