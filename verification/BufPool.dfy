/** The size-class pool of buf.c: free lists of blocks, capped in length, with a deferred release for pools
    that only their poller's thread may touch. */
module BufPool {
  import opened Tally

  /** The address of a malloc'ed block; a block that is freed never comes back under its old name. */
  type Block = nat

  const BUCKETS: nat := 9

  const CAPS: seq<nat> := [512, 2048, 8192, 32768, 65536, 131072, 524288, 1048576, 2097152]

  /** offsetof(ztk_buf, data) with 64-bit pointers and sizes. */
  const HEADER: nat := 40

  /** size_t. */
  const WORD: nat := 0x1_0000_0000_0000_0000

  datatype Place = Caller | Bucket(index: nat) | Deferred | Freed

  datatype Defer = Defer(ptr: Block, cap: nat)

  datatype Option<T> = None | Some(value: T)

  /** The bucket whose capacity is the smallest that fits. */
  predicate FitsIn(size: nat, i: nat) {
    i < BUCKETS && size <= CAPS[i] && forall j :: 0 <= j < i ==> CAPS[j] < size
  }

  /** bucket_index_for_size. */
  method BucketForSize(size: nat) returns (bucket: Option<nat>)
    ensures bucket.Some? ==> FitsIn(size, bucket.value)
    ensures bucket.None? <==> size > 2097152
  {
    for i := 0 to BUCKETS
      invariant forall j :: 0 <= j < i ==> CAPS[j] < size
    {
      if size <= CAPS[i] {
        return Some(i);
      }
    }
    assert CAPS[8] < size;
    bucket := None;
  }

  /** bucket_index_exact_cap. */
  method BucketOfCap(cap: nat) returns (bucket: Option<nat>)
    ensures bucket.Some? ==> bucket.value < BUCKETS && CAPS[bucket.value] == cap
    ensures bucket.None? <==> cap !in CAPS
  {
    for i := 0 to BUCKETS
      invariant forall j :: 0 <= j < i ==> CAPS[j] != cap
    {
      if cap == CAPS[i] {
        return Some(i);
      }
    }
    bucket := None;
  }

  function Self(n: nat): nat {
    n
  }

  predicate NoDuplicates<T(==)>(s: seq<T>) {
    forall i, j :: 0 <= i < j < |s| ==> s[i] != s[j]
  }

  class Pool {
    const maxPerBucket: nat
    /** A local pool with an owner: releases by other threads are deferred to it. */
    const local: bool
    const freeLists: array<seq<Block>>
    const counts: array<nat>
    var hits: nat
    var cached: nat
    /** pool_release_deferred tasks on their way through the owner's task list. */
    var defers: seq<Defer>
    /** Where each block is, its true capacity, and whether the statistics have been reset. */
    ghost var place: map<Block, Place>
    ghost var trueCap: map<Block, nat>
    ghost var reset: bool

    ghost predicate Valid()
      reads this, freeLists, counts
    {
      && freeLists.Length == BUCKETS && counts.Length == BUCKETS
      && place.Keys == trueCap.Keys
      && (forall i :: 0 <= i < BUCKETS ==> ListOk(i))
      && (forall k :: 0 <= k < |defers| ==> DeferOk(defers[k]))
      && (forall j, k :: 0 <= j < k < |defers| ==> defers[j].ptr != defers[k].ptr)
      && (forall b :: b in place && place[b].Bucket? ==> place[b].index < BUCKETS && b in freeLists[place[b].index])
      && (forall b :: b in place && place[b].Deferred? ==> exists k :: 0 <= k < |defers| && defers[k].ptr == b)
      && (!reset ==> Sum(counts[..], Self) == cached - hits)
    }

    /** A free list holds as many blocks as its counter says, at most the maximum, all of its capacity. */
    ghost predicate ListOk(i: nat)
      requires i < BUCKETS && freeLists.Length == BUCKETS && counts.Length == BUCKETS && place.Keys == trueCap.Keys
      reads this, freeLists, counts
    {
      && |freeLists[i]| == counts[i] <= maxPerBucket
      && NoDuplicates(freeLists[i])
      && forall b :: b in freeLists[i] ==> b in place && place[b] == Bucket(i) && trueCap[b] == CAPS[i]
    }

    ghost predicate DeferOk(d: Defer)
      requires place.Keys == trueCap.Keys
      reads this
    {
      d.ptr in place && place[d.ptr].Deferred? && trueCap[d.ptr] == d.cap
    }

    constructor (max: nat, onlyOwner: bool)
      requires max > 0
      ensures Valid() && place == map[] && !reset && maxPerBucket == max && local == onlyOwner
      ensures fresh(freeLists) && fresh(counts)
    {
      maxPerBucket, local := max, onlyOwner;
      freeLists := new seq<Block>[BUCKETS](_ => []);
      counts := new nat[BUCKETS](_ => 0);
      hits, cached, defers, place, trueCap, reset := 0, 0, [], map[], map[], false;
      new;
      AllZero(counts[..]);
    }

    /** ztk_buf_pool_acquire; `spare` is what malloc returns if it is called. */
    method Acquire(size: nat, spare: Block) returns (block: Option<Defer>)
      requires Valid() && spare !in place
      modifies this`hits, this`place, this`trueCap, freeLists, counts
      ensures Valid() && (block.None? <==> size == 0)
      ensures block.None? ==> place == old(place)
      ensures block.Some? ==> var b, cap := block.value.ptr, block.value.cap;
        && size <= cap && b in trueCap && trueCap[b] == cap
        && (if exists i: nat :: FitsIn(size, i) then exists i: nat :: FitsIn(size, i) && cap == CAPS[i] else cap == size)
        && place == old(place)[b := Caller]
        && (if exists i: nat :: FitsIn(size, i) && old(freeLists[i]) != [] then b in old(place) && old(place)[b].Bucket? else b == spare)
    {
      if size == 0 {
        return None;
      }
      var bucket := BucketForSize(size);
      if bucket.None? {
        Malloc(size, spare);
        return Some(Defer(spare, size));
      }
      var i := bucket.value;
      OneFits(size, i);
      if freeLists[i] != [] {
        var b := PopFree(i);
        return Some(Defer(b, CAPS[i]));
      }
      Malloc(CAPS[i], spare);
      block := Some(Defer(spare, CAPS[i]));
    }

    ghost method Malloc(cap: nat, spare: Block)
      requires Valid() && spare !in place
      modifies this`place, this`trueCap
      ensures Valid() && place == old(place)[spare := Caller] && trueCap == old(trueCap)[spare := cap]
    {
      hide NoDuplicates, Sum;
      trueCap, place := trueCap[spare := cap], place[spare := Caller];
      forall i | 0 <= i < BUCKETS ensures ListOk(i) {
        assert old(ListOk(i));
      }
    }

    method PopFree(i: nat) returns (b: Block)
      requires Valid() && i < BUCKETS && freeLists[i] != []
      modifies this`hits, this`place, freeLists, counts
      ensures Valid() && b in old(place) && old(place)[b] == Bucket(i) && place == old(place)[b := Caller]
      ensures trueCap[b] == CAPS[i]
    {
      hide Sum;
      b := freeLists[i][0];
      assert ListOk(i);
      SumUpdate(counts[..], Self, i, counts[i] - 1);
      freeLists[i] := freeLists[i][1..];
      ghost var c := counts[..];
      counts[i] := counts[i] - 1;
      assert counts[..] == c[i := c[i] - 1];
      hits := hits + 1;
      place := place[b := Caller];
      forall i | 0 <= i < BUCKETS ensures ListOk(i) {
        assert old(ListOk(i));
      }
    }

    /** buf_create_from_pool with the size_t sum in it; `room` is the size of the memory obtained. What was asked
        for fits there if and only if the sum does not wrap; what the buffer says it holds does if and only if a
        block came from the pool, which happens unless the sum wraps to zero. */
    method CreateBuf(want: nat, spare: Block) returns (block: Option<Defer>, cap: int, room: nat)
      requires Valid() && spare !in place && 0 < want < WORD
      modifies this`hits, this`place, this`trueCap, freeLists, counts
      ensures Valid() && (block.None? <==> HEADER + want == WORD)
      ensures room >= HEADER + want <==> HEADER + want < WORD
      ensures room >= HEADER + cap <==> block.Some?
      ensures block.None? ==> place == old(place) && room == 0 && cap == want
      ensures block.Some? ==> var b := block.value;
        && b.ptr in trueCap && trueCap[b.ptr] == b.cap == room == HEADER + cap
        && place == old(place)[b.ptr := Caller]
    {
      var need := (HEADER + want) % WORD;
      SmallFits(need);
      block := Acquire(need, spare);
      if block.None? {
        cap, room := CreateMalloc(want);
      } else {
        room := block.value.cap;
        cap := if room > HEADER then room - HEADER else want;
      }
    }

    /** Where pool_release_now puts a block of this capacity. */
    ghost function Destination(cap: nat): Place
      requires counts.Length == BUCKETS
      reads counts
    {
      if exists i: nat :: i < BUCKETS && CAPS[i] == cap && counts[i] < maxPerBucket then
        var i: nat :| i < BUCKETS && CAPS[i] == cap && counts[i] < maxPerBucket;
        Bucket(i)
      else Freed
    }

    lemma DestinationIs(i: nat)
      requires counts.Length == BUCKETS && i < BUCKETS
      ensures Destination(CAPS[i]) == if counts[i] < maxPerBucket then Bucket(i) else Freed
    {
      assert forall j: nat :: j < BUCKETS && CAPS[j] == CAPS[i] ==> j == i;
    }

    /** pool_release_now. */
    method ReleaseNow(ptr: Block, cap: nat)
      requires Valid() && ptr in place && place[ptr].Caller? && trueCap[ptr] == cap
      modifies this`cached, this`place, freeLists, counts
      ensures Valid() && place == old(place)[ptr := old(Destination(cap))]
    {
      var bucket := BucketOfCap(cap);
      if bucket.Some? {
        var i := bucket.value;
        DestinationIs(i);
        if counts[i] < maxPerBucket {
          PushFree(i, ptr);
          return;
        }
      }
      Free(ptr);
    }

    method PushFree(i: nat, ptr: Block)
      requires Valid() && i < BUCKETS && counts[i] < maxPerBucket
      requires ptr in place && place[ptr].Caller? && trueCap[ptr] == CAPS[i]
      modifies this`cached, this`place, freeLists, counts
      ensures Valid() && place == old(place)[ptr := Bucket(i)]
    {
      hide Sum, FitsIn, NoDuplicates;
      assert ListOk(i);
      ghost var c, list := counts[..], freeLists[i];
      SumUpdate(c, Self, i, c[i] + 1);
      OneMore(list, ptr);
      freeLists[i] := [ptr] + freeLists[i];
      counts[i] := counts[i] + 1;
      assert counts[..] == c[i := c[i] + 1];
      cached := cached + 1;
      place := place[ptr := Bucket(i)];
      forall k | 0 <= k < BUCKETS ensures ListOk(k) {
        assert old(ListOk(k));
        assert k == i ==> freeLists[k] == [ptr] + list;
      }
    }

    ghost method Free(ptr: Block)
      requires Valid() && ptr in place && place[ptr].Caller?
      modifies this`place
      ensures Valid() && place == old(place)[ptr := Freed]
    {
      hide NoDuplicates, Sum;
      place := place[ptr := Freed];
      forall i | 0 <= i < BUCKETS ensures ListOk(i) {
        assert old(ListOk(i));
      }
    }

    /** ztk_buf_pool_release, by the owner's thread or another. */
    method ReleaseBlock(ptr: Block, cap: nat, onOwner: bool)
      requires Valid() && ptr in place && place[ptr].Caller? && trueCap[ptr] == cap
      modifies this`cached, this`place, this`defers, freeLists, counts
      ensures Valid()
      ensures place == old(place)[ptr := if local && !onOwner then Deferred else old(Destination(cap))]
      ensures defers == if local && !onOwner then old(defers) + [Defer(ptr, cap)] else old(defers)
    {
      if local && !onOwner {
        Postpone(ptr, cap);
      } else {
        ReleaseNow(ptr, cap);
      }
    }

    method Postpone(ptr: Block, cap: nat)
      requires Valid() && ptr in place && place[ptr].Caller? && trueCap[ptr] == cap
      modifies this`place, this`defers
      ensures Valid() && place == old(place)[ptr := Deferred] && defers == old(defers) + [Defer(ptr, cap)]
    {
      hide NoDuplicates, Sum;
      ghost var before := defers;
      defers := defers + [Defer(ptr, cap)];
      place := place[ptr := Deferred];
      forall i | 0 <= i < BUCKETS ensures ListOk(i) {
        assert old(ListOk(i));
      }
      assert defers[|before|] == Defer(ptr, cap);
      assert forall k :: 0 <= k < |before| ==> defers[k] == before[k];
    }

    /** pool_release_deferred, run by the owner's poller in the order of posting. */
    method RunDeferred()
      requires Valid() && defers != []
      modifies this`cached, this`place, this`defers, freeLists, counts
      ensures Valid() && defers == old(defers)[1..]
      ensures var d := old(defers)[0]; place == old(place)[d.ptr := old(Destination(d.cap))]
    {
      hide Sum, NoDuplicates;
      var d := defers[0];
      assert DeferOk(d);
      ghost var destination := Destination(d.cap);
      Undefer();
      assert Destination(d.cap) == destination;
      ReleaseNow(d.ptr, d.cap);
    }

    method Undefer()
      requires Valid() && defers != []
      modifies this`place, this`defers
      ensures Valid() && defers == old(defers)[1..]
      ensures var d := old(defers)[0]; d.ptr in old(place) && place == old(place)[d.ptr := Caller] && trueCap[d.ptr] == d.cap
    {
      hide NoDuplicates, Sum;
      ghost var before := defers;
      place := place[defers[0].ptr := Caller];
      defers := defers[1..];
      forall i | 0 <= i < BUCKETS ensures ListOk(i) {
        assert old(ListOk(i));
      }
      assert forall k :: 0 <= k < |defers| ==> defers[k] == before[k + 1];
      forall b | b in place && place[b].Deferred? ensures exists k :: 0 <= k < |defers| && defers[k].ptr == b {
        var k :| 0 <= k < |before| && before[k].ptr == b;
        assert defers[k - 1].ptr == b;
      }
    }

    /** ztk_buf_pool_reset_stats. */
    method ResetStats()
      requires Valid()
      modifies this`hits, this`cached, this`reset
      ensures Valid() && reset && hits == 0 && cached == 0
    {
      hide NoDuplicates, Sum;
      hits, cached, reset := 0, 0, true;
      forall i | 0 <= i < BUCKETS ensures ListOk(i) {
        assert old(ListOk(i));
      }
    }

    /** A block is in one place: never in two free lists, nor in one while its release is deferred. */
    lemma OnePlace(b: Block, i: nat, j: nat)
      requires Valid() && i < BUCKETS && j < BUCKETS && b in freeLists[i]
      ensures b in freeLists[j] ==> i == j
      ensures b in trueCap && trueCap[b] == CAPS[i] && forall d :: d in defers ==> d.ptr != b
    {
      assert ListOk(i) && ListOk(j);
      forall d | d in defers ensures d.ptr != b {
        assert DeferOk(d);
      }
    }
  }

  /** buf_create_malloc, whose sum is a size_t too. */
  method CreateMalloc(want: nat) returns (cap: nat, room: nat)
    requires want < WORD
    ensures cap == want && (room >= HEADER + cap <==> HEADER + want < WORD)
    ensures HEADER + want == WORD ==> room == 0
  {
    cap, room := want, (HEADER + want) % WORD;
  }

  lemma OneMore<T>(q: seq<T>, x: T)
    ensures NoDuplicates(q) && x !in q ==> NoDuplicates([x] + q)
    ensures forall y :: y in [x] + q <==> y in q || y == x
  {
  }

  lemma SmallFits(size: nat)
    ensures size <= 512 ==> FitsIn(size, 0)
    ensures size > 2097152 ==> forall i: nat :: !FitsIn(size, i)
    ensures forall i: nat :: FitsIn(size, i) ==> CAPS[i] >= 512 && (size <= 512 ==> i == 0)
  {
  }

  lemma OneFits(size: nat, i: nat)
    requires FitsIn(size, i)
    ensures forall j: nat :: FitsIn(size, j) ==> j == i
  {
  }

  lemma {:induction false} AllZero(s: seq<nat>)
    requires forall i :: 0 <= i < |s| ==> s[i] == 0
    ensures Sum(s, Self) == 0
  {
    if s != [] {
      AllZero(s[1..]);
    }
  }
}
