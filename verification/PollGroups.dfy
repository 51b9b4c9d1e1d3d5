/** The poll groups of a port: each one watches at most 32 sockets, and the queue that holds them keeps
    the full ones in front. */
module PollGroups {

  type GroupId = nat

  const MAX_GROUP_SIZE: nat := 32

  datatype Group = Group(id: GroupId, size: int)

  /** The queue before poll_group_acquire takes its last element. */
  function Opened(q: seq<Group>, spare: GroupId): (q1: seq<Group>)
    ensures q1 != []
  {
    if q == [] || q[|q| - 1].size >= MAX_GROUP_SIZE then q + [Group(spare, 0)] else q
  }

  /** queue_move_to_start and queue_move_to_end of the element at `i`. */
  function MoveToStart(q: seq<Group>, i: nat): seq<Group>
    requires i < |q|
  {
    [q[i]] + q[..i] + q[i + 1..]
  }

  function MoveToEnd(q: seq<Group>, i: nat): seq<Group>
    requires i < |q|
  {
    q[..i] + q[i + 1..] + [q[i]]
  }

  function Resize(q: seq<Group>, i: nat, delta: int): seq<Group>
    requires i < |q|
  {
    q[i := q[i].(size := q[i].size + delta)]
  }

  /** poll_group_acquire: the group taken is the last one, or a new one. */
  function Acquire(q: seq<Group>, spare: GroupId): seq<Group> {
    var n := |Opened(q, spare)| - 1;
    var q1 := Resize(Opened(q, spare), n, 1);
    if q1[n].size == MAX_GROUP_SIZE then MoveToStart(q1, n) else q1
  }

  function Acquired(q: seq<Group>, spare: GroupId): GroupId {
    if q == [] || q[|q| - 1].size >= MAX_GROUP_SIZE then spare else q[|q| - 1].id
  }

  function IndexOf(q: seq<Group>, id: GroupId): nat {
    if q == [] || q[0].id == id then 0 else 1 + IndexOf(q[1..], id)
  }

  /** poll_group_release: the group goes to the end of the queue. */
  function Release(q: seq<Group>, id: GroupId): seq<Group> {
    var i := IndexOf(q, id);
    if i >= |q| then q else MoveToEnd(Resize(q, i, -1), i)
  }

  /** Full groups come first. */
  predicate FullFirst(q: seq<Group>) {
    forall i, j :: 0 <= i < j < |q| && q[j].size == MAX_GROUP_SIZE ==> q[i].size == MAX_GROUP_SIZE
  }

  predicate DistinctIds(q: seq<Group>) {
    forall i, j :: 0 <= i < j < |q| ==> q[i].id != q[j].id
  }

  function Members(groupOf: map<nat, GroupId>, id: GroupId): set<nat> {
    set s | s in groupOf && groupOf[s] == id
  }

  predicate Listed(q: seq<Group>, id: GroupId) {
    exists i :: 0 <= i < |q| && q[i].id == id
  }

  /** Every size is the number of sockets in the group, at most 32. */
  ghost predicate SizesOk(q: seq<Group>, groupOf: map<nat, GroupId>) {
    && DistinctIds(q)
    && (forall i :: 0 <= i < |q| ==> q[i].size == |Members(groupOf, q[i].id)| <= MAX_GROUP_SIZE)
    && (forall s :: s in groupOf ==> Listed(q, groupOf[s]))
  }

  ghost predicate GroupsOk(q: seq<Group>, groupOf: map<nat, GroupId>) {
    SizesOk(q, groupOf) && FullFirst(q)
  }

  lemma {:induction false} IndexFound(q: seq<Group>, id: GroupId)
    requires Listed(q, id)
    ensures IndexOf(q, id) < |q| && q[IndexOf(q, id)].id == id
  {
    if q[0].id != id {
      var i :| 0 <= i < |q| && q[i].id == id;
      assert q[1..][i - 1].id == id;
      IndexFound(q[1..], id);
    }
  }

  lemma MembersWith(groupOf: map<nat, GroupId>, s: nat, id: GroupId, other: GroupId)
    requires s !in groupOf
    ensures |Members(groupOf[s := id], other)| == |Members(groupOf, other)| + (if other == id then 1 else 0)
  {
    var m := Members(groupOf, other);
    assert s !in m;
    if other == id {
      assert Members(groupOf[s := id], other) == m + {s};
    } else {
      assert Members(groupOf[s := id], other) == m;
    }
  }

  lemma ListedAt(q: seq<Group>, i: nat)
    requires i < |q|
    ensures Listed(q, q[i].id)
  {
  }

  /** Two queues with the same groups in another order. */
  lemma Reordered(q: seq<Group>, q': seq<Group>, groupOf: map<nat, GroupId>, at: seq<nat>)
    requires SizesOk(q, groupOf) && |q'| == |q| == |at|
    requires forall j :: 0 <= j < |at| ==> at[j] < |q|
    requires forall j :: 0 <= j < |at| ==> q'[j] == q[at[j]]
    requires forall j, k :: 0 <= j < k < |at| ==> at[j] != at[k]
    requires forall i :: 0 <= i < |q| ==> i in at
    ensures SizesOk(q', groupOf)
  {
    forall s | s in groupOf ensures Listed(q', groupOf[s]) {
      var i :| 0 <= i < |q| && q[i].id == groupOf[s];
      assert i in at;
      var j :| 0 <= j < |at| && at[j] == i;
      ListedAt(q', j);
    }
  }

  lemma MovedToStart(q: seq<Group>, i: nat, groupOf: map<nat, GroupId>)
    requires SizesOk(q, groupOf) && i < |q|
    ensures SizesOk(MoveToStart(q, i), groupOf)
  {
    hide SizesOk;
    var at := seq(|q|, (j: nat) => if j == 0 then i else if j <= i then j - 1 else j);
    forall k | 0 <= k < |q| ensures k in at {
      assert at[if k == i then 0 else if k < i then k + 1 else k] == k;
    }
    Reordered(q, MoveToStart(q, i), groupOf, at);
  }

  lemma MovedToEnd(q: seq<Group>, i: nat, groupOf: map<nat, GroupId>)
    requires SizesOk(q, groupOf) && i < |q|
    ensures SizesOk(MoveToEnd(q, i), groupOf)
  {
    hide SizesOk;
    var n := |q|;
    var at := seq(n, (j: nat) => if j < i then j else if j < n - 1 then j + 1 else i);
    forall k | 0 <= k < n ensures k in at {
      assert at[if k == i then n - 1 else if k < i then k else k - 1] == k;
    }
    Reordered(q, MoveToEnd(q, i), groupOf, at);
  }

  /** A socket joins the group at `i`. */
  lemma JoinedOk(q: seq<Group>, i: nat, groupOf: map<nat, GroupId>, s: nat)
    requires SizesOk(q, groupOf) && i < |q| && q[i].size < MAX_GROUP_SIZE && s !in groupOf
    ensures SizesOk(Resize(q, i, 1), groupOf[s := q[i].id])
  {
    var q' := Resize(q, i, 1);
    forall j | 0 <= j < |q'| ensures q'[j].size == |Members(groupOf[s := q[i].id], q'[j].id)| <= MAX_GROUP_SIZE {
      MembersWith(groupOf, s, q[i].id, q'[j].id);
    }
    SameIds(q, q', groupOf);
    ListedAt(q', i);
  }

  /** A socket leaves the group at `i`. */
  lemma LeftOk(q: seq<Group>, i: nat, groupOf: map<nat, GroupId>, s: nat)
    requires SizesOk(q, groupOf) && i < |q| && s in groupOf && groupOf[s] == q[i].id
    ensures SizesOk(Resize(q, i, -1), groupOf - {s}) && 0 <= q[i].size - 1
  {
    var q', rest := Resize(q, i, -1), groupOf - {s};
    assert rest[s := q[i].id] == groupOf;
    forall j | 0 <= j < |q'| ensures q'[j].size == |Members(rest, q'[j].id)| <= MAX_GROUP_SIZE {
      MembersWith(rest, s, q[i].id, q'[j].id);
    }
    SameIds(q, q', groupOf);
  }

  lemma SameIds(q: seq<Group>, q': seq<Group>, groupOf: map<nat, GroupId>)
    requires |q| == |q'| && forall j :: 0 <= j < |q| ==> q'[j].id == q[j].id
    requires forall s :: s in groupOf ==> Listed(q, groupOf[s])
    ensures forall s :: s in groupOf ==> Listed(q', groupOf[s])
  {
    forall s | s in groupOf ensures Listed(q', groupOf[s]) {
      var i :| 0 <= i < |q| && q[i].id == groupOf[s];
      ListedAt(q', i);
    }
  }

  lemma OpenedOk(q: seq<Group>, groupOf: map<nat, GroupId>, spare: GroupId)
    requires GroupsOk(q, groupOf) && !Listed(q, spare)
    ensures GroupsOk(Opened(q, spare), groupOf)
    ensures Opened(q, spare)[|Opened(q, spare)| - 1].size < MAX_GROUP_SIZE
    ensures Acquired(q, spare) == Opened(q, spare)[|Opened(q, spare)| - 1].id
    ensures Acquired(q, spare) == spare <==> forall i :: 0 <= i < |q| ==> q[i].size == MAX_GROUP_SIZE
  {
    var q1 := Opened(q, spare);
    assert Members(groupOf, spare) == {};
    forall s | s in groupOf ensures Listed(q1, groupOf[s]) {
      var i :| 0 <= i < |q| && q[i].id == groupOf[s];
      assert q1[i].id == groupOf[s];
    }
  }

  lemma LastGrows(q: seq<Group>)
    requires q != [] && FullFirst(q) && q[|q| - 1].size < MAX_GROUP_SIZE
    ensures var n := |q| - 1; var q' := Resize(q, n, 1);
      FullFirst(if q'[n].size == MAX_GROUP_SIZE then MoveToStart(q', n) else q')
  {
    var n := |q| - 1;
    var q' := Resize(q, n, 1);
    if q'[n].size == MAX_GROUP_SIZE {
      assert forall j :: 0 < j <= n ==> MoveToStart(q', n)[j] == q[j - 1];
    }
  }

  lemma OneShrinks(q: seq<Group>, i: nat, groupOf: map<nat, GroupId>)
    requires i < |q| && FullFirst(q) && SizesOk(q, groupOf)
    ensures var q' := MoveToEnd(Resize(q, i, -1), i); FullFirst(q') && q'[|q| - 1].size < MAX_GROUP_SIZE
  {
    var q' := MoveToEnd(Resize(q, i, -1), i);
    assert forall j :: 0 <= j < |q| - 1 ==> q'[j] == q[if j < i then j else j + 1];
  }

  /** A new group is opened only when every existing one is full; the newcomer is counted. */
  lemma AcquireKeeps(q: seq<Group>, groupOf: map<nat, GroupId>, s: nat, spare: GroupId)
    requires GroupsOk(q, groupOf) && s !in groupOf && !Listed(q, spare)
    ensures GroupsOk(Acquire(q, spare), groupOf[s := Acquired(q, spare)])
    ensures Acquired(q, spare) == spare <==> forall i :: 0 <= i < |q| ==> q[i].size == MAX_GROUP_SIZE
  {
    hide SizesOk, FullFirst;
    OpenedOk(q, groupOf, spare);
    var n := |Opened(q, spare)| - 1;
    JoinedOk(Opened(q, spare), n, groupOf, s);
    MovedToStart(Resize(Opened(q, spare), n, 1), n, groupOf[s := Acquired(q, spare)]);
    LastGrows(Opened(q, spare));
  }

  /** Releasing a socket lowers the size of its own group, which is never negative or full after it. */
  lemma ReleaseKeeps(q: seq<Group>, groupOf: map<nat, GroupId>, s: nat)
    requires GroupsOk(q, groupOf) && s in groupOf
    ensures GroupsOk(Release(q, groupOf[s]), groupOf - {s})
    ensures var q', i := Release(q, groupOf[s]), IndexOf(q, groupOf[s]);
      && i < |q| == |q'| && q[i].id == groupOf[s]
      && q'[|q| - 1] == q[i].(size := q[i].size - 1) && 0 <= q'[|q| - 1].size < MAX_GROUP_SIZE
  {
    var i := IndexOf(q, groupOf[s]);
    IndexFound(q, groupOf[s]);
    OneShrinks(q, i, groupOf);
    hide SizesOk, FullFirst;
    LeftOk(q, i, groupOf, s);
    MovedToEnd(Resize(q, i, -1), i, groupOf - {s});
  }

  /** At the end no group has a member left, so poll_group_delete finds every size at zero. */
  lemma EmptyGroups(q: seq<Group>)
    requires GroupsOk(q, map[])
    ensures forall i :: 0 <= i < |q| ==> q[i].size == 0
  {
    forall i | 0 <= i < |q| ensures q[i].size == 0 {
      assert Members(map[], q[i].id) == {};
    }
  }
}
