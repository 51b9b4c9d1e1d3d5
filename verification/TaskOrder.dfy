/** Insertion into a line of tasks, and what stays in order through it. */
module TaskOrder {

  function With<T>(l: seq<T>, k: nat, t: T): seq<T>
    requires k <= |l|
  {
    l[..k] + [t] + l[k..]
  }

  /** The line without the tasks in `out`. */
  function Except<T(==)>(l: seq<T>, out: set<T>): seq<T> {
    if l == [] then []
    else if l[0] in out then Except(l[1..], out)
    else [l[0]] + Except(l[1..], out)
  }

  lemma {:induction false} ExceptSplit<T>(a: seq<T>, b: seq<T>, out: set<T>)
    ensures Except(a + b, out) == Except(a, out) + Except(b, out)
  {
    if a == [] {
      assert a + b == b;
    } else {
      assert (a + b)[1..] == a[1..] + b;
      ExceptSplit(a[1..], b, out);
    }
  }

  lemma ExceptOne<T>(t: T, out: set<T>)
    ensures Except([t], out) == if t in out then [] else [t]
  {
    assert [t][1..] == [];
  }

  lemma ExceptWith<T>(l: seq<T>, k: nat, t: T, out: set<T>)
    requires k <= |l|
    ensures t in out ==> Except(With(l, k, t), out) == Except(l, out)
    ensures k == |l| ==> Except(With(l, k, t), out) == Except(l, out) + Except([t], out)
    ensures multiset(With(l, k, t)) == multiset(l) + multiset{t}
  {
    assert l == l[..k] + l[k..];
    ExceptSplit(l[..k], l[k..], out);
    ExceptSplit(l[..k] + [t], l[k..], out);
    ExceptSplit(l[..k], [t], out);
    ExceptOne(t, out);
    if k == |l| {
      assert l[k..] == [] && l[..k] == l;
    }
  }

  lemma Regroup<T>(a: seq<T>, b: seq<T>, c: seq<T>)
    ensures (a + b) + c == a + (b + c)
  {
  }

  /** One step and the rest of a run. */
  lemma ExceptJoin<T>(l: seq<T>, l1: seq<T>, l2: seq<T>, first: seq<T>, rest: seq<T>, out: set<T>)
    requires Except(l1, out) == Except(l, out) + Except(first, out)
    requires Except(l2, out) == Except(l1, out) + Except(rest, out)
    ensures Except(l2, out) == Except(l, out) + Except(first + rest, out)
  {
    hide *;
    ExceptSplit(first, rest, out);
    Regroup(Except(l, out), Except(first, out), Except(rest, out));
  }

  lemma ExceptNone<T>(out: set<T>)
    ensures Except([], out) == []
  {
  }
}
