/** The queue that holds what a TCP session still has to send: chunks of reference-counted buffers. */
module OutQueue {

  type Byte = x: nat | x < 256

  /** A ztk_buf; `elsewhere` counts the references that are not held by the session's queue, `released` how
      often the memory has been given back. */
  class Buf {
    const data: seq<Byte>
    var refcnt: int
    ghost var elsewhere: nat
    ghost var released: nat

    /** ztk_buf_alloc: one reference, held by the caller. */
    constructor (contents: seq<Byte>)
      ensures data == contents && refcnt == 1 && elsewhere == 1 && released == 0
    {
      data := contents;
      refcnt, elsewhere, released := 1, 1, 0;
    }

    /** ztk_buf_ref. */
    method Ref()
      modifies this`refcnt
      ensures refcnt == old(refcnt) + 1
    {
      refcnt := refcnt + 1;
    }

    /** ztk_buf_unref. */
    method Unref()
      modifies this`refcnt, this`released
      ensures refcnt == old(refcnt) - 1
      ensures released == if old(refcnt) == 1 then old(released) + 1 else old(released)
    {
      refcnt := refcnt - 1;
      if refcnt == 0 {
        released := released + 1;
      }
    }

    /** ztk_buf_try_ref. */
    method TryRef() returns (ok: bool)
      modifies this`refcnt
      ensures ok == (old(refcnt) > 0) && refcnt == (if ok then old(refcnt) + 1 else old(refcnt))
    {
      if refcnt <= 0 {
        return false;
      }
      refcnt := refcnt + 1;
      ok := true;
    }
  }

  datatype Chunk = Chunk(buf: Buf, off: nat, len: nat)

  /** ztk_tcp_out_chunk. */
  class ChunkNode {
    const buf: Buf
    var off: nat
    var len: nat
    var next: ChunkNode?

    constructor (c: Chunk)
      ensures Value() == c && next == null
    {
      buf, off, len, next := c.buf, c.off, c.len, null;
    }

    ghost function Value(): Chunk
      reads this
    {
      Chunk(buf, off, len)
    }
  }

  /** The list between out_head and out_tail. */
  class ChunkList {
    var head: ChunkNode?
    var tail: ChunkNode?
    ghost var nodes: seq<ChunkNode>
    /** Every node the list has ever had. */
    ghost var repr: set<ChunkNode>

    ghost predicate Valid()
      reads this, repr
    {
      && (forall i :: 0 <= i < |nodes| ==> nodes[i] in repr)
      && head == NodeAt(0) && tail == (if nodes == [] then null else nodes[|nodes| - 1])
      && (forall i :: 0 <= i < |nodes| ==> nodes[i].next == NodeAt(i + 1))
      && (forall i, j :: 0 <= i < j < |nodes| ==> nodes[i] != nodes[j])
    }

    ghost function NodeAt(i: nat): ChunkNode?
      reads this
    {
      if i < |nodes| then nodes[i] else null
    }

    ghost function Chunks(): (q: seq<Chunk>)
      reads this, nodes
      ensures |q| == |nodes|
    {
      ValuesOf(nodes)
    }

    constructor ()
      ensures Valid() && Chunks() == [] && repr == {}
    {
      head, tail, nodes, repr := null, null, [], {};
    }

    /** The linking half of session_out_enqueue. */
    method Append(c: Chunk)
      requires Valid()
      modifies this, repr
      ensures Valid() && Chunks() == old(Chunks()) + [c] && old(repr) <= repr && fresh(repr - old(repr))
    {
      var node := new ChunkNode(c);
      if tail != null {
        tail.next := node;
      } else {
        head := node;
      }
      tail := node;
      nodes, repr := nodes + [node], repr + {node};
    }

    /** The unlinking half of session_out_pop_chunk. */
    method Pop() returns (c: Chunk)
      requires Valid() && Chunks() != []
      modifies this, repr
      ensures Valid() && c == old(Chunks())[0] && Chunks() == old(Chunks())[1..] && repr == old(repr)
    {
      c := Chunk(head.buf, head.off, head.len);
      head := head.next;
      if head == null {
        tail := null;
      }
      nodes := nodes[1..];
    }

    /** The head gives up its first `n` bytes. */
    method Shrink(n: nat)
      requires Valid() && Chunks() != [] && n < Chunks()[0].len
      modifies this, repr
      ensures Valid() && repr == old(repr)
      ensures Chunks() == old(Chunks())[0 := Shrunk(old(Chunks())[0], n)]
    {
      head.off := head.off + n;
      head.len := head.len - n;
    }

    /** The list reads nothing but its own objects. */
    twostate lemma Kept()
      requires old(Valid()) && unchanged(this) && unchanged(old(repr))
      ensures Valid() && Chunks() == old(Chunks())
    {
    }

    lemma HeadIs()
      requires Valid()
      ensures head == null <==> Chunks() == []
      ensures head != null ==> head.Value() == Chunks()[0]
    {
    }

    lemma NodeIs(i: nat)
      requires Valid() && i <= |nodes|
      ensures (NodeAt(i) == null <==> i == |nodes|) && NodeAt(0) == head && |Chunks()| == |nodes|
      ensures i < |nodes| ==> NodeAt(i) == nodes[i] && nodes[i].next == NodeAt(i + 1) && nodes[i].Value() == Chunks()[i]
    {
    }
  }

  ghost function ValuesOf(ns: seq<ChunkNode>): (q: seq<Chunk>)
    reads ns
    ensures |q| == |ns|
  {
    seq(|ns|, i requires 0 <= i < |ns| reads ns => ns[i].Value())
  }

  /** A chunk is a non-empty rest of its buffer. */
  predicate ChunkOk(c: Chunk) {
    c.len > 0 && c.off + c.len == |c.buf.data|
  }

  function Bytes(c: Chunk): seq<Byte>
    requires ChunkOk(c)
  {
    c.buf.data[c.off..]
  }

  predicate ChunksOk(q: seq<Chunk>) {
    forall i :: 0 <= i < |q| ==> ChunkOk(q[i])
  }

  /** The bytes still to be sent. */
  function Flat(q: seq<Chunk>): seq<Byte>
    requires ChunksOk(q)
  {
    if q == [] then [] else Bytes(q[0]) + Flat(q[1..])
  }

  /** How many chunks name the buffer. */
  function Uses(q: seq<Chunk>, b: Buf): nat {
    if q == [] then 0 else (if q[0].buf == b then 1 else 0) + Uses(q[1..], b)
  }

  lemma {:induction false} FlatSplit(q: seq<Chunk>, r: seq<Chunk>)
    requires ChunksOk(q) && ChunksOk(r)
    ensures ChunksOk(q + r) && Flat(q + r) == Flat(q) + Flat(r)
  {
    hide Bytes, ChunkOk;
    if q == [] {
      assert q + r == r;
    } else {
      assert (q + r)[1..] == q[1..] + r;
      FlatSplit(q[1..], r);
    }
  }

  lemma FlatEmpty(q: seq<Chunk>)
    requires ChunksOk(q)
    ensures Flat(q) == [] <==> q == []
  {
  }

  lemma FlatNone()
    ensures ChunksOk([]) && Flat([]) == []
  {
  }

  /** The bytes of the first `k` chunks. */
  function FirstBytes(q: seq<Chunk>, k: nat): seq<Byte>
    requires ChunksOk(q) && k <= |q|
  {
    Flat(q[..k])
  }

  lemma FlatFirst(q: seq<Chunk>, k: nat)
    requires ChunksOk(q) && k <= |q|
    ensures FirstBytes(q, 0) == [] && FirstBytes(q, k) <= Flat(q)
    ensures k < |q| ==> FirstBytes(q, k + 1) == FirstBytes(q, k) + q[k].buf.data[q[k].off..] && q[k].off < |q[k].buf.data|
  {
    assert q == q[..k] + q[k..];
    FlatSplit(q[..k], q[k..]);
    if k < |q| {
      assert q[..k + 1] == q[..k] + [q[k]];
      FlatOne(q[k]);
      FlatSplit(q[..k], [q[k]]);
    }
  }

  lemma FlatOne(c: Chunk)
    requires ChunkOk(c)
    ensures ChunksOk([c]) && Flat([c]) == Bytes(c) && |Bytes(c)| == c.len
  {
    assert [c][1..] == [];
  }

  lemma {:induction false} UsesSplit(q: seq<Chunk>, r: seq<Chunk>, b: Buf)
    ensures Uses(q + r, b) == Uses(q, b) + Uses(r, b)
  {
    if q == [] {
      assert q + r == r;
    } else {
      assert (q + r)[1..] == q[1..] + r;
      UsesSplit(q[1..], r, b);
    }
  }

  lemma UsesOne(c: Chunk, b: Buf)
    ensures Uses([c], b) == if c.buf == b then 1 else 0
  {
    assert [c][1..] == [];
  }

  lemma {:induction false} UsedIn(q: seq<Chunk>, c: Chunk)
    requires c in q
    ensures Uses(q, c.buf) > 0
  {
    if q[0] != c {
      UsedIn(q[1..], c);
    }
  }

  /** The first chunk loses its first `n` bytes. */
  function Shrunk(c: Chunk, n: nat): Chunk
    requires n < c.len
  {
    c.(off := c.off + n, len := c.len - n)
  }

  lemma HeadPopped(q: seq<Chunk>)
    requires ChunksOk(q) && q != []
    ensures ChunksOk(q[1..]) && |Bytes(q[0])| == q[0].len && Flat(q) == Bytes(q[0]) + Flat(q[1..])
    ensures forall n :: q[0].len <= n <= |Flat(q)| ==> Flat(q)[n..] == Flat(q[1..])[n - q[0].len..]
  {
  }

  lemma HeadShrunk(q: seq<Chunk>, n: nat)
    requires ChunksOk(q) && q != [] && n < q[0].len
    ensures var q' := q[0 := Shrunk(q[0], n)];
      ChunksOk(q') && n <= |Flat(q)| && Flat(q') == Flat(q)[n..] && forall b :: Uses(q', b) == Uses(q, b)
  {
    var q' := q[0 := Shrunk(q[0], n)];
    assert q'[1..] == q[1..];
    assert Bytes(q'[0]) == Bytes(q[0])[n..];
  }
}

/** What a session offers its socket and what that answers. */
module SendTrace {
  import opened OutQueue

  const ERR_AGAIN: int := -5

  /** One call of ztk_socket_send or ztk_socket_sendv with its answer: so many bytes taken, or an error. */
  datatype Offer = Offer(data: seq<Byte>, n: int)

  datatype Status = Sent | Invalid | SocketError(code: int)

  predicate OfferOk(o: Offer) {
    o.data != [] && o.n != 0 && o.n <= |o.data|
  }

  /** Each offer was a non-empty front part of what was queued then, the socket took some of it, and what is left
      of `queued` in the end is `rest`. */
  predicate Progress(os: seq<Offer>, queued: seq<Byte>, rest: seq<Byte>) {
    if os == [] then rest == queued
    else
      var o := os[0];
      OfferOk(o) && o.n > 0 && o.data <= queued && Progress(os[1..], queued[o.n..], rest)
  }

  /** A flush goes on until nothing is queued or the socket refuses, and no longer. */
  predicate Flushed(os: seq<Offer>, queued: seq<Byte>, rest: seq<Byte>) {
    if rest == [] then Progress(os, queued, rest)
    else
      && os != [] && Progress(os[..|os| - 1], queued, rest)
      && var o := os[|os| - 1]; OfferOk(o) && o.n < 0 && o.data <= rest
  }

  /** A send behind a queue joins it and flushes. One on an empty queue offers its data at once: what the socket
      does not take is queued, and flushed unless it took nothing; an error other than ERR_AGAIN, and nothing
      else, is the caller's, who has nothing queued then. */
  predicate SendMade(os: seq<Offer>, queued: seq<Byte>, data: seq<Byte>, rest: seq<Byte>, status: Status) {
    if queued != [] then status.Sent? && Flushed(os, queued + data, rest)
    else
      && os != [] && os[0].data == data && OfferOk(os[0])
      && var n := os[0].n;
         if n > 0 then status.Sent? && Flushed(os[1..], data[n..], rest)
         else |os| == 1 && if n == ERR_AGAIN then status.Sent? && rest == data else status == SocketError(n) && rest == []
  }

  lemma {:induction false} ProgressOne(os: seq<Offer>, queued: seq<Byte>, rest: seq<Byte>, o: Offer)
    requires Progress(os, queued, rest) && OfferOk(o) && o.n > 0 && o.data <= rest
    ensures Progress(os + [o], queued, rest[o.n..])
  {
    if os == [] {
      assert [o][1..] == [];
    } else {
      assert (os + [o])[1..] == os[1..] + [o];
      ProgressOne(os[1..], queued[os[0].n..], rest, o);
    }
  }

  lemma FlushRefused(os: seq<Offer>, queued: seq<Byte>, rest: seq<Byte>, o: Offer)
    requires Progress(os, queued, rest) && OfferOk(o) && o.n < 0 && o.data <= rest
    ensures Flushed(os + [o], queued, rest)
  {
    assert (os + [o])[..|os|] == os;
  }

  function Part(o: Offer): seq<Byte>
    requires OfferOk(o)
  {
    if o.n > 0 then o.data[..o.n] else []
  }

  /** The order of the bytes: what the socket took over a flush and what is left are what was queued. */
  function Taken(os: seq<Offer>): seq<Byte>
    requires forall i :: 0 <= i < |os| ==> OfferOk(os[i])
  {
    if os == [] then [] else Part(os[0]) + Taken(os[1..])
  }

  lemma {:induction false} ProgressTakes(os: seq<Offer>, queued: seq<Byte>, rest: seq<Byte>)
    requires Progress(os, queued, rest)
    ensures (forall i :: 0 <= i < |os| ==> OfferOk(os[i])) && Taken(os) + rest == queued
  {
    if os != [] {
      ProgressTakes(os[1..], queued[os[0].n..], rest);
      assert forall i :: 1 <= i < |os| ==> os[i] == os[1..][i - 1];
      assert queued == os[0].data[..os[0].n] + queued[os[0].n..];
      assert Taken(os) == os[0].data[..os[0].n] + Taken(os[1..]);
      assert Taken(os) + rest == os[0].data[..os[0].n] + (Taken(os[1..]) + rest);
    }
  }

  lemma FlushDone(os: seq<Offer>, queued: seq<Byte>)
    requires Progress(os, queued, [])
    ensures Flushed(os, queued, [])
  {
  }

  lemma Joined(a: seq<Offer>, o: Offer, os: seq<Offer>)
    ensures (a + [o]) + os == a + ([o] + os)
  {
  }

  lemma Halves(a: seq<Byte>, data: seq<Byte>, n: nat)
    requires n <= |data|
    ensures (a + data[..n]) + data[n..] == a + data
  {
    assert data == data[..n] + data[n..];
  }

  lemma MadeWhole(data: seq<Byte>)
    requires data != []
    ensures SendMade([Offer(data, |data|)], [], data, [], Sent)
  {
    assert [Offer(data, |data|)][1..] == [];
  }

  lemma MadePart(os: seq<Offer>, data: seq<Byte>, n: nat, rest: seq<Byte>)
    requires 0 < n < |data| && Flushed(os, data[n..], rest)
    ensures SendMade([Offer(data, n)] + os, [], data, rest, Sent)
  {
    assert ([Offer(data, n)] + os)[1..] == os;
  }

  lemma MadeNone(data: seq<Byte>, n: int)
    requires data != [] && n < 0
    ensures SendMade([Offer(data, n)], [], data, if n == ERR_AGAIN then data else [], if n == ERR_AGAIN then Sent else SocketError(n))
  {
  }

  lemma MadeBehind(os: seq<Offer>, queued: seq<Byte>, data: seq<Byte>, rest: seq<Byte>)
    requires queued != [] && Flushed(os, queued + data, rest)
    ensures SendMade(os, queued, data, rest, Sent)
  {
  }

  lemma NothingDone(q: seq<Byte>)
    ensures Progress([], q, q)
  {
  }
}

/** The sending half of a ztk_tcp_session. The socket takes any positive part of what it is offered, or
    fails; allocation succeeds. */
module TcpOut {
  import opened OutQueue
  import opened SendTrace

  const IOV_MAX: nat := 16

  function Concat(parts: seq<seq<Byte>>): seq<Byte> {
    if parts == [] then [] else parts[0] + Concat(parts[1..])
  }

  /** What ztk_tcp_session_sendv keeps of its arguments. */
  function Kept(parts: seq<seq<Byte>>): seq<seq<Byte>> {
    if |parts| > IOV_MAX then parts[..IOV_MAX] else parts
  }

  lemma ConcatNone()
    ensures Concat([]) == []
  {
  }

  lemma {:induction false} ConcatOne(parts: seq<seq<Byte>>, part: seq<Byte>)
    ensures Concat(parts + [part]) == Concat(parts) + part
  {
    if parts == [] {
      assert [part][1..] == [];
    } else {
      assert (parts + [part])[1..] == parts[1..] + [part];
      ConcatOne(parts[1..], part);
    }
  }

  /** A call on the session, or a holder of a buffer taking or giving up a reference. */
  datatype Op =
    | SendOf(data: seq<Byte>)
    | SendVOf(parts: seq<seq<Byte>>)
    | SendBufOf(buf: Buf)
    | FlushOf
    | DiscardOf
    | HoldOf(buf: Buf)
    | DropOf(buf: Buf)

  /** How many references are held outside after a step of a script. */
  function HeldAfter(op: Op, held: map<Buf, nat>): map<Buf, nat> {
    match op
    case HoldOf(b) => if b in held then held[b := held[b] + 1] else held
    case DropOf(b) => if b in held && held[b] > 0 then held[b := held[b] - 1] else held
    case _ => held
  }

  /** Who names a buffer holds a reference to it. */
  predicate May(op: Op, held: map<Buf, nat>) {
    op.SendBufOf? || op.HoldOf? || op.DropOf? ==> op.buf in held && held[op.buf] > 0
  }

  predicate Legal(ops: seq<Op>, held: map<Buf, nat>)
    decreases |ops|
  {
    ops != [] ==> May(ops[0], held) && Legal(ops[1..], HeldAfter(ops[0], held))
  }

  function HeldAtEnd(ops: seq<Op>, held: map<Buf, nat>): map<Buf, nat>
    decreases |ops|
  {
    if ops == [] then held else HeldAtEnd(ops[1..], HeldAfter(ops[0], held))
  }

  lemma ScriptStep(ops: seq<Op>, i: nat, held: map<Buf, nat>)
    requires i < |ops| && Legal(ops[i..], held)
    ensures May(ops[i], held) && Legal(ops[i + 1..], HeldAfter(ops[i], held))
    ensures HeldAtEnd(ops[i..], held) == HeldAtEnd(ops[i + 1..], HeldAfter(ops[i], held))
  {
    assert ops[i..][0] == ops[i] && ops[i..][1..] == ops[i + 1..];
  }

  lemma ScriptEnds()
    ensures forall h :: HeldAtEnd([], h) == h
    ensures Accepted([], []) == []
  {
  }

  /** What a call adds to the stream: everything, once it has answered ZTK_OK, or nothing. */
  function Payload(op: Op, status: Status): seq<Byte> {
    if !status.Sent? then []
    else
      match op
      case SendOf(data) => data
      case SendVOf(parts) => Concat(Kept(parts))
      case SendBufOf(buf) => buf.data
      case _ => []
  }

  function Accepted(ops: seq<Op>, statuses: seq<Status>): seq<Byte>
    requires |ops| == |statuses|
  {
    if ops == [] then [] else Payload(ops[0], statuses[0]) + Accepted(ops[1..], statuses[1..])
  }

  lemma {:induction false} AcceptedOne(ops: seq<Op>, statuses: seq<Status>, op: Op, status: Status)
    requires |ops| == |statuses|
    ensures Accepted(ops + [op], statuses + [status]) == Accepted(ops, statuses) + Payload(op, status)
  {
    if ops == [] {
      assert [op][1..] == [] && [status][1..] == [];
    } else {
      assert (ops + [op])[1..] == ops[1..] + [op] && (statuses + [status])[1..] == statuses[1..] + [status];
      AcceptedOne(ops[1..], statuses[1..], op, status);
    }
  }

  class Session {
    /** out_head and out_tail, and what is queued there. */
    const chunks: ChunkList
    ghost var out: seq<Chunk>
    /** out_pending. */
    var pending: int
    var closing: bool
    /** The bytes the socket has taken. */
    ghost var wire: seq<Byte>
    /** What the socket was offered, and answered. */
    ghost var offers: seq<Offer>
    /** Every buffer the session has ever met. */
    ghost var known: set<Buf>

    /** Each reference is held outside or by one queued chunk, and the memory is given back at zero. */
    ghost predicate Balanced(b: Buf)
      reads this, b
    {
      b.refcnt == b.elsewhere + Uses(out, b) && b.released == if b.refcnt == 0 then 1 else 0
    }

    ghost predicate Valid()
      reads this, chunks, chunks.repr, known
    {
      && chunks.Valid() && chunks.Chunks() == out
      && ChunksOk(out) && pending == |Flat(out)|
      && (forall i :: 0 <= i < |out| ==> out[i].buf in known)
      && (forall b :: b in known ==> Balanced(b))
    }

    /** All bytes accepted so far, if nothing was discarded. */
    ghost function Stream(): seq<Byte>
      requires Valid()
      reads this, chunks, chunks.repr, known
    {
      wire + Flat(out)
    }

    constructor ()
      ensures Valid() && out == [] && Stream() == [] && known == {} && !closing && fresh(chunks) && chunks.repr == {}
    {
      chunks := new ChunkList();
      out, pending, closing, wire, offers, known := [], 0, false, [], [], {};
    }

    /** ztk_socket_send or ztk_socket_sendv. */
    method Transmit(data: seq<Byte>) returns (n: int)
      requires Valid() && data != []
      modifies this`wire, this`offers
      ensures Valid() && n != 0 && n <= |data| && offers == old(offers) + [Offer(data, n)]
      ensures wire == if n > 0 then old(wire) + data[..n] else old(wire)
    {
      hide ChunkList.Valid, ChunkList.Chunks;
      n := *;
      if n > |data| {
        n := |data|;
      }
      if n == 0 {
        n := ERR_AGAIN;
      }
      offers := offers + [Offer(data, n)];
      if n > 0 {
        wire := wire + data[..n];
      }
      chunks.Kept();
    }

    /** session_out_pop_chunk. */
    method PopChunk()
      requires Valid() && out != []
      modifies chunks, chunks.repr, this`out, this`pending, known`refcnt, known`released
      ensures chunks.repr == old(chunks.repr)
      ensures Valid() && out == old(out)[1..]
    {
      hide ChunkList.Valid, ChunkList.Chunks;
      HeadPopped(out);
      ghost var q := out;
      var chunk := chunks.Pop();
      out := out[1..];
      // The saturating branch is dead.
      assert pending >= chunk.len;
      pending := if pending >= chunk.len then pending - chunk.len else 0;
      chunk.buf.Unref();
      forall b | b in known ensures Balanced(b) {
        assert q == [chunk] + out;
        UsesSplit([chunk], out, b);
        UsesOne(chunk, b);
      }
    }

    /** ztk_buf_ref and session_out_enqueue of the rest of a live buffer. */
    method Enqueue(buf: Buf, off: nat)
      requires Valid() && buf in known && buf.refcnt > 0 && off < |buf.data|
      modifies chunks, chunks.repr, this`out, this`pending, buf`refcnt
      ensures fresh(chunks.repr - old(chunks.repr))
      ensures Valid() && out == old(out) + [Chunk(buf, off, |buf.data| - off)]
      ensures Flat(out) == old(Flat(out)) + buf.data[off..] && buf.refcnt == old(buf.refcnt) + 1
    {
      hide ChunkList.Valid, ChunkList.Chunks;
      var chunk := Chunk(buf, off, |buf.data| - off);
      FlatOne(chunk);
      FlatSplit(out, [chunk]);
      ghost var q := out;
      buf.Ref();
      chunks.Append(chunk);
      out := out + [chunk];
      pending := pending + chunk.len;
      forall b | b in known ensures Balanced(b) {
        UsesSplit(q, [chunk], b);
        UsesOne(chunk, b);
      }
    }

    /** session_out_append_mem: the copy ends up with the queue as its only holder. */
    method AppendMem(data: seq<Byte>)
      requires Valid()
      modifies chunks, chunks.repr, this`out, this`pending, this`known
      ensures fresh(chunks.repr - old(chunks.repr))
      ensures Valid() && wire == old(wire) && Flat(out) == old(Flat(out)) + data
      ensures old(known) <= known && fresh(known - old(known))
      ensures data == [] ==> out == old(out)
      ensures data != [] ==> out != [] && out[..|out| - 1] == old(out) && Copied(out[|out| - 1].buf, data)
      ensures data != [] ==> fresh(out[|out| - 1].buf)
    {
      hide ChunkList.Valid, ChunkList.Chunks;
      if data == [] {
        return;
      }
      var buf := new Buf(data);
      NotUsed(buf);
      known := known + {buf};
      AppendOwned(buf);
    }

    /** session_out_append_buf and ztk_buf_unref of the one reference that the caller holds. */
    method AppendOwned(buf: Buf)
      requires Valid() && buf in known && buf.refcnt == 1 && buf.elsewhere == 1 && buf.data != []
      modifies chunks, chunks.repr, this`out, this`pending, buf`refcnt, buf`elsewhere, buf`released
      ensures fresh(chunks.repr - old(chunks.repr))
      ensures Valid() && out == old(out) + [Chunk(buf, 0, |buf.data|)] && Flat(out) == old(Flat(out)) + buf.data
      ensures Copied(buf, buf.data)
    {
      hide ChunkList.Valid, ChunkList.Chunks, Flat, ChunkOk, ChunksOk;
      assert Balanced(buf);
      Enqueue(buf, 0);
      assert Balanced(buf);
      buf.elsewhere := 0;
      buf.Unref();
      assert Balanced(buf);
    }

    /** The queue is the only holder of this copy, through one chunk. */
    ghost predicate Copied(buf: Buf, data: seq<Byte>)
      reads this, buf
    {
      buf.data == data && buf.refcnt == 1 && buf.elsewhere == 0 && buf.released == 0 && Uses(out, buf) == 1
    }

    lemma NotUsed(buf: Buf)
      requires Valid() && buf !in known
      ensures Uses(out, buf) == 0
    {
      hide ChunkList.Valid, ChunkList.Chunks;
      Absent(out, buf);
    }

    /** The head gives up its first `n` bytes. */
    method ShrinkHead(n: nat)
      requires Valid() && out != [] && n < out[0].len
      modifies chunks, chunks.repr, this`out, this`pending
      ensures Valid() && chunks.repr == old(chunks.repr) && Flat(out) == old(Flat(out))[n..]
    {
      hide ChunkList.Valid, ChunkList.Chunks, Flat, Uses;
      HeadShrunk(out, n);
      chunks.Shrink(n);
      out := out[0 := Shrunk(out[0], n)];
      pending := if pending >= n then pending - n else 0;
    }

    /** One round of session_out_advance_sent. */
    method AdvanceHead(skip: nat) returns (rest: nat)
      requires Valid() && out != [] && 0 < skip <= |Flat(out)|
      modifies chunks, chunks.repr, this`out, this`pending, known`refcnt, known`released
      ensures Valid() && chunks.repr == old(chunks.repr)
      ensures rest < skip && rest <= |Flat(out)| && Flat(out)[rest..] == old(Flat(out))[skip..]
    {
      hide ChunkList.Valid, ChunkList.Chunks, Flat, Uses, Balanced;
      chunks.HeadIs();
      HeadPopped(out);
      var len := chunks.head.len;
      if skip >= len {
        PopChunk();
        rest := skip - len;
      } else {
        ShrinkHead(skip);
        rest := 0;
        assert Flat(out)[0..] == Flat(out);
      }
    }

    /** session_out_advance_sent. */
    method AdvanceSent(sent: nat)
      requires Valid() && sent <= |Flat(out)|
      modifies chunks, chunks.repr, this`out, this`pending, known`refcnt, known`released
      ensures Valid() && chunks.repr == old(chunks.repr) && Flat(out) == old(Flat(out))[sent..]
    {
      hide ChunkList.Valid, ChunkList.Chunks, Uses, Balanced, ChunkOk;
      var skip: nat := sent;
      chunks.HeadIs();
      while skip > 0 && chunks.head != null
        invariant Valid() && chunks.repr == old(chunks.repr) && (chunks.head == null <==> out == [])
        invariant skip <= |Flat(out)| && Flat(out)[skip..] == old(Flat(out))[sent..]
        decreases skip
      {
        skip := AdvanceHead(skip);
        chunks.HeadIs();
      }
      assert Flat(out)[0..] == Flat(out);
    }

    /** The iovec of session_out_try_sendv: the first sixteen chunks. */
    method Gather() returns (data: seq<Byte>, count: nat)
      requires Valid() && out != []
      ensures 0 < count <= |out| && count <= IOV_MAX && (count < |out| ==> count == IOV_MAX)
      ensures data != [] && data <= Flat(out) && data == FirstBytes(out, count)
    {
      hide ChunkList.Valid, ChunkList.Chunks, ChunkList.NodeAt, Flat, Bytes, Balanced, ChunkOk;
      data, count := [], 0;
      chunks.HeadIs();
      chunks.NodeIs(0);
      FlatFirst(out, 0);
      var c := chunks.head;
      while c != null && count < IOV_MAX
        invariant 0 <= count <= |out| && count <= IOV_MAX && c == chunks.NodeAt(count)
        invariant c == null <==> count == |out|
        invariant FirstBytes(out, count) == data && (count > 0 ==> data != [])
      {
        chunks.NodeIs(count);
        chunks.NodeIs(count + 1);
        FlatFirst(out, count);
        data := data + c.buf.data[c.off..];
        c, count := c.next, count + 1;
      }
      FlatFirst(out, count);
    }

    /** One round of session_out_flush. */
    method OfferSome() returns (n: int, ghost o: Offer)
      requires Valid() && out != []
      modifies chunks, chunks.repr, this`out, this`pending, this`wire, this`offers, known`refcnt, known`released
      ensures Valid() && chunks.repr == old(chunks.repr)
      ensures OfferOk(o) && o.n == n && o.data <= old(Flat(out)) && offers == old(offers) + [o]
      ensures Flat(out) == if n > 0 then old(Flat(out))[n..] else old(Flat(out))
      ensures Stream() == old(Stream()) && old(wire) <= wire
    {
      hide ChunkList.Valid, ChunkList.Chunks, Flat, Balanced, Uses, ChunkOk, FirstBytes;
      var data, count := Gather();
      ghost var whole, sent := Flat(out), wire;
      n := Transmit(data);
      o := Offer(data, n);
      if n > 0 {
        assert whole == data[..n] + whole[n..];
        assert sent + whole == (sent + data[..n]) + whole[n..];
        AdvanceSent(n);
      }
    }

    /** session_out_flush. */
    method Flush() returns (ghost os: seq<Offer>)
      requires Valid()
      modifies chunks, chunks.repr, this`out, this`pending, this`wire, this`offers, known`refcnt, known`released
      ensures chunks.repr == old(chunks.repr)
      ensures Valid() && Stream() == old(Stream()) && old(wire) <= wire
      ensures offers == old(offers) + os && Flushed(os, old(Flat(out)), Flat(out))
    {
      hide ChunkList.Valid, ChunkList.Chunks, Flat, Balanced, Uses, ChunkOk, Progress, Flushed, Session.Stream;
      chunks.HeadIs();
      ghost var queued := Flat(out);
      os := [];
      NothingDone(queued);
      FlatNone();
      while chunks.head != null
        invariant chunks.repr == old(chunks.repr) && (chunks.head == null <==> out == [])
        invariant Valid() && Stream() == old(Stream()) && old(wire) <= wire
        invariant offers == old(offers) + os && Progress(os, queued, Flat(out))
        decreases |Flat(out)|
      {
        ghost var whole := Flat(out);
        var n, o := OfferSome();
        if n <= 0 {
          FlushRefused(os, queued, whole, o);
          return os + [o];
        }
        ProgressOne(os, queued, whole, o);
        os := os + [o];
        chunks.HeadIs();
      }
      FlushDone(os, queued);
    }

    method AppendAndFlush(data: seq<Byte>) returns (ghost os: seq<Offer>)
      requires Valid()
      modifies chunks, chunks.repr, this`out, this`pending, this`wire, this`offers, this`known, known`refcnt, known`released
      ensures fresh(chunks.repr - old(chunks.repr))
      ensures Valid() && Stream() == old(Stream()) + data && old(wire) <= wire
      ensures offers == old(offers) + os && Flushed(os, old(Flat(out)) + data, Flat(out))
      ensures old(known) <= known && fresh(known - old(known))
    {
      hide ChunkList.Valid, ChunkList.Chunks, Balanced, Uses, ChunkOk, Flat, Copied;
      ghost var before := Flat(out);
      AppendMem(data);
      assert wire + (before + data) == (wire + before) + data;
      os := Flush();
    }

    /** A direct send on an empty queue. */
    method OfferAll(data: seq<Byte>) returns (n: int)
      requires Valid() && out == [] && data != []
      modifies this`wire, this`offers
      ensures Valid() && Flat(out) == [] && OfferOk(Offer(data, n)) && offers == old(offers) + [Offer(data, n)]
      ensures Stream() == (if n > 0 then old(Stream()) + data[..n] else old(Stream())) && old(wire) <= wire
    {
      hide ChunkList.Valid, ChunkList.Chunks, Balanced, Uses, ChunkOk, Flat;
      FlatNone();
      n := Transmit(data);
    }

    method RestFlushed(data: seq<Byte>, n: nat) returns (ghost os: seq<Offer>)
      requires Valid() && out == [] && n < |data|
      modifies chunks, chunks.repr, this`out, this`pending, this`wire, this`offers, this`known, known`refcnt, known`released
      ensures fresh(chunks.repr - old(chunks.repr)) && old(known) <= known && fresh(known - old(known))
      ensures Valid() && Stream() == old(Stream()) + data[n..] && old(wire) <= wire
      ensures offers == old(offers) + os && Flushed(os, data[n..], Flat(out))
    {
      hide ChunkList.Valid, ChunkList.Chunks, Balanced, Uses, ChunkOk, Flat, Flushed, Session.Stream;
      FlatNone();
      assert [] + data[n..] == data[n..];
      os := AppendAndFlush(data[n..]);
    }

    method AllQueued(data: seq<Byte>)
      requires Valid() && out == []
      modifies chunks, chunks.repr, this`out, this`pending, this`known
      ensures fresh(chunks.repr - old(chunks.repr)) && old(known) <= known && fresh(known - old(known))
      ensures Valid() && Stream() == old(Stream()) + data && Flat(out) == data && wire == old(wire)
    {
      hide ChunkList.Valid, ChunkList.Chunks, Balanced, Uses, ChunkOk, Flat, Copied;
      FlatNone();
      AppendMem(data);
      assert [] + data == data && wire + [] == wire;
    }

    /** ztk_tcp_session_send. */
    method Send(data: seq<Byte>) returns (status: Status, ghost os: seq<Offer>)
      requires Valid()
      modifies this, chunks, chunks.repr, known`refcnt, known`released
      ensures fresh(chunks.repr - old(chunks.repr))
      ensures Valid() && old(known) <= known && fresh(known - old(known)) && closing == old(closing) && old(wire) <= wire
      ensures Stream() == if status.Sent? then old(Stream()) + data else old(Stream())
      ensures status.Invalid? <==> closing || data == []
      ensures status.Invalid? ==> os == [] && out == old(out)
      ensures offers == old(offers) + os && (!status.Invalid? ==> SendMade(os, old(Flat(out)), data, Flat(out), status))
    {
      hide ChunkList.Valid, ChunkList.Chunks, Balanced, Uses, ChunkOk, Flat, SendMade, Flushed, Progress,
        Session.Stream;
      if closing || data == [] {
        return Invalid, [];
      }
      ghost var queued := Flat(out);
      FlatEmpty(out);
      chunks.HeadIs();
      if chunks.head != null {
        os := AppendAndFlush(data);
        MadeBehind(os, queued, data, Flat(out));
        return Sent, os;
      }
      var n := OfferAll(data);
      if n == |data| {
        MadeWhole(data);
        assert data[..n] == data;
        return Sent, [Offer(data, n)];
      }
      if n > 0 {
        os := RestFlushed(data, n);
        MadePart(os, data, n, Flat(out));
        Halves(old(Stream()), data, n);
        Joined(old(offers), Offer(data, n), os);
        return Sent, [Offer(data, n)] + os;
      }
      MadeNone(data, n);
      if n == ERR_AGAIN {
        AllQueued(data);
        return Sent, [Offer(data, n)];
      }
      status, os := SocketError(n), [Offer(data, n)];
    }

    /** The loops that append parts[from..]. */
    method AppendParts(parts: seq<seq<Byte>>, from: nat)
      requires Valid() && from <= |parts|
      modifies chunks, chunks.repr, this`out, this`pending, this`known
      ensures fresh(chunks.repr - old(chunks.repr))
      ensures Valid() && Flat(out) == old(Flat(out)) + Concat(parts[from..])
      ensures old(known) <= known && fresh(known - old(known))
    {
      hide ChunkList.Valid, ChunkList.Chunks, Balanced, Uses, ChunkOk, Flat, Concat;
      var i := from;
      ghost var before := Flat(out);
      assert parts[from..from] == [];
      ConcatNone();
      while i < |parts|
        invariant from <= i <= |parts| && Valid()
        invariant Flat(out) == before + Concat(parts[from..i])
        invariant old(known) <= known && fresh(known - old(known)) && fresh(chunks.repr - old(chunks.repr))
      {
        AppendMem(parts[i]);
        assert parts[from..i + 1] == parts[from..i] + [parts[i]];
        ConcatOne(parts[from..i], parts[i]);
        assert before + (Concat(parts[from..i]) + parts[i]) == (before + Concat(parts[from..i])) + parts[i];
        i := i + 1;
      }
      assert parts[from..i] == parts[from..];
    }

    /** After a partial gather write: the rest of the part where it stopped, and the parts behind it. */
    method AppendUnsent(parts: seq<seq<Byte>>, sent: nat)
      requires Valid() && sent < |Concat(parts)|
      modifies chunks, chunks.repr, this`out, this`pending, this`known
      ensures fresh(chunks.repr - old(chunks.repr))
      ensures Valid() && Flat(out) == old(Flat(out)) + Concat(parts)[sent..]
      ensures old(known) <= known && fresh(known - old(known))
    {
      hide ChunkList.Valid, ChunkList.Chunks, Balanced, Uses, ChunkOk;
      var skip, i := sent, 0;
      assert parts[0..] == parts;
      while skip >= |parts[i]|
        invariant 0 <= i < |parts| && 0 <= skip < |Concat(parts[i..])|
        invariant Concat(parts[i..])[skip..] == Concat(parts)[sent..]
        decreases |parts| - i
      {
        assert parts[i..][1..] == parts[i + 1..];
        skip := skip - |parts[i]|;
        i := i + 1;
      }
      assert parts[i..][1..] == parts[i + 1..];
      assert Concat(parts[i..])[skip..] == parts[i][skip..] + Concat(parts[i + 1..]);
      ghost var before := Flat(out);
      AppendMem(parts[i][skip..]);
      AppendParts(parts, i + 1);
      assert before + (parts[i][skip..] + Concat(parts[i + 1..])) == (before + parts[i][skip..]) + Concat(parts[i + 1..]);
    }

    /** ztk_tcp_session_sendv: only the first sixteen parts are looked at. */
    method SendV(parts: seq<seq<Byte>>) returns (status: Status, ghost os: seq<Offer>)
      requires Valid()
      modifies this, chunks, chunks.repr, known`refcnt, known`released
      ensures fresh(chunks.repr - old(chunks.repr))
      ensures Valid() && old(known) <= known && fresh(known - old(known)) && closing == old(closing) && old(wire) <= wire
      ensures Stream() == if status.Sent? then old(Stream()) + Concat(Kept(parts)) else old(Stream())
      ensures status.Invalid? <==> closing || parts == [] || [] in Kept(parts)
      ensures status.Invalid? ==> os == [] && out == old(out)
      ensures offers == old(offers) + os && (!status.Invalid? ==> SendMade(os, old(Flat(out)), Concat(Kept(parts)), Flat(out), status))
    {
      hide ChunkList.Valid, ChunkList.Chunks;
      if closing || parts == [] {
        return Invalid, [];
      }
      var kept := if |parts| > IOV_MAX then parts[..IOV_MAX] else parts;
      var data, i := [], 0;
      while i < |kept|
        invariant 0 <= i <= |kept| && data == Concat(kept[..i]) && [] !in kept[..i]
        invariant i > 0 ==> data != []
        modifies {}
      {
        if kept[i] == [] {
          return Invalid, [];
        }
        assert kept[..i + 1] == kept[..i] + [kept[i]];
        ConcatOne(kept[..i], kept[i]);
        data := data + kept[i];
        i := i + 1;
      }
      assert kept[..i] == kept && kept[0..] == kept;
      status, os := SendKept(kept, data);
    }

    method AppendPartsAndFlush(parts: seq<seq<Byte>>) returns (ghost os: seq<Offer>)
      requires Valid()
      modifies chunks, chunks.repr, this`out, this`pending, this`wire, this`offers, this`known, known`refcnt, known`released
      ensures fresh(chunks.repr - old(chunks.repr))
      ensures Valid() && Stream() == old(Stream()) + Concat(parts) && old(wire) <= wire
      ensures offers == old(offers) + os && Flushed(os, old(Flat(out)) + Concat(parts), Flat(out))
      ensures old(known) <= known && fresh(known - old(known))
    {
      hide ChunkList.Valid, ChunkList.Chunks, Balanced, Uses, ChunkOk, Flat, Concat;
      ghost var before := Flat(out);
      assert parts[0..] == parts;
      AppendParts(parts, 0);
      assert wire + (before + Concat(parts)) == (wire + before) + Concat(parts);
      os := Flush();
    }

    method AppendUnsentAndFlush(parts: seq<seq<Byte>>, sent: nat) returns (ghost os: seq<Offer>)
      requires Valid() && sent < |Concat(parts)|
      modifies chunks, chunks.repr, this`out, this`pending, this`wire, this`offers, this`known, known`refcnt, known`released
      ensures fresh(chunks.repr - old(chunks.repr))
      ensures Valid() && Stream() == old(Stream()) + Concat(parts)[sent..] && old(wire) <= wire
      ensures offers == old(offers) + os && Flushed(os, old(Flat(out)) + Concat(parts)[sent..], Flat(out))
      ensures old(known) <= known && fresh(known - old(known))
    {
      hide ChunkList.Valid, ChunkList.Chunks, Balanced, Uses, ChunkOk, Flat, Concat;
      ghost var before := Flat(out);
      AppendUnsent(parts, sent);
      assert wire + (before + Concat(parts)[sent..]) == (wire + before) + Concat(parts)[sent..];
      os := Flush();
    }

    method PartsFlushed(kept: seq<seq<Byte>>, data: seq<Byte>, n: nat) returns (ghost os: seq<Offer>)
      requires Valid() && out == [] && data == Concat(kept) && n < |data|
      modifies chunks, chunks.repr, this`out, this`pending, this`wire, this`offers, this`known, known`refcnt, known`released
      ensures fresh(chunks.repr - old(chunks.repr)) && old(known) <= known && fresh(known - old(known))
      ensures Valid() && Stream() == old(Stream()) + data[n..] && old(wire) <= wire
      ensures offers == old(offers) + os && Flushed(os, data[n..], Flat(out))
    {
      hide ChunkList.Valid, ChunkList.Chunks, Balanced, Uses, ChunkOk, Flat, Flushed, Concat, Session.Stream;
      FlatNone();
      assert [] + data[n..] == data[n..];
      os := AppendUnsentAndFlush(kept, n);
    }

    method PartsQueued(kept: seq<seq<Byte>>, data: seq<Byte>)
      requires Valid() && out == [] && data == Concat(kept)
      modifies chunks, chunks.repr, this`out, this`pending, this`known
      ensures fresh(chunks.repr - old(chunks.repr)) && old(known) <= known && fresh(known - old(known))
      ensures Valid() && Stream() == old(Stream()) + data && Flat(out) == data && wire == old(wire)
    {
      hide ChunkList.Valid, ChunkList.Chunks, Balanced, Uses, ChunkOk, Flat, Concat;
      FlatNone();
      assert kept[0..] == kept;
      AppendParts(kept, 0);
      assert [] + data == data && wire + [] == wire;
    }

    method SendKept(kept: seq<seq<Byte>>, data: seq<Byte>) returns (status: Status, ghost os: seq<Offer>)
      requires Valid() && data == Concat(kept) && data != []
      modifies this, chunks, chunks.repr, known`refcnt, known`released
      ensures fresh(chunks.repr - old(chunks.repr))
      ensures Valid() && old(known) <= known && fresh(known - old(known)) && closing == old(closing) && old(wire) <= wire
      ensures Stream() == if status.Sent? then old(Stream()) + data else old(Stream())
      ensures offers == old(offers) + os && !status.Invalid?
      ensures SendMade(os, old(Flat(out)), data, Flat(out), status)
    {
      hide ChunkList.Valid, ChunkList.Chunks, Balanced, Uses, ChunkOk, Flat, SendMade, Flushed, Progress, Concat,
        Session.Stream;
      ghost var queued := Flat(out);
      FlatEmpty(out);
      chunks.HeadIs();
      if chunks.head != null {
        os := AppendPartsAndFlush(kept);
        MadeBehind(os, queued, data, Flat(out));
        return Sent, os;
      }
      var n := OfferAll(data);
      if n == |data| {
        MadeWhole(data);
        assert data[..n] == data;
        return Sent, [Offer(data, n)];
      }
      if n > 0 {
        os := PartsFlushed(kept, data, n);
        MadePart(os, data, n, Flat(out));
        Halves(old(Stream()), data, n);
        Joined(old(offers), Offer(data, n), os);
        return Sent, [Offer(data, n)] + os;
      }
      MadeNone(data, n);
      if n == ERR_AGAIN {
        PartsQueued(kept, data);
        return Sent, [Offer(data, n)];
      }
      status, os := SocketError(n), [Offer(data, n)];
    }

    method EnqueueAndFlush(buf: Buf, off: nat) returns (ghost os: seq<Offer>)
      requires Valid() && buf in known && buf.refcnt > 0 && off < |buf.data|
      modifies chunks, chunks.repr, this`out, this`pending, this`wire, this`offers, known`refcnt, known`released
      ensures fresh(chunks.repr - old(chunks.repr))
      ensures Valid() && Stream() == old(Stream()) + buf.data[off..] && old(wire) <= wire
      ensures offers == old(offers) + os && Flushed(os, old(Flat(out)) + buf.data[off..], Flat(out))
    {
      hide ChunkList.Valid, ChunkList.Chunks, Balanced, Uses, ChunkOk, Flat;
      ghost var before := Flat(out);
      Enqueue(buf, off);
      assert wire + (before + buf.data[off..]) == (wire + before) + buf.data[off..];
      os := Flush();
    }

    method BufFlushed(buf: Buf, n: nat) returns (ghost os: seq<Offer>)
      requires Valid() && out == [] && buf in known && buf.refcnt > 0 && n < |buf.data|
      modifies chunks, chunks.repr, this`out, this`pending, this`wire, this`offers, known`refcnt, known`released
      ensures fresh(chunks.repr - old(chunks.repr))
      ensures Valid() && Stream() == old(Stream()) + buf.data[n..] && old(wire) <= wire
      ensures offers == old(offers) + os && Flushed(os, buf.data[n..], Flat(out))
    {
      hide ChunkList.Valid, ChunkList.Chunks, Balanced, Uses, ChunkOk, Flat, Flushed, Session.Stream;
      FlatNone();
      assert [] + buf.data[n..] == buf.data[n..];
      os := EnqueueAndFlush(buf, n);
    }

    method BufBehind(buf: Buf) returns (ghost os: seq<Offer>)
      requires Valid() && buf in known && buf.refcnt > 0 && buf.data != []
      modifies chunks, chunks.repr, this`out, this`pending, this`wire, this`offers, known`refcnt, known`released
      ensures fresh(chunks.repr - old(chunks.repr))
      ensures Valid() && Stream() == old(Stream()) + buf.data && old(wire) <= wire
      ensures offers == old(offers) + os && Flushed(os, old(Flat(out)) + buf.data, Flat(out))
    {
      hide ChunkList.Valid, ChunkList.Chunks, Balanced, Uses, ChunkOk, Flat, Flushed, Session.Stream;
      assert buf.data[0..] == buf.data;
      os := EnqueueAndFlush(buf, 0);
    }

    method BufQueued(buf: Buf)
      requires Valid() && out == [] && buf in known && buf.refcnt > 0 && buf.data != []
      modifies chunks, chunks.repr, this`out, this`pending, buf`refcnt
      ensures fresh(chunks.repr - old(chunks.repr))
      ensures Valid() && Stream() == old(Stream()) + buf.data && Flat(out) == buf.data
    {
      hide ChunkList.Valid, ChunkList.Chunks, Balanced, Uses, ChunkOk, Flat;
      FlatNone();
      Enqueue(buf, 0);
      assert [] + buf.data[0..] == buf.data && wire + [] == wire;
    }

    /** ztk_tcp_session_send_buf: the caller keeps its own reference. */
    method SendBuf(buf: Buf) returns (status: Status, ghost os: seq<Offer>)
      requires Valid() && buf.elsewhere > 0 && (buf in known || (buf.refcnt == buf.elsewhere && buf.released == 0))
      modifies this, chunks, chunks.repr, known`refcnt, known`released, buf`refcnt, buf`released
      ensures fresh(chunks.repr - old(chunks.repr))
      ensures Valid() && known == old(known) + {buf} && closing == old(closing) && old(wire) <= wire
      ensures Stream() == if status.Sent? then old(Stream()) + buf.data else old(Stream())
      ensures status.Invalid? <==> closing
      ensures status.Invalid? || buf.data == [] ==> os == [] && out == old(out)
      ensures offers == old(offers) + os && (!closing && buf.data != [] ==>
        SendMade(os, old(Flat(out)), buf.data, Flat(out), status))
    {
      hide ChunkList.Valid, ChunkList.Chunks, Balanced, Uses, ChunkOk, Flat, SendMade, Flushed, Progress,
        Session.Stream;
      Meet(buf);
      if closing {
        return Invalid, [];
      }
      if buf.data == [] {
        return Sent, [];
      }
      ghost var queued := Flat(out);
      FlatEmpty(out);
      chunks.HeadIs();
      if chunks.head != null {
        os := BufBehind(buf);
        MadeBehind(os, queued, buf.data, Flat(out));
        return Sent, os;
      }
      var n := OfferAll(buf.data);
      if n == |buf.data| {
        MadeWhole(buf.data);
        assert buf.data[..n] == buf.data;
        return Sent, [Offer(buf.data, n)];
      }
      if n > 0 {
        os := BufFlushed(buf, n);
        MadePart(os, buf.data, n, Flat(out));
        Halves(old(Stream()), buf.data, n);
        Joined(old(offers), Offer(buf.data, n), os);
        return Sent, [Offer(buf.data, n)] + os;
      }
      MadeNone(buf.data, n);
      if n == ERR_AGAIN {
        BufQueued(buf);
        return Sent, [Offer(buf.data, n)];
      }
      status, os := SocketError(n), [Offer(buf.data, n)];
    }

    ghost method Meet(buf: Buf)
      requires Valid() && buf.elsewhere > 0 && (buf in known || (buf.refcnt == buf.elsewhere && buf.released == 0))
      modifies this`known
      ensures Valid() && known == old(known) + {buf} && buf.refcnt > 0 && Stream() == old(Stream())
    {
      hide ChunkList.Valid, ChunkList.Chunks;
      assert buf in known ==> Balanced(buf);
      if buf !in known {
        NotUsed(buf);
        known := known + {buf};
      }
      chunks.Kept();
    }

    /** ztk_tcp_session_out_discard. */
    method Discard()
      requires Valid()
      modifies chunks, chunks.repr, this`out, this`pending, known`refcnt, known`released
      ensures chunks.repr == old(chunks.repr)
      ensures Valid() && out == [] && pending == 0 && wire == old(wire)
      ensures forall b :: b in known ==> b.refcnt == b.elsewhere
    {
      hide ChunkList.Valid, ChunkList.Chunks;
      chunks.HeadIs();
      while chunks.head != null
        invariant chunks.repr == old(chunks.repr)
        invariant Valid() && (chunks.head == null <==> out == [])
        decreases |out|
      {
        PopChunk();
        chunks.HeadIs();
      }
    }

    /** Somebody outside gives up a reference. */
    method HolderUnref(buf: Buf)
      requires Valid() && buf in known && buf.elsewhere > 0
      modifies buf`refcnt, buf`released, buf`elsewhere
      ensures Valid() && buf.elsewhere == old(buf.elsewhere) - 1
    {
      hide ChunkList.Valid, ChunkList.Chunks;
      assert Balanced(buf);
      buf.elsewhere := buf.elsewhere - 1;
      buf.Unref();
      chunks.Kept();
    }

    /** ztk_buf_try_ref: it never succeeds once the count has been zero. */
    method HolderTryRef(buf: Buf) returns (ok: bool)
      requires Valid() && buf in known
      modifies buf`refcnt, buf`elsewhere
      ensures Valid() && (ok <==> buf.released == 0)
      ensures buf.elsewhere == if ok then old(buf.elsewhere) + 1 else 0
    {
      hide ChunkList.Valid, ChunkList.Chunks;
      assert Balanced(buf);
      ok := buf.TryRef();
      if ok {
        buf.elsewhere := buf.elsewhere + 1;
      }
      chunks.Kept();
    }

    /** A buffer is released at most once, and then neither a holder nor a queued chunk names it. */
    lemma ReleasedOnce(buf: Buf)
      requires Valid() && buf in known
      ensures buf.released <= 1
      ensures buf.released == 1 <==> buf.elsewhere == 0 && forall c :: c in out ==> c.buf != buf
    {
      hide ChunkList.Valid, ChunkList.Chunks;
      assert Balanced(buf);
      if c :| c in out && c.buf == buf {
        UsedIn(out, c);
      } else {
        Absent(out, buf);
      }
    }

    /** Somebody outside takes another reference. */
    method HolderRef(buf: Buf)
      requires Valid() && buf in known && buf.elsewhere > 0
      modifies buf`refcnt, buf`elsewhere
      ensures Valid() && buf.elsewhere == old(buf.elsewhere) + 1
    {
      hide ChunkList.Valid, ChunkList.Chunks;
      assert Balanced(buf);
      buf.Ref();
      buf.elsewhere := buf.elsewhere + 1;
      chunks.Kept();
    }

    ghost function Held(bufs: set<Buf>): map<Buf, nat>
      reads bufs
    {
      map b | b in bufs :: b.elsewhere
    }

    method Do(op: Op, ghost bufs: set<Buf>) returns (status: Status, ghost os: seq<Offer>)
      requires Valid() && bufs <= known && May(op, Held(bufs))
      modifies this, chunks, chunks.repr, known`refcnt, known`released, bufs`elsewhere
      ensures fresh(chunks.repr - old(chunks.repr))
      ensures Valid() && old(known) <= known && fresh(known - old(known)) && old(wire) <= wire
      ensures Held(bufs) == HeldAfter(op, old(Held(bufs)))
      ensures !op.DiscardOf? ==> Stream() == old(Stream()) + Payload(op, status)
      ensures op.DiscardOf? ==> wire == old(wire) && out == []
      ensures offers == old(offers) + os && (op.DiscardOf? || op.HoldOf? || op.DropOf? || status.Invalid? ==> os == [])
      ensures op.FlushOf? ==> Flushed(os, old(Flat(out)), Flat(out))
    {
      hide ChunkList.Valid, ChunkList.Chunks, Balanced, Flat, Uses, ChunkOk, Concat, Kept, SendMade, Flushed, Progress;
      status, os := Sent, [];
      match op {
        case SendOf(data) => status, os := Send(data);
        case SendVOf(parts) => status, os := SendV(parts);
        case SendBufOf(buf) => status, os := SendBuf(buf);
        case FlushOf => os := Flush();
        case DiscardOf => Discard();
        case HoldOf(buf) => HolderRef(buf);
        case DropOf(buf) => HolderUnref(buf);
      }
    }

    /** The buffers of a script are known from now on. */
    ghost method MeetAll(bufs: set<Buf>)
      requires Valid() && forall b :: b in bufs ==> b in known || (b.refcnt == b.elsewhere > 0 && b.released == 0)
      modifies this`known
      ensures Valid() && known == old(known) + bufs
    {
      hide ChunkList.Valid, ChunkList.Chunks;
      forall b | b in bufs && b !in known ensures Uses(out, b) == 0 {
        NotUsed(b);
      }
      known := known + bufs;
      assert forall b :: b in known ==> Balanced(b);
      chunks.Kept();
    }

    /** Any script in which nobody uses a buffer without holding it. References are conserved all along; and
        without a discard the socket's bytes and the queued ones are the accepted payloads in call order. */
    method Run(ops: seq<Op>, ghost bufs: set<Buf>) returns (statuses: seq<Status>)
      requires Valid() && Legal(ops, Held(bufs))
      requires forall b :: b in bufs ==> b in known || (b.refcnt == b.elsewhere > 0 && b.released == 0)
      modifies this, chunks, chunks.repr, known`refcnt, known`released, bufs`refcnt, bufs`released, bufs`elsewhere
      ensures fresh(chunks.repr - old(chunks.repr))
      ensures Valid() && bufs <= known && |statuses| == |ops| && old(wire) <= wire
      ensures Held(bufs) == HeldAtEnd(ops, old(Held(bufs)))
      ensures DiscardOf !in ops ==> Stream() == old(Stream()) + Accepted(ops, statuses)
    {
      hide ChunkList.Valid, ChunkList.Chunks, Balanced, Flat, Uses, ChunkOk, Payload, HeldAfter, May,
        Legal, HeldAtEnd, Accepted;
      ScriptEnds();
      MeetAll(bufs);
      statuses := [];
      assert ops[0..] == ops;
      for i := 0 to |ops|
        invariant Valid() && |statuses| == i && old(wire) <= wire
        invariant old(known) + bufs <= known && fresh(known - old(known) - bufs)
        invariant fresh(chunks.repr - old(chunks.repr))
        invariant Legal(ops[i..], Held(bufs)) && HeldAtEnd(ops[i..], Held(bufs)) == HeldAtEnd(ops, old(Held(bufs)))
        invariant DiscardOf !in ops ==> Stream() == old(Stream()) + Accepted(ops[..i], statuses)
      {
        ghost var said := statuses;
        ScriptStep(ops, i, Held(bufs));
        var status, os := Do(ops[i], bufs);
        statuses := statuses + [status];
        assert ops[..i + 1] == ops[..i] + [ops[i]];
        AcceptedOne(ops[..i], said, ops[i], status);
      }
      assert ops[..|ops|] == ops && ops[|ops|..] == [];
    }
  }

  lemma {:induction false} Absent(q: seq<Chunk>, b: Buf)
    requires forall i :: 0 <= i < |q| ==> q[i].buf != b
    ensures Uses(q, b) == 0
  {
    if q != [] {
      Absent(q[1..], b);
    }
  }
}
