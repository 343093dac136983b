/**
 The two queues of skynet_mq.c: the circular buffer of messages that each service owns, and the
 global list of services waiting for a worker, linked through the 'next' fields of its members. The
 methods are the regions under the spinlocks; Scheduler interleaves them.
 */
module MessageQueue {

  import opened Prelude
  import opened Rings

  const DEFAULT_QUEUE_SIZE := 64
  const MQ_OVERLOAD := 1024

  /** The threshold doubled k times. */
  ghost function Doubled(threshold: nat, k: nat): nat
    decreases k
  {
    if k == 0 then threshold else 2 * Doubled(threshold, k - 1)
  }

  /** The first of threshold, 2*threshold, 4*threshold ... that is not below the length. */
  function Threshold(threshold: nat, length: nat): (r: nat)
    requires threshold > 0
    ensures r >= length && r >= threshold
    ensures r > threshold ==> r < 2 * length
    ensures exists k :: r == Doubled(threshold, k)
    decreases if threshold < length then length - threshold else 0
  {
    if length > threshold then
      var r := Threshold(2 * threshold, length);
      assert exists k :: r == Doubled(threshold, k) by {
        var k :| r == Doubled(2 * threshold, k);
        DoubledTwice(threshold, k);
      }
      r
    else
      assert threshold == Doubled(threshold, 0);
      threshold
  }

  lemma {:induction false} DoubledTwice(threshold: nat, k: nat)
    ensures Doubled(2 * threshold, k) == Doubled(threshold, k + 1)
  {
    if k > 0 {
      DoubledTwice(threshold, k - 1);
    }
  }

  class Queue {
    const handle: nat
    var cap: nat
    var head: nat
    var tail: nat
    var release: bool
    var inGlobal: bool
    var overload: nat
    var overloadThreshold: nat
    var queue: array<Msg>
    var next: Queue?

    ghost predicate Valid()
      reads this, queue
    {
      && cap > 0 && queue.Length == cap
      && head < cap && tail < cap
      && overloadThreshold > 0
    }

    ghost function Contents(): seq<Msg>
      reads this, queue
      requires Valid()
    {
      Ring(queue[..], head, tail)
    }

    constructor (handle: nat)
      ensures Valid() && fresh(queue) && Contents() == []
      ensures this.handle == handle && inGlobal && !release && next == null && overload == 0
      ensures overloadThreshold == MQ_OVERLOAD
    {
      this.handle := handle;
      cap := DEFAULT_QUEUE_SIZE;
      head, tail := 0, 0;
      inGlobal := true;
      release := false;
      overload := 0;
      overloadThreshold := MQ_OVERLOAD;
      queue := new Msg[DEFAULT_QUEUE_SIZE](_ => Msg(0, 0, []));
      next := null;
    }

    /** skynet_mq_length. */
    method Length() returns (n: nat)
      requires Valid()
      ensures n == |Contents()|
    {
      if head <= tail {
        return tail - head;
      }
      return tail + cap - head;
    }

    /** skynet_mq_pop. */
    method Pop() returns (m: Option<Msg>)
      requires Valid()
      modifies this`head, this`overload, this`overloadThreshold, this`inGlobal
      ensures Valid()
      ensures old(Contents()) == [] ==> m == None && Contents() == [] && !inGlobal && overload == old(overload)
      ensures old(Contents()) == [] ==> overloadThreshold == MQ_OVERLOAD
      ensures old(Contents()) != [] ==> m == Some(old(Contents())[0]) && Contents() == old(Contents())[1..]
      ensures old(Contents()) != [] ==> inGlobal == old(inGlobal)
      ensures old(Contents()) != [] ==> overloadThreshold == Threshold(old(overloadThreshold), |Contents()|)
      ensures old(Contents()) != [] ==>
                overload == if overloadThreshold != old(overloadThreshold) then |Contents()| else old(overload)
    {
      hide Threshold;
      if head == tail {
        overloadThreshold := MQ_OVERLOAD;
        inGlobal := false;
        return None;
      }
      m := Some(queue[head]);
      RingPop(queue[..], head, tail);
      head := head + 1;
      if head >= cap {
        head := 0;
      }
      var length := Length();
      Watch(length);
    }

    /** The overload warning of skynet_mq_pop. */
    method Watch(length: nat)
      requires overloadThreshold > 0
      modifies this`overload, this`overloadThreshold
      ensures overloadThreshold == Threshold(old(overloadThreshold), length)
      ensures overload == if overloadThreshold != old(overloadThreshold) then length else old(overload)
    {
      while length > overloadThreshold
        invariant overloadThreshold >= old(overloadThreshold) > 0
        invariant Threshold(overloadThreshold, length) == Threshold(old(overloadThreshold), length)
        invariant overload == if overloadThreshold != old(overloadThreshold) then length else old(overload)
        decreases if overloadThreshold < length then length - overloadThreshold else 0
      {
        overload := length;
        overloadThreshold := overloadThreshold * 2;
      }
    }

    /** skynet_mq_overload: a warning is given once. */
    method Overload() returns (length: nat)
      modifies this`overload
      ensures length == old(overload) && overload == 0
    {
      length := 0;
      if overload != 0 {
        length := overload;
        overload := 0;
      }
    }

    /** _drop_queue. */
    method Drop() returns (dropped: seq<Msg>)
      requires Valid()
      modifies this`head, this`overload, this`overloadThreshold, this`inGlobal
      ensures Valid() && dropped == old(Contents()) && Contents() == []
    {
      hide Ring, Threshold;
      dropped := [];
      var m := Pop();
      while m.Some?
        invariant Valid()
        invariant old(Contents()) == dropped + (if m.Some? then [m.value] else []) + Contents()
        invariant m == None ==> Contents() == []
        decreases |Contents()|, m.Some?
      {
        ghost var rest := Contents();
        dropped := dropped + [m.value];
        m := Pop();
        assert rest == (if m.Some? then [m.value] else []) + Contents();
      }
    }

    /** expand_queue: called when the ring is full, with head == tail. */
    method Expand()
      requires Valid() && head == tail
      modifies this`head, this`tail, this`cap, this`queue
      ensures Valid() && fresh(queue)
      ensures cap == 2 * old(cap)
      ensures Contents() == old(queue[head..] + queue[..head])
    {
      var bigger := new Msg[cap * 2](_ => Msg(0, 0, []));
      var i := 0;
      while i < cap
        invariant 0 <= i <= cap
        invariant forall k :: 0 <= k < i ==> bigger[k] == queue[(head + k) % cap]
        modifies bigger
      {
        bigger[i] := queue[(head + i) % cap];
        i := i + 1;
      }
      ghost var round := queue[head..] + queue[..head];
      assert bigger[..cap] == round by {
        forall k | 0 <= k < cap ensures bigger[k] == round[k] {
          Wraps(head, k, cap);
        }
      }
      head := 0;
      tail := cap;
      cap := cap * 2;
      queue := bigger;
    }

    /** The part of skynet_mq_push that concerns the ring. */
    method Store(m: Msg)
      requires Valid()
      modifies this`head, this`tail, this`cap, this`queue, queue
      ensures Valid() && (queue == old(queue) || fresh(queue))
      ensures Contents() == old(Contents()) + [m]
    {
      ghost var before := queue[..];
      queue[tail] := m;
      assert queue[..] == before[tail := m];
      if (if tail + 1 >= cap then 0 else tail + 1) == head {
        RingFull(before, head, tail, m);
      } else {
        RingPush(before, head, tail, m);
      }
      tail := tail + 1;
      if tail >= cap {
        tail := 0;
      }
      if head == tail {
        Expand();
      }
    }
  }

  /** The global list; 'list' is what the links spell out. */
  class GlobalQueue {
    var head: Queue?
    var tail: Queue?
    ghost var list: seq<Queue>

    ghost predicate Valid()
      reads this, list
    {
      && (list == [] ==> head == null && tail == null)
      && (list != [] ==> head == list[0] && tail == list[|list| - 1] && list[|list| - 1].next == null)
      && (forall i, j :: 0 <= i < j < |list| ==> list[i] != list[j])
      && (forall i :: 0 <= i < |list| - 1 ==> list[i].next == list[i + 1])
    }

    constructor ()
      ensures Valid() && list == []
    {
      head, tail, list := null, null, [];
    }

    /** skynet_globalmq_push. */
    method Push(q: Queue)
      requires Valid() && q.next == null && q !in list
      modifies this, list`next
      ensures Valid() && list == old(list) + [q]
      ensures forall x :: x in old(list) && x != old(tail) ==> x.next == old(x.next)
    {
      if tail != null {
        tail.next := q;
        tail := q;
      } else {
        head := q;
        tail := q;
      }
      list := list + [q];
    }

    /** skynet_globalmq_pop. */
    method Pop() returns (q: Queue?)
      requires Valid()
      modifies this, list`next
      ensures Valid()
      ensures old(list) == [] ==> q == null && list == []
      ensures old(list) != [] ==> q == old(list)[0] && list == old(list)[1..] && q.next == null && q !in list
    {
      q := head;
      if q != null {
        assert |list| > 1 ==> q.next == list[1];
        head := q.next;
        if head == null {
          assert q == tail;
          tail := null;
        }
        q.next := null;
        list := list[1..];
      }
    }
  }

  /** skynet_mq_push. */
  method MqPush(g: GlobalQueue, q: Queue, m: Msg)
    requires g.Valid() && q.Valid()
    requires !q.inGlobal ==> q !in g.list && q.next == null
    modifies q`head, q`tail, q`cap, q`queue, q`inGlobal, q.queue, g, g.list`next
    ensures g.Valid() && q.Valid()
    ensures q.Contents() == old(q.Contents()) + [m] && q.inGlobal
    ensures g.list == if old(q.inGlobal) then old(g.list) else old(g.list) + [q]
  {
    q.Store(m);
    if !q.inGlobal {
      q.inGlobal := true;
      g.Push(q);
    }
  }

  /** skynet_mq_mark_release. */
  method MarkRelease(g: GlobalQueue, q: Queue)
    requires g.Valid() && q.Valid() && !q.release
    requires !q.inGlobal ==> q !in g.list && q.next == null
    modifies q`release, g, g.list`next
    ensures g.Valid() && q.Valid() && q.release && q.Contents() == old(q.Contents())
    ensures g.list == if q.inGlobal then old(g.list) else old(g.list) + [q]
  {
    q.release := true;
    if !q.inGlobal {
      g.Push(q);
    }
  }

  /** skynet_mq_release: the queue goes back to the list until its context is gone, then it is emptied. */
  method MqRelease(g: GlobalQueue, q: Queue) returns (dropped: seq<Msg>)
    requires g.Valid() && q.Valid() && q !in g.list && q.next == null
    modifies q`head, q`overload, q`overloadThreshold, q`inGlobal, g, g.list`next
    ensures g.Valid() && q.Valid()
    ensures q.release ==> dropped == old(q.Contents()) && q.Contents() == [] && g.list == old(g.list)
    ensures !q.release ==> dropped == [] && q.Contents() == old(q.Contents()) && g.list == old(g.list) + [q]
    ensures q.release ==> q.next == null
  {
    if q.release {
      dropped := q.Drop();
    } else {
      g.Push(q);
      dropped := [];
    }
  }

  datatype Op = PushOp(m: Msg) | PopOp

  /** The specification: a plain sequence. */
  function Fifo(ops: seq<Op>): (r: (seq<Msg>, seq<Option<Msg>>)) {
    if ops == [] then ([], [])
    else
      var (q, out) := Fifo(ops[..|ops| - 1]);
      match ops[|ops| - 1]
      case PushOp(m) => (q + [m], out)
      case PopOp => if q == [] then (q, out + [None]) else (q[1..], out + [Some(q[0])])
  }

  /** Every run of pushes and pops on a new queue gives what the plain sequence gives. */
  method Replay(ops: seq<Op>) returns (out: seq<Option<Msg>>, length: nat)
    ensures out == Fifo(ops).1
    ensures length == |Fifo(ops).0|
  {
    var q := new Queue(0);
    out := [];
    var i := 0;
    while i < |ops|
      invariant 0 <= i <= |ops|
      invariant q.Valid() && fresh(q) && fresh(q.queue)
      invariant Fifo(ops[..i]) == (q.Contents(), out)
    {
      assert ops[..i + 1][..i] == ops[..i];
      match ops[i]
      case PushOp(m) =>
        q.Store(m);
        i := i + 1;
      case PopOp =>
        var m := q.Pop();
        out := out + [m];
        i := i + 1;
    }
    assert ops[..|ops|] == ops;
    length := q.Length();
  }
}
