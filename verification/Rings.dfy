/** Circular buffers as sequences, for the message queues of skynet_mq.c and service_harbor.c. */
module Rings {

  /** The elements of a ring whose first is at 'head' and whose first free place is 'tail'. */
  function Ring<T>(a: seq<T>, head: nat, tail: nat): seq<T>
    requires head < |a| && tail < |a|
  {
    if head <= tail then a[head..tail] else a[head..] + a[..tail]
  }

  /** The k-th element of a ring sits k places after the head, modulo the capacity. */
  lemma RingAt<T>(a: seq<T>, head: nat, tail: nat, k: nat)
    requires head < |a| && tail < |a| && k < |Ring(a, head, tail)|
    ensures Ring(a, head, tail)[k] == a[(head + k) % |a|]
  {
    Wraps(head, k, |a|);
  }

  lemma RingPop<T>(a: seq<T>, head: nat, tail: nat)
    requires head < |a| && tail < |a| && head != tail
    ensures var next := if head + 1 >= |a| then 0 else head + 1;
            Ring(a, head, tail) == [a[head]] + Ring(a, next, tail)
  {
    if head < tail {
      assert a[head..tail] == [a[head]] + a[head + 1..tail];
    } else if head + 1 >= |a| {
      assert a[head..] == [a[head]];
      assert a[..tail] == a[0..tail];
    } else {
      assert a[head..] == [a[head]] + a[head + 1..];
      assert a[head..] + a[..tail] == [a[head]] + (a[head + 1..] + a[..tail]);
    }
  }

  /** An element stored at the tail of a ring that still has room afterwards. */
  lemma RingPush<T>(a: seq<T>, head: nat, tail: nat, m: T)
    requires head < |a| && tail < |a|
    requires (if tail + 1 >= |a| then 0 else tail + 1) != head
    ensures Ring(a[tail := m], head, if tail + 1 >= |a| then 0 else tail + 1) == Ring(a, head, tail) + [m]
  {
    var b := a[tail := m];
    if head <= tail {
      assert b[head..tail + 1] == a[head..tail] + [m];
      if tail + 1 >= |a| {
        assert b[head..] + b[..0] == b[head..tail + 1];
      }
    } else {
      assert b[head..] == a[head..];
      assert b[..tail + 1] == a[..tail] + [m];
    }
  }

  /** A full ring, read once round from the head. */
  lemma RingFull<T>(a: seq<T>, head: nat, tail: nat, m: T)
    requires head < |a| && tail < |a|
    requires (if tail + 1 >= |a| then 0 else tail + 1) == head
    ensures var b := a[tail := m]; b[head..] + b[..head] == Ring(a, head, tail) + [m]
  {
    var b := a[tail := m];
    if tail + 1 >= |a| {
      assert b[head..] == a[..tail] + [m];
    } else {
      assert b[head..] == a[head..];
      assert b[..head] == a[..tail] + [m];
    }
  }

  lemma Wraps(head: nat, k: nat, cap: nat)
    requires head < cap && k < cap
    ensures (head + k) % cap == if head + k < cap then head + k else head + k - cap
  {
    if head + k >= cap {
      assert (head + k) % cap == (head + k - cap) % cap;
    }
  }
}
