/**
 databuffer.h: the bytes received on a connection, kept in the pieces they came in, in nodes that
 are taken from and returned to a pool shared by all connections.
 */
module DataBuffer {

  import opened Prelude

  const MESSAGEPOOL := 1023

  /** struct message. */
  class Node {
    var buffer: seq<Byte>
    var next: Node?

    constructor (next: Node?)
      ensures this.next == next && buffer == []
    {
      this.buffer, this.next := [], next;
    }
  }

  /** 'list' is what one finds by following the links from 'head'. */
  ghost predicate Chain(head: Node?, list: seq<Node>)
    reads list
  {
    && (list == [] ==> head == null)
    && (list != [] ==> head == list[0] && list[|list| - 1].next == null)
    && (forall i :: 0 <= i < |list| - 1 ==> list[i].next == list[i + 1])
    && (forall i, j :: 0 <= i < j < |list| ==> list[i] != list[j])
  }

  function Concat(chunks: seq<seq<Byte>>): seq<Byte> {
    if chunks == [] then [] else chunks[0] + Concat(chunks[1..])
  }

  lemma {:induction false} ConcatSnoc(chunks: seq<seq<Byte>>, x: seq<Byte>)
    ensures Concat(chunks + [x]) == Concat(chunks) + x
  {
    if chunks == [] {
      assert [x][1..] == [];
    } else {
      ConcatSnoc(chunks[1..], x);
      assert (chunks + [x])[1..] == chunks[1..] + [x];
    }
  }

  /** What is left of the chunks after 'offset' bytes. */
  function Unread(chunks: seq<seq<Byte>>, offset: nat): seq<Byte> {
    if offset <= |Concat(chunks)| then Concat(chunks)[offset..] else []
  }

  lemma UnreadFirst(chunks: seq<seq<Byte>>, offset: nat)
    requires chunks != [] && offset <= |chunks[0]|
    ensures Unread(chunks, offset) == chunks[0][offset..] + Unread(chunks[1..], 0)
  {
  }

  lemma UnreadPart(chunks: seq<seq<Byte>>, offset: nat, n: nat)
    requires chunks != [] && offset + n <= |chunks[0]|
    ensures Unread(chunks, offset) == chunks[0][offset..offset + n] + Unread(chunks, offset + n)
  {
    hide Unread;
    UnreadFirst(chunks, offset);
    UnreadFirst(chunks, offset + n);
    Regroup(chunks[0][offset..offset + n], chunks[0][offset + n..], Unread(chunks[1..], 0));
    assert chunks[0][offset..] == chunks[0][offset..offset + n] + chunks[0][offset + n..];
  }

  lemma UnreadEmpty()
    ensures Unread([], 0) == []
  {
  }

  class Pool {
    var freelist: Node?
    ghost var free: seq<Node>

    constructor ()
      ensures freelist == null && free == []
    {
      freelist, free := null, [];
    }

    /** The first free node, or the first of a new block. */
    method Take() returns (m: Node)
      requires Chain(freelist, free)
      modifies this
      ensures Chain(freelist, free) && m !in free
      ensures old(free) != [] ==> m == old(free)[0] && free == old(free)[1..]
      ensures old(free) == [] ==> fresh(m) && |free| == MESSAGEPOOL - 1
      ensures forall x :: x in free ==> x in old(free) || fresh(x)
    {
      if freelist != null {
        m := freelist;
        freelist := m.next;
        free := free[1..];
        return;
      }
      var i := MESSAGEPOOL - 1;
      while i > 0
        invariant 0 <= i <= MESSAGEPOOL - 1 && |free| == MESSAGEPOOL - 1 - i
        invariant Chain(freelist, free)
        invariant forall x :: x in free ==> fresh(x)
      {
        var node := new Node(freelist);
        freelist := node;
        free := [node] + free;
        i := i - 1;
      }
      m := new Node(null);
    }

    method Give(m: Node)
      requires Chain(freelist, free) && m !in free
      modifies this, m
      ensures free == [m] + old(free) && Chain(freelist, free)
    {
      m.buffer := [];
      m.next := freelist;
      freelist := m;
      free := [m] + free;
    }
  }

  class Buffer {
    var header: int
    var offset: nat
    var size: int
    var head: Node?
    var tail: Node?
    ghost var list: seq<Node>
    ghost var chunks: seq<seq<Byte>>

    /** The buffer's own nodes, each with its piece. */
    ghost predicate Own()
      reads this, list
    {
      && Chain(head, list)
      && tail == (if list == [] then null else list[|list| - 1])
      && |chunks| == |list| && (forall i :: 0 <= i < |list| ==> list[i].buffer == chunks[i])
    }

    /** The nodes of the buffer and of the pool are two chains without a common node. */
    ghost predicate Linked(mp: Pool)
      reads this, list, mp, mp.free
    {
      && Own() && Chain(mp.freelist, mp.free)
      && (forall i :: 0 <= i < |list| ==> list[i] !in mp.free)
    }

    ghost predicate Valid(mp: Pool)
      reads this, list, mp, mp.free
    {
      && Linked(mp)
      && offset <= (if chunks == [] then 0 else |chunks[0]|)
      && size == |Unread(chunks, offset)|
    }

    /** The bytes that were pushed and not read. */
    ghost function Contents(): seq<Byte>
      reads this
    {
      Unread(chunks, offset)
    }

    constructor ()
      ensures list == [] && chunks == [] && head == null && tail == null
      ensures header == 0 && offset == 0 && size == 0
    {
      header, offset, size, head, tail := 0, 0, 0, null, null;
      list, chunks := [], [];
    }

    /** _return_message: the first node goes back to the pool. */
    method ReturnMessage(mp: Pool)
      requires Linked(mp) && list != []
      modifies this`head, this`tail, this`list, this`chunks, mp, list[0]
      ensures Linked(mp)
      ensures list == old(list)[1..] && chunks == old(chunks)[1..] && mp.free == [old(list)[0]] + old(mp.free)
      ensures Nodes(list) + Nodes(mp.free) == old(Nodes(list) + Nodes(mp.free)) && Nodes(list) <= old(Nodes(list))
    {
      var m := head;
      assert |list| > 1 ==> m.next == list[1];
      if m.next == null {
        assert tail == m;
        head, tail := null, null;
      } else {
        head := m.next;
      }
      ghost var first := list;
      list := list[1..];
      chunks := chunks[1..];
      assert first == [m] + list && m !in list;
      assert Chain(head, list);
      mp.Give(m);
    }

    /** One round of databuffer_read: as many of 'need' bytes as the first node has. */
    method ReadNode(mp: Pool, need: nat) returns (part: seq<Byte>)
      requires Linked(mp) && list != [] && offset <= |chunks[0]|
      modifies this`head, this`tail, this`list, this`chunks, this`offset, mp, list[0]
      ensures Linked(mp) && offset <= (if chunks == [] then 0 else |chunks[0]|)
      ensures old(Contents()) == part + Contents() && |part| <= need
      ensures |part| == need || |list| < old(|list|)
      ensures |list| <= old(|list|) && Nodes(list) <= old(Nodes(list))
      ensures Nodes(list) + Nodes(mp.free) == old(Nodes(list) + Nodes(mp.free))
    {
      hide Unread, Concat;
      UnreadFirst(chunks, offset);
      var rest := |head.buffer| - offset;
      if rest > need {
        UnreadPart(chunks, offset, need);
        part := head.buffer[offset..offset + need];
        offset := offset + need;
      } else {
        part := head.buffer[offset..];
        offset := 0;
        ReturnMessage(mp);
      }
    }

    /** databuffer_read. */
    method Read(mp: Pool, n: nat) returns (out: seq<Byte>)
      requires Valid(mp) && 0 < n <= size
      modifies this`head, this`tail, this`list, this`chunks, this`offset, this`size, mp, list
      ensures Valid(mp)
      ensures out == old(Contents())[..n] && Contents() == old(Contents())[n..]
      ensures Nodes(list) + Nodes(mp.free) == old(Nodes(list) + Nodes(mp.free)) && Nodes(list) <= old(Nodes(list))
    {
      hide Unread, Chain;
      size := size - n;
      out := [];
      while |out| < n
        invariant Linked(mp) && |out| <= n
        invariant offset <= (if chunks == [] then 0 else |chunks[0]|)
        invariant out + Contents() == old(Contents())
        invariant Nodes(list) + Nodes(mp.free) == old(Nodes(list) + Nodes(mp.free)) && Nodes(list) <= old(Nodes(list))
        decreases |list|, n - |out|
        modifies this`head, this`tail, this`list, this`chunks, this`offset, mp, list
      {
        UnreadEmpty();
        assert list[0] in Nodes(list);
        var part := ReadNode(mp, n - |out|);
        Regroup(out, part, Contents());
        out := out + part;
      }
    }

    /** Hangs node m with 'data' at the end. */
    method Append(m: Node, data: seq<Byte>)
      requires Own() && m !in list
      modifies this`head, this`tail, this`list, this`chunks, this`size, m, list
      ensures Own() && list == old(list) + [m] && chunks == old(chunks) + [data] && size == old(size) + |data|
    {
      m.buffer := data;
      m.next := null;
      size := size + |data|;
      if head == null {
        assert tail == null;
        head, tail := m, m;
      } else {
        tail.next := m;
        tail := m;
      }
      list := list + [m];
      chunks := chunks + [data];
    }

    /** databuffer_push. */
    method Push(mp: Pool, data: seq<Byte>)
      requires Valid(mp)
      modifies this`head, this`tail, this`list, this`chunks, this`size, mp, mp.free, list
      ensures Valid(mp) && Contents() == old(Contents()) + data
      ensures fresh(Nodes(list) + Nodes(mp.free) - old(Nodes(list) + Nodes(mp.free)))
      ensures old(Nodes(list) + Nodes(mp.free)) <= Nodes(list) + Nodes(mp.free)
    {
      hide Unread, Concat;
      var m := mp.Take();
      UnreadSnoc(chunks, offset, data);
      assert m !in list && forall i :: 0 <= i < |mp.free| ==> mp.free[i] !in list;
      Append(m, data);
    }

    method SetHeader(mp: Pool, value: int)
      requires Valid(mp)
      modifies this`header
      ensures Valid(mp) && header == value && Contents() == old(Contents())
    {
      header := value;
    }

    /** databuffer_clear. */
    method Clear(mp: Pool)
      requires Linked(mp)
      modifies this, mp, list
      ensures Valid(mp) && Contents() == [] && header == 0 && list == []
      ensures Nodes(mp.free) == old(Nodes(list) + Nodes(mp.free))
    {
      while head != null
        invariant Linked(mp) && Nodes(list) <= old(Nodes(list))
        invariant Nodes(list) + Nodes(mp.free) == old(Nodes(list) + Nodes(mp.free))
        decreases |list|
      {
        assert list[0] in Nodes(list);
        ReturnMessage(mp);
      }
      header, offset, size, head, tail := 0, 0, 0, null, null;
    }
  }

  lemma UnreadSnoc(chunks: seq<seq<Byte>>, offset: nat, data: seq<Byte>)
    requires offset <= (if chunks == [] then 0 else |chunks[0]|)
    ensures Unread(chunks + [data], offset) == Unread(chunks, offset) + data
  {
    ConcatSnoc(chunks, data);
  }

  ghost function Nodes(list: seq<Node>): set<Node> {
    set m | m in list
  }
}
