/** Declarations that several models share. */
module Prelude {

  datatype Option<T> = None | Some(value: T)

  type Byte = b: int | 0 <= b < 256

  const HANDLE_RANGE := 0x100_0000   // HANDLE_MASK + 1, and 1 << HANDLE_REMOTE_SHIFT

  /** A struct skynet_message. */
  datatype Msg = Msg(source: nat, session: int, body: seq<int>)

  /** The order of byte strings of one length: the first bytes that differ decide. */
  predicate Below(a: seq<Byte>, b: seq<Byte>)
    requires |a| == |b|
  {
    a != [] && (a[0] < b[0] || (a[0] == b[0] && Below(a[1..], b[1..])))
  }

  lemma BelowTwo(a: seq<Byte>, b: seq<Byte>)
    requires |a| == |b| == 2
    ensures Below(a, b) <==> a[0] as int * 0x100 + a[1] < b[0] as int * 0x100 + b[1]
  {
    assert Below(a[1..], b[1..]) <==> a[1] < b[1];
  }

  lemma BelowFour(a: seq<Byte>, b: seq<Byte>)
    requires |a| == |b| == 4
    ensures Below(a, b) <==>
            a[0] as int * 0x100_0000 + a[1] as int * 0x1_0000 + a[2] as int * 0x100 + a[3]
              < b[0] as int * 0x100_0000 + b[1] as int * 0x1_0000 + b[2] as int * 0x100 + b[3]
  {
    BelowTwo(a[2..], b[2..]);
    assert Below(a[1..], b[1..]) <==> a[1] < b[1] || (a[1] == b[1] && Below(a[2..], b[2..]));
  }

  lemma Regroup<T>(a: seq<T>, b: seq<T>, c: seq<T>)
    ensures a + (b + c) == (a + b) + c
  {
  }
}
