/**
 skynet_handle.c: the table of live services, a slot array of 2^k places indexed by the low bits of
 the handle, and the sorted array of names. Each method is the region under the lock of one call.
 */
module HandleStore {

  import opened Prelude

  const DEFAULT_SLOT_SIZE := 4
  const HANDLE_MASK := 0xff_ffff
  const MAX_SLOT_SIZE := 0x4000_0000

  /** A context with the handle it was given. */
  datatype Entry = Entry(ctx: nat, handle: nat)

  datatype Name = Name(name: string, handle: nat)

  // ---- The order of strcmp

  function Compare(a: string, b: string): int {
    if a == [] && b == [] then 0
    else if a == [] then -1
    else if b == [] then 1
    else if a[0] < b[0] then -1
    else if b[0] < a[0] then 1
    else Compare(a[1..], b[1..])
  }

  lemma {:induction false} CompareZero(a: string, b: string)
    ensures Compare(a, b) == 0 <==> a == b
  {
    if a != [] && b != [] && a[0] == b[0] {
      CompareZero(a[1..], b[1..]);
      assert a == [a[0]] + a[1..] && b == [b[0]] + b[1..];
    }
  }

  lemma {:induction false} CompareFlip(a: string, b: string)
    ensures Compare(a, b) < 0 <==> Compare(b, a) > 0
  {
    if a != [] && b != [] && a[0] == b[0] {
      CompareFlip(a[1..], b[1..]);
    }
  }

  lemma {:induction false} CompareTrans(a: string, b: string, c: string)
    requires Compare(a, b) < 0 && Compare(b, c) < 0
    ensures Compare(a, c) < 0
  {
    if a != [] && b != [] && c != [] && a[0] == b[0] == c[0] {
      CompareTrans(a[1..], b[1..], c[1..]);
    }
  }

  ghost predicate Sorted(ns: seq<Name>) {
    forall i, j :: 0 <= i < j < |ns| ==> Compare(ns[i].name, ns[j].name) < 0
  }

  /** The place of a handle in a table of n places: handle & (n - 1), n being a power of two. */
  function Hash(h: nat, n: nat): (r: nat)
    requires n > 0
    ensures r < n
  {
    h % n
  }

  /** handle |= s->harbor. */
  function FullHandle(harbor: nat, low: nat): nat {
    low + harbor * HANDLE_RANGE
  }

  // ---- Doubling

  /** One more low bit: the place in a table of twice the size. */
  lemma Halves(h: nat, n: nat)
    requires n > 0
    ensures Hash(h, 2 * n) == Hash(h, n) || Hash(h, 2 * n) == Hash(h, n) + n
  {
    var q, r := h / n, h % n;
    assert h == q * n + r;
    if q % 2 == 0 {
      assert h == (q / 2) * (2 * n) + r;
      ModIs(h, 2 * n, q / 2, r);
    } else {
      assert q == 2 * (q / 2) + 1;
      assert h == (q / 2) * (2 * n) + (n + r);
      ModIs(h, 2 * n, q / 2, n + r);
    }
  }

  lemma AtLeast(d: int, m: int)
    requires d >= 1 && m > 0
    ensures d * m >= m
  {
    assert (d - 1) * m >= 0;
  }

  /** Quotient and remainder are unique. */
  lemma ModIs(h: nat, m: nat, q: nat, r: nat)
    requires m > 0 && r < m && h == q * m + r
    ensures h % m == r
  {
    Unique(m, q, r, h / m, h % m);
  }

  lemma Unique(m: nat, q: nat, r: nat, p: nat, s: nat)
    requires m > 0 && r < m && s < m && q * m + r == p * m + s
    ensures r == s
  {
    if q > p {
      assert (q - p) * m == q * m - p * m;
      AtLeast(q - p, m);
    } else if q < p {
      assert (p - q) * m == p * m - q * m;
      AtLeast(p - q, m);
    }
  }

  function Pow(k: nat): (r: nat)
    ensures r >= 1
  {
    if k == 0 then 1 else 2 * Pow(k - 1)
  }

  lemma {:induction false} PowSplit(k: nat, j: nat)
    ensures Pow(k + j) == Pow(k) * Pow(j)
  {
    if j > 0 {
      PowSplit(k, j - 1);
      assert 2 * (Pow(k) * Pow(j - 1)) == Pow(k) * (2 * Pow(j - 1));
    }
  }

  lemma Range()
    ensures Pow(24) == HANDLE_RANGE
  {
    assert Pow(8) == 256;
    PowSplit(8, 8);
    PowSplit(16, 8);
  }

  lemma {:induction false} PowMonotone(a: nat, b: nat)
    requires a <= b
    ensures Pow(a) <= Pow(b)
  {
    if a < b {
      PowMonotone(a, b - 1);
    }
  }

  lemma AddMultiple(low: nat, a: nat, n: nat)
    requires n > 0
    ensures (low + a * n) % n == low % n
  {
    var q, r := low / n, low % n;
    assert (q + a) * n == q * n + a * n;
    ModIs(low + a * n, n, q + a, r);
  }

  lemma Rearrange(a: nat, n: nat, c: nat)
    ensures a * (n * c) == (a * c) * n
  {
  }

  /** The harbor's bits do not change the place in the table. */
  lemma HarborDrops(low: nat, harbor: nat, k: nat)
    requires k <= 24
    ensures Hash(low + harbor * HANDLE_RANGE, Pow(k)) == Hash(low, Pow(k))
  {
    hide Pow;
    Range();
    PowSplit(k, 24 - k);
    Rearrange(harbor, Pow(k), Pow(24 - k));
    AddMultiple(low, harbor * Pow(24 - k), Pow(k));
  }

  // ---- The table

  /** The k-th handle a search that starts at 'index' tries: after the last one it goes on with 1. */
  function Tried(index: nat, k: nat): nat
    decreases k
  {
    var h := if k == 0 then index else Tried(index, k - 1) + 1;
    if h > HANDLE_MASK then 1 else h
  }

  /** Handles are tried in rising order until the last one. */
  lemma {:induction false} TriedRises(index: nat, k: nat)
    requires 1 <= index
    ensures index + k <= HANDLE_MASK ==> Tried(index, k) == index + k
    ensures Tried(index, k) < index ==> HANDLE_RANGE - index <= k
  {
    if k > 0 {
      TriedRises(index, k - 1);
    }
  }

  /** In a table of n places no live handle is where l belongs. */
  ghost predicate FreeIn(live: map<nat, nat>, n: nat, l: nat)
    requires n > 0
  {
    forall h :: h in live ==> Hash(h, n) != Hash(l, n)
  }

  /** None of the n handles tried in a table of n places finds its place free. */
  ghost predicate NoneTried(live: map<nat, nat>, index: nat, n: nat)
    requires n > 0
  {
    forall j :: 0 <= j < n ==> !FreeIn(live, n, Tried(index, j))
  }

  /** 'low' is the first handle tried whose place is free. */
  ghost predicate FirstFree(live: map<nat, nat>, index: nat, n: nat, low: nat)
    requires n > 0
  {
    exists k :: 0 <= k < n && low == Tried(index, k) && FreeIn(live, n, low) && TriedBefore(live, index, n, k)
  }

  ghost predicate TriedBefore(live: map<nat, nat>, index: nat, n: nat, k: nat)
    requires n > 0
  {
    forall j :: 0 <= j < k ==> !FreeIn(live, n, Tried(index, j))
  }

  lemma TriedNext(index: nat, k: nat)
    ensures Tried(index, k) ==
            var h := if k == 0 then index else Tried(index, k - 1) + 1; if h > HANDLE_MASK then 1 else h
  {
  }

  lemma NothingTried(live: map<nat, nat>, index: nat, n: nat)
    requires n > 0
    ensures TriedBefore(live, index, n, 0)
  {
  }

  lemma MoreTried(live: map<nat, nat>, index: nat, n: nat, k: nat)
    requires k < n && TriedBefore(live, index, n, k)
    ensures if FreeIn(live, n, Tried(index, k)) then FirstFree(live, index, n, Tried(index, k))
            else TriedBefore(live, index, n, k + 1)
  {
    hide Tried, FreeIn;
  }

  lemma AllTried(live: map<nat, nat>, index: nat, n: nat)
    requires n > 0 && TriedBefore(live, index, n, n)
    ensures NoneTried(live, index, n)
  {
  }

  class Store {
    const harbor: nat
    var index: nat
    var slotSize: nat
    var slot: array<Option<Entry>>
    ghost var bits: nat             // slotSize == 2^bits
    ghost var live: map<nat, nat>   // handle to context

    /** A handle this store may give: non-zero low 24 bits below the harbor's id. */
    predicate Proper(h: nat) {
      h / HANDLE_RANGE == harbor && h % HANDLE_RANGE != 0
    }

    ghost predicate HasFree()
      reads this
    {
      exists low :: 1 <= low <= HANDLE_MASK && FullHandle(harbor, low) !in live
    }

    ghost predicate Valid()
      reads this, slot
    {
      && bits <= 24 && slotSize == Pow(bits) && slot.Length == slotSize
      && 1 <= index <= HANDLE_RANGE
      && (forall i :: 0 <= i < slotSize && slot[i].Some? ==>
            Hash(slot[i].value.handle, slotSize) == i && slot[i].value.handle in live)
      && (forall h :: h in live ==> Proper(h) && slot[Hash(h, slotSize)] == Some(Entry(live[h], h)))
    }

    constructor (harbor: nat)
      ensures Valid() && fresh(slot) && live == map[] && this.harbor == harbor && index == 1 && bits == 2
    {
      this.harbor := harbor;
      index := 1;
      slotSize := DEFAULT_SLOT_SIZE;
      slot := new Option<Entry>[DEFAULT_SLOT_SIZE](_ => None);
      bits := 2;
      live := map[];
      new;
      assert Pow(2) == 4;
    }

    /** A place is free when no live handle belongs there. */
    lemma PlaceFree(l: nat)
      requires Valid()
      ensures slot[Hash(l, slotSize)] == None <==> FreeIn(live, slotSize, l)
    {
      hide Hash, Pow;
    }

    /**
     One search from handle_index on: as many handles as there are places are tried, and the first with a
     free place is found; a full table has no place for any handle.
     */
    method Search() returns (found: Option<nat>)
      requires Valid()
      ensures found.Some? ==> 1 <= found.value <= HANDLE_MASK && slot[Hash(found.value, slotSize)] == None
      ensures if found.Some? then FirstFree(live, index, slotSize, found.value) else NoneTried(live, index, slotSize)
      ensures found == None && slotSize == HANDLE_RANGE ==>
                forall l :: 1 <= l <= HANDLE_MASK ==> slot[Hash(l, slotSize)].Some?
    {
      hide Tried, TriedBefore, FirstFree, NoneTried, FreeIn;
      var handle := index;
      var i := 0;
      ghost var wraps := 0;
      NothingTried(live, index, slotSize);
      while i < slotSize
        invariant 0 <= i <= slotSize && 1 <= handle <= HANDLE_RANGE && 0 <= wraps <= 2
        invariant wraps == 0 ==> handle == index + i && forall l :: index <= l < handle ==>
                  slot[Hash(l, slotSize)].Some?
        invariant wraps == 1 ==> i == HANDLE_RANGE - index + handle - 1
        invariant wraps == 1 ==> forall l :: (index <= l <= HANDLE_MASK || 1 <= l < handle) ==>
                  slot[Hash(l, slotSize)].Some?
        invariant wraps == 2 ==> forall l :: 1 <= l <= HANDLE_MASK ==> slot[Hash(l, slotSize)].Some?
        invariant handle == (if i == 0 then index else Tried(index, i - 1) + 1) && TriedBefore(live, index, slotSize, i)
      {
        if handle > HANDLE_MASK {
          handle := 1;
          wraps := if wraps == 0 then 1 else 2;
        }
        TriedNext(index, i);
        PlaceFree(handle);
        MoreTried(live, index, slotSize, i);
        if slot[Hash(handle, slotSize)] == None {
          return Some(handle);
        }
        i := i + 1;
        handle := handle + 1;
      }
      AllTried(live, index, slotSize);
      return None;
    }

    /** The entries in a table of twice the size: no two collide. */
    method Rehash() returns (bigger: array<Option<Entry>>)
      requires Valid()
      ensures fresh(bigger) && bigger.Length == 2 * slotSize
      ensures forall k :: 0 <= k < slotSize && slot[k].Some? ==>
              bigger[Hash(slot[k].value.handle, 2 * slotSize)] == slot[k]
      ensures forall j :: 0 <= j < 2 * slotSize && bigger[j].Some? ==>
                bigger[j] == slot[Old(j, slotSize)] && Hash(bigger[j].value.handle, 2 * slotSize) == j
    {
      hide Pow, Hash;
      var n := slotSize;
      bigger := new Option<Entry>[2 * n](_ => None);
      var i := 0;
      while i < n
        invariant 0 <= i <= n
        invariant forall k :: 0 <= k < i && slot[k].Some? ==> bigger[Hash(slot[k].value.handle, 2 * n)] == slot[k]
        invariant forall j :: 0 <= j < 2 * n && bigger[j].Some? ==>
                    Old(j, n) < i && bigger[j] == slot[Old(j, n)] && Hash(bigger[j].value.handle, 2 * n) == j
        modifies bigger
      {
        if slot[i].Some? {
          Halves(slot[i].value.handle, n);
          var hash := Hash(slot[i].value.handle, 2 * n);
          assert bigger[hash] == None;
          bigger[hash] := slot[i];
        }
        i := i + 1;
      }
    }

    /** Doubling the table. */
    method Expand()
      requires Valid() && slotSize * 2 - 1 <= HANDLE_MASK
      modifies this`slot, this`slotSize, this`bits
      ensures Valid() && fresh(slot) && slotSize == 2 * old(slotSize) && bits == old(bits) + 1
    {
      hide Pow, Hash;
      var bigger := Rehash();
      OneMore(bits);
      ghost var n, before := slotSize, slot;
      slot := bigger;
      slotSize := 2 * slotSize;
      bits := bits + 1;
      forall h | h in live ensures slot[Hash(h, slotSize)] == Some(Entry(live[h], h)) {
        assert before[Hash(h, n)] == Some(Entry(live[h], h));
      }
    }

    /**
     skynet_handle_register: gives the first handle tried that has a free place, so it is not live, and
     the next search starts behind it. The table is doubled only when no handle tried has a place, and the
     assertion before doubling fails exactly when every handle is live.
     */
    method Register(ctx: nat) returns (handle: Option<nat>)
      requires Valid()
      modifies this, slot
      ensures Valid() && (slot == old(slot) || fresh(slot))
      ensures handle.Some? <==> old(HasFree())
      ensures handle == None ==> live == old(live)
      ensures handle.Some? ==> handle.value !in old(live) && live == old(live)[handle.value := ctx]
      ensures handle.Some? ==> Proper(handle.value) && handle.value != 0
      ensures bits >= old(bits) && forall b :: old(bits) <= b < bits ==> NoneTried(old(live), old(index), Pow(b))
      ensures handle.Some? ==> handle.value == FullHandle(harbor, index - 1)
      ensures handle.Some? ==> FirstFree(old(live), old(index), Pow(bits), index - 1)
    {
      hide Pow, Hash, Tried, NoneTried, FirstFree;
      var found := Search();
      while found == None
        invariant Valid() && live == old(live) && (slot == old(slot) || fresh(slot)) && index == old(index)
        invariant bits >= old(bits) && forall b :: old(bits) <= b < bits ==> NoneTried(live, index, Pow(b))
        invariant if found.Some? then FirstFree(live, index, slotSize, found.value)
                  else NoneTried(live, index, slotSize)
        invariant found.Some? ==> 1 <= found.value <= HANDLE_MASK && slot[Hash(found.value, slotSize)] == None
        invariant found == None && slotSize == HANDLE_RANGE ==>
                    forall l :: 1 <= l <= HANDLE_MASK ==> slot[Hash(l, slotSize)].Some?
        decreases found == None, HANDLE_RANGE - slotSize
      {
        if slotSize * 2 - 1 > HANDLE_MASK {
          NoneFree();
          return None;
        }
        Expand();
        found := Search();
      }
      NotLive(found.value);
      var full := Place(found.value, ctx);
      return Some(full);
    }

    method Place(low: nat, ctx: nat) returns (handle: nat)
      requires Valid() && 1 <= low <= HANDLE_MASK && slot[Hash(low, slotSize)] == None
      modifies this`index, this`live, slot
      ensures Valid()
      ensures handle !in old(live) && live == old(live)[handle := ctx]
      ensures Proper(handle) && handle != 0 && handle == FullHandle(harbor, low) && index == low + 1
    {
      hide Pow, Hash;
      HarborDrops(low, harbor, bits);
      ProperHandle(low, harbor);
      NotLive(low);
      handle := FullHandle(harbor, low);
      slot[Hash(low, slotSize)] := Some(Entry(ctx, handle));
      index := low + 1;
      live := live[handle := ctx];
    }

    /** A place that is free has no live handle. */
    lemma NotLive(low: nat)
      requires Valid() && slot[Hash(low, slotSize)] == None
      ensures FullHandle(harbor, low) !in live
      ensures forall h :: h in live ==> Hash(h, slotSize) != Hash(low, slotSize)
    {
      HarborDrops(low, harbor, bits);
    }

    /** A full table that cannot be doubled has every handle. */
    lemma NoneFree()
      requires Valid() && slotSize * 2 - 1 > HANDLE_MASK
      requires slotSize == HANDLE_RANGE ==> forall l :: 1 <= l <= HANDLE_MASK ==> slot[Hash(l, slotSize)].Some?
      ensures !HasFree()
    {
      hide Pow;
      if slotSize != HANDLE_RANGE {
        Smaller(bits);
      }
      forall low | 1 <= low <= HANDLE_MASK ensures FullHandle(harbor, low) in live {
        assert Hash(low, HANDLE_RANGE) == low;
        FullTable(low);
      }
    }

    lemma FullTable(low: nat)
      requires Valid() && slotSize == HANDLE_RANGE && 1 <= low <= HANDLE_MASK && slot[low].Some?
      ensures FullHandle(harbor, low) in live
    {
      var h := slot[low].value.handle;
      assert h == h / HANDLE_RANGE * HANDLE_RANGE + h % HANDLE_RANGE;
    }

    /** skynet_handle_grab. */
    method Grab(handle: nat) returns (ctx: Option<nat>)
      requires Valid()
      ensures ctx == if handle in live then Some(live[handle]) else None
    {
      var e := slot[Hash(handle, slotSize)];
      if e.Some? && e.value.handle == handle {
        return Some(e.value.ctx);
      }
      return None;
    }

    /** The slot part of skynet_handle_retire. */
    method Remove(handle: nat) returns (found: bool)
      requires Valid()
      modifies this`live, slot
      ensures Valid() && found == (handle in old(live)) && live == old(live) - {handle}
    {
      var hash := Hash(handle, slotSize);
      found := slot[hash].Some? && slot[hash].value.handle == handle;
      if found {
        slot[hash] := None;
        live := live - {handle};
      }
    }
  }

  /** Where place j of the doubled table was. */
  function Old(j: nat, n: nat): nat
    requires j < 2 * n
  {
    if j < n then j else j - n
  }

  lemma ProperHandle(low: nat, harbor: nat)
    requires 1 <= low <= HANDLE_MASK
    ensures (low + harbor * HANDLE_RANGE) / HANDLE_RANGE == harbor
    ensures (low + harbor * HANDLE_RANGE) % HANDLE_RANGE == low
  {
  }

  lemma OneMore(bits: nat)
    requires bits <= 24
    ensures Pow(bits + 1) == 2 * Pow(bits) && (2 * Pow(bits) <= HANDLE_RANGE ==> bits + 1 <= 24)
  {
    Range();
  }

  lemma Smaller(bits: nat)
    requires bits <= 24 && Pow(bits) != HANDLE_RANGE
    ensures Pow(bits) * 2 <= HANDLE_RANGE
  {
    Range();
    if bits < 24 {
      PowMonotone(bits + 1, 24);
    }
  }

  // ---- Names

  /** The binary search of findname and _insert_name: where the name is, or where it belongs. */
  method SearchName(a: array<Name>, count: nat, name: string) returns (at: nat, found: bool)
    requires count <= a.Length && Sorted(a[..count])
    ensures at <= count
    ensures found ==> at < count && a[at].name == name
    ensures !found ==> forall i :: 0 <= i < at ==> Compare(a[i].name, name) < 0
    ensures !found ==> forall i :: at <= i < count ==> Compare(name, a[i].name) < 0
  {
    var begin, end := 0, count - 1;
    while begin <= end
      invariant 0 <= begin <= end + 1 <= count
      invariant forall i :: 0 <= i < begin ==> Compare(a[i].name, name) < 0
      invariant forall i :: end < i < count ==> Compare(name, a[i].name) < 0
      decreases end - begin
    {
      var mid := (begin + end) / 2;
      var c := Compare(a[mid].name, name);
      if c == 0 {
        CompareZero(a[mid].name, name);
        return mid, true;
      }
      BeforeOrAfter(a[..count], mid, name);
      if c < 0 {
        begin := mid + 1;
      } else {
        end := mid - 1;
      }
    }
    return begin, false;
  }

  lemma BeforeOrAfter(ns: seq<Name>, mid: nat, name: string)
    requires Sorted(ns) && mid < |ns|
    ensures Compare(ns[mid].name, name) < 0 ==> forall i :: 0 <= i <= mid ==> Compare(ns[i].name, name) < 0
    ensures Compare(ns[mid].name, name) > 0 ==> forall i :: mid <= i < |ns| ==> Compare(name, ns[i].name) < 0
  {
    if Compare(ns[mid].name, name) < 0 {
      forall i | 0 <= i <= mid ensures Compare(ns[i].name, name) < 0 {
        if i < mid {
          CompareTrans(ns[i].name, ns[mid].name, name);
        }
      }
    }
    if Compare(ns[mid].name, name) > 0 {
      CompareFlip(name, ns[mid].name);
      forall i | mid <= i < |ns| ensures Compare(name, ns[i].name) < 0 {
        if i > mid {
          CompareTrans(name, ns[mid].name, ns[i].name);
        }
      }
    }
  }

  /** The names that do not belong to 'handle'. */
  function Without(ns: seq<Name>, handle: nat): seq<Name> {
    if ns == [] then []
    else
      var front := Without(ns[..|ns| - 1], handle);
      if ns[|ns| - 1].handle == handle then front else front + [ns[|ns| - 1]]
  }

  function Inserted(ns: seq<Name>, at: nat, n: Name): seq<Name>
    requires at <= |ns|
  {
    ns[..at] + [n] + ns[at..]
  }

  lemma IsInserted(ns: seq<Name>, at: nat, n: Name, out: seq<Name>)
    requires at <= |ns| && |out| == |ns| + 1 && out[at] == n
    requires forall k :: 0 <= k < at ==> out[k] == ns[k]
    requires forall k :: at < k <= |ns| ==> out[k] == ns[k - 1]
    ensures out == Inserted(ns, at, n)
  {
  }

  lemma Doubles(bits: nat)
    requires bits <= 30
    ensures Pow(bits + 1) == 2 * Pow(bits) && (2 * Pow(bits) <= MAX_SLOT_SIZE <==> bits < 30)
    ensures Pow(bits) <= MAX_SLOT_SIZE && (bits == 30 ==> Pow(bits) == MAX_SLOT_SIZE)
  {
    Range();
    assert Pow(6) == 64;
    PowSplit(24, 6);
    PowMonotone(bits, 30);
    if bits < 30 {
      PowMonotone(bits + 1, 30);
    }
  }

  /** What becomes of a name. */
  datatype Naming = Added | Taken | TooMany

  class NameIndex {
    var cap: nat
    var count: nat
    var name: array<Name>
    ghost var names: map<string, nat>
    ghost var capBits: nat

    ghost predicate Room()
      reads this
    {
      count <= cap == name.Length && cap == Pow(capBits) && capBits <= 30
    }

    ghost predicate Valid()
      reads this, name
    {
      && Room()
      && Sorted(name[..count])
      && Lists(name[..count], names)
    }

    constructor ()
      ensures Valid() && fresh(name) && names == map[]
    {
      cap, count, capBits := 2, 0, 1;
      name := new Name[2](_ => Name("", 0));
      names := map[];
    }

    /** skynet_handle_findname. */
    method Find(s: string) returns (handle: nat)
      requires Valid()
      ensures handle == if s in names then names[s] else 0
    {
      var at, found := SearchName(name, count, s);
      if found {
        assert name[..count][at].name == s;
        return name[at].handle;
      }
      Absent(name[..count], at, s);
      return 0;
    }

    /** _insert_name_before with a full array: a larger one, with a gap. */
    method Grow(before: nat)
      requires before <= count == cap == name.Length && cap > 0
      modifies this`cap, this`name
      ensures cap == 2 * old(cap) == name.Length && fresh(name)
      ensures forall k :: 0 <= k < before ==> name[k] == old(name[k])
      ensures forall k :: before < k <= count ==> name[k] == old(name[k - 1])
    {
      cap := 2 * cap;
      var larger := new Name[cap](_ => Name("", 0));
      var i := 0;
      while i < before
        invariant 0 <= i <= before
        invariant forall k :: 0 <= k < i ==> larger[k] == name[k]
        modifies larger
      {
        larger[i] := name[i];
        i := i + 1;
      }
      while i < count
        invariant before <= i <= count
        invariant forall k :: 0 <= k < before ==> larger[k] == name[k]
        invariant forall k :: before < k <= i ==> larger[k] == name[k - 1]
        modifies larger
      {
        larger[i + 1] := name[i];
        i := i + 1;
      }
      name := larger;
    }

    /** _insert_name_before with room: the later names move up. */
    method Shift(before: nat)
      requires before <= count < name.Length
      modifies name
      ensures forall k :: 0 <= k < before ==> name[k] == old(name[k])
      ensures forall k :: before < k <= count ==> name[k] == old(name[k - 1])
    {
      var i := count;
      while i > before
        invariant before <= i <= count
        invariant forall k :: 0 <= k < i ==> name[k] == old(name[k])
        invariant forall k :: i < k <= count ==> name[k] == old(name[k - 1])
      {
        name[i] := name[i - 1];
        i := i - 1;
      }
    }

    /** _insert_name_before; its assertion fails exactly when 2^30 names are there. */
    method InsertBefore(n: Name, before: nat) returns (ok: bool)
      requires Room() && before <= count
      modifies this`cap, this`capBits, this`count, this`name, name
      ensures ok <==> old(count) < MAX_SLOT_SIZE
      ensures ok ==> Room() && count == old(count) + 1 && (name == old(name) || fresh(name))
      ensures ok ==> name[..count] == Inserted(old(name[..count]), before, n)
    {
      hide Pow;
      ghost var all := name[..count];
      Doubles(capBits);
      if count >= cap {
        if 2 * cap > MAX_SLOT_SIZE {
          return false;
        }
        Grow(before);
        capBits := capBits + 1;
      } else {
        Shift(before);
      }
      name[before] := n;
      count := count + 1;
      IsInserted(all, before, n, name[..count]);
      return true;
    }

    /** _insert_name: refuses a name that is taken. */
    method Insert(s: string, handle: nat) returns (r: Naming)
      requires Valid()
      modifies this, name
      ensures r == if s in old(names) then Taken else if |old(names)| < MAX_SLOT_SIZE then Added else TooMany
      ensures r != TooMany ==> Valid() && (name == old(name) || fresh(name))
      ensures names == if r == Added then old(names)[s := handle] else old(names)
    {
      hide Lists, Sorted, Compare, Pow;
      var at, found := SearchName(name, count, s);
      ghost var before := name[..count];
      if found {
        assert before[at].name == s;
        Listed(before, at, names);
        return Taken;
      }
      var n := Name(s, handle);
      NotListed(before, at, s, names);
      SortedInsert(before, at, n);
      ListsSize(before, names);
      var ok := InsertBefore(n, at);
      if !ok {
        return TooMany;
      }
      names := names[s := handle];
      InsertedNames(before, at, n, old(names), names);
      return Added;
    }

    /** The loop in skynet_handle_retire that closes the gaps left by the names of 'handle'. */
    method Compact(handle: nat)
      requires count <= name.Length
      modifies this`count, name
      ensures count <= name.Length && name[..count] == Without(old(name[..count]), handle)
    {
      ghost var before := name[..count];
      var i, j := 0, 0;
      while i < count
        invariant 0 <= j <= i <= count == old(count)
        invariant name[..j] == Without(before[..i], handle)
        invariant forall k :: i <= k < count ==> name[k] == before[k]
        modifies name
      {
        assert before[..i + 1][..i] == before[..i];
        if name[i].handle != handle {
          if i != j {
            name[j] := name[i];
          }
          assert name[..j + 1] == name[..j] + [before[i]];
          j := j + 1;
        }
        i := i + 1;
      }
      assert before[..i] == before;
      count := j;
    }

    /** Retiring a handle removes its names and no others. */
    method Forget(handle: nat)
      requires Valid()
      modifies this`count, this`names, name
      ensures Valid()
      ensures names == map s | s in old(names) && old(names)[s] != handle :: old(names)[s]
    {
      hide Lists, Sorted, Without;
      WithoutNames(name[..count], handle, names);
      Compact(handle);
      names := map s | s in names && names[s] != handle :: names[s];
    }
  }

  /** The array lists exactly the names of the map. */
  ghost predicate Lists(ns: seq<Name>, names: map<string, nat>) {
    && (forall i :: 0 <= i < |ns| ==> ns[i].name in names && names[ns[i].name] == ns[i].handle)
    && (forall s :: s in names ==> exists i :: 0 <= i < |ns| && ns[i].name == s)
  }

  function NameSet(ns: seq<Name>): set<string> {
    if ns == [] then {} else NameSet(ns[..|ns| - 1]) + {ns[|ns| - 1].name}
  }

  lemma {:induction false} NameSetHas(ns: seq<Name>, x: string)
    ensures x in NameSet(ns) <==> exists i :: 0 <= i < |ns| && ns[i].name == x
  {
    if ns != [] {
      NameSetHas(ns[..|ns| - 1], x);
      assert x in NameSet(ns[..|ns| - 1]) ==> exists i :: 0 <= i < |ns| - 1 && ns[i].name == x;
    }
  }

  lemma {:induction false} NameSetSize(ns: seq<Name>)
    requires Sorted(ns)
    ensures |NameSet(ns)| == |ns|
  {
    hide Compare;
    if ns != [] {
      var front, last := ns[..|ns| - 1], ns[|ns| - 1];
      NameSetSize(front);
      NameSetHas(front, last.name);
      if last.name in NameSet(front) {
        var i :| 0 <= i < |front| && front[i].name == last.name;
        CompareZero(ns[i].name, ns[|ns| - 1].name);
      }
    }
  }

  /** No name is listed twice. */
  lemma ListsSize(ns: seq<Name>, names: map<string, nat>)
    requires Sorted(ns) && Lists(ns, names)
    ensures |names| == |ns|
  {
    hide Compare, NameSet;
    forall x ensures x in names.Keys <==> x in NameSet(ns) {
      NameSetHas(ns, x);
    }
    assert names.Keys == NameSet(ns);
    NameSetSize(ns);
    assert |names| == |names.Keys|;
  }

  lemma Listed(ns: seq<Name>, at: nat, names: map<string, nat>)
    requires at < |ns| && Lists(ns, names)
    ensures ns[at].name in names
  {
  }

  lemma NotListed(ns: seq<Name>, at: nat, name: string, names: map<string, nat>)
    requires at <= |ns| && Lists(ns, names)
    requires forall i :: 0 <= i < at ==> Compare(ns[i].name, name) < 0
    requires forall i :: at <= i < |ns| ==> Compare(name, ns[i].name) < 0
    ensures name !in names
  {
    Absent(ns, at, name);
  }

  lemma SortedInsert(ns: seq<Name>, at: nat, n: Name)
    requires Sorted(ns) && at <= |ns|
    requires forall i :: 0 <= i < at ==> Compare(ns[i].name, n.name) < 0
    requires forall i :: at <= i < |ns| ==> Compare(n.name, ns[i].name) < 0
    ensures Sorted(Inserted(ns, at, n))
  {
  }

  lemma InsertedNames(ns: seq<Name>, at: nat, n: Name, names: map<string, nat>, after: map<string, nat>)
    requires at <= |ns| && Lists(ns, names) && n.name !in names && after == names[n.name := n.handle]
    ensures Lists(Inserted(ns, at, n), after)
  {
    var out := Inserted(ns, at, n);
    forall s | s in after ensures exists i :: 0 <= i < |out| && out[i].name == s {
      if s == n.name {
        assert out[at].name == s;
      } else {
        var i :| 0 <= i < |ns| && ns[i].name == s;
        assert out[if i < at then i else i + 1].name == s;
      }
    }
  }

  lemma {:induction false} WithoutNames(ns: seq<Name>, handle: nat, names: map<string, nat>)
    requires Sorted(ns) && Lists(ns, names)
    ensures Sorted(Without(ns, handle))
    ensures Lists(Without(ns, handle), map s | s in names && names[s] != handle :: names[s])
  {
    WithoutMembers(ns, handle);
    WithoutSorted(ns, handle);
    var out := Without(ns, handle);
    forall s | s in names && names[s] != handle ensures exists i :: 0 <= i < |out| && out[i].name == s {
      var i :| 0 <= i < |ns| && ns[i].name == s;
      assert ns[i] in out;
    }
    forall i | 0 <= i < |out| ensures out[i].name in names && names[out[i].name] == out[i].handle != handle {
      assert out[i] in out;
    }
  }

  lemma {:induction false} WithoutMembers(ns: seq<Name>, handle: nat)
    ensures forall x :: x in Without(ns, handle) <==> x in ns && x.handle != handle
  {
    if ns != [] {
      WithoutMembers(ns[..|ns| - 1], handle);
      assert ns == ns[..|ns| - 1] + [ns[|ns| - 1]];
    }
  }

  lemma {:induction false} WithoutSorted(ns: seq<Name>, handle: nat)
    requires Sorted(ns)
    ensures Sorted(Without(ns, handle))
  {
    hide Compare;
    if ns != [] {
      var front, last := ns[..|ns| - 1], ns[|ns| - 1];
      WithoutSorted(front, handle);
      WithoutMembers(front, handle);
      assert ns == front + [last];
      hide Sorted;
      WithoutLast(front, last, Without(front, handle));
    }
  }

  lemma WithoutLast(front: seq<Name>, last: Name, f: seq<Name>)
    requires Sorted(front + [last]) && Sorted(f) && forall x :: x in f ==> x in front
    ensures Sorted(f + [last])
  {
    hide Compare;
    var all := front + [last];
    forall i | 0 <= i < |f| ensures Compare(f[i].name, last.name) < 0 {
      assert f[i] in front;
      var k :| 0 <= k < |front| && front[k] == f[i];
      assert all[k] == f[i] && all[|front|] == last;
    }
  }

  lemma Absent(ns: seq<Name>, at: nat, name: string)
    requires at <= |ns|
    requires forall i :: 0 <= i < at ==> Compare(ns[i].name, name) < 0
    requires forall i :: at <= i < |ns| ==> Compare(name, ns[i].name) < 0
    ensures forall i :: 0 <= i < |ns| ==> ns[i].name != name
  {
    CompareZero(name, name);
  }

  // ---- The whole store

  /** skynet_handle_retire. */
  method Retire(s: Store, n: NameIndex, handle: nat) returns (found: bool)
    requires s.Valid() && n.Valid()
    modifies s`live, s.slot, n`count, n`names, n.name
    ensures s.Valid() && n.Valid()
    ensures found == (handle in old(s.live)) && s.live == old(s.live) - {handle}
    ensures n.names == if found then Kept(old(n.names), handle) else old(n.names)
  {
    found := s.Remove(handle);
    if found {
      n.Forget(handle);
    }
  }

  function Kept(names: map<string, nat>, handle: nat): map<string, nat> {
    map s | s in names && names[s] != handle :: names[s]
  }

  datatype Op =
    | RegisterOp(ctx: nat)
    | RetireOp(handle: nat)
    | GrabOp(handle: nat)
    | NameOp(handle: nat, name: string)
    | FindOp(name: string)

  /** The two maps the store stands for, where the next search begins, and the table size 2^bits. */
  datatype Maps = Maps(live: map<nat, nat>, names: map<string, nat>, next: nat, bits: nat)

  const NoMaps := Maps(map[], map[], 1, 2)

  predicate HandleOf(harbor: nat, h: nat) {
    h / HANDLE_RANGE == harbor && h % HANDLE_RANGE != 0
  }

  /** What each call may answer, and what it does to the maps. */
  ghost predicate Explains(harbor: nat, op: Op, m: Maps, answer: nat, after: Maps) {
    match op
    case RegisterOp(ctx) =>
      && HandleOf(harbor, answer) && answer !in m.live
      && after.live == m.live[answer := ctx] && after.names == m.names
      && after.next > 0 && answer == FullHandle(harbor, after.next - 1)
      && FirstFree(m.live, m.next, Pow(after.bits), after.next - 1)
      && after.bits >= m.bits && forall b :: m.bits <= b < after.bits ==> NoneTried(m.live, m.next, Pow(b))
    case RetireOp(h) =>
      && answer == (if h in m.live then 1 else 0)
      && after == if h in m.live then m.(live := m.live - {h}, names := Kept(m.names, h)) else m
    case GrabOp(h) => after == m && answer == if h in m.live then m.live[h] + 1 else 0
    case NameOp(h, name) =>
      && answer == (if name in m.names then 0 else 1)
      && after == if name in m.names then m else m.(names := m.names[name := h])
    case FindOp(name) => after == m && answer == if name in m.names then m.names[name] else 0
  }

  /** An assertion fails: a service is registered while every handle is live, or there are 2^30 names. */
  ghost predicate Fails(harbor: nat, op: Op, m: Maps) {
    || (op.RegisterOp? && forall low :: 1 <= low <= HANDLE_MASK ==> FullHandle(harbor, low) in m.live)
    || (op.NameOp? && op.name !in m.names && |m.names| >= MAX_SLOT_SIZE)
  }

  ghost function Stands(s: Store, n: NameIndex): Maps
    reads s, n
  {
    Maps(s.live, n.names, s.index, s.bits)
  }

  /**
   Every run of calls behaves like one on a map of contexts and a map of names, and stops exactly at
   the first call that fails an assertion.
   */
  method Replay(harbor: nat, ops: seq<Op>) returns (answers: seq<nat>, ghost maps: seq<Maps>)
    ensures |answers| <= |ops| && |maps| == |answers| + 1 && maps[0] == NoMaps
    ensures forall i :: 0 <= i < |answers| ==>
              Explains(harbor, ops[i], maps[i], answers[i], maps[i + 1]) && !Fails(harbor, ops[i], maps[i])
    ensures |answers| < |ops| ==> Fails(harbor, ops[|answers|], maps[|answers|])
  {
    hide Store.Valid, NameIndex.Valid, Explains, Fails;
    var s := new Store(harbor);
    var n := new NameIndex();
    answers, maps := [], [NoMaps];
    while |answers| < |ops|
      invariant |answers| <= |ops| && |maps| == |answers| + 1
      invariant s.Valid() && n.Valid() && fresh(s) && fresh(s.slot) && fresh(n) && fresh(n.name) && s.harbor == harbor
      invariant maps[0] == NoMaps && maps[|answers|] == Stands(s, n)
      invariant forall i :: 0 <= i < |answers| ==>
                  Explains(harbor, ops[i], maps[i], answers[i], maps[i + 1]) && !Fails(harbor, ops[i], maps[i])
      decreases |ops| - |answers|
    {
      var answer := Call(s, n, ops[|answers|]);
      if answer == None {
        return;
      }
      answers := answers + [answer.value];
      maps := maps + [Stands(s, n)];
    }
  }

  method Call(s: Store, n: NameIndex, op: Op) returns (answer: Option<nat>)
    requires s.Valid() && n.Valid()
    modifies s, s.slot, n, n.name
    ensures answer == None <==> Fails(s.harbor, op, old(Stands(s, n)))
    ensures answer.Some? ==> s.Valid() && n.Valid() && (s.slot == old(s.slot) || fresh(s.slot))
    ensures answer.Some? ==> n.name == old(n.name) || fresh(n.name)
    ensures answer.Some? ==>
              Explains(s.harbor, op, old(Stands(s, n)), answer.value, Stands(s, n))
  {
    hide Store.Valid, NameIndex.Valid;
    match op
    case RegisterOp(ctx) =>
      answer := s.Register(ctx);
    case RetireOp(h) =>
      var found := Retire(s, n, h);
      answer := Some(if found then 1 else 0);
    case GrabOp(h) =>
      var ctx := s.Grab(h);
      answer := Some(if ctx.Some? then ctx.value + 1 else 0);
    case NameOp(h, name) =>
      var named := n.Insert(name, h);
      answer := if named == TooMany then None else Some(if named == Added then 1 else 0);
    case FindOp(name) =>
      var handle := n.Find(name);
      answer := Some(handle);
  }

  /**
   A handle that was given does not come back, retired or not, before the search has gone past the last
   handle: as long as every handle given since is above the place where its search began.
   */
  lemma NoEarlyReuse(harbor: nat, ops: seq<Op>, answers: seq<nat>, maps: seq<Maps>, i: nat, j: nat)
    requires i < j < |answers| <= |ops| && |maps| == |answers| + 1
    requires forall k :: 0 <= k < |answers| ==> Explains(harbor, ops[k], maps[k], answers[k], maps[k + 1])
    requires ops[i].RegisterOp? && ops[j].RegisterOp?
    requires forall k :: i < k <= j && ops[k].RegisterOp? ==> maps[k + 1].next > maps[k].next
    ensures answers[i] != answers[j]
  {
    hide FirstFree, NoneTried, Pow;
    Rising(harbor, ops, answers, maps, i + 1, j);
    assert Explains(harbor, ops[i], maps[i], answers[i], maps[i + 1]);
    assert Explains(harbor, ops[j], maps[j], answers[j], maps[j + 1]);
  }

  lemma {:induction false} Rising(harbor: nat, ops: seq<Op>, answers: seq<nat>, maps: seq<Maps>, i: nat, j: nat)
    requires i <= j < |answers| <= |ops| && |maps| == |answers| + 1
    requires forall k :: 0 <= k < |answers| ==> Explains(harbor, ops[k], maps[k], answers[k], maps[k + 1])
    requires forall k :: i <= k <= j && ops[k].RegisterOp? ==> maps[k + 1].next > maps[k].next
    ensures maps[i].next <= maps[j].next
    decreases j
  {
    hide FirstFree, NoneTried, Pow;
    if i < j {
      Rising(harbor, ops, answers, maps, i, j - 1);
      assert Explains(harbor, ops[j - 1], maps[j - 1], answers[j - 1], maps[j]);
    }
  }

  /** The search goes past the last handle only when fewer handles than table places are left behind it. */
  lemma WrapsLate(harbor: nat, op: Op, m: Maps, answer: nat, after: Maps)
    requires Explains(harbor, op, m, answer, after) && op.RegisterOp? && m.next >= 1
    ensures after.next > m.next || HANDLE_RANGE - m.next < Pow(after.bits)
  {
    hide Pow, FreeIn, TriedBefore, NoneTried;
    var k :| 0 <= k < Pow(after.bits) && after.next - 1 == Tried(m.next, k);
    TriedRises(m.next, k);
  }
}
