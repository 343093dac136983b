/**
 The hierarchical timer wheel of skynet_timer.c: 256 near slots and four levels of 64 slots, with a
 32-bit clock that wraps around, refining an ordered bag of deadlines.
 */
module TimerWheel {

  import opened Prelude

  const TIME_NEAR := 256
  const TIME_LEVEL := 64
  const WRAP := 0x1_0000_0000
  const HALF := 0x8000_0000

  datatype Event = Event(handle: nat, session: int)

  /** A timer_node with the event stored behind it; expire is a uint32. */
  datatype Node = Node(expire: nat, event: Event)

  /** A timer as its owner sees it: it is due at an absolute tick. */
  datatype Timer = Timer(deadline: nat, event: Event)

  function NodeOf(t: Timer): Node {
    Node(t.deadline % WRAP, t.event)
  }

  /** The lists of the wheel. */
  datatype Place = Near(i: nat) | Level(l: nat, i: nat)

  predicate IsPlace(p: Place) {
    match p
    case Near(i) => i < TIME_NEAR
    case Level(l, i) => l < 4 && i < TIME_LEVEL
  }

  /** How far up the hierarchy a place is. */
  function Rank(p: Place): nat {
    match p
    case Near(_) => 0
    case Level(l, _) => l + 1
  }

  /** Ticks covered by one slot of level l. */
  function Unit(l: nat): nat {
    if l == 0 then 0x100 else if l == 1 then 0x4000 else if l == 2 then 0x10_0000 else 0x400_0000
  }

  /** x | (m - 1), for a power of two m. */
  function FillLow(x: nat, m: nat): nat
    requires m > 0
  {
    x - x % m + (m - 1)
  }

  /** Where add_node links a node that expires at e when the clock shows t. */
  function PlaceOf(e: nat, t: nat): Place {
    if e / Unit(0) == t / Unit(0) then Near(e % TIME_NEAR)
    else if e / Unit(1) == t / Unit(1) then Level(0, (e / Unit(0)) % TIME_LEVEL)
    else if e / Unit(2) == t / Unit(2) then Level(1, (e / Unit(1)) % TIME_LEVEL)
    else if e / Unit(3) == t / Unit(3) then Level(2, (e / Unit(2)) % TIME_LEVEL)
    else Level(3, (e / Unit(3)) % TIME_LEVEL)
  }

  lemma PlaceOfIsPlace(e: nat, t: nat)
    ensures IsPlace(PlaceOf(e, t))
  {
  }

  // ----- what one tick does to the place of one pending node -----

  /** e lies ahead of t on the 32-bit circle, by less than half of it. */
  predicate Ahead(e: nat, t: nat) {
    e < WRAP && t < WRAP && 1 <= (e - t) % WRAP < HALF
  }

  function NextTime(t: nat): nat {
    (t + 1) % WRAP
  }

  /** timer_shift moves the list of level j when the clock becomes t. */
  predicate Cascades(t: nat, j: nat) {
    j <= 3 && t % Unit(j) == 0 && (j == 3 || (t / Unit(j)) % TIME_LEVEL != 0)
  }

  function Source(t: nat, j: nat): Place {
    Level(j, (t / Unit(j)) % TIME_LEVEL)
  }

  /** Index of the block of level l that holds tick x. */
  function Block(x: nat, l: nat): nat {
    x / Unit(l)
  }

  lemma BlockUp(x: nat, l: nat)
    requires l < 3
    ensures Block(x, l + 1) == Block(x, l) / TIME_LEVEL
  {
    if l == 0 {
      assert x / 0x4000 == (x / 0x100) / 64;
    } else if l == 1 {
      assert x / 0x10_0000 == (x / 0x4000) / 64;
    } else {
      assert x / 0x400_0000 == (x / 0x10_0000) / 64;
    }
  }

  /** Equal blocks at one level are equal at every higher level. */
  lemma {:induction false} SameBlockUp(x: nat, y: nat, l: nat, m: nat)
    requires l <= m <= 3 && Block(x, l) == Block(y, l)
    ensures Block(x, m) == Block(y, m)
    decreases m - l
  {
    hide Block;
    if l < m {
      BlockUp(x, l);
      BlockUp(y, l);
      SameBlockUp(x, y, l + 1, m);
    }
  }

  /** A tick that does not start a block of level l stays in the block. */
  lemma SameBlockNext(t: nat, l: nat)
    requires l <= 3 && (t + 1) % Unit(l) != 0
    ensures Block(t + 1, l) == Block(t, l)
  {
    if l == 0 {
      assert (t + 1) / 0x100 == t / 0x100;
    } else if l == 1 {
      assert (t + 1) / 0x4000 == t / 0x4000;
    } else if l == 2 {
      assert (t + 1) / 0x10_0000 == t / 0x10_0000;
    } else {
      assert (t + 1) / 0x400_0000 == t / 0x400_0000;
    }
  }

  /** Two ticks of one block, when the second is its last. */
  lemma BeforeLast(e: nat, t: nat, l: nat)
    requires l <= 3 && (t + 1) % Unit(l) == 0 && Block(e, l) == Block(t, l)
    ensures e <= t < e + Unit(l)
  {
    if l == 0 {
      BeforeLast0(e, t);
    } else if l == 1 {
      BeforeLast1(e, t);
    } else if l == 2 {
      BeforeLast2(e, t);
    } else {
      BeforeLast3(e, t);
    }
  }

  lemma BeforeLast0(e: nat, t: nat)
    requires (t + 1) % 0x100 == 0 && e / 0x100 == t / 0x100
    ensures e <= t < e + 0x100
  {
  }

  lemma BeforeLast1(e: nat, t: nat)
    requires (t + 1) % 0x4000 == 0 && e / 0x4000 == t / 0x4000
    ensures e <= t < e + 0x4000
  {
  }

  lemma BeforeLast2(e: nat, t: nat)
    requires (t + 1) % 0x10_0000 == 0 && e / 0x10_0000 == t / 0x10_0000
    ensures e <= t < e + 0x10_0000
  {
  }

  lemma BeforeLast3(e: nat, t: nat)
    requires (t + 1) % 0x400_0000 == 0 && e / 0x400_0000 == t / 0x400_0000
    ensures e <= t < e + 0x400_0000
  {
  }

  lemma BehindIsFar(e: nat, t: nat)
    requires e <= t < e + HALF && t < WRAP
    ensures !Ahead(e, t)
  {
    if e < t {
      assert (e - t) % WRAP == e - t + WRAP;
    }
  }

  /** Nothing ahead of the last tick of a block lies in that block. */
  lemma LastOfBlock(e: nat, t: nat, l: nat)
    requires l <= 3 && Ahead(e, t) && (t + 1) % Unit(l) == 0
    ensures Block(e, l) != Block(t, l)
  {
    hide Ahead; hide Block;
    assert t < WRAP by { AheadBounds(e, t); }
    if Block(e, l) == Block(t, l) {
      BeforeLast(e, t, l);
      BehindIsFar(e, t);
    }
  }

  lemma AheadBounds(e: nat, t: nat)
    requires Ahead(e, t)
    ensures e < WRAP && t < WRAP
  {
  }

  lemma PlaceByBlocks(e: nat, t: nat)
    ensures PlaceOf(e, t) == if Block(e, 0) == Block(t, 0) then Near(e % TIME_NEAR)
                             else if Block(e, 1) == Block(t, 1) then Level(0, Block(e, 0) % TIME_LEVEL)
                             else if Block(e, 2) == Block(t, 2) then Level(1, Block(e, 1) % TIME_LEVEL)
                             else if Block(e, 3) == Block(t, 3) then Level(2, Block(e, 2) % TIME_LEVEL)
                             else Level(3, Block(e, 3) % TIME_LEVEL)
  {
  }

  lemma NextNotZero(t: nat)
    requires t < WRAP && NextTime(t) != 0
    ensures NextTime(t) == t + 1
  {
  }

  /** Without a cascade no node belongs elsewhere. */
  lemma NoCascade(e: nat, t: nat)
    requires Ahead(e, t) && NextTime(t) % Unit(0) != 0
    ensures PlaceOf(e, NextTime(t)) == PlaceOf(e, t)
  {
    hide Block; hide PlaceOf;
    NextNotZero(t);
    SameBlockNext(t, 0);
    SameBlockUp(t + 1, t, 0, 1);
    SameBlockUp(t + 1, t, 0, 2);
    SameBlockUp(t + 1, t, 0, 3);
    PlaceByBlocks(e, t);
    PlaceByBlocks(e, t + 1);
  }

  /** The blocks of the clock that change in a cascade from level j are those of levels up to j. */
  lemma BlocksAfter(t: nat, j: nat, l: nat)
    requires t < WRAP && Cascades(NextTime(t), j) && j < l <= 3
    ensures Block(NextTime(t), l) == Block(t, l)
  {
    hide Block;
    var n := NextTime(t);
    if t + 1 < WRAP {
      NextNotZero(t);
      if n % Unit(j + 1) == 0 {
        MultipleUp(n, j);
      }
      SameBlockNext(t, j + 1);
      SameBlockUp(n, t, j + 1, l);
    }
  }

  lemma MultipleUp(n: nat, j: nat)
    requires j < 3 && n % Unit(j + 1) == 0
    ensures (n / Unit(j)) % TIME_LEVEL == 0
  {
    if j == 0 {
      assert n == 0x4000 * (n / 0x4000);
      assert n / 0x100 == 64 * (n / 0x4000);
    } else if j == 1 {
      assert n == 0x10_0000 * (n / 0x10_0000);
      assert n / 0x4000 == 64 * (n / 0x10_0000);
    } else {
      assert n == 0x400_0000 * (n / 0x400_0000);
      assert n / 0x10_0000 == 64 * (n / 0x400_0000);
    }
  }

  lemma {:induction false} MultipleDown(n: nat, j: nat, l: nat)
    requires l <= j <= 3 && n % Unit(j) == 0
    ensures n % Unit(l) == 0
  {
    hide Unit;
    if l < j {
      OneDown(n, j - 1);
      MultipleDown(n, j - 1, l);
    }
  }

  lemma OneDown(n: nat, j: nat)
    requires j < 3 && n % Unit(j + 1) == 0
    ensures n % Unit(j) == 0
  {
    if j == 0 {
      Down0(n);
    } else if j == 1 {
      Down1(n);
    } else {
      Down2(n);
    }
  }

  lemma Down0(n: nat)
    requires n % 0x4000 == 0
    ensures n % 0x100 == 0
  {
    assert n == 0x100 * (64 * (n / 0x4000));
  }

  lemma Down1(n: nat)
    requires n % 0x10_0000 == 0
    ensures n % 0x4000 == 0
  {
    assert n == 0x4000 * (64 * (n / 0x10_0000));
  }

  lemma Down2(n: nat)
    requires n % 0x400_0000 == 0
    ensures n % 0x10_0000 == 0
  {
    assert n == 0x10_0000 * (64 * (n / 0x400_0000));
  }

  /** In a cascade from level j, a pending node shares no block up to level j with the old clock. */
  lemma AheadOfBlocks(e: nat, t: nat, j: nat, l: nat)
    requires Ahead(e, t) && Cascades(NextTime(t), j) && l <= j
    ensures Block(e, l) != Block(t, l)
  {
    hide Block;
    MultipleDown(NextTime(t), j, l);
    if t + 1 == WRAP {
      assert WRAP % Unit(l) == 0;
    } else {
      assert NextTime(t) == t + 1;
    }
    LastOfBlock(e, t, l);
  }

  /**
   With a cascade from level j, all pending nodes are at level j or above; those in the moved list
   belong below it afterwards, and all others stay where they are.
   */
  lemma Cascade(e: nat, t: nat, j: nat)
    requires Ahead(e, t) && Cascades(NextTime(t), j)
    ensures Rank(PlaceOf(e, t)) >= j + 1
    ensures PlaceOf(e, t) == Source(NextTime(t), j) ==> Rank(PlaceOf(e, NextTime(t))) < j + 1
    ensures PlaceOf(e, t) != Source(NextTime(t), j) ==> PlaceOf(e, NextTime(t)) == PlaceOf(e, t)
  {
    hide Block; hide PlaceOf; hide Ahead; hide Cascades;
    var n := NextTime(t);
    AheadBounds(e, t);
    PlaceByBlocks(e, t);
    PlaceByBlocks(e, n);
    CascadeFacts(e, t, j);
    if j >= 0 { AheadOfBlocks(e, t, j, 0); }
    if j >= 1 { AheadOfBlocks(e, t, j, 1); }
    if j >= 2 { AheadOfBlocks(e, t, j, 2); }
    if j >= 3 { AheadOfBlocks(e, t, j, 3); }
    if j < 1 { BlocksAfter(t, j, 1); }
    if j < 2 { BlocksAfter(t, j, 2); }
    if j < 3 { BlocksAfter(t, j, 3); }
    forall l | 0 <= l <= j && Block(e, l) == Block(n, l)
      ensures Block(e, j) == Block(n, j)
    {
      SameBlockUp(e, n, l, j);
    }
    if Block(e, j) == Block(n, j) && j < 3 {
      SameBlockUp(e, n, j, j + 1);
    }
  }

  /** A node in the source list shares the block of level j with the new clock. */
  lemma CascadeFacts(e: nat, t: nat, j: nat)
    requires Ahead(e, t) && Cascades(NextTime(t), j)
    ensures j <= 3 && Source(NextTime(t), j) == Level(j, Block(NextTime(t), j) % TIME_LEVEL)
    ensures PlaceOf(e, t) == Source(NextTime(t), j) ==> Block(e, j) == Block(NextTime(t), j)
  {
    hide PlaceOf; hide Block;
    var n := NextTime(t);
    SourceBlock(n, j);
    if PlaceOf(e, t) == Source(n, j) {
      PlaceByBlocks(e, t);
      if j < 3 {
        BlocksAfter(t, j, j + 1);
        BlockUp(e, j);
        BlockUp(n, j);
        SameDigits(Block(e, j), Block(n, j));
      } else {
        TopBlock(e);
        TopBlock(n);
      }
    }
  }

  lemma SourceBlock(n: nat, j: nat)
    ensures Source(n, j) == Level(j, Block(n, j) % TIME_LEVEL)
  {
  }

  lemma SameDigits(a: nat, b: nat)
    requires a / TIME_LEVEL == b / TIME_LEVEL && a % TIME_LEVEL == b % TIME_LEVEL
    ensures a == b
  {
  }

  lemma TopBlock(x: nat)
    requires x < WRAP
    ensures Block(x, 3) % TIME_LEVEL == Block(x, 3)
  {
  }

  // ----- lists -----

  type List = seq<Node>

  /** The pending timers that belong at place p when the clock shows t, in the order added. */
  function NodesAt(ps: seq<Timer>, t: nat, p: Place): List {
    if ps == [] then []
    else
      var n := NodeOf(ps[|ps| - 1]);
      NodesAt(ps[..|ps| - 1], t, p) + if PlaceOf(n.expire, t) == p then [n] else []
  }

  /** The nodes of a list that belong at place p when the clock shows t, in list order. */
  function PlacedAt(ns: List, t: nat, p: Place): List {
    if ns == [] then []
    else
      var n := ns[|ns| - 1];
      PlacedAt(ns[..|ns| - 1], t, p) + if PlaceOf(n.expire, t) == p then [n] else []
  }

  lemma PlacedAtSnoc(ns: List, n: Node, t: nat, p: Place)
    ensures PlacedAt(ns + [n], t, p) == PlacedAt(ns, t, p) + if PlaceOf(n.expire, t) == p then [n] else []
  {
    assert (ns + [n])[..|ns|] == ns;
  }

  lemma NodesAtSnoc(ps: seq<Timer>, x: Timer, t: nat, p: Place)
    ensures NodesAt(ps + [x], t, p) == NodesAt(ps, t, p) + if PlaceOf(NodeOf(x).expire, t) == p then [NodeOf(x)] else []
  {
    assert (ps + [x])[..|ps|] == ps;
  }

  /** Every deadline is at least lo ticks away, and less than half of the circle. */
  predicate Within(ps: seq<Timer>, now: nat, lo: nat) {
    forall k :: 0 <= k < |ps| ==> now + lo <= ps[k].deadline < now + HALF
  }

  lemma DeadlineAhead(d: nat, now: nat)
    requires now < d < now + HALF
    ensures Ahead(d % WRAP, now % WRAP)
  {
    var e, t := d % WRAP, now % WRAP;
    assert (e - t) % WRAP == d - now by {
      assert d == WRAP * (d / WRAP) + e && now == WRAP * (now / WRAP) + t;
      assert e - t == d - now - WRAP * (d / WRAP - now / WRAP);
      var q := d / WRAP - now / WRAP;
      assert q == 0 || q == 1;
    }
  }

  lemma NextTimeIs(now: nat)
    ensures NextTime(now % WRAP) == (now + 1) % WRAP
  {
  }

  /** Every pending timer lies ahead of clock t. */
  predicate AllAhead(ps: seq<Timer>, t: nat) {
    forall k :: 0 <= k < |ps| ==> Ahead(NodeOf(ps[k]).expire, t)
  }

  lemma WithinAhead(ps: seq<Timer>, now: nat)
    requires Within(ps, now, 1)
    ensures AllAhead(ps, now % WRAP)
  {
    hide Ahead;
    forall k | 0 <= k < |ps|
      ensures Ahead(NodeOf(ps[k]).expire, now % WRAP)
    {
      DeadlineAhead(ps[k].deadline, now);
    }
  }

  lemma {:induction false} KeepLists(ps: seq<Timer>, t: nat, p: Place)
    requires AllAhead(ps, t) && NextTime(t) % Unit(0) != 0
    ensures NodesAt(ps, NextTime(t), p) == NodesAt(ps, t, p)
  {
    hide PlaceOf; hide Ahead; hide NextTime; hide NodeOf;
    if ps != [] {
      KeepLists(ps[..|ps| - 1], t, p);
      NoCascade(NodeOf(ps[|ps| - 1]).expire, t);
    }
  }

  /** Nothing of the moved list goes to a place at or above the level it came from. */
  lemma {:induction false} MovedDown(ps: seq<Timer>, t: nat, n: nat, j: nat, p: Place)
    requires AllAhead(ps, t) && n == NextTime(t) && Cascades(n, j) && Rank(p) >= j + 1
    ensures PlacedAt(NodesAt(ps, t, Source(n, j)), n, p) == []
  {
    hide PlaceOf; hide Ahead; hide Cascades; hide Source; hide NextTime; hide NodeOf;
    if ps != [] {
      var x := NodeOf(ps[|ps| - 1]);
      var src := NodesAt(ps[..|ps| - 1], t, Source(n, j));
      MovedDown(ps[..|ps| - 1], t, n, j, p);
      Cascade(x.expire, t, j);
      PlacedAtSnoc(src, x, n, p);
      assert src + [] == src;
    }
  }

  /** Moving the source list, in list order, puts every pending timer where it belongs next. */
  lemma {:induction false} CascadeLists(ps: seq<Timer>, t: nat, n: nat, j: nat, p: Place)
    requires AllAhead(ps, t) && n == NextTime(t) && Cascades(n, j)
    ensures NodesAt(ps, n, p) ==
            (if p == Source(n, j) then [] else NodesAt(ps, t, p)) + PlacedAt(NodesAt(ps, t, Source(n, j)), n, p)
  {
    hide PlaceOf; hide Ahead; hide Cascades; hide Source; hide NextTime; hide NodeOf;
    if ps != [] {
      var qs, x := ps[..|ps| - 1], NodeOf(ps[|ps| - 1]);
      var src := NodesAt(qs, t, Source(n, j));
      CascadeLists(qs, t, n, j, p);
      Cascade(x.expire, t, j);
      PlacedAtSnoc(src, x, n, p);
      if PlaceOf(x.expire, t) != Source(n, j) && PlaceOf(x.expire, t) == p {
        MovedDown(qs, t, n, j, p);
      }
      assert src + [] == src;
    }
  }

  // ----- the specification: an ordered bag of deadlines -----

  /** Timers due at tick m, in the order added. */
  function Due(ps: seq<Timer>, m: nat): seq<Timer> {
    if ps == [] then []
    else Due(ps[..|ps| - 1], m) + if ps[|ps| - 1].deadline == m then [ps[|ps| - 1]] else []
  }

  /** Timers due after tick m, in the order added. */
  function After(ps: seq<Timer>, m: nat): seq<Timer> {
    if ps == [] then []
    else After(ps[..|ps| - 1], m) + if ps[|ps| - 1].deadline > m then [ps[|ps| - 1]] else []
  }

  /** Everything due at ticks 1 to m: by tick, and within one tick in the order added. */
  function FiredUpTo(ps: seq<Timer>, m: nat): seq<Timer> {
    if m == 0 then [] else FiredUpTo(ps, m - 1) + Due(ps, m)
  }

  lemma DueSnoc(ps: seq<Timer>, x: Timer, m: nat)
    ensures Due(ps + [x], m) == Due(ps, m) + if x.deadline == m then [x] else []
  {
    assert (ps + [x])[..|ps|] == ps;
  }

  lemma AfterSnoc(ps: seq<Timer>, x: Timer, m: nat)
    ensures After(ps + [x], m) == After(ps, m) + if x.deadline > m then [x] else []
  {
    assert (ps + [x])[..|ps|] == ps;
  }

  /** A new timer does not change what was due before its deadline. */
  lemma {:induction false} FiredSnoc(ps: seq<Timer>, x: Timer, m: nat)
    requires x.deadline > m
    ensures FiredUpTo(ps + [x], m) == FiredUpTo(ps, m)
  {
    if m > 0 {
      FiredSnoc(ps, x, m - 1);
      DueSnoc(ps, x, m);
    }
  }

  lemma {:induction false} AfterStep(ps: seq<Timer>, m: nat)
    ensures Due(After(ps, m), m + 1) == Due(ps, m + 1)
    ensures After(After(ps, m), m + 1) == After(ps, m + 1)
  {
    if ps != [] {
      var qs, x := ps[..|ps| - 1], ps[|ps| - 1];
      AfterStep(qs, m);
      DueSnoc(After(qs, m), x, m + 1);
      AfterSnoc(After(qs, m), x, m + 1);
      assert After(qs, m) + [] == After(qs, m);
      assert ps == qs + [x];
      DueSnoc(qs, x, m + 1);
      AfterSnoc(qs, x, m + 1);
    }
  }

  /** Every added timer whose deadline has passed has been fired, once each and nothing else. */
  lemma {:induction false} FiredExactly(ps: seq<Timer>, m: nat)
    requires forall k :: 0 <= k < |ps| ==> ps[k].deadline >= 1
    ensures multiset(FiredUpTo(ps, m)) + multiset(After(ps, m)) == multiset(ps)
  {
    hide Due; hide After;
    if m == 0 {
      AfterAll(ps, 0);
    } else {
      FiredExactly(ps, m - 1);
      AfterStep(ps, m - 1);
      AfterOnly(ps, m - 1);
      DueAfterSplit(After(ps, m - 1), m);
      RegroupBags(FiredUpTo(ps, m - 1), Due(ps, m), After(ps, m), After(ps, m - 1), ps);
    }
  }

  lemma RegroupBags(f: seq<Timer>, d: seq<Timer>, r: seq<Timer>, b: seq<Timer>, ps: seq<Timer>)
    requires multiset(f) + multiset(b) == multiset(ps)
    requires multiset(d) + multiset(r) == multiset(b)
    ensures multiset(f + d) + multiset(r) == multiset(ps)
  {
    assert multiset(f + d) == multiset(f) + multiset(d);
    assert (multiset(f) + multiset(d)) + multiset(r) == multiset(f) + (multiset(d) + multiset(r));
  }

  lemma {:induction false} AfterOnly(ps: seq<Timer>, m: nat)
    ensures forall k :: 0 <= k < |After(ps, m)| ==> After(ps, m)[k].deadline > m
  {
    if ps != [] {
      AfterOnly(ps[..|ps| - 1], m);
    }
  }

  lemma {:induction false} DueAfterSplit(ps: seq<Timer>, m: nat)
    requires forall k :: 0 <= k < |ps| ==> ps[k].deadline >= m
    ensures multiset(Due(ps, m)) + multiset(After(ps, m)) == multiset(ps)
  {
    if ps != [] {
      var qs, x := ps[..|ps| - 1], ps[|ps| - 1];
      DueAfterSplit(qs, m);
      var d, r := Due(qs, m), After(qs, m);
      assert multiset(ps) == multiset(qs) + multiset{x} by { assert ps == qs + [x]; }
      if x.deadline == m {
        assert Due(ps, m) == d + [x] && After(ps, m) == r;
      } else {
        assert Due(ps, m) == d && After(ps, m) == r + [x];
      }
    }
  }

  lemma {:induction false} DueOnly(ps: seq<Timer>, m: nat)
    ensures forall k :: 0 <= k < |Due(ps, m)| ==> Due(ps, m)[k].deadline == m
  {
    if ps != [] {
      DueOnly(ps[..|ps| - 1], m);
    }
  }

  /** Timers fire in the order of their deadlines. */
  lemma {:induction false} FiredSorted(ps: seq<Timer>, m: nat, i: nat, j: nat)
    requires i <= j < |FiredUpTo(ps, m)|
    ensures FiredUpTo(ps, m)[i].deadline <= FiredUpTo(ps, m)[j].deadline <= m
  {
    var f := FiredUpTo(ps, m - 1);
    DueOnly(ps, m);
    if j < |f| {
      FiredSorted(ps, m - 1, i, j);
    } else if i < |f| {
      FiredSorted(ps, m - 1, i, i);
    }
  }

  lemma {:induction false} DueAppend(a: seq<Timer>, b: seq<Timer>, d: nat)
    ensures Due(a + b, d) == Due(a, d) + Due(b, d)
  {
    if b == [] {
      assert a + b == a;
    } else {
      DueAppend(a, b[..|b| - 1], d);
      assert a + b == (a + b[..|b| - 1]) + [b[|b| - 1]];
      DueSnoc(a + b[..|b| - 1], b[|b| - 1], d);
    }
  }

  lemma {:induction false} DueOfOne(ps: seq<Timer>, d: nat)
    requires forall k, l :: 0 <= k < l < |ps| ==> ps[k].deadline == ps[l].deadline
    ensures Due(ps, d) == if ps != [] && ps[0].deadline == d then ps else []
  {
    if ps != [] {
      DueOfOne(ps[..|ps| - 1], d);
    }
  }

  /** Timers of one deadline fire in the order added. */
  lemma {:induction false} FiredInOrder(ps: seq<Timer>, m: nat, d: nat)
    ensures Due(FiredUpTo(ps, m), d) == if 1 <= d <= m then Due(ps, d) else []
  {
    hide Due;
    if m == 0 {
      DueOfOne([], d);
    } else {
      FiredInOrder(ps, m - 1, d);
      DueAppend(FiredUpTo(ps, m - 1), Due(ps, m), d);
      DueOnly(ps, m);
      DueOfOne(Due(ps, m), d);
    }
  }

  // ----- the program order of timer_update -----

  /** Which of the two calls of timer_execute the timer thread is in, or comes to next. */
  datatype Phase = First | Second

  /** An add by any thread, or the next step of the timer thread. */
  datatype Action = Add(event: Event, delay: nat) | Step

  /** The ticks so far, the last one whose timers were detached, and every timer added with its deadline. */
  datatype Clock = Clock(now: nat, done: nat, timers: seq<Timer>, phase: Phase)

  /**
   A step of the timer thread detaches what is due, if anything is; otherwise it shifts after the
   first timer_execute and ends the update after the second.
   */
  function Tell(c: Clock, a: Action): Clock {
    if a.Add? then c.(timers := c.timers + [Timer(c.now + a.delay, a.event)])
    else if c.done < c.now && Due(c.timers, c.now) != [] then c.(done := c.now)
    else if c.phase == First then c.(now := c.now + 1, done := c.now, phase := Second)
    else c.(done := c.now, phase := First)
  }

  // ----- the wheel -----

  class Wheel {
    var near: seq<List>
    var t: seq<seq<List>>
    var time: nat

    ghost var now: nat             // ticks since the start, without wrap-around
    ghost var done: nat            // ticks whose timers have all been dispatched
    ghost var added: seq<Timer>    // every timer ever added, in order
    ghost var pending: seq<Timer>  // those not dispatched yet, in order
    ghost var log: seq<Timer>      // those dispatched, in order of dispatch

    ghost predicate Shape()
      reads this
    {
      && |near| == TIME_NEAR && |t| == 4 && (forall l :: 0 <= l < 4 ==> |t[l]| == TIME_LEVEL)
      && time < WRAP
    }

    ghost function ListAt(p: Place): List
      requires Shape() && IsPlace(p)
      reads this
    {
      match p
      case Near(i) => near[i]
      case Level(l, i) => t[l][i]
    }

    /**
     The wheel refines the bag of deadlines: every list holds exactly the pending timers that
     belong there, in the order added, and what has been dispatched is exactly what was due.
     */
    ghost predicate Valid()
      reads this
    {
      && Shape()
      && time == now % WRAP
      && done <= now <= done + 1
      && Within(pending, now, 0)
      && (forall p :: IsPlace(p) ==> ListAt(p) == NodesAt(pending, time, p))
      && (forall k :: 0 <= k < |added| ==> added[k].deadline >= 1)
      && pending == After(added, done)
      && log == FiredUpTo(added, done)
    }

    /** timer_create_timer */
    constructor ()
      ensures Valid() && now == 0 && added == []
    {
      near := seq(TIME_NEAR, _ => []);
      t := seq(4, _ => seq(TIME_LEVEL, _ => []));
      time := 0;
      now, done := 0, 0;
      added, pending, log := [], [], [];
    }

    /** link */
    method Link(p: Place, n: Node)
      requires Shape() && IsPlace(p)
      modifies this`near, this`t
      ensures Shape()
      ensures forall q :: IsPlace(q) ==> ListAt(q) == old(ListAt(q)) + if q == p then [n] else []
    {
      match p {
        case Near(i) => near := near[i := near[i] + [n]];
        case Level(l, i) => t := t[l := t[l][i := t[l][i] + [n]]];
      }
    }

    /** link_clear */
    method LinkClear(p: Place) returns (r: List)
      requires Shape() && IsPlace(p)
      modifies this`near, this`t
      ensures Shape() && r == old(ListAt(p))
      ensures forall q :: IsPlace(q) ==> ListAt(q) == if q == p then [] else old(ListAt(q))
    {
      match p {
        case Near(i) =>
          r := near[i];
          near := near[i := []];
        case Level(l, i) =>
          r := t[l][i];
          t := t[l := t[l][i := []]];
      }
    }

    /** add_node */
    method AddNode(n: Node)
      requires Shape()
      modifies this`near, this`t
      ensures Shape()
      ensures forall q :: IsPlace(q) ==> ListAt(q) == old(ListAt(q)) + PlacedAt([n], time, q)
    {
      hide PlaceOf; hide PlacedAt;
      var p := FindPlace(n.expire, time);
      PlaceOfIsPlace(n.expire, time);
      Link(p, n);
      PlacedOne(n, time);
    }

    /** timer_add, called by skynet_timeout for a positive delay. */
    method TimerAdd(event: Event, delay: nat)
      requires Valid() && 1 <= delay < HALF
      modifies this
      ensures Valid()
      ensures now == old(now) && done == old(done) && log == old(log) && time == old(time)
      ensures added == old(added) + [Timer(now + delay, event)]
      ensures near[time % TIME_NEAR] == old(near[time % TIME_NEAR])
    {
      hide PlaceOf; hide NodesAt; hide PlacedAt; hide After; hide FiredUpTo;
      ghost var x := Timer(now + delay, event);
      var n := Node((delay + time) % WRAP, event);
      assert n == NodeOf(x) by { SumWraps(now, delay); }
      AddNode(n);
      PlacedOne(n, time);
      DueHere(x.deadline, now);
      assert ListAt(Near(time % TIME_NEAR)) == near[time % TIME_NEAR];
      forall p | IsPlace(p)
        ensures ListAt(p) == NodesAt(pending + [x], time, p)
      {
        NodesAtSnoc(pending, x, time, p);
      }
      AfterSnoc(added, x, done);
      FiredSnoc(added, x, done);
      added, pending := added + [x], pending + [x];
    }

    /** skynet_timeout: a delay of zero or less is answered at once, without a timer. */
    method Timeout(handle: nat, delay: int, session: int) returns (answered: Option<Event>)
      requires Valid() && delay < HALF
      modifies this
      ensures Valid() && now == old(now) && log == old(log)
      ensures answered == if delay <= 0 then Some(Event(handle, session)) else None
      ensures added == old(added) + if delay <= 0 then [] else [Timer(now + delay, Event(handle, session))]
    {
      if delay <= 0 {
        return Some(Event(handle, session));
      }
      TimerAdd(Event(handle, session), delay);
      return None;
    }

    /** move_list: re-add all nodes of a list, in list order. */
    method MoveList(level: nat, idx: nat)
      requires Shape() && level < 4 && idx < TIME_LEVEL
      modifies this`near, this`t
      ensures Shape()
      ensures forall q :: IsPlace(q) ==>
        ListAt(q) == (if q == Level(level, idx) then [] else old(ListAt(q))) +
          PlacedAt(old(ListAt(Level(level, idx))), time, q)
    {
      hide PlaceOf; hide PlacedAt; hide ListAt; hide IsPlace;
      IsLevel(level, idx);
      var current := LinkClear(Level(level, idx));
      PlacedNone(time);
      var k := 0;
      while k < |current|
        invariant k <= |current| && Shape()
        invariant forall q :: IsPlace(q) ==>
          ListAt(q) == (if q == Level(level, idx) then [] else old(ListAt(q))) + PlacedAt(current[..k], time, q)
      {
        AddNode(current[k]);
        forall q | IsPlace(q)
          ensures ListAt(q) == (if q == Level(level, idx) then [] else old(ListAt(q))) +
                  PlacedAt(current[..k + 1], time, q)
        {
          PlacedStep(current, k, time, q);
          Regroup(if q == Level(level, idx) then [] else old(ListAt(q)), PlacedAt(current[..k], time, q),
            PlacedAt([current[k]], time, q));
        }
        k := k + 1;
      }
      assert current[..k] == current;
    }

    /** The level whose list timer_shift moves; the mask never exceeds 2^26. */
    method ShiftLevel(ct: nat) returns (cascades: bool, i: nat)
      requires ct < WRAP && ct != 0
      ensures cascades <==> ct % Unit(0) == 0
      ensures cascades ==> Cascades(ct, i)
    {
      var mask, time := TIME_NEAR, ct / Unit(0);
      i := 0;
      while ct % mask == 0
        invariant i <= 3 && mask == Unit(i) && time == ct / Unit(i)
        invariant i > 0 ==> ct % Unit(0) == 0 && ct % Unit(i) == 0
        invariant mask <= 0x400_0000
        decreases 3 - i
      {
        var idx := time % TIME_LEVEL;
        MultipleDown(ct, i, 0);
        NextMultiple(ct, i);
        if idx != 0 {
          return true, i;
        }
        mask := mask * TIME_LEVEL;
        time := time / TIME_LEVEL;
        i := i + 1;
      }
      cascades := false;
    }

    /** The guard of timer_execute: an empty list under the clock means the tick is complete. */
    lemma NothingDueLeft()
      requires Valid() && near[time % TIME_NEAR] == []
      ensures pending == After(added, now) && log == FiredUpTo(added, now) && Within(pending, now, 1)
    {
      hide PlaceOf; hide NodesAt; hide After; hide FiredUpTo;
      assert ListAt(Near(time % TIME_NEAR)) == near[time % TIME_NEAR];
      NearIsDue(pending, now);
      NoneDue(pending, now);
      TickDone(added, done, now);
    }

    /** The body of timer_execute: detach the list under the clock. */
    method Detach() returns (fired: List)
      requires Valid()
      modifies this
      ensures Valid()
      ensures now == old(now) && time == old(time) && done == now && added == old(added)
      ensures fired == Nodes(Due(old(pending), now)) && log == old(log) + Due(old(pending), now)
      ensures near[time % TIME_NEAR] == []
    {
      hide PlaceOf; hide After; hide FiredUpTo;
      fired := LinkClear(Near(time % TIME_NEAR));
      NearIsDue(pending, now);
      ghost var rest := After(pending, now);
      TickDone(added, done, now);
      forall p | IsPlace(p)
        ensures ListAt(p) == NodesAt(rest, time, p)
      {
        AfterDetach(pending, now, p);
      }
      AfterWithin(pending, now);
      log := log + Due(pending, now);
      pending := rest;
      done := now;
    }

    /** timer_execute: afterwards nothing is left under the clock. */
    method TimerExecute() returns (fired: List)
      requires Valid()
      modifies this
      ensures Valid()
      ensures now == old(now) && time == old(time) && done == now && added == old(added)
      ensures near[time % TIME_NEAR] == []
      ensures fired == Nodes(Due(old(pending), now)) && log == old(log) + Due(old(pending), now)
    {
      hide PlaceOf; hide NodesAt; hide FiredUpTo; hide After;
      fired := [];
      NearIsDue(pending, now);
      assert ListAt(Near(time % TIME_NEAR)) == near[time % TIME_NEAR];
      if near[time % TIME_NEAR] == [] {
        NodesNil(Due(pending, now));
      }
      while near[time % TIME_NEAR] != []
        invariant Valid() && now == old(now) && time == old(time) && added == old(added)
        invariant if near[time % TIME_NEAR] != [] then fired == [] && pending == old(pending) && log == old(log)
                  else fired == Nodes(Due(old(pending), now)) && log == old(log) + Due(old(pending), now)
        decreases |near[time % TIME_NEAR]|
      {
        fired := Detach();
      }
      NothingDueLeft();
      done := now;
    }

    /**
     timer_update: first dispatch what is still due at the old time (rare), then tick, then dispatch
     exactly what is due at the new time, in the order added.
     */
    method TimerUpdate() returns (rare: List, fired: List)
      requires Valid()
      modifies this
      ensures Valid()
      ensures now == old(now) + 1 && done == now && added == old(added)
      ensures rare == Nodes(Due(old(pending), old(now))) && fired == Nodes(Due(added, now))
      ensures old(done) == old(now) ==> rare == []
      ensures Carry(rare, Due(old(pending), old(now))) && Carry(fired, Due(added, now))
      ensures log == FiredUpTo(added, now)
    {
      hide NodesAt; hide FiredUpTo; hide Nodes; hide Carry;
      DueLeft();
      NodesNil([]);
      NodesCarry(Due(pending, now));
      rare := TimerExecute();
      TimerShift();
      AfterStep(added, done);
      fired := TimerExecute();
      NodesCarry(Due(added, now));
    }

    /** What is under the clock is what is due and not detached yet. */
    lemma DueLeft()
      requires Valid()
      ensures near[time % TIME_NEAR] == Nodes(Due(pending, now))
      ensures Due(pending, now) == if done < now then Due(added, now) else []
    {
      hide PlaceOf; hide NodesAt; hide After; hide FiredUpTo; hide Due;
      assert ListAt(Near(time % TIME_NEAR)) == near[time % TIME_NEAR];
      NearIsDue(pending, now);
      OpenDue(added, done, now);
    }

    /** One step of the timer thread in timer_update: detach, shift, or the end of the update. */
    method UpdateStep(phase: Phase) returns (fired: List, next: Phase)
      requires Valid()
      modifies this
      ensures Valid()
      ensures Clock(now, done, added, next) == Tell(old(Clock(now, done, added, phase)), Step)
      ensures old(log) <= log && fired == Nodes(log[|old(log)|..])
    {
      hide NodesAt; hide FiredUpTo; hide After; hide Nodes; hide Due; hide IsPlace; hide Within; hide NodeOf;
      DueLeft();
      NodesNil(Due(pending, now));
      fired, next := [], phase;
      NodesNil([]);
      assert log[|log|..] == [];
      if near[time % TIME_NEAR] != [] {
        ghost var before, due := log, Due(pending, now);
        fired := Detach();
        assert log[|before|..] == due;
      } else if phase == First {
        TimerShift();
        next := Second;
      } else {
        NoteDone();
        next := First;
      }
    }

    /** With nothing under the clock the tick is complete. */
    ghost method NoteDone()
      requires Valid() && near[time % TIME_NEAR] == []
      modifies this`done
      ensures Valid() && done == now
    {
      hide NodesAt; hide FiredUpTo; hide After;
      NothingDueLeft();
      done := now;
    }

    /** Slot 0 of levels 0 to 2 is empty in every state. */
    lemma SlotZeroEmpty(l: nat)
      requires Valid() && l <= 2
      ensures t[l][0] == []
    {
      hide PlaceOf; hide NodesAt;
      assert ListAt(Level(l, 0)) == NodesAt(pending, time, Level(l, 0));
      NoNodesInZero(pending, now, l);
    }

    /** timer_shift: the clock ticks and, at the start of a block, one list cascades. */
    method TimerShift()
      requires Valid() && near[time % TIME_NEAR] == []
      modifies this
      ensures Valid()
      ensures now == old(now) + 1 && done == old(now) && added == old(added) && log == old(log)
    {
      hide PlaceOf; hide NodesAt; hide After; hide FiredUpTo; hide AllAhead; hide NextTime;
      NothingDueLeft();
      WithinAhead(pending, now);
      NextTimeIs(now);
      CascadeNow();
      now, done := now + 1, now;
    }

    /** Time advances, and the lists are again those of the pending timers. */
    method CascadeNow()
      requires Shape() && AllAhead(pending, time) && forall p :: IsPlace(p) ==> ListAt(p) == NodesAt(pending, time, p)
      modifies this`time, this`near, this`t
      ensures Shape() && time == NextTime(old(time))
      ensures forall p :: IsPlace(p) ==> ListAt(p) == NodesAt(pending, time, p)
    {
      hide PlaceOf; hide NodesAt; hide PlacedAt; hide Cascades; hide AllAhead; hide Source;
      ghost var t0 := time;
      time := (time + 1) % WRAP;
      assert time == NextTime(t0);
      var cascades, j := true, 3;
      if time != 0 {
        cascades, j := ShiftLevel(time);
      } else {
        ZeroCascades();
      }
      if cascades {
        SourceIs(time, j);
        MoveList(j, (time / Unit(j)) % TIME_LEVEL);
      }
      forall p | IsPlace(p)
        ensures ListAt(p) == NodesAt(pending, time, p)
      {
        if cascades {
          CascadeLists(pending, t0, time, j, p);
        } else {
          KeepLists(pending, t0, p);
        }
      }
    }
  }

  /** A multiple of 2^26 below 2^32 other than 0 has a non-zero top digit; otherwise the next level is due. */
  lemma NextMultiple(ct: nat, i: nat)
    requires 0 < ct < WRAP && i <= 3 && ct % Unit(i) == 0
    ensures i == 3 ==> (ct / Unit(3)) % TIME_LEVEL != 0
    ensures i < 3 ==> ct / Unit(i + 1) == (ct / Unit(i)) / TIME_LEVEL && Unit(i + 1) == Unit(i) * TIME_LEVEL
    ensures i < 3 && (ct / Unit(i)) % TIME_LEVEL == 0 ==> ct % Unit(i + 1) == 0
  {
    if i < 3 {
      BlockUp(ct, i);
    }
  }

  lemma ZeroCascades()
    ensures Cascades(0, 3)
  {
  }

  lemma SourceIs(t: nat, j: nat)
    requires Cascades(t, j)
    ensures j < 4 && Source(t, j) == Level(j, (t / Unit(j)) % TIME_LEVEL)
  {
  }

  lemma SumWraps(now: nat, delay: nat)
    ensures (delay + now % WRAP) % WRAP == (now + delay) % WRAP
  {
  }

  function Nodes(ps: seq<Timer>): List {
    if ps == [] then [] else Nodes(ps[..|ps| - 1]) + [NodeOf(ps[|ps| - 1])]
  }

  /** The nodes carry, one by one, the events of the timers and their deadlines as uint32. */
  ghost predicate Carry(ns: List, ps: seq<Timer>) {
    && |ns| == |ps|
    && forall k :: 0 <= k < |ps| ==> ns[k].event == ps[k].event && ns[k].expire == ps[k].deadline % WRAP
  }

  lemma {:induction false} NodesCarry(ps: seq<Timer>)
    ensures Carry(Nodes(ps), ps)
  {
    if ps != [] {
      NodesCarry(ps[..|ps| - 1]);
    }
  }

  lemma DueHere(d: nat, now: nat)
    requires now <= d < now + HALF
    ensures var t := now % WRAP; PlaceOf(d % WRAP, t) == Near(t % TIME_NEAR) <==> d == now
  {
    var t, e := now % WRAP, d % WRAP;
    if d == now {
    } else {
      DeadlineAhead(d, now);
      assert e != t;
      if e / Unit(0) == t / Unit(0) {
        assert e % 256 != t % 256;
      }
    }
  }

  /** The near list under the clock holds exactly the timers due now, in the order added. */
  lemma {:induction false} NearIsDue(ps: seq<Timer>, now: nat)
    requires Within(ps, now, 0)
    ensures var t := now % WRAP; NodesAt(ps, t, Near(t % TIME_NEAR)) == Nodes(Due(ps, now))
  {
    hide PlaceOf;
    if ps != [] {
      var qs, x := ps[..|ps| - 1], ps[|ps| - 1];
      NearIsDue(qs, now);
      DueHere(x.deadline, now);
      assert x.deadline == now ==> (Due(qs, now) + [x])[..|Due(qs, now)|] == Due(qs, now);
      assert Due(qs, now) + [] == Due(qs, now);
    }
  }

  /** With nothing due now, all ticks up to now are done. */
  lemma NoneDue(ps: seq<Timer>, now: nat)
    requires Within(ps, now, 0) && Due(ps, now) == []
    ensures After(ps, now) == ps && Within(ps, now, 1)
  {
    hide Due; hide After;
    DueNone(ps, now);
    AfterAll(ps, now);
  }

  lemma {:induction false} DueNone(ps: seq<Timer>, m: nat)
    requires Due(ps, m) == []
    ensures forall k :: 0 <= k < |ps| ==> ps[k].deadline != m
  {
    if ps != [] {
      DueNone(ps[..|ps| - 1], m);
    }
  }

  lemma {:induction false} AfterAll(ps: seq<Timer>, m: nat)
    requires forall k :: 0 <= k < |ps| ==> ps[k].deadline > m
    ensures After(ps, m) == ps
  {
    if ps != [] {
      AfterAll(ps[..|ps| - 1], m);
    }
  }

  /** Removing what is due now leaves every other list as it is. */
  lemma {:induction false} AfterDetach(ps: seq<Timer>, now: nat, p: Place)
    requires Within(ps, now, 0)
    ensures var t := now % WRAP; NodesAt(After(ps, now), t, p) == if p == Near(t % TIME_NEAR) then []
            else NodesAt(ps, t, p)
  {
    hide PlaceOf;
    if ps != [] {
      var qs, x := ps[..|ps| - 1], ps[|ps| - 1];
      AfterDetach(qs, now, p);
      DueHere(x.deadline, now);
      NodesAtSnoc(After(qs, now), x, now % WRAP, p);
      assert After(qs, now) + [] == After(qs, now);
    }
  }

  lemma {:induction false} AfterWithin(ps: seq<Timer>, now: nat)
    requires Within(ps, now, 0)
    ensures Within(After(ps, now), now, 0)
  {
    if ps != [] {
      AfterWithin(ps[..|ps| - 1], now);
    }
  }

  /** Of the timers after tick 'done' those due now are all of that deadline, or none when now is done. */
  lemma OpenDue(added: seq<Timer>, done: nat, now: nat)
    requires done <= now <= done + 1
    ensures Due(After(added, done), now) == if done < now then Due(added, now) else []
  {
    hide Due, After;
    if done < now {
      AfterStep(added, done);
    } else {
      AfterAgain(added, done);
    }
  }

  lemma NodesNil(ps: seq<Timer>)
    ensures Nodes(ps) == [] <==> ps == []
  {
  }

  /** Dispatching what is due now completes the tick. */
  lemma TickDone(added: seq<Timer>, done: nat, now: nat)
    requires done <= now <= done + 1
    ensures After(added, now) == After(After(added, done), now)
    ensures FiredUpTo(added, now) == FiredUpTo(added, done) + Due(After(added, done), now)
  {
    if done < now {
      AfterStep(added, done);
    } else {
      AfterAgain(added, done);
    }
  }

  lemma {:induction false} AfterAgain(ps: seq<Timer>, m: nat)
    ensures After(After(ps, m), m) == After(ps, m) && Due(After(ps, m), m) == []
  {
    if ps != [] {
      var qs, x := ps[..|ps| - 1], ps[|ps| - 1];
      AfterAgain(qs, m);
      AfterSnoc(After(qs, m), x, m);
      DueSnoc(After(qs, m), x, m);
      assert After(qs, m) + [] == After(qs, m);
    }
  }

  /** A pending node never belongs in slot 0 of levels 0 to 2. */
  lemma SlotZeroUnused(e: nat, t: nat, l: nat)
    requires e < WRAP && t < WRAP && (e == t || Ahead(e, t)) && l <= 2
    ensures PlaceOf(e, t) != Level(l, 0)
  {
    hide Block; hide PlaceOf; hide Ahead;
    PlaceByBlocks(e, t);
    if PlaceOf(e, t) == Level(l, 0) {
      BlockUp(e, l);
      BlockUp(t, l);
      ZeroDigitBehind(e, t, l);
      BehindIsFar(e, t);
    }
  }

  lemma {:induction false} NoNodesInZero(ps: seq<Timer>, now: nat, l: nat)
    requires Within(ps, now, 0) && l <= 2
    ensures NodesAt(ps, now % WRAP, Level(l, 0)) == []
  {
    hide PlaceOf; hide Ahead;
    if ps != [] {
      var x := ps[|ps| - 1];
      NoNodesInZero(ps[..|ps| - 1], now, l);
      if x.deadline != now {
        DeadlineAhead(x.deadline, now);
      }
      SlotZeroUnused(NodeOf(x).expire, now % WRAP, l);
    }
  }

  lemma ZeroDigitBehind(e: nat, t: nat, l: nat)
    requires l <= 2 && Block(e, l + 1) == Block(t, l + 1) && Block(e, l) != Block(t, l) && Block(e, l) % TIME_LEVEL == 0
    requires Block(e, l + 1) == Block(e, l) / TIME_LEVEL && Block(t, l + 1) == Block(t, l) / TIME_LEVEL
    ensures e < t < e + HALF
  {
    assert Block(e, l) < Block(t, l);
    if l == 0 {
      assert e / 0x100 < t / 0x100 && e / 0x4000 == t / 0x4000;
    } else if l == 1 {
      assert e / 0x4000 < t / 0x4000 && e / 0x10_0000 == t / 0x10_0000;
    } else {
      assert e / 0x10_0000 < t / 0x10_0000 && e / 0x400_0000 == t / 0x400_0000;
    }
  }

  /** The search of add_node for the list of a node. */
  method FindPlace(e: nat, time: nat) returns (p: Place)
    ensures p == PlaceOf(e, time)
  {
    hide FillLow;
    FillLowBlock(e, time, 0);
    FillLowBlock(e, time, 1);
    FillLowBlock(e, time, 2);
    FillLowBlock(e, time, 3);
    if FillLow(e, TIME_NEAR) == FillLow(time, TIME_NEAR) {
      return Near(e % TIME_NEAR);
    }
    var i, mask := 0, TIME_NEAR * TIME_LEVEL;
    while i < 3 && FillLow(e, mask) != FillLow(time, mask)
      invariant i <= 3 && (i < 3 ==> mask == Unit(i + 1))
      invariant e / Unit(0) != time / Unit(0)
      invariant i >= 1 ==> e / Unit(1) != time / Unit(1)
      invariant i >= 2 ==> e / Unit(2) != time / Unit(2)
      invariant i >= 3 ==> e / Unit(3) != time / Unit(3)
    {
      mask := mask * TIME_LEVEL;
      i := i + 1;
    }
    return Level(i, (e / Unit(i)) % TIME_LEVEL);
  }

  /** Equality under x | (m-1) is equality of blocks. */
  lemma FillLowBlock(x: nat, y: nat, l: nat)
    requires l <= 3
    ensures FillLow(x, Unit(l)) == FillLow(y, Unit(l)) <==> x / Unit(l) == y / Unit(l)
  {
    if l == 0 {
      assert x == 0x100 * (x / 0x100) + x % 0x100 && y == 0x100 * (y / 0x100) + y % 0x100;
    } else if l == 1 {
      assert x == 0x4000 * (x / 0x4000) + x % 0x4000 && y == 0x4000 * (y / 0x4000) + y % 0x4000;
    } else if l == 2 {
      assert x == 0x10_0000 * (x / 0x10_0000) + x % 0x10_0000 && y == 0x10_0000 * (y / 0x10_0000) + y % 0x10_0000;
    } else {
      assert x == 0x400_0000 * (x / 0x400_0000) + x % 0x400_0000 && y == 0x400_0000 * (y / 0x400_0000) + y % 0x400_0000;
    }
  }

  lemma PlacedNone(t: nat)
    ensures forall q :: PlacedAt([], t, q) == []
  {
  }

  lemma PlacedStep(ns: List, k: nat, t: nat, q: Place)
    requires k < |ns|
    ensures PlacedAt(ns[..k + 1], t, q) == PlacedAt(ns[..k], t, q) + PlacedAt([ns[k]], t, q)
  {
    assert ns[..k + 1] == ns[..k] + [ns[k]];
    PlacedAtSnoc(ns[..k], ns[k], t, q);
    PlacedOne(ns[k], t);
  }

  lemma IsLevel(l: nat, i: nat)
    requires l < 4 && i < TIME_LEVEL
    ensures IsPlace(Level(l, i))
  {
  }

  lemma PlacedOne(n: Node, t: nat)
    ensures forall q :: PlacedAt([n], t, q) == if PlaceOf(n.expire, t) == q then [n] else []
  {
    forall q
      ensures PlacedAt([n], t, q) == if PlaceOf(n.expire, t) == q then [n] else []
    {
      PlacedAtSnoc([], n, t, q);
    }
  }

  // ----- whole runs -----

  predicate Acceptable(a: Action) {
    a.Add? ==> 1 <= a.delay < HALF
  }

  function Clocked(run: seq<Action>): Clock {
    if run == [] then Clock(0, 0, [], First) else Tell(Clocked(run[..|run| - 1]), run[|run| - 1])
  }

  /** Between two updates everything due has been detached; during one at most the present tick is open. */
  lemma {:induction false} ClockedOk(run: seq<Action>)
    ensures var c := Clocked(run); c.done <= c.now <= c.done + 1 && (c.phase == First ==> c.done == c.now)
  {
    if run != [] {
      ClockedOk(run[..|run| - 1]);
    }
  }

  lemma ClockedSnoc(run: seq<Action>, a: Action)
    ensures Clocked(run + [a]) == Tell(Clocked(run), a)
  {
    assert (run + [a])[..|run|] == run;
  }

  lemma {:induction false} ClockedAdds(run: seq<Action>, adds: seq<Action>)
    requires forall k :: 0 <= k < |adds| ==> adds[k].Add?
    ensures var c, d := Clocked(run), Clocked(run + adds); d.now == c.now && d.done == c.done && d.phase == c.phase
  {
    if adds == [] {
      assert run + adds == run;
    } else {
      var front, a := adds[..|adds| - 1], adds[|adds| - 1];
      ClockedAdds(run, front);
      ClockedSnoc(run + front, a);
      assert run + adds == run + front + [a];
    }
  }

  /**
   Whatever is added meanwhile, an update ends: after the shift the second timer_execute detaches at
   most one list, so at most two more steps of the timer thread are needed.
   */
  lemma UpdateEnds(run: seq<Action>, adds: seq<Action>, more: seq<Action>)
    requires Clocked(run).phase == Second
    requires (forall k :: 0 <= k < |adds| ==> adds[k].Add?) && (forall k :: 0 <= k < |more| ==> more[k].Add?)
    ensures var c, d := Clocked(run + adds + [Step]), Clocked(run + adds + [Step] + more + [Step]);
            && c.now == Clocked(run).now
            && (c.phase == First || (d.phase == First && d.now == c.now))
  {
    hide Tell, Clocked;
    ClockedAdds(run, adds);
    ClockedSnoc(run + adds, Step);
    ClockedAdds(run + adds + [Step], more);
    ClockedSnoc(run + adds + [Step] + more, Step);
    ClockedOk(run + adds);
    StepEnds(Clocked(run + adds));
    if Clocked(run + adds + [Step]).phase == Second {
      StepEnds(Clocked(run + adds + [Step] + more));
    }
  }

  lemma StepEnds(c: Clock)
    requires c.phase == Second && c.done <= c.now
    ensures var d := Tell(c, Step);
            d.now == c.now && (d.phase == First || (d.phase == Second && d.done == d.now && c.done < c.now))
  {
  }

  /** Between two updates the next step of the timer thread advances the clock by one tick. */
  lemma UpdateBegins(run: seq<Action>, adds: seq<Action>)
    requires Clocked(run).phase == First
    requires forall k :: 0 <= k < |adds| ==> adds[k].Add?
    ensures var c := Clocked(run + adds + [Step]); c.phase == Second && c.now == Clocked(run).now + 1
  {
    hide Clocked;
    ClockedOk(run);
    ClockedAdds(run, adds);
    ClockedSnoc(run + adds, Step);
  }

  /** n steps of the timer thread in a row. */
  function Steps(n: nat): seq<Action> {
    seq(n, _ => Step)
  }

  /** Three steps see a whole tick done. */
  lemma {:induction false} TimePasses(run: seq<Action>, ticks: nat)
    ensures Clocked(run + Steps(3 * ticks)).done >= Clocked(run).done + ticks
    ensures Clocked(run + Steps(3 * ticks)).timers == Clocked(run).timers
  {
    hide Clocked;
    if ticks == 0 {
      assert run + Steps(0) == run;
    } else {
      var before := run + Steps(3 * (ticks - 1));
      TimePasses(run, ticks - 1);
      assert run + Steps(3 * ticks) == before + [Step] + [Step] + [Step];
      ClockedOk(before);
      ClockedSnoc(before, Step);
      ClockedSnoc(before + [Step], Step);
      ClockedSnoc(before + [Step] + [Step], Step);
      ThreeSteps(Clocked(before));
    }
  }

  lemma ThreeSteps(c: Clock)
    requires c.done <= c.now <= c.done + 1 && (c.phase == First ==> c.done == c.now)
    ensures var d := Tell(Tell(Tell(c, Step), Step), Step); d.done >= c.done + 1 && d.timers == c.timers
  {
  }

  /** So a timer that was added fires once the timer thread has made enough steps. */
  lemma AllFire(run: seq<Action>, t: Timer)
    requires t in Clocked(run).timers && t.deadline >= 1
    ensures var c := Clocked(run + Steps(3 * t.deadline)); t in FiredUpTo(c.timers, c.done)
  {
    hide Clocked, FiredUpTo, After;
    TimePasses(run, t.deadline);
    var c := Clocked(run + Steps(3 * t.deadline));
    DueHas(c.timers, t);
    FiredHas(c.timers, t, c.done);
  }

  lemma {:induction false} DueHas(ps: seq<Timer>, t: Timer)
    requires t in ps
    ensures t in Due(ps, t.deadline)
  {
    if t != ps[|ps| - 1] {
      DueHas(ps[..|ps| - 1], t);
    }
  }

  lemma {:induction false} FiredHas(ps: seq<Timer>, t: Timer, m: nat)
    requires t in Due(ps, t.deadline) && 1 <= t.deadline <= m
    ensures t in FiredUpTo(ps, m)
  {
    hide Due;
    if t.deadline < m {
      FiredHas(ps, t, m - 1);
    }
  }

  /**
   Over every interleaving of adds with the detach and shift steps of the timer thread, what has been
   dispatched after each step is exactly the list of due timers: each once, in the tick of its
   deadline, and timers of one deadline in the order added.
   */
  method Replay(run: seq<Action>) returns (fired: List)
    requires forall k :: 0 <= k < |run| ==> Acceptable(run[k])
    ensures var c := Clocked(run);
            && fired == Nodes(FiredUpTo(c.timers, c.done)) && Carry(fired, FiredUpTo(c.timers, c.done))
            && c.done <= c.now <= c.done + 1 && (c.phase == First ==> c.done == c.now)
  {
    hide Nodes, FiredUpTo, Tell, Carry, Clocked, After, NodesAt, NodeOf, Within;
    ClockedNone();
    var wheel := new Wheel();
    var phase := First;
    fired := [];
    NodesEmpty();
    assert run[..0] == [];
    var k := 0;
    while k < |run|
      invariant k <= |run| && fresh(wheel) && wheel.Valid()
      invariant Clocked(run[..k]) == Clock(wheel.now, wheel.done, wheel.added, phase)
      invariant fired == Nodes(wheel.log)
    {
      assert run[..k + 1] == run[..k] + [run[k]];
      ClockedSnoc(run[..k], run[k]);
      TellAdd(Clocked(run[..k]), run[k]);
      match run[k] {
        case Add(event, delay) =>
          assert Acceptable(run[k]);
          wheel.TimerAdd(event, delay);
        case Step =>
          ghost var before := wheel.log;
          var more: List;
          more, phase := wheel.UpdateStep(phase);
          ghost var due := wheel.log[|before|..];
          NodesAppend(before, due);
          assert before + due == wheel.log;
          fired := fired + more;
      }
      k := k + 1;
    }
    assert run[..k] == run;
    ClockedOk(run);
    assert wheel.log == FiredUpTo(wheel.added, wheel.done);
    NodesCarry(wheel.log);
  }

  lemma ClockedNone()
    ensures Clocked([]) == Clock(0, 0, [], First)
  {
  }

  lemma TellAdd(c: Clock, a: Action)
    ensures a.Add? ==> Tell(c, a) == c.(timers := c.timers + [Timer(c.now + a.delay, a.event)])
  {
  }

  lemma NodesEmpty()
    ensures Nodes(FiredUpTo([], 0)) == []
  {
  }

  lemma {:induction false} NodesAppend(a: seq<Timer>, b: seq<Timer>)
    ensures Nodes(a + b) == Nodes(a) + Nodes(b)
  {
    if b == [] {
      assert a + b == a;
    } else {
      NodesAppend(a, b[..|b| - 1]);
      assert (a + b)[..|a + b| - 1] == a + b[..|b| - 1];
    }
  }
}
