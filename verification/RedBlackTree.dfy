/**
 Red-black trees as values, for wepoll.c: what each recolouring and rotation does to order, colour and
 height. A position in a tree is the subtree found there together with the path back to the root, one
 frame per ancestor, nearest first: what following the parent pointers yields. RedBlackLinks performs
 these steps on linked nodes.
 */
module RedBlackTree {

  datatype Tree = Leaf | Node(red: bool, left: Tree, key: nat, right: Tree)

  /** An ancestor: whether one came from its left side, its colour, its key and its other child. */
  datatype Frame = Frame(left: bool, red: bool, key: nat, other: Tree)

  type Path = seq<Frame>

  predicate Red(t: Tree) {
    t.Node? && t.red
  }

  /** A node whose child on the given side is 'cis' and whose other child is 'trans'. */
  function Make(left: bool, red: bool, cis: Tree, key: nat, trans: Tree): Tree {
    if left then Node(red, cis, key, trans) else Node(red, trans, key, cis)
  }

  function Cis(left: bool, t: Tree): Tree
    requires t.Node?
  {
    if left then t.left else t.right
  }

  function Blacken(t: Tree): Tree {
    if t.Node? then t.(red := false) else t
  }

  /** The whole tree around a position. */
  function Plug(path: Path, t: Tree): Tree {
    if path == [] then t
    else Plug(path[1..], Make(path[0].left, path[0].red, t, path[0].key, path[0].other))
  }

  // ---- Order

  function Inorder(t: Tree): seq<nat> {
    if t.Leaf? then [] else Inorder(t.left) + [t.key] + Inorder(t.right)
  }

  predicate Sorted(s: seq<nat>) {
    forall i, j :: 0 <= i < j < |s| ==> s[i] < s[j]
  }

  function Keys(t: Tree): set<nat> {
    set k | k in Inorder(t)
  }

  /** What comes before and after a position in order. */
  function Before(path: Path): seq<nat> {
    if path == [] then []
    else Before(path[1..]) + if path[0].left then [] else Inorder(path[0].other) + [path[0].key]
  }

  function After(path: Path): seq<nat> {
    if path == [] then []
    else (if path[0].left then [path[0].key] + Inorder(path[0].other) else []) + After(path[1..])
  }

  lemma {:induction false} PlugInorder(path: Path, t: Tree)
    ensures Inorder(Plug(path, t)) == Before(path) + Inorder(t) + After(path)
  {
    hide Inorder;
    if path != [] {
      var f := path[0];
      PlugInorder(path[1..], Make(f.left, f.red, t, f.key, f.other));
      MakeInorder(f, t);
      Spread(Before(path[1..]), f, Inorder(t), After(path[1..]));
    }
  }

  lemma MakeInorder(f: Frame, t: Tree)
    ensures Inorder(Make(f.left, f.red, t, f.key, f.other)) ==
            if f.left then Inorder(t) + [f.key] + Inorder(f.other) else Inorder(f.other) + [f.key] + Inorder(t)
  {
  }

  lemma Spread(b: seq<nat>, f: Frame, t: seq<nat>, a: seq<nat>)
    ensures var o := Inorder(f.other);
            if f.left then b + (t + [f.key] + o) + a == (b + []) + t + (([f.key] + o) + a)
            else b + (o + [f.key] + t) + a == (b + (o + [f.key])) + t + ([] + a)
  {
    hide Inorder;
  }

  // ---- Colour and height

  /** Every way down passes n black nodes. */
  predicate Height(t: Tree, n: nat) {
    if t.Leaf? then n == 0
    else if t.red then Height(t.left, n) && Height(t.right, n)
    else n > 0 && Height(t.left, n - 1) && Height(t.right, n - 1)
  }

  predicate NoRedRed(t: Tree) {
    t.Leaf? || (NoRedRed(t.left) && NoRedRed(t.right) && (t.red ==> !Red(t.left) && !Red(t.right)))
  }

  /** A subtree of black height n put at this position makes the heights agree. */
  predicate PathHeight(path: Path, n: nat) {
    path == [] || (Height(path[0].other, n) && PathHeight(path[1..], if path[0].red then n else n + 1))
  }

  /** No red parent of a red child among the ancestors and their other children; the root is black. */
  predicate PathColours(path: Path) {
    path == [] ||
    (NoRedRed(path[0].other) && (path[0].red ==> !Red(path[0].other) && |path| > 1 && !path[1].red)
      && PathColours(path[1..]))
  }

  ghost predicate Balanced(t: Tree) {
    NoRedRed(t) && !Red(t) && exists n :: Height(t, n)
  }

  ghost predicate Valid(t: Tree) {
    Sorted(Inorder(t)) && Balanced(t)
  }

  predicate MayBeRed(path: Path) {
    path == [] || !path[0].red
  }

  lemma {:induction false} PlugHeight(path: Path, t: Tree, n: nat)
    requires Height(t, n) && PathHeight(path, n)
    ensures exists m :: Height(Plug(path, t), m)
  {
    if path != [] {
      var f := path[0];
      var up := Make(f.left, f.red, t, f.key, f.other);
      PlugHeight(path[1..], up, if f.red then n else n + 1);
      assert Plug(path, t) == Plug(path[1..], up);
    } else {
      assert Height(Plug(path, t), n);
    }
  }

  lemma {:induction false} PlugColours(path: Path, t: Tree)
    requires NoRedRed(t) && PathColours(path) && (Red(t) ==> MayBeRed(path))
    ensures NoRedRed(Plug(path, t)) && (path != [] ==> !Red(Plug(path, t)))
  {
    if path != [] {
      var f := path[0];
      PlugColours(path[1..], Make(f.left, f.red, t, f.key, f.other));
    }
  }

  lemma BlackenOk(t: Tree, n: nat)
    requires NoRedRed(t) && Height(t, n)
    ensures NoRedRed(Blacken(t)) && Height(Blacken(t), if Red(t) then n + 1 else n) && Inorder(Blacken(t)) == Inorder(t)
  {
  }

  // ---- Search

  /** On which side of a node a key can be. */
  lemma Split(t: Tree, key: nat)
    requires t.Node? && Sorted(Inorder(t))
    ensures Sorted(Inorder(t.left)) && Sorted(Inorder(t.right))
    ensures key < t.key ==> (key in Inorder(t) <==> key in Inorder(t.left))
    ensures key > t.key ==> (key in Inorder(t) <==> key in Inorder(t.right))
    ensures t.key in Inorder(t)
  {
    SplitSeq(Inorder(t.left), t.key, Inorder(t.right), key);
  }

  lemma SplitSeq(l: seq<nat>, k: nat, r: seq<nat>, key: nat)
    requires Sorted(l + [k] + r)
    ensures Sorted(l) && Sorted(r)
    ensures forall x :: x in l ==> x < k
    ensures forall x :: x in r ==> k < x
    ensures key in l + [k] + r <==> key in l || key == k || key in r
  {
    var s := l + [k] + r;
    assert s[|l|] == k;
    assert forall i :: 0 <= i < |l| ==> l[i] == s[i];
    assert forall i :: 0 <= i < |r| ==> r[i] == s[|l| + 1 + i];
  }

  // ---- Insertion

  /** A position whose subtree has black height n and fits in. */
  ghost predicate At(path: Path, node: Tree, n: nat) {
    PathHeight(path, n) && Height(node, n) && PathColours(path) && NoRedRed(node)
  }

  function Down(path: Path, node: Tree, left: bool): Path
    requires node.Node?
  {
    [Frame(left, node.red, node.key, Cis(!left, node))] + path
  }

  lemma DownOk(path: Path, node: Tree, left: bool, n: nat)
    requires node.Node? && At(path, node, n) && (Red(node) ==> path != [] && !path[0].red)
    ensures node.red || n > 0
    ensures At(Down(path, node, left), Cis(left, node), if node.red then n else n - 1)
    ensures Red(Cis(left, node)) ==> !Down(path, node, left)[0].red
    ensures Plug(Down(path, node, left), Cis(left, node)) == Plug(path, node)
    ensures Before(Down(path, node, left)) == Before(path) + if left then [] else Inorder(node.left) + [node.key]
    ensures After(Down(path, node, left)) == (if left then [node.key] + Inorder(node.right) else []) + After(path)
  {
    assert Down(path, node, left)[1..] == path;
  }

  /** The uncle is red: both become black and the grandparent red. */
  function Recolour(path: Path, node: Tree): Tree
    requires |path| > 1
  {
    var p, g := path[0], path[1];
    Make(g.left, true, Make(p.left, false, node, p.key, p.other), g.key, Blacken(g.other))
  }

  /** The uncle is black: one or two rotations, and the subtree has a black root. */
  function Restructure(path: Path, node: Tree): Tree
    requires |path| > 1 && node.Node?
  {
    var p, g := path[0], path[1];
    if p.left == g.left then
      Make(g.left, false, node, p.key, Make(g.left, true, p.other, g.key, g.other))
    else
      Make(g.left, false, Make(g.left, true, p.other, p.key, Cis(g.left, node)), node.key,
           Make(g.left, true, Cis(!g.left, node), g.key, g.other))
  }

  lemma RecolourOk(path: Path, node: Tree, n: nat)
    requires |path| > 1 && path[0].red && Red(node) && At(path, node, n) && Red(path[1].other)
    ensures At(path[2..], Recolour(path, node), n + 1) && Red(Recolour(path, node))
    ensures Before(path[2..]) + Inorder(Recolour(path, node)) + After(path[2..])
            == Before(path) + Inorder(node) + After(path)
  {
    TwoFrames(path, n);
    TwoUp(path, node);
    BlackenOk(path[1].other, n);
    RecolourInorder(path, node);
  }

  lemma RecolourInorder(path: Path, node: Tree)
    requires |path| > 1
    ensures var p, g := path[0], path[1];
            Inorder(Recolour(path, node)) ==
            Inorder(Make(g.left, g.red, Make(p.left, p.red, node, p.key, p.other), g.key, g.other))
  {
  }

  /** The position two levels up, with everything below it. */
  lemma TwoUp(path: Path, node: Tree)
    requires |path| > 1
    ensures var p, g := path[0], path[1];
            Before(path) + Inorder(node) + After(path) ==
            Before(path[2..]) + Inorder(Make(g.left, g.red, Make(p.left, p.red, node, p.key, p.other), g.key,
              g.other)) + After(path[2..])
  {
    var p, g := path[0], path[1];
    var q := Make(p.left, p.red, node, p.key, p.other);
    PlugInorder(path, node);
    PlugInorder(path[2..], Make(g.left, g.red, q, g.key, g.other));
    assert path[1..][1..] == path[2..];
    assert Plug(path, node) == Plug(path[2..], Make(g.left, g.red, q, g.key, g.other));
  }

  lemma RestructureOk(path: Path, node: Tree, n: nat)
    requires |path| > 1 && path[0].red && Red(node) && At(path, node, n) && !Red(path[1].other)
    ensures At(path[2..], Restructure(path, node), n + 1) && !Red(Restructure(path, node))
    ensures Before(path[2..]) + Inorder(Restructure(path, node)) + After(path[2..])
            == Before(path) + Inorder(node) + After(path)
  {
    hide Inorder, Height, NoRedRed, Restructure;
    TwoFrames(path, n);
    TwoUp(path, node);
    RestructureInorder(path, node);
    RestructureShape(path[0], path[1], path, node, n);
  }

  lemma RestructureShape(p: Frame, g: Frame, path: Path, node: Tree, n: nat)
    requires |path| > 1 && p == path[0] && g == path[1] && Red(node) && Height(node, n) && NoRedRed(node)
    requires Height(p.other, n) && NoRedRed(p.other) && !Red(p.other) && Height(g.other, n) && NoRedRed(g.other)
    requires !Red(g.other)
    ensures Height(Restructure(path, node), n + 1) && NoRedRed(Restructure(path, node)) && !Red(Restructure(path, node))
  {
  }

  lemma RestructureInorder(path: Path, node: Tree)
    requires |path| > 1 && node.Node?
    ensures var p, g := path[0], path[1];
            Inorder(Restructure(path, node)) ==
            Inorder(Make(g.left, g.red, Make(p.left, p.red, node, p.key, p.other), g.key, g.other))
  {
    var p, g := path[0], path[1];
    var po, go, a, b := Inorder(p.other), Inorder(g.other), Inorder(node.left), Inorder(node.right);
    if g.left && p.left {
      Slide(Inorder(node), p.key, po, g.key, go);
    } else if g.left {
      Slide(po + [p.key] + a, node.key, b, g.key, go);
      Slide(po, p.key, a, node.key, b);
      MakeInorder(p, node);
      assert Inorder(node) == a + [node.key] + b;
    } else if !p.left {
      Slide(go, g.key, po, p.key, Inorder(node));
    } else {
      Slide(go, g.key, a, node.key, b + [p.key] + po);
      Slide(a, node.key, b, p.key, po);
      MakeInorder(p, node);
      assert Inorder(node) == a + [node.key] + b;
    }
  }

  lemma Slide(x: seq<nat>, k: nat, y: seq<nat>, l: nat, z: seq<nat>)
    ensures (x + [k] + y) + [l] + z == x + [k] + (y + [l] + z)
  {
  }

  /** The conditions on the two nearest ancestors, spelled out. */
  lemma TwoFrames(path: Path, n: nat)
    requires |path| > 1 && PathHeight(path, n) && PathColours(path)
    ensures var p, g := path[0], path[1]; var m := if p.red then n else n + 1;
            && Height(p.other, n) && NoRedRed(p.other) && (p.red ==> !Red(p.other) && !g.red)
            && Height(g.other, m) && NoRedRed(g.other) && (g.red ==> !Red(g.other))
            && PathHeight(path[2..], if g.red then m else m + 1) && PathColours(path[2..])
  {
    assert path[1..][0] == path[1] && path[1..][1..] == path[2..];
  }

  /** A repaired position makes a balanced tree once the root is black. */
  lemma Rooted(path: Path, node: Tree, n: nat)
    requires At(path, node, n) && (Red(node) ==> MayBeRed(path))
    ensures Balanced(Blacken(Plug(path, node)))
    ensures Inorder(Blacken(Plug(path, node))) == Before(path) + Inorder(node) + After(path)
  {
    PlugInorder(path, node);
    PlugColours(path, node);
    PlugHeight(path, node, n);
    var m :| Height(Plug(path, node), m);
    BlackenOk(Plug(path, node), m);
  }

  lemma TopOk(t: Tree, n: nat)
    requires Height(t, n) && NoRedRed(t)
    ensures At([], t, n) && Before([]) == [] && After([]) == [] && Plug([], t) == t
  {
  }

  lemma NewLeaf(key: nat, n: nat)
    requires Height(Leaf, n)
    ensures Height(Node(true, Leaf, key, Leaf), n) && NoRedRed(Node(true, Leaf, key, Leaf))
    ensures Inorder(Node(true, Leaf, key, Leaf)) == [key] && Inorder(Leaf) == []
  {
  }

  /** The keys on either side of a node. */
  lemma Around(node: Tree, key: nat)
    requires node.Node? && Sorted(Inorder(node))
    ensures Inorder(node) == Inorder(node.left) + [node.key] + Inorder(node.right)
    ensures Sorted(Inorder(node.left)) && Sorted(Inorder(node.right)) && node.key in Inorder(node)
    ensures forall k :: k in Inorder(node.left) ==> k < node.key
    ensures forall k :: k in Inorder(node.right) ==> node.key < k
  {
    SplitSeq(Inorder(node.left), node.key, Inorder(node.right), key);
  }

  lemma Inserted(b: seq<nat>, key: nat, a: seq<nat>)
    requires Sorted(b + [] + a) && (forall k :: k in b ==> k < key) && (forall k :: k in a ==> key < k)
    ensures Sorted(b + [key] + a) && key !in b + [] + a
    ensures (set k | k in b + [key] + a) == (set k | k in b + [] + a) + {key}
  {
    assert b + [] + a == b + a;
    var s := b + [key] + a;
    forall i, j | 0 <= i < j < |s| ensures s[i] < s[j] {
      assert i < |b| ==> s[i] == b[i] == (b + a)[i] && b[i] in b;
      assert j > |b| ==> s[j] == a[j - |b| - 1] == (b + a)[j - 1] && a[j - |b| - 1] in a;
      assert i > |b| ==> s[i] == (b + a)[i - 1];
      assert j < |b| ==> s[j] == (b + a)[j];
    }
  }

  // ---- Removal

  /** Everything fits except that the subtree, black or empty, is one black node short. */
  ghost predicate Lacks(path: Path, node: Tree, n: nat) {
    PathHeight(path, n + 1) && Height(node, n) && PathColours(path) && NoRedRed(node) && !Red(node)
  }

  /** A red sibling: it takes the parent's place, and the new sibling is black. */
  function Lower(path: Path): Path
    requires path != [] && path[0].other.Node?
  {
    var f := path[0];
    [Frame(f.left, true, f.key, Cis(f.left, f.other)), Frame(f.left, false, f.other.key, Cis(!f.left, f.other))] +
      path[1..]
  }

  lemma LowerOk(path: Path, node: Tree, n: nat)
    requires path != [] && Red(path[0].other) && Lacks(path, node, n)
    ensures Lacks(Lower(path), node, n) && !Red(Lower(path)[0].other)
    ensures Before(Lower(path)) + Inorder(node) + After(Lower(path)) == Before(path) + Inorder(node) + After(path)
  {
    var low := Lower(path);
    assert low[1..][0] == low[1] && low[1..][1..] == path[1..];
    LowerInorder(path);
  }

  lemma LowerInorder(path: Path)
    requires path != [] && path[0].other.Node?
    ensures Before(Lower(path)) == Before(path) && After(Lower(path)) == After(path)
  {
    var f, low := path[0], Lower(path);
    assert low[1..][0] == low[1] && low[1..][1..] == path[1..];
    var b, a := Before(path[1..]), After(path[1..]);
    var l, r := Inorder(f.other.left), Inorder(f.other.right);
    assert Inorder(f.other) == l + [f.other.key] + r;
    if f.left {
      LowerAfter(f.key, l, f.other.key, r, a);
    } else {
      LowerBefore(b, l, f.other.key, r, f.key);
    }
  }

  lemma LowerAfter(k: nat, l: seq<nat>, m: nat, r: seq<nat>, a: seq<nat>)
    ensures ([k] + l) + (([m] + r) + a) == ([k] + (l + [m] + r)) + a
  {
  }

  lemma LowerBefore(b: seq<nat>, l: seq<nat>, m: nat, r: seq<nat>, k: nat)
    ensures (b + (l + [m])) + (r + [k]) == b + ((l + [m] + r) + [k])
  {
  }

  /** A black sibling with a red child: after one or two rotations nothing lacks any more. */
  function Borrow(f: Frame, node: Tree): Tree
    requires f.other.Node? && (Red(f.other.left) || Red(f.other.right))
  {
    var s := f.other;
    var near, far := Cis(f.left, s), Cis(!f.left, s);
    if Red(far) then Make(f.left, f.red, Make(f.left, false, node, f.key, near), s.key, Blacken(far))
    else
      Make(f.left, f.red, Make(f.left, false, node, f.key, Cis(f.left, near)), near.key,
           Make(f.left, false, Cis(!f.left, near), s.key, far))
  }

  lemma BorrowOk(path: Path, node: Tree, n: nat)
    requires path != [] && Lacks(path, node, n) && path[0].other.Node? && !Red(path[0].other)
    requires Red(path[0].other.left) || Red(path[0].other.right)
    ensures var t, m := Borrow(path[0], node), if path[0].red then n + 1 else n + 2;
            At(path[1..], t, m) && (Red(t) ==> MayBeRed(path[1..]))
    ensures Before(path[1..]) + Inorder(Borrow(path[0], node)) + After(path[1..])
            == Before(path) + Inorder(node) + After(path)
  {
    BorrowShape(path[0], node, n);
    BorrowInorder(path[0], node);
    OneUp(path, node);
    assert path[0].red ==> path[1..][0] == path[1];
  }

  lemma OneUp(path: Path, node: Tree)
    requires path != []
    ensures var f := path[0];
            Before(path) + Inorder(node) + After(path) ==
            Before(path[1..]) + Inorder(Make(f.left, f.red, node, f.key, f.other)) + After(path[1..])
  {
    var f := path[0];
    PlugInorder(path, node);
    PlugInorder(path[1..], Make(f.left, f.red, node, f.key, f.other));
  }

  lemma BorrowShape(f: Frame, node: Tree, n: nat)
    requires f.other.Node? && !Red(f.other) && (Red(f.other.left) || Red(f.other.right))
    requires Height(f.other, n + 1) && NoRedRed(f.other) && Height(node, n) && NoRedRed(node) && !Red(node)
    ensures var t := Borrow(f, node);
            NoRedRed(t) && Height(t, if f.red then n + 1 else n + 2) && Red(t) == f.red
  {
    var s := f.other;
    var near, far := Cis(f.left, s), Cis(!f.left, s);
    assert Height(near, n) && Height(far, n) && NoRedRed(near) && NoRedRed(far);
    if Red(far) {
      BlackenOk(far, n);
      BlackOver(f.left, node, f.key, near, n);
    } else {
      BlackOver(f.left, node, f.key, Cis(f.left, near), n);
      BlackOver(f.left, Cis(!f.left, near), s.key, far, n);
    }
  }

  lemma BlackOver(left: bool, x: Tree, key: nat, y: Tree, n: nat)
    requires Height(x, n) && Height(y, n) && NoRedRed(x) && NoRedRed(y)
    ensures Height(Make(left, false, x, key, y), n + 1) && NoRedRed(Make(left, false, x, key, y))
  {
  }

  lemma BorrowInorder(f: Frame, node: Tree)
    requires f.other.Node? && (Red(f.other.left) || Red(f.other.right))
    ensures Inorder(Borrow(f, node)) == Inorder(Make(f.left, f.red, node, f.key, f.other))
  {
    var s := f.other;
    var near, far := Cis(f.left, s), Cis(!f.left, s);
    var x, y, z := Inorder(node), Inorder(near), Inorder(far);
    if Red(far) {
      assert Inorder(Blacken(far)) == z;
      if f.left {
        Slide(x, f.key, y, s.key, z);
      } else {
        Slide(z, s.key, y, f.key, x);
      }
    } else {
      var l, r := Inorder(near.left), Inorder(near.right);
      assert y == l + [near.key] + r;
      if f.left {
        Slide(x, f.key, l, near.key, r + [s.key] + z);
        Slide(l, near.key, r, s.key, z);
      } else {
        Slide(z + [s.key] + l, near.key, r, f.key, x);
        Slide(z, s.key, l, near.key, r);
      }
    }
  }

  /** A black sibling without red children: it becomes red and the parent lacks instead. */
  function Shrink(f: Frame, node: Tree): Tree
    requires f.other.Node?
  {
    Make(f.left, f.red, node, f.key, f.other.(red := true))
  }

  lemma ShrinkOk(path: Path, node: Tree, n: nat)
    requires path != [] && Lacks(path, node, n) && path[0].other.Node? && !Red(path[0].other)
    requires !Red(path[0].other.left) && !Red(path[0].other.right)
    ensures var t := Shrink(path[0], node);
            && PathHeight(path[1..], if path[0].red then n + 1 else n + 2) && PathColours(path[1..])
            && (path[0].red ==> path[1..] != [] && !path[1..][0].red)
            && Height(Blacken(t), n + 1) && NoRedRed(Blacken(t)) && Red(t) == path[0].red
            && (!path[0].red ==> Blacken(t) == t)
            && Before(path[1..]) + Inorder(Blacken(t)) + After(path[1..]) == Before(path) + Inorder(node) + After(path)
  {
    OneUp(path, node);
    assert path[0].red ==> path[1..][0] == path[1];
  }

  lemma SiblingExists(path: Path, node: Tree, n: nat)
    requires path != [] && Lacks(path, node, n)
    ensures path[0].other.Node?
  {
  }

  lemma LowerLength(path: Path)
    requires path != [] && path[0].other.Node?
    ensures |Lower(path)| == |path| + 1 && Lower(path)[0].red
  {
  }

  lemma Whole(node: Tree, n: nat)
    requires Lacks([], node, n)
    ensures Balanced(node) && Before([]) + Inorder(node) + After([]) == Inorder(node)
  {
  }

  lemma LeftInorder(node: Tree, a: seq<nat>)
    requires node.Node?
    ensures Inorder(node) + a == Inorder(node.left) + (([node.key] + Inorder(node.right)) + a)
  {
  }

  function OnlyChild(t: Tree): Tree
    requires t.Node?
  {
    if t.left.Leaf? then t.right else t.left
  }

  lemma BlackRoot(path: Path, node: Tree)
    requires NoRedRed(node) && PathColours(path) && !Red(node)
    ensures Blacken(Plug(path, node)) == Plug(path, node)
  {
    PlugColours(path, node);
  }

  /** The keys of an ancestor play no part in height and colour. */
  lemma {:induction false} Rekeyed(front: Path, f: Frame, key: nat, path: Path, n: nat)
    requires !f.left && (forall i :: 0 <= i < |front| ==> front[i].left)
    requires PathHeight(front + [f] + path, n) && PathColours(front + [f] + path)
    ensures var g := f.(key := key);
            && PathHeight(front + [g] + path, n) && PathColours(front + [g] + path)
            && After(front + [g] + path) == After(front + [f] + path)
            && Before(front + [g] + path) == Before(path) + (Inorder(f.other) + [key])
            && Before(front + [f] + path) == Before(path) + (Inorder(f.other) + [f.key])
  {
    var g := f.(key := key);
    if front == [] {
      assert ([g] + path)[1..] == path && ([f] + path)[1..] == path;
      assert [] + [g] + path == [g] + path && [] + [f] + path == [f] + path;
    } else {
      var rest := front[1..];
      assert (front + [g] + path)[1..] == rest + [g] + path;
      assert (front + [f] + path)[1..] == rest + [f] + path;
      Rekeyed(rest, f, key, path, if front[0].red then n else n + 1);
      assert (front + [g] + path)[0] == front[0] && (front + [f] + path)[0] == front[0];
      assert |front| > 1 || rest == [];
    }
  }

  lemma SameTop(front: Path, f: Frame, g: Frame, path: Path)
    requires f.red == g.red
    ensures (front + [f] + path)[0].red == (front + [g] + path)[0].red
  {
  }

  lemma Successor(b: seq<nat>, l: seq<nat>, next: Tree, r: seq<nat>, after: seq<nat>, a1: seq<nat>, a: seq<nat>)
    requires next.Node? && next.left == Leaf && Inorder(next) + after == r + a1 && a1 == [] + a
    ensures (b + (l + [next.key])) + Inorder(next.right) + after == b + (l + r) + a
  {
    assert Inorder(next) == [next.key] + Inorder(next.right);
    assert (b + (l + [next.key])) + Inorder(next.right) + after == b + l + (([next.key] + Inorder(next.right)) + after);
    assert b + l + (r + a) == b + (l + r) + a;
  }

  lemma EmptyKeys()
    ensures Inorder(Leaf) == []
  {
  }

  lemma Removed(b: seq<nat>, l: seq<nat>, key: nat, r: seq<nat>, a: seq<nat>)
    requires Sorted(b + (l + [key] + r) + a)
    ensures Sorted(b + (l + r) + a)
    ensures (set k | k in b + (l + r) + a) == (set k | k in b + (l + [key] + r) + a) - {key}
  {
    var x, y := b + l, r + a;
    assert b + (l + [key] + r) + a == x + [key] + y;
    assert b + (l + r) + a == x + y;
    SplitSeq(x, key, y, key);
    var s := x + [key] + y;
    forall i, j | 0 <= i < j < |x + y| ensures (x + y)[i] < (x + y)[j] {
      assert (x + y)[i] == s[if i < |x| then i else i + 1];
      assert (x + y)[j] == s[if j < |x| then j else j + 1];
    }
  }

  lemma EmptyValid()
    ensures Valid(Leaf) && Keys(Leaf) == {}
  {
    assert Height(Leaf, 0);
  }
}
