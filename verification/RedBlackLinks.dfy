/**
 The red-black tree of wepoll.c as linked nodes. A node is named by its key, which tree_add keeps
 unique; a pointer is the key it leads to, or NULL. The class updates links and colours one by one
 as the program does; what the links spell out is a tree of RedBlackTree.
 */
module RedBlackLinks {

  import opened RedBlackTree

  datatype Ptr = Null | To(key: nat)

  /** The fields of all nodes, and the root. */
  datatype Mem = Mem(root: Ptr, left: map<nat, Ptr>, right: map<nat, Ptr>, parent: map<nat, Ptr>, red: map<nat, bool>)

  function Child(m: Mem, left: bool, k: nat): Ptr {
    var side := if left then m.left else m.right;
    if k in side then side[k] else Null
  }

  function Parent(m: Mem, k: nat): Ptr {
    if k in m.parent then m.parent[k] else Null
  }

  function IsRed(m: Mem, p: Ptr): bool {
    p.To? && p.key in m.red && m.red[p.key]
  }

  function SetChild(m: Mem, left: bool, k: nat, p: Ptr): Mem {
    if left then m.(left := m.left[k := p]) else m.(right := m.right[k := p])
  }

  function SetParent(m: Mem, k: nat, p: Ptr): Mem {
    m.(parent := m.parent[k := p])
  }

  function SetRed(m: Mem, k: nat, b: bool): Mem {
    m.(red := m.red[k := b])
  }

  function Root(t: Tree): Ptr {
    if t.Leaf? then Null else To(t.key)
  }

  function Up(path: Path): Ptr {
    if path == [] then Null else To(path[0].key)
  }

  // ---- What the links spell out

  ghost predicate NodeRep(m: Mem, k: nat, red: bool, left: Ptr, right: Ptr, up: Ptr) {
    Child(m, true, k) == left && Child(m, false, k) == right && Parent(m, k) == up && IsRed(m, To(k)) == red
  }

  ghost predicate Rep(m: Mem, t: Tree, up: Ptr) {
    t.Leaf? ||
    (NodeRep(m, t.key, t.red, Root(t.left), Root(t.right), up) && Rep(m, t.left, To(t.key))
      && Rep(m, t.right, To(t.key)))
  }

  /** The ancestors, when the child on the way down is 'child'. */
  ghost predicate PathRep(m: Mem, path: Path, child: Ptr) {
    if path == [] then m.root == child
    else
      var f := path[0];
      && NodeRep(m, f.key, f.red, if f.left then child else Root(f.other), if f.left then Root(f.other) else child,
         Up(path[1..]))
      && Rep(m, f.other, To(f.key))
      && PathRep(m, path[1..], To(f.key))
  }

  ghost predicate Spells(m: Mem, t: Tree) {
    m.root == Root(t) && Rep(m, t, Null)
  }

  /** The links spell out the tree around a position exactly when they do so above and below it. */
  lemma {:induction false} SpellsAt(m: Mem, path: Path, t: Tree)
    ensures Spells(m, Plug(path, t)) <==> PathRep(m, path, Root(t)) && Rep(m, t, Up(path))
  {
    if path != [] {
      var f := path[0];
      var up := Make(f.left, f.red, t, f.key, f.other);
      SpellsAt(m, path[1..], up);
    }
  }

  // ---- Distinct keys

  function KeySet(t: Tree): set<nat> {
    if t.Leaf? then {} else KeySet(t.left) + {t.key} + KeySet(t.right)
  }

  predicate Distinct(t: Tree) {
    t.Leaf? ||
    (Distinct(t.left) && Distinct(t.right) && t.key !in KeySet(t.left) && t.key !in KeySet(t.right)
      && KeySet(t.left) !! KeySet(t.right))
  }

  function PathKeys(path: Path): set<nat> {
    if path == [] then {} else {path[0].key} + KeySet(path[0].other) + PathKeys(path[1..])
  }

  predicate PathDistinct(path: Path) {
    path == [] ||
    (Distinct(path[0].other) && path[0].key !in KeySet(path[0].other) && PathDistinct(path[1..])
     && PathKeys(path[1..]) !! KeySet(path[0].other) + {path[0].key})
  }

  lemma {:induction false} DistinctAt(path: Path, t: Tree)
    ensures KeySet(Plug(path, t)) == PathKeys(path) + KeySet(t)
    ensures Distinct(Plug(path, t)) <==> PathDistinct(path) && Distinct(t) && PathKeys(path) !! KeySet(t)
  {
    if path != [] {
      var f := path[0];
      DistinctAt(path[1..], Make(f.left, f.red, t, f.key, f.other));
    }
  }

  // ---- Frames

  ghost predicate Same(m: Mem, n: Mem, k: nat) {
    Child(m, true, k) == Child(n, true, k) && Child(m, false, k) == Child(n, false, k)
    && Parent(m, k) == Parent(n, k) && IsRed(m, To(k)) == IsRed(n, To(k))
  }

  lemma {:induction false} RepFrame(m: Mem, n: Mem, t: Tree, up: Ptr)
    requires Rep(m, t, up) && forall k :: k in KeySet(t) ==> Same(m, n, k)
    ensures Rep(n, t, up)
  {
    if t.Node? {
      RepFrame(m, n, t.left, To(t.key));
      RepFrame(m, n, t.right, To(t.key));
      assert Same(m, n, t.key);
    }
  }

  lemma {:induction false} PathFrame(m: Mem, n: Mem, path: Path, child: Ptr)
    requires PathRep(m, path, child) && (forall k :: k in PathKeys(path) ==> Same(m, n, k))
    requires n.root == m.root
    ensures PathRep(n, path, child)
  {
    if path != [] {
      var f := path[0];
      RepFrame(m, n, f.other, To(f.key));
      PathFrame(m, n, path[1..], To(f.key));
      assert Same(m, n, f.key);
    }
  }

  /** Another parent above, nothing else changed. */
  lemma Reparented(m: Mem, n: Mem, t: Tree, up: Ptr, now: Ptr)
    requires Rep(m, t, up) && Distinct(t) && (t.Node? ==> Parent(n, t.key) == now)
    requires t.Node? ==>
               Child(m, true, t.key) == Child(n, true, t.key) && Child(m, false, t.key) == Child(n, false, t.key)
    requires t.Node? ==> IsRed(m, To(t.key)) == IsRed(n, To(t.key))
    requires forall k :: k in KeySet(t) && To(k) != Root(t) ==> Same(m, n, k)
    ensures Rep(n, t, now)
  {
    if t.Node? {
      RepFrame(m, n, t.left, To(t.key));
      RepFrame(m, n, t.right, To(t.key));
    }
  }

  /** Another child below a position, and nothing else changed above it. */
  lemma Rehung(m: Mem, n: Mem, path: Path, child: Ptr, now: Ptr)
    requires PathRep(m, path, child) && PathDistinct(path)
    requires path == [] ==> n.root == now
    requires path != [] ==> n.root == m.root && NodeRep(n, path[0].key, path[0].red,
               if path[0].left then now else Root(path[0].other), if path[0].left then Root(path[0].other) else now,
                 Up(path[1..]))
    requires forall k :: k in PathKeys(path) && To(k) != Up(path) ==> Same(m, n, k)
    ensures PathRep(n, path, now)
  {
    if path != [] {
      RepFrame(m, n, path[0].other, To(path[0].key));
      PathFrame(m, n, path[1..], To(path[0].key));
    }
  }

  // ---- Colour

  lemma PaintOk(m: Mem, path: Path, t: Tree, b: bool)
    requires t.Node? && Spells(m, Plug(path, t)) && Distinct(Plug(path, t))
    ensures Spells(SetRed(m, t.key, b), Plug(path, t.(red := b))) && Distinct(Plug(path, t.(red := b)))
  {
    hide Plug, Spells, PathRep, PathDistinct, PathKeys;
    var n := SetRed(m, t.key, b);
    DistinctAt(path, t);
    DistinctAt(path, t.(red := b));
    assert KeySet(t.(red := b)) == KeySet(t);
    SpellsAt(m, path, t);
    SpellsAt(n, path, t.(red := b));
    RepFrame(m, n, t.left, To(t.key));
    RepFrame(m, n, t.right, To(t.key));
    PathFrame(m, n, path, Root(t));
  }

  // ---- Rotation

  /** The parent's link to p, or the root, becomes q. */
  function Hang(m: Mem, p: nat, q: Ptr): Mem {
    match Parent(m, p)
    case To(parent) => SetChild(m, Child(m, true, parent) == To(p), parent, q)
    case Null => m.(root := q)
  }

  /** TREE__ROTATE: p goes down on the side 'cis', its child q on the other side takes its place. */
  function Rotated(m: Mem, cis: bool, p: nat): Mem
    requires Child(m, !cis, p).To?
  {
    var q := Child(m, !cis, p).key;
    var m1 := SetParent(Hang(m, p, To(q)), q, Parent(m, p));
    var m2 := SetParent(m1, p, To(q));
    var m3 := SetChild(m2, !cis, p, Child(m2, cis, q));
    var m4 := if Child(m3, !cis, p).To? then SetParent(m3, Child(m3, !cis, p).key, To(p)) else m3;
    SetChild(m4, cis, q, To(p))
  }

  lemma HangOk(m: Mem, path: Path, t: Tree, q: Ptr)
    requires t.Node? && PathRep(m, path, Root(t)) && Parent(m, t.key) == Up(path) && PathDistinct(path)
    requires t.key !in PathKeys(path)
    ensures var n := Hang(m, t.key, q);
            && PathRep(n, path, q)
            && n.parent == m.parent && n.red == m.red && (path != [] ==> n.root == m.root)
            && forall k :: To(k) != Up(path) ==> Same(m, n, k)
  {
    var n := Hang(m, t.key, q);
    if path != [] {
      RootIn(path[0].other);
      assert Child(m, true, path[0].key) == To(t.key) <==> path[0].left;
    }
    Rehung(m, n, path, Root(t), q);
  }

  lemma RootIn(t: Tree)
    ensures t.Node? ==> t.key in KeySet(t)
  {
  }

  lemma RotateOk(m: Mem, path: Path, cis: bool, pr: bool, x: Tree, p: nat, qr: bool, y: Tree, q: nat, z: Tree)
    requires Spells(m, Plug(path, Make(cis, pr, x, p, Make(cis, qr, y, q, z))))
    requires Distinct(Plug(path, Make(cis, pr, x, p, Make(cis, qr, y, q, z))))
    ensures Child(m, !cis, p) == To(q)
    ensures Spells(Rotated(m, cis, p), Plug(path, Make(cis, qr, Make(cis, pr, x, p, y), q, z)))
    ensures Distinct(Plug(path, Make(cis, qr, Make(cis, pr, x, p, y), q, z)))
  {
    hide Plug, Spells, Rotated, Hang, PathRep, PathDistinct, PathKeys, KeySet, Distinct, Rep, Same;
    var before, after := Make(cis, pr, x, p, Make(cis, qr, y, q, z)), Make(cis, qr, Make(cis, pr, x, p, y), q, z);
    DistinctAt(path, before);
    DistinctAt(path, after);
    RotateDistinct(cis, pr, x, p, qr, y, q, z);
    SpellsAt(m, path, before);
    RotateUse(m, path, cis, pr, x, p, qr, y, q, z);
    SpellsAt(Rotated(m, cis, p), path, after);
    RootIn(before);
    HangOk(m, path, before, To(q));
    UpIn(path);
    RotateBelow(m, path, cis, pr, x, p, qr, y, q, z);
  }

  lemma RotateDistinct(cis: bool, pr: bool, x: Tree, p: nat, qr: bool, y: Tree, q: nat, z: Tree)
    ensures var before, after := Make(cis, pr, x, p, Make(cis, qr, y, q, z)),
            Make(cis, qr, Make(cis, pr, x, p, y), q, z);
            KeySet(after) == KeySet(before) && (Distinct(before) ==> Distinct(after))
  {
    var w := Make(cis, pr, x, p, y);
    assert KeySet(w) == KeySet(x) + KeySet(y) + {p};
    RotateKeySet(cis, pr, x, p, qr, y, q, z);
    if Distinct(Make(cis, pr, x, p, Make(cis, qr, y, q, z))) {
      RotateKeys([], cis, pr, x, p, qr, y, q, z);
      assert Distinct(w);
    }
  }

  lemma UpIn(path: Path)
    ensures Up(path).To? ==> Up(path).key in PathKeys(path)
  {
  }

  /** What TREE__ROTATE leaves in the fields, given the state h after the parent's link was changed. */
  lemma RotatedFields(m: Mem, h: Mem, cis: bool, p: nat, q: nat, y: Ptr)
    requires Child(m, !cis, p) == To(q) && h == Hang(m, p, To(q)) && p != q && y == Child(h, cis, q)
    requires y != To(p) && y != To(q) && Parent(m, p) != To(p) && Parent(m, p) != To(q)
    ensures var n := Rotated(m, cis, p);
            && n.root == h.root && n.red == m.red
            && Child(n, cis, q) == To(p) && Child(n, !cis, q) == Child(h, !cis, q) && Parent(n, q) == Parent(m, p)
            && Child(n, !cis, p) == y && Child(n, cis, p) == Child(h, cis, p) && Parent(n, p) == To(q)
            && (y.To? ==>
                  && Parent(n, y.key) == To(p) && Child(n, true, y.key) == Child(h, true, y.key)
                  && Child(n, false, y.key) == Child(h, false, y.key))
            && forall k :: k != p && k != q && To(k) != y ==> Same(h, n, k)
  {
    hide Hang;
    HangKeeps(m, p, To(q));
    Relinked(h, Parent(m, p), cis, p, q, y);
  }

  lemma HangKeeps(m: Mem, p: nat, q: Ptr)
    ensures Hang(m, p, q).parent == m.parent && Hang(m, p, q).red == m.red
  {
  }

  lemma Relinked(h: Mem, up: Ptr, cis: bool, p: nat, q: nat, y: Ptr)
    requires p != q && y == Child(h, cis, q) && y != To(p) && y != To(q)
    ensures var m2 := SetParent(SetParent(h, q, up), p, To(q));
            var m3 := SetChild(m2, !cis, p, y);
            var m4 := if y.To? then SetParent(m3, y.key, To(p)) else m3;
            var n := SetChild(m4, cis, q, To(p));
            && Child(m2, cis, q) == y && Child(m3, !cis, p) == y
            && Child(n, cis, q) == To(p) && Child(n, !cis, q) == Child(h, !cis, q) && Parent(n, q) == up
            && Child(n, !cis, p) == y && Child(n, cis, p) == Child(h, cis, p) && Parent(n, p) == To(q)
            && (y.To? ==>
                  && Parent(n, y.key) == To(p) && Child(n, true, y.key) == Child(h, true, y.key)
                  && Child(n, false, y.key) == Child(h, false, y.key))
            && forall k :: k != p && k != q && To(k) != y ==> Same(h, n, k)
  {
  }

  lemma RotateBelow(m: Mem, path: Path, cis: bool, pr: bool, x: Tree, p: nat, qr: bool, y: Tree, q: nat, z: Tree)
    requires var before := Make(cis, pr, x, p, Make(cis, qr, y, q, z));
             && Distinct(before) && Rep(m, before, Up(path)) && PathKeys(path) !! KeySet(before)
             && (Up(path).To? ==> Up(path).key in PathKeys(path))
    requires var h := Hang(m, p, To(q));
             && PathRep(h, path, To(q)) && h.parent == m.parent && h.red == m.red
             && forall k :: To(k) != Up(path) ==> Same(m, h, k)
    ensures Child(m, !cis, p) == To(q)
    ensures PathRep(Rotated(m, cis, p), path, To(q))
    ensures Rep(Rotated(m, cis, p), Make(cis, qr, Make(cis, pr, x, p, y), q, z), Up(path))
  {
    hide Rotated, Hang, PathRep, PathKeys, KeySet, Distinct, Rep, Same;
    RotateUse(m, path, cis, pr, x, p, qr, y, q, z);
    var h, n := Hang(m, p, To(q)), Rotated(m, cis, p);
    RootIn(y);
    RotateKeys(path, cis, pr, x, p, qr, y, q, z);
    HangFields(m, h, path, p, q);
    RotatedFields(m, h, cis, p, q, Root(y));
    PathFrame(h, n, path, To(q));
    forall k | To(k) != Up(path) && k != p && k != q && To(k) != Root(y) ensures Same(m, n, k) {
      SameTrans(m, h, n, k);
    }
    RepFrame(m, n, x, To(p));
    RepFrame(m, n, z, To(q));
    Reparented(m, n, y, To(q), To(p));
    RotateRep(n, path, cis, pr, x, p, qr, y, q, z);
  }

  lemma HangFields(m: Mem, h: Mem, path: Path, p: nat, q: nat)
    requires (forall k :: To(k) != Up(path) ==> Same(m, h, k)) && To(p) != Up(path) && To(q) != Up(path)
    ensures forall c, k :: To(k) != Up(path) ==> Child(h, c, k) == Child(m, c, k)
  {
    forall c: bool, k: nat | To(k) != Up(path) ensures Child(h, c, k) == Child(m, c, k) {
      assert Same(m, h, k);
    }
  }

  lemma SameTrans(a: Mem, b: Mem, c: Mem, k: nat)
    requires Same(a, b, k) && Same(b, c, k)
    ensures Same(a, c, k)
  {
  }

  /** The keys involved in a rotation are all different. */
  lemma RotateKeys(path: Path, cis: bool, pr: bool, x: Tree, p: nat, qr: bool, y: Tree, q: nat, z: Tree)
    requires var before := Make(cis, pr, x, p, Make(cis, qr, y, q, z));
             Distinct(before) && PathKeys(path) !! KeySet(before)
    ensures p != q && p !in PathKeys(path) && q !in PathKeys(path)
    ensures p !in KeySet(x) + KeySet(y) + KeySet(z) && q !in KeySet(x) + KeySet(y) + KeySet(z)
    ensures KeySet(x) !! KeySet(y) && KeySet(x) !! KeySet(z) && KeySet(y) !! KeySet(z)
    ensures PathKeys(path) !! KeySet(x) + KeySet(y) + KeySet(z)
    ensures Distinct(x) && Distinct(y) && Distinct(z)
  {
    hide PathKeys;
    RotateKeySet(cis, pr, x, p, qr, y, q, z);
  }

  lemma RotateKeySet(cis: bool, pr: bool, x: Tree, p: nat, qr: bool, y: Tree, q: nat, z: Tree)
    ensures KeySet(Make(cis, pr, x, p, Make(cis, qr, y, q, z))) == KeySet(x) + KeySet(y) + KeySet(z) + {p, q}
  {
  }

  lemma RotateRep(n: Mem, path: Path, cis: bool, pr: bool, x: Tree, p: nat, qr: bool, y: Tree, q: nat, z: Tree)
    requires Child(n, cis, q) == To(p) && Child(n, !cis, q) == Root(z) && Parent(n, q) == Up(path)
    requires IsRed(n, To(q)) == qr
    requires Child(n, !cis, p) == Root(y) && Child(n, cis, p) == Root(x) && Parent(n, p) == To(q)
    requires IsRed(n, To(p)) == pr
    requires Rep(n, x, To(p)) && Rep(n, y, To(p)) && Rep(n, z, To(q))
    ensures Rep(n, Make(cis, qr, Make(cis, pr, x, p, y), q, z), Up(path))
  {
  }

  /** The fields of the two nodes before a rotation. */
  lemma RotateUse(m: Mem, path: Path, cis: bool, pr: bool, x: Tree, p: nat, qr: bool, y: Tree, q: nat, z: Tree)
    requires Rep(m, Make(cis, pr, x, p, Make(cis, qr, y, q, z)), Up(path))
    ensures Child(m, !cis, p) == To(q) && Child(m, cis, p) == Root(x) && Parent(m, p) == Up(path)
    ensures IsRed(m, To(p)) == pr
    ensures Child(m, cis, q) == Root(y) && Child(m, !cis, q) == Root(z) && IsRed(m, To(q)) == qr
    ensures Rep(m, x, To(p)) && Rep(m, y, To(q)) && Rep(m, z, To(q))
  {
  }

  // ---- The steps of the repair after insertion

  /** The links spell out a tree with distinct keys. */
  ghost predicate Good(m: Mem, t: Tree) {
    Spells(m, t) && Distinct(t)
  }

  lemma Paint(m: Mem, path: Path, t: Tree, b: bool)
    requires t.Node? && Good(m, Plug(path, t))
    ensures Good(SetRed(m, t.key, b), Plug(path, t.(red := b)))
  {
    PaintOk(m, path, t, b);
  }

  lemma Rotate(m: Mem, path: Path, cis: bool, pr: bool, x: Tree, p: nat, qr: bool, y: Tree, q: nat, z: Tree)
    requires Good(m, Plug(path, Make(cis, pr, x, p, Make(cis, qr, y, q, z))))
    ensures Child(m, !cis, p) == To(q)
    ensures Good(Rotated(m, cis, p), Plug(path, Make(cis, qr, Make(cis, pr, x, p, y), q, z)))
  {
    RotateOk(m, path, cis, pr, x, p, qr, y, q, z);
  }

  lemma Turned(left: bool, red: bool, a: Tree, k: nat, b: Tree)
    ensures Make(left, red, a, k, b) == Make(!left, red, b, k, a)
  {
  }

  /** One step up, and one step down on the other side. */
  lemma Climb(path: Path, t: Tree)
    requires path != []
    ensures var f := path[0];
            && Plug(path, t) == Plug(path[1..], Make(f.left, f.red, t, f.key, f.other))
            && Plug(path, t) == Plug([Frame(!f.left, f.red, f.key, t)] + path[1..], f.other)
  {
    var f := path[0];
    Turned(f.left, f.red, t, f.key, f.other);
    var side := [Frame(!f.left, f.red, f.key, t)] + path[1..];
    assert side[1..] == path[1..];
  }

  lemma RecolourLinks(m: Mem, path: Path, node: Tree)
    requires |path| > 1 && path[1].other.Node? && Good(m, Plug(path, node))
    ensures var n := SetRed(SetRed(SetRed(m, path[0].key, false), path[1].other.key, false), path[1].key, true);
            Good(n, Plug(path[2..], Recolour(path, node)))
  {
    hide Good, Plug;
    var p, g := path[0], path[1];
    var up := path[1..];
    assert up[0] == g && up[1..] == path[2..];
    var parent := Make(p.left, p.red, node, p.key, p.other);
    Climb(path, node);
    Paint(m, up, parent, false);
    var black := parent.(red := false);
    Climb(up, black);
    var side := [Frame(!g.left, g.red, g.key, black)] + path[2..];
    Paint(SetRed(m, p.key, false), side, g.other, false);
    Climb(side, Blacken(g.other));
    assert side[1..] == path[2..];
    Turned(!g.left, g.red, Blacken(g.other), g.key, black);
    Paint(SetRed(SetRed(m, p.key, false), g.other.key, false), path[2..],
      Make(g.left, g.red, black, g.key, Blacken(g.other)), true);
  }

  /** The last rotation: parent black, grandparent red and below it. */
  lemma OuterLinks(m: Mem, path: Path, left: bool, gr: bool, pr: bool, node: Tree, p: nat, other: Tree, g: nat,
      uncle: Tree)
    requires Good(m, Plug(path, Make(left, gr, Make(left, pr, node, p, other), g, uncle)))
    ensures var n := SetRed(SetRed(m, p, false), g, true);
            && Child(n, left, g) == To(p)
            && Good(Rotated(n, !left, g), Plug(path, Make(left, false, node, p, Make(left, true, other, g, uncle))))
  {
    hide Good, Plug;
    var parent := Make(left, pr, node, p, other);
    var up := [Frame(left, gr, g, uncle)] + path;
    assert up[1..] == path;
    Climb(up, parent);
    Paint(m, up, parent, false);
    var black := parent.(red := false);
    Climb(up, black);
    var top := Make(left, gr, black, g, uncle);
    Paint(SetRed(m, p, false), path, top, true);
    Turned(left, true, black, g, uncle);
    Turned(left, false, node, p, other);
    Rotate(SetRed(SetRed(m, p, false), g, true), path, !left, true, uncle, g, false, other, p, node);
    Turned(!left, true, uncle, g, other);
    Turned(!left, false, Make(!left, true, uncle, g, other), p, node);
  }

  /** The first rotation, when the node is on the inner side. */
  lemma InnerLinks(m: Mem, path: Path, node: Tree)
    requires |path| > 1 && path[0].left != path[1].left && node.Node? && Good(m, Plug(path, node))
    ensures var p, g := path[0], path[1];
            && Child(m, !g.left, p.key) == To(node.key)
            && Good(Rotated(m, g.left, p.key), Plug(path[2..],
                 Make(g.left, g.red, Make(g.left, node.red, Make(g.left, p.red, p.other, p.key, Cis(g.left, node)),
                   node.key, Cis(!g.left, node)),
                      g.key, g.other)))
  {
    hide Good, Plug;
    var p, g := path[0], path[1];
    var up := path[1..];
    assert up[0] == g && up[1..] == path[2..];
    Climb(path, node);
    Turned(p.left, p.red, node, p.key, p.other);
    var x, y := Cis(g.left, node), Cis(!g.left, node);
    assert node == Make(g.left, node.red, x, node.key, y);
    Rotate(m, up, g.left, p.red, p.other, p.key, node.red, x, node.key, y);
    Climb(up, Make(g.left, node.red, Make(g.left, p.red, p.other, p.key, x), node.key, y));
  }

  // ---- The steps of the repair after removal

  /** Painting the other child of the parent. */
  lemma PaintOther(m: Mem, path: Path, node: Tree, b: bool)
    requires path != [] && path[0].other.Node? && Good(m, Plug(path, node))
    ensures var f := path[0];
            Good(SetRed(m, f.other.key, b), Plug(path[1..], Make(f.left, f.red, node, f.key, f.other.(red := b))))
  {
    hide Good, Plug;
    var f := path[0];
    var side := [Frame(!f.left, f.red, f.key, node)] + path[1..];
    assert side[1..] == path[1..];
    Climb(path, node);
    Paint(m, side, f.other, b);
    Climb(side, f.other.(red := b));
    Turned(f.left, f.red, node, f.key, f.other.(red := b));
  }

  lemma LowerLinks(m: Mem, path: Path, node: Tree)
    requires path != [] && path[0].other.Node? && Good(m, Plug(path, node))
    ensures var f := path[0];
            var n := SetRed(SetRed(m, f.other.key, false), f.key, true);
            && Child(n, !f.left, f.key) == To(f.other.key)
            && Good(Rotated(n, f.left, f.key), Plug(Lower(path), node))
  {
    hide Good, Plug;
    var f := path[0];
    var s := f.other;
    PaintOther(m, path, node, false);
    var black := s.(red := false);
    Paint(SetRed(m, s.key, false), path[1..], Make(f.left, f.red, node, f.key, black), true);
    var y, z := Cis(f.left, s), Cis(!f.left, s);
    assert black == Make(f.left, false, y, s.key, z);
    Rotate(SetRed(SetRed(m, s.key, false), f.key, true), path[1..], f.left, true, node, f.key, false, y, s.key, z);
    var low := Lower(path);
    assert low[1..][1..] == path[1..] && low[1..][0] == low[1];
    Climb(low, node);
    Climb(low[1..], Make(f.left, true, node, f.key, y));
  }

  /** The sibling's far child is red. */
  lemma FarLinks(m: Mem, path: Path, f: Frame, node: Tree, sr: bool, near: Tree, s: nat, far: Tree)
    requires far.Node? && Good(m, Plug(path, Make(f.left, f.red, node, f.key, Make(f.left, sr, near, s, far))))
    ensures var n := SetRed(SetRed(SetRed(m, s, f.red), far.key, false), f.key, false);
            && Child(n, !f.left, f.key) == To(s)
            && Good(Rotated(n, f.left, f.key),
               Plug(path, Make(f.left, f.red, Make(f.left, false, node, f.key, near), s, Blacken(far))))
  {
    hide Good, Plug;
    var g := f.(other := Make(f.left, sr, near, s, far));
    var up := [g] + path;
    assert up[1..] == path;
    Climb(up, node);
    PaintOther(m, up, node, f.red);
    var m1 := SetRed(m, s, f.red);
    var sib := Make(f.left, f.red, near, s, far);
    var down := [Frame(!f.left, f.red, s, near), Frame(!f.left, f.red, f.key, node)] + path;
    assert down[1..][0] == down[1] && down[1..][1..] == path;
    Climb(down, far);
    Climb(down[1..], Make(!f.left, f.red, far, s, near));
    Turned(f.left, f.red, near, s, far);
    Turned(f.left, f.red, node, f.key, sib);
    Paint(m1, down, far, false);
    var m2 := SetRed(m1, far.key, false);
    Climb(down, Blacken(far));
    Climb(down[1..], Make(!f.left, f.red, Blacken(far), s, near));
    Turned(f.left, f.red, near, s, Blacken(far));
    var sib2 := Make(f.left, f.red, near, s, Blacken(far));
    Turned(f.left, f.red, node, f.key, sib2);
    Paint(m2, path, Make(f.left, f.red, node, f.key, sib2), false);
    Rotate(SetRed(m2, f.key, false), path, f.left, false, node, f.key, f.red, near, s, Blacken(far));
  }

  /** The sibling's near child takes the sibling's place, with the sibling red below it. */
  lemma NearLinks(m: Mem, path: Path, node: Tree)
    requires path != [] && path[0].other.Node? && Cis(path[0].left, path[0].other).Node? && Good(m, Plug(path, node))
    ensures var f := path[0]; var s := f.other; var near, far := Cis(f.left, s), Cis(!f.left, s);
            var n := SetRed(SetRed(m, near.key, false), s.key, true);
            && Child(n, f.left, s.key) == To(near.key)
            && Good(Rotated(n, !f.left, s.key), Plug(path[1..], Make(f.left, f.red, node, f.key,
                 Make(f.left, false, Cis(f.left, near), near.key, Make(f.left, true, Cis(!f.left, near), s.key, far)))))
  {
    hide Good, Plug;
    var f := path[0];
    var s := f.other;
    var near, far := Cis(f.left, s), Cis(!f.left, s);
    var side := [Frame(!f.left, f.red, f.key, node)] + path[1..];
    assert side[1..] == path[1..];
    Climb(path, node);
    var down := [Frame(f.left, s.red, s.key, far)] + side;
    assert down[1..] == side;
    Climb(down, near);
    assert s == Make(f.left, s.red, near, s.key, far);
    Paint(m, down, near, false);
    var m1 := SetRed(m, near.key, false);
    var black := near.(red := false);
    Climb(down, black);
    Paint(m1, side, Make(f.left, s.red, black, s.key, far), true);
    var m2 := SetRed(m1, s.key, true);
    var x, y := Cis(f.left, near), Cis(!f.left, near);
    Turned(f.left, true, black, s.key, far);
    Turned(f.left, false, x, near.key, y);
    assert black == Make(f.left, false, x, near.key, y);
    Rotate(m2, side, !f.left, true, far, s.key, false, y, near.key, x);
    Turned(!f.left, true, far, s.key, y);
    var low := Make(f.left, true, y, s.key, far);
    Turned(!f.left, false, low, near.key, x);
    var now := Make(f.left, false, x, near.key, low);
    Climb(side, now);
    Turned(f.left, f.red, node, f.key, now);
  }

  // ---- Reading the links

  /** What the program finds at a node and its parent. */
  lemma Around1(m: Mem, path: Path, node: Tree)
    requires Good(m, Plug(path, node))
    ensures Root(node) == if path == [] then m.root else Child(m, path[0].left, path[0].key)
    ensures node.Node? ==> Parent(m, node.key) == Up(path) && IsRed(m, Root(node)) == node.red
    ensures node.Node? ==> Child(m, true, node.key) == Root(node.left) && Child(m, false, node.key) == Root(node.right)
    ensures IsRed(m, Root(node)) == Red(node)
    ensures path != [] ==>
            && IsRed(m, Up(path)) == path[0].red
            && Child(m, !path[0].left, path[0].key) == Root(path[0].other)
    ensures path != [] ==> IsRed(m, Root(path[0].other)) == Red(path[0].other)
    ensures path != [] ==> Parent(m, path[0].key) == Up(path[1..])
  {
    hide Plug, Spells;
    SpellsAt(m, path, node);
  }

  /** Only the right side of the parent leads to a node. */
  lemma WhichSide(m: Mem, path: Path, node: Tree)
    requires path != [] && node.Node? && Good(m, Plug(path, node))
    ensures forall c :: Child(m, c, path[0].key) == To(node.key) <==> c == path[0].left
  {
    hide Plug, Spells;
    SpellsAt(m, path, node);
    DistinctAt(path, node);
    RootIn(path[0].other);
    RootIn(node);
  }

  class Links {
    var mem: Mem
    ghost var tree: Tree   // what the links spell out

    ghost predicate Valid()
      reads this
    {
      Good(mem, tree) && RedBlackTree.Valid(tree)
    }

    /** tree_init. */
    constructor ()
      ensures Valid() && Keys(tree) == {}
    {
      mem := Mem(Null, map[], map[], map[], map[]);
      tree := Leaf;
      new;
      EmptyValid();
    }

    /** One round of the loop in tree_add. */
    method RepairRound(ghost path: Path, ghost sub: Tree, node: nat, parent: nat) returns (next: nat)
      requires |path| > 1 && path[0].red && sub.Node? && Good(mem, Plug(path, sub)) && node == sub.key
      requires parent == path[0].key
      modifies this
      ensures Red(path[1].other) ==> next == path[1].key && Good(mem, Plug(path[2..], Recolour(path, sub)))
      ensures !Red(path[1].other) ==>
                && Good(mem, Plug(path[2..], Restructure(path, sub)))
                && next == if path[0].left == path[1].left then node else parent
    {
      hide Good, Plug;
      ghost var p, g := path[0], path[1];
      ghost var above := Make(p.left, p.red, sub, p.key, p.other);
      Climb(path, sub);
      Around1(mem, path, sub);
      WhichSide(mem, path, sub);
      assert path[1..][0] == g && path[1..][1..] == path[2..];
      Around1(mem, path[1..], above);
      WhichSide(mem, path[1..], above);
      var grandparent := Parent(mem, parent).key;
      var cis := Child(mem, true, grandparent) == To(parent);
      var uncle := Child(mem, !cis, grandparent);
      if IsRed(mem, uncle) {
        RecolourLinks(mem, path, sub);
        mem := SetRed(mem, parent, false);
        mem := SetRed(mem, uncle.key, false);
        mem := SetRed(mem, grandparent, true);
        return grandparent;
      }
      var top := parent;
      next := node;
      if Child(mem, !cis, parent) == To(node) {
        InnerLinks(mem, path, sub);
        OuterLinks(Rotated(mem, cis, parent), path[2..], cis, g.red, sub.red,
                   Make(cis, p.red, p.other, p.key, Cis(cis, sub)), node, Cis(!cis, sub), grandparent, g.other);
        mem := Rotated(mem, cis, parent);
        next := parent;
        AfterInner(mem, path[2..], cis, g, sub, Make(cis, p.red, p.other, p.key, Cis(cis, sub)));
        top := Parent(mem, next).key;
      } else {
        Climb(path[1..], above);
        OuterLinks(mem, path[2..], cis, g.red, p.red, sub, parent, p.other, grandparent, g.other);
      }
      mem := SetRed(mem, top, false);
      mem := SetRed(mem, grandparent, true);
      mem := Rotated(mem, !cis, grandparent);
    }

    /** The loop of tree_add and the blackening of the root. */
    method RepairInsert(ghost path0: Path, ghost sub0: Tree, ghost n0: nat, node0: nat) returns (ghost t: Tree)
      requires Good(mem, Plug(path0, sub0)) && At(path0, sub0, n0) && Red(sub0) && node0 == sub0.key
      modifies this
      ensures Good(mem, t) && Balanced(t) && Inorder(t) == Before(path0) + Inorder(sub0) + After(path0)
    {
      hide Good, Plug, Inorder, Before, After, Height, NoRedRed, PathHeight, Restructure, Recolour;
      ghost var path, sub, n := path0, sub0, n0;
      ghost var all := Before(path0) + Inorder(sub0) + After(path0);
      var node := node0;
      Around1(mem, path, sub);
      var parent := Parent(mem, node);
      while IsRed(mem, parent)
        invariant Good(mem, Plug(path, sub)) && At(path, sub, n) && Red(sub) && node == sub.key && parent == Up(path)
        invariant Before(path) + Inorder(sub) + After(path) == all
        decreases |path|
      {
        Around1(mem, path, sub);
        node := RepairRound(path, sub, node, parent.key);
        if Red(path[1].other) {
          NewRoot(path, sub);
          RecolourOk(path, sub, n);
          sub := Recolour(path, sub);
          path, n := path[2..], n + 1;
        } else {
          RestructuredBelow(path, sub, n);
          ghost var r := Restructure(path, sub);
          path, sub := Down(path[2..], r, path[1].left), Cis(path[1].left, r);
        }
        Around1(mem, path, sub);
        parent := Parent(mem, node);
      }
      Around1(mem, path, sub);
      t := Blacken(Plug(path, sub));
      Rooted(path, sub, n);
      PlugNode(path, sub);
      PaintRoot(mem, Plug(path, sub));
      mem := SetRed(mem, mem.root.key, false);
    }

    /** tree_add. */
    method TreeAdd(key: nat) returns (added: bool)
      requires Valid()
      modifies this
      ensures Valid() && added == (key !in old(Keys(tree))) && Keys(tree) == old(Keys(tree)) + {key}
    {
      hide Good, Plug, Inorder, Height, NoRedRed, PathHeight, PathColours, Before, After;
      ghost var path: Path, node, n := [], tree, AnyHeight(tree);
      TopOk(tree, n);
      TopGood(mem, tree);
      var parent := mem.root;
      var at := Null;
      var side := true;
      while parent.To?
        invariant Good(mem, Plug(path, node)) && At(path, node, n) && Plug(path, node) == tree && parent == Root(node)
        invariant Red(node) ==> path != [] && !path[0].red
        invariant Sorted(Inorder(node)) && (forall k :: k in Before(path) ==> k < key)
                  && forall k :: k in After(path) ==> key < k
        invariant at == Up(path) && (path != [] ==> side == path[0].left)
        invariant mem == old(mem) && tree == old(tree)
        decreases node
      {
        Around1(mem, path, node);
        PlugInorder(path, node);
        Around(node, key);
        if key == parent.key {
          assert key in Inorder(tree);
          return false;
        }
        side := key < parent.key;
        DownOk(path, node, side, n);
        n := if node.red then n else n - 1;
        path, node := Down(path, node, side), Cis(side, node);
        at, parent := parent, Child(mem, side, parent.key);
      }
      PlugInorder(path, node);
      NewLeaf(key, n);
      Inserted(Before(path), key, After(path));
      KeySetIs(tree);
      InsertOk(mem, path, key);
      mem := if at.To? then SetChild(mem, side, at.key, To(key)) else mem.(root := To(key));
      mem := SetChild(SetChild(mem, true, key, Null), false, key, Null);
      mem := SetRed(SetParent(mem, key, at), key, true);
      tree := RepairInsert(path, Node(true, Leaf, key, Leaf), n, key);
      return true;
    }

    /** tree_find. */
    method TreeFind(key: nat) returns (found: bool)
      requires Valid()
      ensures found <==> key in Keys(tree)
    {
      hide Inorder;
      var node := mem.root;
      ghost var sub, up := tree, Null;
      EmptyKeys();
      while node.To?
        invariant Rep(mem, sub, up) && node == Root(sub) && Sorted(Inorder(sub))
        invariant key in Inorder(tree) <==> key in Inorder(sub)
        decreases sub
      {
        Split(sub, key);
        up := To(sub.key);
        if key < node.key {
          node, sub := Child(mem, true, node.key), sub.left;
        } else if key > node.key {
          node, sub := Child(mem, false, node.key), sub.right;
        } else {
          return true;
        }
      }
      return false;
    }

    /** The first part of TREE__REBALANCE_AFTER_REMOVE: afterwards the sibling is black. */
    method BlackSibling(ghost path: Path, ghost sub: Tree, ghost n: nat, cis: bool, parent: nat)
      returns (sibling: nat, ghost up: Path)
      requires path != [] && Lacks(path, sub, n) && Good(mem, Plug(path, sub)) && cis == path[0].left
      requires parent == path[0].key
      modifies this
      ensures up == if Red(path[0].other) then Lower(path) else path
      ensures up != [] && up[0].left == cis && up[0].key == parent && up[0].other.Node? && up[0].other.key == sibling
      ensures Good(mem, Plug(up, sub)) && !Red(up[0].other)
    {
      hide Good, Plug, Height, NoRedRed;
      SiblingExists(path, sub, n);
      Around1(mem, path, sub);
      sibling := Child(mem, !cis, parent).key;
      up := path;
      if IsRed(mem, To(sibling)) {
        LowerLinks(mem, path, sub);
        mem := SetRed(mem, sibling, false);
        mem := SetRed(mem, parent, true);
        mem := Rotated(mem, cis, parent);
        LowerOk(path, sub, n);
        up := Lower(path);
        SiblingExists(up, sub, n);
        Around1(mem, up, sub);
        sibling := Child(mem, !cis, parent).key;
      }
    }

    /** The second part, when the sibling has a red child. */
    method BorrowRound(ghost path: Path, ghost sub: Tree, cis: bool, parent: nat, sibling: nat)
      requires path != [] && Good(mem, Plug(path, sub)) && cis == path[0].left && parent == path[0].key
      requires path[0].other.Node? && path[0].other.key == sibling
      requires Red(path[0].other.left) || Red(path[0].other.right)
      modifies this
      ensures Good(mem, Plug(path[1..], Borrow(path[0], sub)))
    {
      hide Good, Plug;
      ghost var f := path[0];
      ghost var s := f.other;
      ghost var near, far := Cis(cis, s), Cis(!cis, s);
      Climb(path, sub);
      OtherSide(mem, path, sub);
      var at := sibling;
      if !IsRed(mem, Child(mem, !cis, sibling)) {
        NearLinks(mem, path, sub);
        var inner := Child(mem, cis, sibling).key;
        mem := SetRed(mem, inner, false);
        mem := SetRed(mem, sibling, true);
        mem := Rotated(mem, !cis, sibling);
        ghost var low := Make(cis, true, Cis(!cis, near), s.key, far);
        SiblingNow(mem, path[1..], f, sub, Make(cis, false, Cis(cis, near), near.key, low));
        at := Child(mem, !cis, parent).key;
        FarLinks(mem, path[1..], f, sub, false, Cis(cis, near), near.key, low);
      } else {
        assert s == Make(cis, s.red, near, s.key, far);
        FarLinks(mem, path[1..], f, sub, s.red, near, s.key, far);
      }
      mem := SetRed(mem, at, IsRed(mem, To(parent)));
      mem := SetRed(mem, Child(mem, !cis, at).key, false);
      mem := SetRed(mem, parent, false);
      mem := Rotated(mem, cis, parent);
    }

    /** The loop of tree_del that makes up for a missing black node. */
    method RepairRemove(ghost path0: Path, ghost sub0: Tree, ghost n0: nat, node0: Ptr,
        parent0: Ptr) returns (ghost t: Tree)
      requires Good(mem, Plug(path0, sub0)) && Lacks(path0, sub0, n0) && node0 == Root(sub0) && parent0 == Up(path0)
      modifies this
      ensures Good(mem, t) && Balanced(t) && Inorder(t) == Before(path0) + Inorder(sub0) + After(path0)
    {
      hide Good, Plug, Inorder, Before, After, Height, NoRedRed, PathHeight, PathColours, Lower, Borrow;
      ghost var path, sub, n := path0, sub0, n0;
      ghost var all := Before(path0) + Inorder(sub0) + After(path0);
      var node, parent := node0, parent0;
      while true
        invariant Good(mem, Plug(path, sub)) && Lacks(path, sub, n) && Before(path) + Inorder(sub) + After(path) == all
        invariant node == Root(sub) && parent == Up(path)
        decreases |path|
      {
        RootReached(mem, path, sub);
        if node == mem.root {
          Whole(sub, n);
          TopIs(sub);
          t := sub;
          break;
        }
        SiblingExists(path, sub, n);
        SideOf(mem, path, sub);
        var cis := node == Child(mem, true, parent.key);
        ghost var up;
        var sibling;
        sibling, up := BlackSibling(path, sub, n, cis, parent.key);
        if Red(path[0].other) {
          LowerOk(path, sub, n);
          LowerLength(path);
        }
        OtherSide(mem, up, sub);
        if IsRed(mem, Child(mem, true, sibling)) || IsRed(mem, Child(mem, false, sibling)) {
          BorrowOk(up, sub, n);
          Rooted(up[1..], Borrow(up[0], sub), if up[0].red then n + 1 else n + 2);
          BorrowRound(up, sub, cis, parent.key, sibling);
          t := Blacken(Plug(up[1..], Borrow(up[0], sub)));
          BorrowNode(up[0], sub);
          PlugNode(up[1..], Borrow(up[0], sub));
          PaintRoot(mem, Plug(up[1..], Borrow(up[0], sub)));
          mem := SetRed(mem, mem.root.key, false);
          return;
        }
        PaintOther(mem, up, sub, true);
        ShrinkOk(up, sub, n);
        mem := SetRed(mem, sibling, true);
        sub, path, n := Shrink(up[0], sub), up[1..], n + 1;
        Around1(mem, path, sub);
        node, parent := parent, Parent(mem, parent.key);
        if IsRed(mem, node) {
          Paint(mem, path, sub, false);
          Rooted(path, Blacken(sub), n);
          BlackRoot(path, Blacken(sub));
          mem := SetRed(mem, node.key, false);
          t := Plug(path, Blacken(sub));
          return;
        }
      }
      if node.To? {
        BlackAlready(mem, t);
        mem := SetRed(mem, node.key, false);
      }
    }

    /** The end of tree_del: the node taken out was 'victim', its child is in its place. */
    method Finish(ghost path: Path, ghost victim: Tree, ghost n: nat, node: Ptr, parent: Ptr,
        red: bool) returns (ghost t: Tree)
      requires victim.Node? && (victim.left == Leaf || victim.right == Leaf) && At(path, victim, n)
      requires Red(victim) ==> path != [] && !path[0].red
      requires Good(mem, Plug(path, OnlyChild(victim))) && red == victim.red
      requires node == Root(OnlyChild(victim)) && parent == Up(path)
      modifies this
      ensures Good(mem, t) && Balanced(t) && Inorder(t) == Before(path) + Inorder(OnlyChild(victim)) + After(path)
    {
      hide Good, Plug, Inorder, Before, After, PathHeight, PathColours;
      ghost var c := OnlyChild(victim);
      Around1(mem, path, c);
      if red {
        Rooted(path, c, n);
        BlackRoot(path, c);
        t := Plug(path, c);
        return;
      }
      if IsRed(mem, node) {
        BlackenOk(c, n - 1);
        Rooted(path, Blacken(c), n);
        BlackRoot(path, Blacken(c));
        Paint(mem, path, c, false);
        mem := SetRed(mem, node.key, false);
        t := Plug(path, Blacken(c));
        return;
      }
      t := RepairRemove(path, c, n - 1, node, parent);
    }

    /** The successor of a node with two children. */
    method Successor(right: nat, ghost path0: Path, ghost sub: Tree, ghost n0: nat)
      returns (next: nat, ghost front: Path, ghost node: Tree, ghost n: nat)
      requires sub.Node? && right == sub.key && Good(mem, Plug(path0, sub)) && At(path0, sub, n0)
      requires path0 != [] && (Red(sub) ==> !path0[0].red)
      ensures node.Node? && node.left == Leaf && next == node.key && At(front + path0, node, n)
      ensures Red(node) ==> !(front + path0)[0].red
      ensures Plug(front, node) == sub && Plug(front + path0, node) == Plug(path0, sub)
      ensures Inorder(node) + After(front + path0) == Inorder(sub) + After(path0)
      ensures forall i :: 0 <= i < |front| ==> front[i].left
    {
      hide Good, Height, NoRedRed, PathHeight, PathColours, Inorder, After, Before, Plug;
      next, front, node, n := right, [], sub, n0;
      assert [] + path0 == path0;
      TopIs(sub);
      Around1(mem, path0, sub);
      while Child(mem, true, next).To?
        invariant node.Node? && next == node.key && At(front + path0, node, n)
        invariant Red(node) ==> !(front + path0)[0].red
        invariant Plug(front, node) == sub && Plug(front + path0, node) == Plug(path0, sub)
        invariant Inorder(node) + After(front + path0) == Inorder(sub) + After(path0)
        invariant forall i :: 0 <= i < |front| ==> front[i].left
        invariant Child(mem, true, next) == Root(node.left)
        decreases node
      {
        ghost var path := front + path0;
        DownOk(path, node, true, n);
        LeftInorder(node, After(path));
        PlugDown(front, node);
        n := if node.red then n else n - 1;
        ghost var f := Frame(true, node.red, node.key, node.right);
        assert Down(path, node, true) == ([f] + front) + path0 && Down(front, node, true) == [f] + front;
        front, node := [f] + front, node.left;
        next := Child(mem, true, next).key;
        Around1(mem, front + path0, node);
      }
    }

    /** tree_del of a node with two children: its successor takes its place. */
    method UnlinkTwo(ghost path: Path, ghost sub: Tree, ghost n: nat, g: nat)
      returns (node: Ptr, parent: Ptr, red: bool, ghost way: Path, ghost victim: Tree, ghost m: nat)
      requires sub.Node? && sub.left.Node? && sub.right.Node? && g == sub.key && Good(mem, Plug(path, sub))
      requires At(path, sub, n)
      requires Red(sub) ==> path != [] && !path[0].red
      modifies this
      ensures victim.Node? && victim.left == Leaf && At(way, victim, m) && (Red(victim) ==> way != [] && !way[0].red)
      ensures Good(mem, Plug(way, victim.right)) && node == Root(victim.right) && parent == Up(way) && red == victim.red
      ensures Before(way) + Inorder(victim.right) + After(way)
              == Before(path) + (Inorder(sub.left) + Inorder(sub.right)) + After(path)
    {
      hide Good, Plug, Inorder, Height, NoRedRed, PathHeight, PathColours, Before, After, NearMem, DeepMem, Apart;
      ghost var f := Frame(false, sub.red, sub.key, sub.left);
      DownOk(path, sub, false, n);
      assert Down(path, sub, false) == [f] + path;
      Around1(mem, path, sub);
      var right := Child(mem, false, g).key;
      var next;
      ghost var front;
      next, front, victim, m := Successor(right, [f] + path, sub.right, if sub.red then n else n - 1);
      assert front + ([f] + path) == front + [f] + path;
      ghost var under := front + [f] + path;
      Around1(mem, under, victim);
      ApartOk(mem, path, sub, front, f, victim);
      ReplaceOk(mem, front, f, path, victim);
      Rekeyed(front, f, next, path, m);
      SameTop(front, f, f.(key := next), path);
      way := front + [f.(key := next)] + path;
      RedBlackTree.Successor(Before(path), Inorder(sub.left), victim, Inorder(sub.right), After(under),
        After([f] + path), After(path));
      LinksEqual(mem, Plug(way, victim.right), g, next);
      NewUp(front, f, path, next, g);
      red := IsRed(mem, To(next));
      node := Child(mem, false, next);
      if right == next {
        parent := To(next);
        mem := NearMem(mem, g, next);
      } else {
        parent := Parent(mem, next);
        mem := DeepMem(mem, g, next);
      }
    }

    /** tree_del. */
    method TreeDel(key: nat)
      requires Valid() && key in Keys(tree)
      modifies this
      ensures Valid() && Keys(tree) == old(Keys(tree)) - {key}
    {
      hide Good, Plug, Inorder, Height, NoRedRed, PathHeight, PathColours, Before, After, Hang;
      ghost var n0 := AnyHeight(tree);
      TopOk(tree, n0);
      ghost var path, sub, n := Locate([], tree, n0, key);
      Around1(mem, path, sub);
      PlugInorder(path, sub);
      RedBlackTree.Around(sub, key);
      Removed(Before(path), Inorder(sub.left), key, Inorder(sub.right), After(path));
      var parent := Parent(mem, key);
      var left, right := Child(mem, true, key), Child(mem, false, key);
      if left == Null || right == Null {
        var next := if left == Null then right else left;
        var red := IsRed(mem, To(key));
        OneInorder(sub);
        UnlinkOne(mem, path, sub);
        mem := Hang(mem, key, next);
        mem := ParentIf(mem, next, parent);
        tree := Finish(path, sub, n, next, parent, red);
      } else {
        var node, up, red;
        ghost var way, victim, m;
        node, up, red, way, victim, m := UnlinkTwo(path, sub, n, key);
        tree := Finish(way, victim, m, node, up, red);
      }
    }
  }

  lemma OneInorder(t: Tree)
    requires t.Node? && (t.left == Leaf || t.right == Leaf)
    ensures Inorder(OnlyChild(t)) == Inorder(t.left) + Inorder(t.right)
  {
  }

  /** The position of a key. */
  lemma {:induction false} Locate(path: Path, t: Tree, n: nat, key: nat) returns (p: Path, node: Tree, m: nat)
    requires At(path, t, n) && (Red(t) ==> path != [] && !path[0].red) && Sorted(Inorder(t)) && key in Inorder(t)
    ensures node.Node? && node.key == key && At(p, node, m) && (Red(node) ==> p != [] && !p[0].red)
    ensures Plug(p, node) == Plug(path, t) && Sorted(Inorder(node))
    decreases t
  {
    hide Height, NoRedRed, PathHeight, PathColours, Plug;
    RedBlackTree.Around(t, key);
    if key == t.key {
      p, node, m := path, t, n;
    } else {
      DownOk(path, t, key < t.key, n);
      p, node, m := Locate(Down(path, t, key < t.key), Cis(key < t.key, t), if t.red then n else n - 1, key);
    }
  }

  /** The program's order of statements leaves the same links as taking out and putting in. */
  lemma LinksEqual(m: Mem, t: Tree, g: nat, k: nat)
    requires Apart(m, g, k) && Good(Replaced(m, g, k), t) && g !in KeySet(t)
    ensures Child(m, false, g) == To(k) ==> Good(NearMem(m, g, k), t)
    ensures Child(m, false, g) != To(k) ==> Good(DeepMem(m, g, k), t)
  {
    hide Replaced, NearMem, DeepMem, Same;
    if Child(m, false, g) == To(k) {
      NearSame(m, g, k);
      RepFrame(Replaced(m, g, k), NearMem(m, g, k), t, Null);
    } else {
      DeepSame(m, g, k);
      RepFrame(Replaced(m, g, k), DeepMem(m, g, k), t, Null);
    }
  }

  lemma PlugDown(front: Path, node: Tree)
    requires node.Node?
    ensures Plug(Down(front, node, true), node.left) == Plug(front, node)
  {
    assert Down(front, node, true)[1..] == front;
  }

  lemma BorrowNode(f: Frame, node: Tree)
    requires f.other.Node? && (Red(f.other.left) || Red(f.other.right))
    ensures Borrow(f, node).Node?
  {
  }

  lemma TopIs(t: Tree)
    ensures Plug([], t) == t
  {
  }

  /** The node is the root exactly when there is nothing above it. */
  lemma RootReached(m: Mem, path: Path, node: Tree)
    requires Good(m, Plug(path, node))
    ensures Root(node) == m.root <==> path == []
  {
    hide Spells;
    SpellsAt(m, path, node);
    DistinctAt(path, node);
    RootIn(node);
    if path != [] {
      RootInPath(m, path, Root(node));
    }
  }

  lemma {:induction false} RootInPath(m: Mem, path: Path, child: Ptr)
    requires PathRep(m, path, child) && path != []
    ensures m.root.To? && m.root.key in PathKeys(path)
  {
    if |path| > 1 {
      RootInPath(m, path[1..], To(path[0].key));
    }
  }

  /** A node without a sibling of the same name is on the side whose link it equals. */
  lemma SideOf(m: Mem, path: Path, node: Tree)
    requires path != [] && path[0].other.Node? && Good(m, Plug(path, node))
    ensures Root(node) == Child(m, true, path[0].key) <==> path[0].left
  {
    hide Plug, Spells;
    SpellsAt(m, path, node);
    DistinctAt(path, node);
    RootIn(path[0].other);
    RootIn(node);
  }

  lemma BlackAlready(m: Mem, t: Tree)
    requires t.Node? && Good(m, t) && !Red(t)
    ensures Good(SetRed(m, t.key, false), t)
  {
    assert Plug([], t) == t;
    Paint(m, [], t, false);
    assert t.(red := false) == t;
  }

  /** What the program finds at the sibling. */
  lemma OtherSide(m: Mem, path: Path, node: Tree)
    requires path != [] && path[0].other.Node? && Good(m, Plug(path, node))
    ensures var s := path[0].other;
            && Child(m, !path[0].left, path[0].key) == To(s.key) && IsRed(m, To(path[0].key)) == path[0].red
            && forall c :: Child(m, c, s.key) == Root(Cis(c, s)) && IsRed(m, Child(m, c, s.key)) == Red(Cis(c, s))
  {
    hide Plug, Spells;
    SpellsAt(m, path, node);
    var s := path[0].other;
    ColourOf(m, s.left, To(s.key));
    ColourOf(m, s.right, To(s.key));
  }

  lemma ColourOf(m: Mem, t: Tree, up: Ptr)
    requires Rep(m, t, up)
    ensures IsRed(m, Root(t)) == Red(t)
  {
  }

  lemma SiblingNow(m: Mem, path: Path, f: Frame, node: Tree, s: Tree)
    requires s.Node? && Good(m, Plug(path, Make(f.left, f.red, node, f.key, s)))
    ensures Child(m, !f.left, f.key) == To(s.key) && IsRed(m, To(f.key)) == f.red
    ensures forall c :: Child(m, c, s.key) == Root(Cis(c, s))
  {
    hide Plug, Spells;
    SpellsAt(m, path, Make(f.left, f.red, node, f.key, s));
  }

  ghost function AnyHeight(t: Tree): (n: nat)
    requires Balanced(t)
    ensures Height(t, n)
  {
    var n: nat :| Height(t, n); n
  }

  lemma TopGood(m: Mem, t: Tree)
    requires Good(m, t)
    ensures m.root == Root(t) && Plug([], t) == t
  {
  }

  lemma {:induction false} KeySetIs(t: Tree)
    ensures KeySet(t) == Keys(t)
  {
    if t.Node? {
      KeySetIs(t.left);
      KeySetIs(t.right);
    }
  }

  /** A new red leaf at a free place. */
  lemma InsertOk(m: Mem, path: Path, key: nat)
    requires Good(m, Plug(path, Leaf)) && key !in KeySet(Plug(path, Leaf))
    ensures var m1 := if path == [] then m.(root := To(key)) else SetChild(m, path[0].left, path[0].key, To(key));
            var m2 := SetChild(SetChild(m1, true, key, Null), false, key, Null);
            var n := SetRed(SetParent(m2, key, Up(path)), key, true);
            Good(n, Plug(path, Node(true, Leaf, key, Leaf)))
  {
    hide Plug, Spells, PathRep, PathDistinct, PathKeys, Same;
    var leaf := Node(true, Leaf, key, Leaf);
    DistinctAt(path, Leaf);
    DistinctAt(path, leaf);
    SpellsAt(m, path, Leaf);
    var m1 := if path == [] then m.(root := To(key)) else SetChild(m, path[0].left, path[0].key, To(key));
    var m2 := SetChild(SetChild(m1, true, key, Null), false, key, Null);
    var n := SetRed(SetParent(m2, key, Up(path)), key, true);
    SpellsAt(n, path, leaf);
    InsertAbove(m, m1, path, key);
    FreshFields(m1, key, Up(path));
    PathFrame(m1, n, path, To(key));
  }

  lemma FreshFields(m: Mem, key: nat, up: Ptr)
    ensures var n := SetRed(SetParent(SetChild(SetChild(m, true, key, Null), false, key, Null), key, up), key, true);
            && n.root == m.root && Rep(n, Node(true, Leaf, key, Leaf), up) && forall k :: k != key ==> Same(m, n, k)
  {
  }

  lemma InsertAbove(m: Mem, m1: Mem, path: Path, key: nat)
    requires PathRep(m, path, Null) && PathDistinct(path)
    requires m1 == if path == [] then m.(root := To(key)) else SetChild(m, path[0].left, path[0].key, To(key))
    ensures PathRep(m1, path, To(key))
  {
    Rehung(m, m1, path, Null, To(key));
  }

  lemma NewRoot(path: Path, node: Tree)
    requires |path| > 1 && node.Node?
    ensures Recolour(path, node).Node? && Recolour(path, node).key == path[1].key
  {
  }

  /** After rotations the loop stands one level below the black root of the new subtree, and ends. */
  lemma RestructuredBelow(path: Path, node: Tree, n: nat)
    requires |path| > 1 && path[0].red && Red(node) && At(path, node, n) && !Red(path[1].other)
    ensures Restructure(path, node).Node?
    ensures var r := Restructure(path, node); var low, sub := Down(path[2..], r, path[1].left), Cis(path[1].left, r);
            && At(low, sub, n) && Red(sub) && !low[0].red && Plug(low, sub) == Plug(path[2..], r)
            && sub.key == (if path[0].left == path[1].left then node.key else path[0].key)
            && Before(low) + Inorder(sub) + After(low) == Before(path) + Inorder(node) + After(path)
  {
    hide At, Plug, Before, After, Inorder;
    var r := Restructure(path, node);
    RestructureOk(path, node, n);
    DownOk(path[2..], r, path[1].left, n + 1);
    InorderSplit(r);
    var low, sub := Down(path[2..], r, path[1].left), Cis(path[1].left, r);
    assert Before(low) + Inorder(sub) + After(low) == Before(path[2..]) + Inorder(r) + After(path[2..]);
  }

  lemma InorderSplit(t: Tree)
    requires t.Node?
    ensures Inorder(t) == Inorder(t.left) + [t.key] + Inorder(t.right)
  {
  }

  /** The inner rotation has put the parent below the node. */
  lemma AfterInner(m: Mem, path: Path, cis: bool, g: Frame, sub: Tree, low: Tree)
    requires sub.Node? && low.Node?
    requires Good(m, Plug(path, Make(cis, g.red, Make(cis, sub.red, low, sub.key, Cis(!cis, sub)), g.key, g.other)))
    ensures Parent(m, low.key) == To(sub.key)
  {
    hide Good, Plug;
    var up := [Frame(cis, g.red, g.key, g.other)] + path;
    var top := [Frame(cis, sub.red, sub.key, Cis(!cis, sub))] + up;
    assert up[1..] == path && top[1..] == up;
    Climb(up, Make(cis, sub.red, low, sub.key, Cis(!cis, sub)));
    Climb(top, low);
    Around1(m, top, low);
  }

  lemma {:induction false} PlugNode(path: Path, t: Tree)
    requires t.Node?
    ensures Plug(path, t).Node?
  {
    if path != [] {
      PlugNode(path[1..], Make(path[0].left, path[0].red, t, path[0].key, path[0].other));
    }
  }

  lemma PaintRoot(m: Mem, t: Tree)
    requires t.Node? && Good(m, t)
    ensures m.root == To(t.key) && Good(SetRed(m, t.key, false), Blacken(t))
  {
    assert Plug([], t) == t && Plug([], Blacken(t)) == Blacken(t);
    Paint(m, [], t, false);
  }

  // ---- Unlinking

  function ParentIf(m: Mem, p: Ptr, up: Ptr): Mem {
    if p.To? then SetParent(m, p.key, up) else m
  }

  /** A node with at most one child: the child takes its place. */
  lemma UnlinkOne(m: Mem, path: Path, node: Tree)
    requires node.Node? && (node.left == Leaf || node.right == Leaf) && Good(m, Plug(path, node))
    ensures Good(ParentIf(Hang(m, node.key, Root(OnlyChild(node))), Root(OnlyChild(node)), Up(path)),
            Plug(path, OnlyChild(node)))
  {
    hide Plug, Spells, Hang, PathRep, PathDistinct, PathKeys, Same;
    var c := OnlyChild(node);
    var h := Hang(m, node.key, Root(c));
    var n := ParentIf(h, Root(c), Up(path));
    DistinctAt(path, node);
    DistinctAt(path, c);
    SpellsAt(m, path, node);
    SpellsAt(n, path, c);
    RootIn(node);
    RootIn(c);
    UpIn(path);
    HangOk(m, path, node, Root(c));
    ParentFields(h, Root(c), Up(path));
    PathFrame(h, n, path, Root(c));
    MovedUp(m, h, n, path, c, To(node.key));
  }

  lemma ParentFields(h: Mem, p: Ptr, up: Ptr)
    ensures var n := ParentIf(h, p, up);
            && n.root == h.root && n.left == h.left && n.right == h.right && n.red == h.red
            && (p.To? ==> Parent(n, p.key) == up) && forall k :: To(k) != p ==> Same(h, n, k)
  {
  }

  /** A subtree whose root got a new parent while a link above was changed. */
  lemma MovedUp(m: Mem, h: Mem, n: Mem, path: Path, c: Tree, up: Ptr)
    requires Rep(m, c, up) && Distinct(c) && (Up(path).To? ==> Up(path).key !in KeySet(c))
    requires forall k :: To(k) != Up(path) ==> Same(m, h, k)
    requires n.left == h.left && n.right == h.right && n.red == h.red && (c.Node? ==> Parent(n, c.key) == Up(path))
    requires forall k :: To(k) != Root(c) ==> Same(h, n, k)
    ensures Rep(n, c, Up(path))
  {
    RootIn(c);
    forall k | k in KeySet(c) && To(k) != Root(c) ensures Same(m, n, k) {
      SameTrans(m, h, n, k);
    }
    if c.Node? {
      assert Same(m, h, c.key);
    }
    Reparented(m, n, c, up, Up(path));
  }

  /** Node k takes over the links and the colour of node g. */
  function Substituted(m: Mem, g: nat, k: nat): Mem {
    var h := Hang(m, g, To(k));
    var n := SetChild(SetChild(h, true, k, Child(m, true, g)), false, k, Child(m, false, g));
    var c := SetRed(SetParent(n, k, Parent(m, g)), k, IsRed(m, To(g)));
    ParentIf(ParentIf(c, Child(m, true, g), To(k)), Child(m, false, g), To(k))
  }

  lemma SubstituteOk(m: Mem, path: Path, node: Tree, k: nat)
    requires node.Node? && Good(m, Plug(path, node)) && k !in KeySet(Plug(path, node))
    ensures Good(Substituted(m, node.key, k), Plug(path, node.(key := k)))
  {
    hide Plug, Spells, Hang, PathRep, PathDistinct, PathKeys, Same, Substituted;
    var n := Substituted(m, node.key, k);
    DistinctAt(path, node);
    DistinctAt(path, node.(key := k));
    SpellsAt(m, path, node);
    SpellsAt(n, path, node.(key := k));
    RootIn(node);
    UpIn(path);
    HangOk(m, path, node, To(k));
    SubstitutedFields(m, Hang(m, node.key, To(k)), path, node, k);
    PathFrame(Hang(m, node.key, To(k)), n, path, To(k));
    Sub1(m, Hang(m, node.key, To(k)), n, path, node, k);
  }

  lemma SubstitutedFields(m: Mem, h: Mem, path: Path, node: Tree, k: nat)
    requires node.Node? && Distinct(node) && Rep(m, node, Up(path)) && k !in KeySet(node)
    requires h == Hang(m, node.key, To(k))
    ensures var n := Substituted(m, node.key, k);
            && n.root == h.root
            && NodeRep(n, k, node.red, Root(node.left), Root(node.right), Up(path))
            && (node.left.Node? ==> Parent(n, node.left.key) == To(k))
               && (node.right.Node? ==> Parent(n, node.right.key) == To(k))
            && (forall j :: j != k ==>
               && Child(n, true, j) == Child(h, true, j)
               && Child(n, false, j) == Child(h, false, j) && IsRed(n, To(j)) == IsRed(m, To(j)))
            && forall j :: j != k && To(j) != Root(node.left) && To(j) != Root(node.right) ==> Same(h, n, j)
  {
    hide Hang, Substituted;
    HangKeeps(m, node.key, To(k));
    RootIn(node.left);
    RootIn(node.right);
    var n := Substituted(m, node.key, k);
    SubstitutedAt(m, node.key, k, true, k);
    SubstitutedAt(m, node.key, k, false, k);
    if node.left.Node? {
      SubstitutedAt(m, node.key, k, true, node.left.key);
    }
    if node.right.Node? {
      SubstitutedAt(m, node.key, k, true, node.right.key);
    }
    forall j | j != k
      ensures Child(n, true, j) == Child(h, true, j) && Child(n, false, j) == Child(h, false, j)
      ensures IsRed(n, To(j)) == IsRed(m, To(j))
      ensures To(j) != Root(node.left) && To(j) != Root(node.right) ==> Same(h, n, j)
    {
      SubstitutedAt(m, node.key, k, true, j);
      SubstitutedAt(m, node.key, k, false, j);
    }
  }

  lemma Sub1(m: Mem, h: Mem, n: Mem, path: Path, node: Tree, k: nat)
    requires node.Node? && Distinct(node) && Rep(m, node, Up(path)) && k !in KeySet(node)
    requires Up(path).To? ==> Up(path).key !in KeySet(node)
    requires forall j :: To(j) != Up(path) ==> Same(m, h, j)
    requires NodeRep(n, k, node.red, Root(node.left), Root(node.right), Up(path))
    requires (node.left.Node? ==> Parent(n, node.left.key) == To(k))
    requires node.right.Node? ==> Parent(n, node.right.key) == To(k)
    requires forall j :: j != k ==>
             && Child(n, true, j) == Child(h, true, j) && Child(n, false, j) == Child(h, false, j)
             && IsRed(n, To(j)) == IsRed(m, To(j))
    requires forall j :: j != k && To(j) != Root(node.left) && To(j) != Root(node.right) ==> Same(h, n, j)
    ensures Rep(n, node.(key := k), Up(path))
  {
    hide Rep;
    RepParts(m, node, Up(path));
    Sub2(m, h, n, path, node.left, node.key, k, Root(node.right));
    Sub2(m, h, n, path, node.right, node.key, k, Root(node.left));
    RepJoin(n, node.(key := k), Up(path));
  }

  lemma RepParts(m: Mem, t: Tree, up: Ptr)
    requires t.Node? && Rep(m, t, up)
    ensures Rep(m, t.left, To(t.key)) && Rep(m, t.right, To(t.key))
  {
  }

  lemma RepJoin(m: Mem, t: Tree, up: Ptr)
    requires t.Node? && NodeRep(m, t.key, t.red, Root(t.left), Root(t.right), up)
    requires Rep(m, t.left, To(t.key)) && Rep(m, t.right, To(t.key))
    ensures Rep(m, t, up)
  {
  }

  lemma Sub2(m: Mem, h: Mem, n: Mem, path: Path, c: Tree, g: nat, k: nat, other: Ptr)
    requires Rep(m, c, To(g)) && Distinct(c) && k !in KeySet(c) && (Up(path).To? ==> Up(path).key !in KeySet(c))
    requires other.To? ==> other.key !in KeySet(c)
    requires forall j :: To(j) != Up(path) ==> Same(m, h, j)
    requires c.Node? ==> Parent(n, c.key) == To(k)
    requires forall j :: j != k ==>
             && Child(n, true, j) == Child(h, true, j) && Child(n, false, j) == Child(h, false, j)
             && IsRed(n, To(j)) == IsRed(m, To(j))
    requires forall j :: j != k && To(j) != Root(c) && To(j) != other ==> Same(h, n, j)
    ensures Rep(n, c, To(k))
  {
    RootIn(c);
    forall j | j in KeySet(c) && To(j) != Root(c) ensures Same(m, n, j) {
      SameTrans(m, h, n, j);
    }
    if c.Node? {
      assert Same(m, h, c.key);
    }
    Reparented(m, n, c, To(g), To(k));
  }

  // ---- A node with two children

  lemma {:induction false} PlugAppend(a: Path, b: Path, t: Tree)
    ensures Plug(a + b, t) == Plug(b, Plug(a, t))
  {
    if a == [] {
      assert a + b == b;
    } else {
      assert (a + b)[1..] == a[1..] + b && (a + b)[0] == a[0];
      PlugAppend(a[1..], b, Make(a[0].left, a[0].red, t, a[0].key, a[0].other));
    }
  }

  /** The successor is taken out of its place, then put in the place of the node. */
  function Replaced(m: Mem, g: nat, k: nat): Mem {
    var c := Child(m, false, k);
    Substituted(ParentIf(Hang(m, k, c), c, Parent(m, k)), g, k)
  }

  lemma ReplaceOk(m: Mem, front: Path, f: Frame, path: Path, next: Tree)
    requires !f.left && next.Node? && next.left == Leaf && Good(m, Plug(front + [f] + path, next))
    ensures Child(m, false, next.key) == Root(next.right) && Parent(m, next.key) == Up(front + [f] + path)
    ensures Good(Replaced(m, f.key, next.key), Plug(front + [f.(key := next.key)] + path, next.right))
  {
    hide Good, Plug, Hang, Substituted;
    var way := front + [f] + path;
    var c := next.right;
    Around1(m, way, next);
    UnlinkOne(m, way, next);
    var u := ParentIf(Hang(m, next.key, Root(c)), Root(c), Up(way));
    var mid := Node(f.red, f.other, f.key, Plug(front, c));
    Lifted(front, f, path, c);
    Lifted(front, f.(key := next.key), path, c);
    Missing(m, way, next);
    SubstituteOk(u, path, mid, next.key);
  }

  lemma Lifted(front: Path, f: Frame, path: Path, c: Tree)
    requires !f.left
    ensures Plug(front + [f] + path, c) == Plug(path, Node(f.red, f.other, f.key, Plug(front, c)))
  {
    assert front + [f] + path == front + ([f] + path);
    PlugAppend(front, [f] + path, c);
    assert ([f] + path)[1..] == path;
  }

  lemma Missing(m: Mem, way: Path, next: Tree)
    requires next.Node? && next.left == Leaf && Good(m, Plug(way, next))
    ensures next.key !in KeySet(Plug(way, next.right))
  {
    hide Plug, Spells;
    DistinctAt(way, next);
    DistinctAt(way, next.right);
    RootIn(next);
  }

  /** The successor k takes the colour, the left child and the parent of g, and the parent's link. */
  function Taken(m: Mem, g: nat, k: nat): Mem {
    var m1 := Hang(m, g, To(k));
    var m2 := SetRed(m1, k, IsRed(m1, To(g)));
    var m3 := ParentIf(SetChild(m2, true, k, Child(m, true, g)), Child(m, true, g), To(k));
    SetParent(m3, k, Parent(m, g))
  }

  /** The statements of tree_del when the successor is the right child. */
  function NearMem(m: Mem, g: nat, k: nat): Mem {
    ParentIf(Taken(m, g, k), Child(Taken(m, g, k), false, k), To(k))
  }

  /** And when it is further down. */
  function DeepMem(m: Mem, g: nat, k: nat): Mem
    requires Parent(m, k).To?
  {
    var c := Child(m, false, k);
    var m5 := SetChild(Taken(m, g, k), true, Parent(m, k).key, c);
    var m6 := ParentIf(SetChild(m5, false, k, Child(m, false, g)), Child(m, false, g), To(k));
    ParentIf(m6, c, Parent(m, k))
  }

  /** The nodes near a node with two children and its successor are all different. */
  ghost predicate Apart(m: Mem, g: nat, k: nat) {
    var l, r, c, up, pn := Child(m, true, g), Child(m, false, g), Child(m, false, k), Parent(m, g), Parent(m, k);
    && g != k && l.To? && r.To? && pn.To? && l != r && l != To(k) && l != To(g) && r != To(g)
    && c != To(g) && c != To(k) && c != l && (c.To? ==> c != r)
    && up != To(g) && up != To(k) && up != l && up != r && (up.To? ==> up != c && up != pn)
    && pn != To(k) && pn != l && pn != c
    && (r == To(k) <==> pn == To(g))
    && (pn != To(g) ==> Child(m, true, pn.key) == To(k))
  }

  // What each operation leaves in one field.

  lemma HangAt(m: Mem, p: nat, q: Ptr, c: bool, j: nat)
    ensures Child(Hang(m, p, q), c, j) ==
            if Parent(m, p) == To(j) && c == (Child(m, true, j) == To(p)) then q else Child(m, c, j)
    ensures Hang(m, p, q).parent == m.parent && Hang(m, p, q).red == m.red
    ensures Hang(m, p, q).root == if Parent(m, p) == Null then q else m.root
  {
  }

  lemma ParentIfAt(m: Mem, p: Ptr, up: Ptr, j: nat)
    ensures Parent(ParentIf(m, p, up), j) == if To(j) == p then up else Parent(m, j)
    ensures ParentIf(m, p, up).left == m.left && ParentIf(m, p, up).right == m.right
    ensures ParentIf(m, p, up).red == m.red && ParentIf(m, p, up).root == m.root
  {
  }

  lemma SubstitutedAt(m: Mem, g: nat, k: nat, c: bool, j: nat)
    ensures var n := Substituted(m, g, k);
            && Child(n, c, j) == (if j == k then Child(m, c, g) else Child(Hang(m, g, To(k)), c, j))
            && Parent(n, j) == (if To(j) == Child(m, true, g) || To(j) == Child(m, false, g) then To(k)
                                else if j == k then Parent(m, g) else Parent(m, j))
            && IsRed(n, To(j)) == (if j == k then IsRed(m, To(g)) else IsRed(m, To(j)))
            && n.root == Hang(m, g, To(k)).root
  {
    hide Hang;
    HangAt(m, g, To(k), c, j);
  }

  lemma TakenAt(m: Mem, g: nat, k: nat, c: bool, j: nat)
    ensures var n := Taken(m, g, k); var h := Hang(m, g, To(k));
            && Child(n, c, j) == (if j == k && c then Child(m, true, g) else Child(h, c, j))
            && Parent(n, j) == (if j == k then Parent(m, g) else if To(j) == Child(m, true, g) then To(k)
               else Parent(m, j))
            && IsRed(n, To(j)) == (if j == k then IsRed(m, To(g)) else IsRed(m, To(j)))
            && n.root == h.root
  {
    hide Hang;
    HangAt(m, g, To(k), c, j);
  }

  lemma NearAt(m: Mem, g: nat, k: nat, c: bool, j: nat)
    ensures var n := NearMem(m, g, k); var h := Hang(m, g, To(k));
            && Child(n, c, j) == (if j == k && c then Child(m, true, g) else Child(h, c, j))
            && Parent(n, j) == (if To(j) == Child(h, false, k) then To(k) else if j == k then Parent(m, g)
                                else if To(j) == Child(m, true, g) then To(k) else Parent(m, j))
            && IsRed(n, To(j)) == (if j == k then IsRed(m, To(g)) else IsRed(m, To(j)))
            && n.root == h.root
  {
    hide Hang, Taken;
    TakenAt(m, g, k, c, j);
    TakenAt(m, g, k, false, k);
  }

  lemma DeepAt(m: Mem, g: nat, k: nat, c: bool, j: nat)
    requires Parent(m, k).To?
    ensures var n := DeepMem(m, g, k); var h := Hang(m, g, To(k)); var low := Child(m, false, k);
            && Child(n, c, j) == (if c then (if To(j) == Parent(m, k) then low else if j == k then Child(m, true, g)
               else Child(h, c, j))
                                  else if j == k then Child(m, false, g) else Child(h, c, j))
            && Parent(n, j) == (if To(j) == low then Parent(m, k) else if To(j) == Child(m, false, g) then To(k)
                                else if j == k then Parent(m, g) else if To(j) == Child(m, true, g) then To(k)
                                  else Parent(m, j))
            && IsRed(n, To(j)) == (if j == k then IsRed(m, To(g)) else IsRed(m, To(j)))
            && n.root == h.root
  {
    hide Hang, Taken;
    TakenAt(m, g, k, c, j);
  }

  lemma ReplacedAt(m: Mem, g: nat, k: nat, c: bool, j: nat)
    requires Apart(m, g, k) && j != g
    ensures var n := Replaced(m, g, k); var h := Hang(m, g, To(k)); var low, pn := Child(m, false, k), Parent(m, k);
            && Child(n, c, j) == (if j == k then (if !c && pn == To(g) then low else Child(m, c, g))
                                  else if c && To(j) == pn then low else Child(h, c, j))
            && Parent(n, j) == (if To(j) == Child(m, true, g) then To(k)
                                else if To(j) == (if pn == To(g) then low else Child(m, false, g)) then To(k)
                                else if j == k then Parent(m, g) else if To(j) == low then pn else Parent(m, j))
            && IsRed(n, To(j)) == (if j == k then IsRed(m, To(g)) else IsRed(m, To(j)))
            && n.root == h.root
  {
    hide Hang, Substituted, ParentIf;
    var low := Child(m, false, k);
    var h1 := Hang(m, k, low);
    var u := ParentIf(h1, low, Parent(m, k));
    ParentIfAt(h1, low, Parent(m, k), j);
    ParentIfAt(h1, low, Parent(m, k), g);
    SubstitutedAt(u, g, k, c, j);
    HangAt(m, k, low, true, g);
    HangAt(m, k, low, false, g);
    HangAt(m, k, low, c, j);
    HangAt(m, k, low, true, j);
    HangAt(u, g, To(k), c, j);
    HangAt(m, g, To(k), c, j);
  }

  lemma NearSame(m: Mem, g: nat, k: nat)
    requires Apart(m, g, k) && Child(m, false, g) == To(k)
    ensures Replaced(m, g, k).root == NearMem(m, g, k).root
    ensures forall j :: j != g ==> Same(Replaced(m, g, k), NearMem(m, g, k), j)
  {
    hide Replaced, NearMem, Hang;
    ReplacedAt(m, g, k, true, k);
    NearAt(m, g, k, true, k);
    NearAt(m, g, k, false, k);
    HangAt(m, g, To(k), false, k);
    forall j | j != g ensures Same(Replaced(m, g, k), NearMem(m, g, k), j) {
      ReplacedAt(m, g, k, true, j);
      ReplacedAt(m, g, k, false, j);
      NearAt(m, g, k, true, j);
      NearAt(m, g, k, false, j);
    }
  }

  lemma DeepSame(m: Mem, g: nat, k: nat)
    requires Apart(m, g, k) && Child(m, false, g) != To(k)
    ensures Replaced(m, g, k).root == DeepMem(m, g, k).root
    ensures forall j :: j != g ==> Same(Replaced(m, g, k), DeepMem(m, g, k), j)
  {
    hide Replaced, DeepMem, Hang;
    ReplacedAt(m, g, k, true, k);
    DeepAt(m, g, k, true, k);
    forall j | j != g ensures Same(Replaced(m, g, k), DeepMem(m, g, k), j) {
      ReplacedAt(m, g, k, true, j);
      ReplacedAt(m, g, k, false, j);
      DeepAt(m, g, k, true, j);
      DeepAt(m, g, k, false, j);
    }
  }

  /** The parent of the vacated place. */
  lemma NewUp(front: Path, f: Frame, path: Path, next: nat, g: nat)
    ensures Up(front + [f.(key := next)] + path) == if front == [] then To(next) else To(front[0].key)
    ensures Up(front + [f] + path) == if front == [] then To(f.key) else To(front[0].key)
  {
  }

  lemma {:induction false} PlugRoot(front: Path, t: Tree)
    requires front != []
    ensures Plug(front, t).Node? && Plug(front, t).key in PathKeys(front)
  {
    var up := Make(front[0].left, front[0].red, t, front[0].key, front[0].other);
    if |front| > 1 {
      PlugRoot(front[1..], up);
    } else {
      assert Plug(front[1..], up) == up;
    }
  }

  /** The nodes involved when a successor takes a node's place. */
  lemma ApartOk(m: Mem, path: Path, node: Tree, front: Path, f: Frame, next: Tree)
    requires node.Node? && node.left.Node? && node.right.Node? && f == Frame(false, node.red, node.key, node.left)
    requires next.Node? && next.left == Leaf && node.right == Plug(front, next) && forall i :: 0 <= i < |front| ==>
             front[i].left
    requires Good(m, Plug(path, node)) && Plug(front + [f] + path, next) == Plug(path, node)
    ensures Apart(m, node.key, next.key)
    ensures Child(m, false, node.key) == To(next.key) <==> front == []
    ensures node.key !in KeySet(Plug(front + [f.(key := next.key)] + path, next.right))
  {
    hide Plug, Good, KeySet, PathKeys, Apart;
    var way := front + [f] + path;
    assert Distinct(Plug(path, node)) by {
      GoodDistinct(m, Plug(path, node));
    }
    Around1(m, path, node);
    Around1(m, way, next);
    NewUp(front, f, path, next.key, node.key);
    if front == [] {
      TopIs(next);
      assert way[0] == f;
      ApartNear(m, path, node, next);
    } else {
      assert way[0] == front[0];
      ApartDeep(m, path, node, front, next);
    }
    GoneKey(path, node, front, f, next);
  }

  lemma GoodDistinct(m: Mem, t: Tree)
    requires Good(m, t)
    ensures Distinct(t)
  {
  }

  lemma GoneKey(path: Path, node: Tree, front: Path, f: Frame, next: Tree)
    requires node.Node? && next.Node? && next.left == Leaf && node.right == Plug(front, next)
    requires Distinct(Plug(path, node))
    requires f == Frame(false, node.red, node.key, node.left)
    ensures node.key !in KeySet(Plug(front + [f.(key := next.key)] + path, next.right))
  {
    hide Plug;
    KeysApart(path, node, front, next);
    RootIn(node);
    RootIn(next);
    Lifted(front, f.(key := next.key), path, next.right);
    DistinctAt(front, next.right);
    DistinctAt(path, Node(f.red, f.other, next.key, Plug(front, next.right)));
  }

  lemma ApartNear(m: Mem, path: Path, node: Tree, next: Tree)
    requires node.Node? && node.left.Node? && next.Node? && next.left == Leaf && node.right == next
    requires Distinct(Plug(path, node))
    requires Child(m, true, node.key) == Root(node.left) && Child(m, false, node.key) == To(next.key)
    requires Parent(m, node.key) == Up(path)
    requires Child(m, false, next.key) == Root(next.right) && Parent(m, next.key) == To(node.key)
    ensures Apart(m, node.key, next.key)
  {
    hide Plug, Child, Parent, KeySet, PathKeys, Distinct;
    TopIs(next);
    KeysApart(path, node, [], next);
    UpIn(path);
    RootIn(node.left);
    RootIn(next);
    RootIn(next.right);
  }

  lemma ApartDeep(m: Mem, path: Path, node: Tree, front: Path, next: Tree)
    requires node.Node? && node.left.Node? && next.Node? && next.left == Leaf && node.right == Plug(front, next)
    requires front != []
    requires Distinct(Plug(path, node))
    requires Child(m, true, node.key) == Root(node.left) && Child(m, false, node.key) == Root(node.right)
    requires Parent(m, node.key) == Up(path)
    requires Child(m, false, next.key) == Root(next.right) && Parent(m, next.key) == To(front[0].key)
    requires Child(m, true, front[0].key) == To(next.key)
    ensures Apart(m, node.key, next.key) && Child(m, false, node.key) != To(next.key)
  {
    hide Plug, Child, Parent, KeySet, PathKeys, Distinct;
    KeysApart(path, node, front, next);
    UpIn(path);
    UpIn(front);
    RootIn(node.left);
    RootIn(next);
    RootIn(next.right);
    PlugRoot(front, next);
  }

  lemma KeysApart(path: Path, node: Tree, front: Path, next: Tree)
    requires node.Node? && next.Node? && next.left == Leaf && node.right == Plug(front, next)
    requires Distinct(Plug(path, node))
    ensures PathKeys(path) !! KeySet(node) && KeySet(node) == KeySet(node.left) + {node.key} + KeySet(node.right)
    ensures node.key !in KeySet(node.left) && node.key !in KeySet(node.right) && KeySet(node.left) !! KeySet(node.right)
    ensures KeySet(node.right) == PathKeys(front) + KeySet(next) && PathKeys(front) !! KeySet(next)
    ensures KeySet(next) == {next.key} + KeySet(next.right) && next.key !in KeySet(next.right)
  {
    hide Plug;
    DistinctAt(path, node);
    DistinctAt(front, next);
  }

  // ---- Whole runs

  datatype Op = AddOp(key: nat) | DelOp(key: nat) | FindOp(key: nat)

  /** The set after the operations, and what each answers. */
  function Model(ops: seq<Op>): (set<nat>, seq<bool>) {
    if ops == [] then ({}, [])
    else
      var (s, out) := Model(ops[..|ops| - 1]);
      match ops[|ops| - 1]
      case AddOp(k) => (s + {k}, out + [k !in s])
      case DelOp(k) => (s - {k}, out + [k in s])
      case FindOp(k) => (s, out + [k in s])
  }

  /**
   After any sequence of tree_add, tree_del and tree_find the answers are those of a set, and the
   links spell out an ordered, balanced tree with consistent parent links and exactly its keys.
   */
  method Replay(ops: seq<Op>) returns (m: Mem, out: seq<bool>)
    ensures exists t :: Good(m, t) && Valid(t) && Keys(t) == Model(ops).0
    ensures out == Model(ops).1
  {
    hide Inorder, Keys, RedBlackTree.Valid, Good;
    var l := new Links();
    out := [];
    var i := 0;
    while i < |ops|
      invariant 0 <= i <= |ops| && fresh(l) && l.Valid() && Model(ops[..i]) == (Keys(l.tree), out)
    {
      assert ops[..i + 1][..i] == ops[..i];
      var answer := l.TreeFind(ops[i].key);
      match ops[i] {
        case AddOp(k) =>
          answer := l.TreeAdd(k);
        case DelOp(k) =>
          if answer {
            l.TreeDel(k);
          } else {
            assert Keys(l.tree) - {k} == Keys(l.tree);
          }
        case FindOp(_) =>
      }
      out := out + [answer];
      i := i + 1;
    }
    assert ops[..i] == ops;
    m := l.mem;
  }
}
