/** wepoll's parent-pointer red-black tree: nodes relinked and recoloured in place. */
module RedBlackTree {
  import opened RedBlackShape

  class Node {
    var left: Node?
    var right: Node?
    var parent: Node?
    var key: nat
    var red: bool

    constructor ()
      ensures left == null && right == null && parent == null && key == 0 && !red
    {
      left, right, parent, key, red := null, null, null, 0, false;
    }

    function Child(s: Side): Node?
      reads this
    {
      if s.Left? then left else right
    }
  }

  /** The contents of one node, and of all the nodes of a tree at one moment. */
  datatype Cell = Cell(left: Node?, right: Node?, parent: Node?, key: nat, red: bool) {
    function Child(s: Side): Node? {
      if s.Left? then left else right
    }
    function WithChild(s: Side, n: Node?): Cell {
      if s.Left? then this.(left := n) else this.(right := n)
    }
  }

  type Memory = map<Node, Cell>

  ghost function Get(m: Memory, n: Node): Cell {
    if n in m then m[n] else Cell(null, null, null, 0, false)
  }

  /** One field of one node written. */
  ghost function PutParent(m: Memory, n: Node, v: Node?): Memory {
    m[n := Get(m, n).(parent := v)]
  }

  ghost function PutChild(m: Memory, n: Node, s: Side, v: Node?): Memory {
    m[n := Get(m, n).WithChild(s, v)]
  }

  ghost function PutRed(m: Memory, n: Node, v: bool): Memory {
    m[n := Get(m, n).(red := v)]
  }

  ghost function Nodes(t: Tree<Node>): set<Node> {
    match t
    case Leaf => {}
    case Br(_, l, e, r) => Nodes(l) + {e.node} + Nodes(r)
  }

  ghost function RootOf(t: Tree<Node>): Node? {
    if t.Leaf? then null else t.e.node
  }

  ghost function CtxNodes(c: Ctx<Node>): set<Node> {
    match c
    case Top => {}
    case In(_, _, e, other, up) => {e.node} + Nodes(other) + CtxNodes(up)
  }

  ghost function ParentOf(c: Ctx<Node>, base: Node?): Node? {
    if c.Top? then base else c.e.node
  }

  /** The links, keys and colours reachable from `ptr` spell out exactly `t`, whose root's parent
      link is `par`; no node occurs twice. */
  ghost predicate Rep(m: Memory, t: Tree<Node>, ptr: Node?, par: Node?) {
    match t
    case Leaf => ptr == null
    case Br(red, l, e, r) =>
      && ptr == e.node
      && Get(m, e.node) == Cell(Get(m, e.node).left, Get(m, e.node).right, par, e.key, red)
      && e.node !in Nodes(l) && e.node !in Nodes(r) && Nodes(l) !! Nodes(r)
      && Rep(m, l, Get(m, e.node).left, e.node)
      && Rep(m, r, Get(m, e.node).right, e.node)
  }

  /** The links around the hole of `c` spell out `c`: the hole holds `hole`, the outermost node is
      `root` and has parent link `base`. */
  ghost predicate RepCtx(m: Memory, c: Ctx<Node>, hole: Node?, root: Node?, base: Node?) {
    match c
    case Top => root == hole
    case In(side, red, e, other, up) =>
      && Get(m, e.node).Child(side) == hole
      && Get(m, e.node) == Cell(Get(m, e.node).left, Get(m, e.node).right, ParentOf(up, base), e.key, red)
      && e.node !in Nodes(other) && e.node !in CtxNodes(up) && Nodes(other) !! CtxNodes(up)
      && Rep(m, other, Get(m, e.node).Child(Opposite(side)), e.node)
      && RepCtx(m, up, e.node, root, base)
  }

  /** Subtree `t` sits at `ptr` in the hole of `c`. */
  ghost predicate At(m: Memory, c: Ctx<Node>, t: Tree<Node>, ptr: Node?, root: Node?, base: Node?) {
    Rep(m, t, ptr, ParentOf(c, base)) && RepCtx(m, c, ptr, root, base) && Nodes(t) !! CtxNodes(c)
  }

  lemma {:induction false} AtPlug(m: Memory, c: Ctx<Node>, t: Tree<Node>, ptr: Node?, root: Node?, base: Node?)
    requires At(m, c, t, ptr, root, base)
    ensures Rep(m, Plug(c, t), root, base)
    ensures Nodes(Plug(c, t)) == Nodes(t) + CtxNodes(c)
    decreases c
  {
    match c
    case Top =>
    case In(side, red, e, other, up) =>
      AtPlug(m, up, Join(side, red, t, e, other), e.node, root, base);
  }

  lemma {:induction false} AtUnplug(m: Memory, c: Ctx<Node>, t: Tree<Node>, root: Node?, base: Node?) returns (ptr: Node?)
    requires Rep(m, Plug(c, t), root, base)
    ensures At(m, c, t, ptr, root, base)
    ensures Nodes(Plug(c, t)) == Nodes(t) + CtxNodes(c)
    decreases c
  {
    match c
    case Top => ptr := root;
    case In(side, red, e, other, up) =>
      ptr := AtUnplug(m, up, Join(side, red, t, e, other), root, base);
      ptr := Get(m, e.node).Child(side);
  }

  ghost predicate SameOn(m: Memory, m': Memory, ns: set<Node>) {
    forall n :: n in ns ==> Get(m', n) == Get(m, n)
  }

  lemma {:induction false} RepFrame(m: Memory, m': Memory, t: Tree<Node>, ptr: Node?, par: Node?)
    requires Rep(m, t, ptr, par) && SameOn(m, m', Nodes(t))
    ensures Rep(m', t, ptr, par)
  {
    if t.Br? {
      RepFrame(m, m', t.left, Get(m, t.e.node).left, t.e.node);
      RepFrame(m, m', t.right, Get(m, t.e.node).right, t.e.node);
    }
  }

  lemma {:induction false} RepCtxFrame(m: Memory, m': Memory, c: Ctx<Node>, hole: Node?, root: Node?, base: Node?)
    requires RepCtx(m, c, hole, root, base) && SameOn(m, m', CtxNodes(c))
    ensures RepCtx(m', c, hole, root, base)
  {
    if c.In? {
      RepFrame(m, m', c.other, Get(m, c.e.node).Child(Opposite(c.side)), c.e.node);
      RepCtxFrame(m, m', c.up, c.e.node, root, base);
    }
  }

  // ----- one link changes ---------------------------------------------------------------------

  ghost function Reparented(m: Memory, ptr: Node?, par: Node?): Memory {
    if ptr == null then m else PutParent(m, ptr, par)
  }

  /** A subtree moves, with its root, under `now`; nothing else of it changes. */
  lemma {:induction false} ReparentRep(m: Memory, m': Memory, t: Tree<Node>, ptr: Node?, was: Node?, now: Node?)
    requires Rep(m, t, ptr, was) && SameOn(Reparented(m, ptr, now), m', Nodes(t))
    ensures Rep(m', t, ptr, now)
  {
    if t.Br? {
      RepFrame(m, m', t.left, Get(m, ptr).left, ptr);
      RepFrame(m, m', t.right, Get(m, ptr).right, ptr);
    }
  }

  /** The link that holds `was` now holds `now`. */
  ghost function Relinked(m: Memory, was: Node?, now: Node?, parent: Node?): Memory {
    if parent == null then m
    else PutChild(m, parent, if Get(m, parent).left == was then Left else Right, now)
  }

  lemma {:induction false} RelinkRep(m: Memory, c: Ctx<Node>, was: Node, now: Node?, root: Node?)
    requires RepCtx(m, c, was, root, null) && was !in CtxNodes(c)
    ensures RepCtx(Relinked(m, was, now, ParentOf(c, null)), c, now, if c.Top? then now else root, null)
  {
    if c.In? {
      var p := c.e.node;
      var m' := Relinked(m, was, now, p);
      RepFrame(m, m', c.other, Get(m, p).Child(Opposite(c.side)), p);
      RepCtxFrame(m, m', c.up, p, root, null);
    }
  }

  // ----- rotation -----------------------------------------------------------------------------

  /** The writes of TREE__ROTATE below the link to the rotated node. */
  ghost function RotatedLinks(m: Memory, cis: Side, p: Node, q: Node): Memory {
    var inner := Get(m, q).Child(cis);
    var lowered := PutChild(PutParent(PutParent(m, q, Get(m, p).parent), p, q), p, Opposite(cis), inner);
    PutChild(Reparented(lowered, inner, p), q, cis, p)
  }

  lemma {:induction false} RotatedCells(m: Memory, m': Memory, cis: Side, p: Node, q: Node)
    requires m' == RotatedLinks(m, cis, p, q) && p != q && Get(m, q).Child(cis) != p && Get(m, q).Child(cis) != q
    ensures Get(m', p) == Get(m, p).(parent := q).WithChild(Opposite(cis), Get(m, q).Child(cis))
    ensures Get(m', q) == Get(m, q).(parent := Get(m, p).parent).WithChild(cis, p)
    ensures forall n :: n != p && n != q ==> Get(m', n) == Get(Reparented(m, Get(m, q).Child(cis), p), n)
  {}

  /** One branch, read off through a side instead of left and right. */
  lemma {:induction false} RepJoin(m: Memory, side: Side, red: bool, near: Tree<Node>, e: Entry<Node>, far: Tree<Node>, ptr: Node?, par: Node?)
    ensures Rep(m, Join(side, red, near, e, far), ptr, par) <==>
            && ptr == e.node
            && Get(m, e.node) == Cell(Get(m, e.node).left, Get(m, e.node).right, par, e.key, red)
            && e.node !in Nodes(near) && e.node !in Nodes(far) && Nodes(near) !! Nodes(far)
            && Rep(m, near, Get(m, e.node).Child(side), e.node)
            && Rep(m, far, Get(m, e.node).Child(Opposite(side)), e.node)
    ensures Nodes(Join(side, red, near, e, far)) == Nodes(near) + {e.node} + Nodes(far)
  {}

  /** `p` with `q` as its child across from `cis`, taken apart. */
  ghost predicate Hinge(m: Memory, cis: Side, par: Node?, a: Tree<Node>, p: Node, b: Tree<Node>, q: Node, d: Tree<Node>) {
    && p != q && p !in Nodes(a) + Nodes(b) + Nodes(d) && q !in Nodes(a) + Nodes(b) + Nodes(d)
    && Nodes(a) !! Nodes(b) && Nodes(a) !! Nodes(d) && Nodes(b) !! Nodes(d)
    && Get(m, p).parent == par && Get(m, p).Child(Opposite(cis)) == q && Get(m, q).parent == p
    && Rep(m, a, Get(m, p).Child(cis), p)
    && Rep(m, b, Get(m, q).Child(cis), q)
    && Rep(m, d, Get(m, q).Child(Opposite(cis)), q)
  }

  lemma {:induction false} OpenHinge(m: Memory, cis: Side, par: Node?, pr: bool, a: Tree<Node>, pe: Entry<Node>,
                  qr: bool, b: Tree<Node>, qe: Entry<Node>, d: Tree<Node>, ptr: Node?)
    requires Rep(m, Join(cis, pr, a, pe, Join(cis, qr, b, qe, d)), ptr, par)
    ensures ptr == pe.node && Hinge(m, cis, par, a, pe.node, b, qe.node, d)
    ensures Get(m, pe.node).key == pe.key && Get(m, pe.node).red == pr
    ensures Get(m, qe.node).key == qe.key && Get(m, qe.node).red == qr
    ensures Nodes(Join(cis, pr, a, pe, Join(cis, qr, b, qe, d))) == Nodes(a) + Nodes(b) + Nodes(d) + {pe.node, qe.node}
  {
    RepJoin(m, cis, pr, a, pe, Join(cis, qr, b, qe, d), ptr, par);
    RepJoin(m, cis, qr, b, qe, d, qe.node, pe.node);
  }

  lemma {:induction false} SwingHinge(m: Memory, m': Memory, cis: Side, par: Node?, a: Tree<Node>, p: Node, b: Tree<Node>, q: Node, d: Tree<Node>)
    requires Hinge(m, cis, par, a, p, b, q, d) && m' == RotatedLinks(m, cis, p, q)
    ensures Get(m', p) == Get(m, p).(parent := q).WithChild(Opposite(cis), Get(m, q).Child(cis))
    ensures Get(m', q) == Get(m, q).(parent := par).WithChild(cis, p)
    ensures Rep(m', a, Get(m', p).Child(cis), p)
    ensures Rep(m', b, Get(m', p).Child(Opposite(cis)), p)
    ensures Rep(m', d, Get(m', q).Child(Opposite(cis)), q)
  {
    var inner := Get(m, q).Child(cis);
    assert inner != null ==> inner in Nodes(b);
    RotatedCells(m, m', cis, p, q);
    ReparentRep(m, m', b, inner, q, p);
    RepFrame(m, m', a, Get(m, p).Child(cis), p);
    RepFrame(m, m', d, Get(m, q).Child(Opposite(cis)), q);
  }

  lemma {:induction false} RotateRep(m: Memory, cis: Side, par: Node?, pr: bool, a: Tree<Node>, pe: Entry<Node>,
                  qr: bool, b: Tree<Node>, qe: Entry<Node>, d: Tree<Node>)
    requires Rep(m, Join(cis, pr, a, pe, Join(cis, qr, b, qe, d)), pe.node, par)
    ensures Rep(RotatedLinks(m, cis, pe.node, qe.node), Join(cis, qr, Join(cis, pr, a, pe, b), qe, d), qe.node, par)
  {
    OpenHinge(m, cis, par, pr, a, pe, qr, b, qe, d, pe.node);
    var m' := RotatedLinks(m, cis, pe.node, qe.node);
    SwingHinge(m, m', cis, par, a, pe.node, b, qe.node, d);
    RepJoin(m', cis, pr, a, pe, b, pe.node, qe.node);
    RepJoin(m', cis, qr, Join(cis, pr, a, pe, b), qe, d, qe.node, par);
  }

  /** TREE__ROTATE as a whole, on the tree around it. */
  ghost function Rotated(m: Memory, cis: Side, p: Node, q: Node): Memory {
    RotatedLinks(Relinked(m, p, q, Get(m, p).parent), cis, p, q)
  }

  lemma {:induction false} RotateAt(m: Memory, cis: Side, c: Ctx<Node>, pr: bool, a: Tree<Node>, pe: Entry<Node>,
                 qr: bool, b: Tree<Node>, qe: Entry<Node>, d: Tree<Node>, root: Node?)
    requires At(m, c, Join(cis, pr, a, pe, Join(cis, qr, b, qe, d)), pe.node, root, null)
    ensures At(Rotated(m, cis, pe.node, qe.node), c, Join(cis, qr, Join(cis, pr, a, pe, b), qe, d),
               qe.node, if c.Top? then qe.node else root, null)
  {
    var p, q, parent := pe.node, qe.node, ParentOf(c, null);
    OpenHinge(m, cis, parent, pr, a, pe, qr, b, qe, d, p);
    RelinkRep(m, c, p, q, root);
    var m1 := Relinked(m, p, q, parent);
    RepFrame(m, m1, Join(cis, pr, a, pe, Join(cis, qr, b, qe, d)), p, parent);
    OpenHinge(m1, cis, parent, pr, a, pe, qr, b, qe, d, p);
    RotateRep(m1, cis, parent, pr, a, pe, qr, b, qe, d);
    RotatedElsewhere(m1, cis, parent, a, p, b, q, d);
    RepCtxFrame(m1, RotatedLinks(m1, cis, p, q), c, q, if c.Top? then q else root, null);
    OpenHinge(m1, cis, parent, pr, a, pe, qr, b, qe, d, p);
    RotatedNodes(cis, pr, a, pe, qr, b, qe, d);
  }

  lemma {:induction false} RotatedElsewhere(m: Memory, cis: Side, par: Node?, a: Tree<Node>, p: Node, b: Tree<Node>, q: Node, d: Tree<Node>)
    requires Hinge(m, cis, par, a, p, b, q, d)
    ensures forall n :: n != p && n != q && n !in Nodes(b) ==> Get(RotatedLinks(m, cis, p, q), n) == Get(m, n)
  {
    assert b.Br? ==> b.e.node in Nodes(b);
    RotatedCells(m, RotatedLinks(m, cis, p, q), cis, p, q);
  }

  lemma {:induction false} RotatedNodes(cis: Side, pr: bool, a: Tree<Node>, pe: Entry<Node>, qr: bool, b: Tree<Node>, qe: Entry<Node>, d: Tree<Node>)
    ensures Nodes(Join(cis, pr, a, pe, Join(cis, qr, b, qe, d))) == Nodes(Join(cis, qr, Join(cis, pr, a, pe, b), qe, d))
  {}

  /** What TREE__ROTATE reads: the links it follows lead to distinct nodes of the tree. */
  lemma {:induction false} RotateReads(m: Memory, cis: Side, c: Ctx<Node>, pr: bool, a: Tree<Node>, pe: Entry<Node>,
                    qr: bool, b: Tree<Node>, qe: Entry<Node>, d: Tree<Node>, node: Node, root: Node?)
    requires At(m, c, Join(cis, pr, a, pe, Join(cis, qr, b, qe, d)), node, root, null)
    ensures node == pe.node && node != qe.node && Get(m, node).Child(Opposite(cis)) == qe.node
    ensures Get(m, node).parent == ParentOf(c, null) && (c.In? ==> c.e.node != node && c.e.node != qe.node)
    ensures Get(m, qe.node).Child(cis) == RootOf(b)
    ensures b.Br? ==> b.e.node != node && b.e.node != qe.node && (c.In? ==> b.e.node != c.e.node)
    ensures Nodes(Join(cis, pr, a, pe, Join(cis, qr, b, qe, d))) == Nodes(a) + Nodes(b) + Nodes(d) + {node, qe.node}
  {
    OpenHinge(m, cis, ParentOf(c, null), pr, a, pe, qr, b, qe, d, node);
    assert Rep(m, b, Get(m, qe.node).Child(cis), qe.node);
  }

  /** What TREE__ROTATE needs and what it makes, with the nodes of the tree in `ns`. */
  lemma {:induction false} RotatePlan(m: Memory, cis: Side, c: Ctx<Node>, pr: bool, a: Tree<Node>, pe: Entry<Node>,
                   qr: bool, b: Tree<Node>, qe: Entry<Node>, d: Tree<Node>, node: Node, root: Node?, ns: set<Node>)
    requires At(m, c, Join(cis, pr, a, pe, Join(cis, qr, b, qe, d)), node, root, null)
    requires Nodes(Join(cis, pr, a, pe, Join(cis, qr, b, qe, d))) + CtxNodes(c) == ns
    ensures node in ns && qe.node in ns && node != qe.node && Get(m, node).Child(Opposite(cis)) == qe.node
    ensures Get(m, node).parent == ParentOf(c, null)
    ensures ParentOf(c, null) != null ==> ParentOf(c, null) in ns && ParentOf(c, null) != node && ParentOf(c, null) != qe.node
    ensures var inner := Get(m, qe.node).Child(cis);
            inner != node && inner != qe.node && (inner != null ==> inner in ns && inner != ParentOf(c, null))
    ensures At(Rotated(m, cis, node, qe.node), c, Join(cis, qr, Join(cis, pr, a, pe, b), qe, d),
               qe.node, if ParentOf(c, null) == null then qe.node else root, null)
    ensures Nodes(Join(cis, qr, Join(cis, pr, a, pe, b), qe, d)) + CtxNodes(c) == ns
  {
    RotateAt(m, cis, c, pr, a, pe, qr, b, qe, d, root);
    RotateReads(m, cis, c, pr, a, pe, qr, b, qe, d, node, root);
    RotatedNodes(cis, pr, a, pe, qr, b, qe, d);
    assert c.In? ==> c.e.node in CtxNodes(c);
    assert b.Br? ==> b.e.node in Nodes(b);
  }

  // ----- moving the focus, painting -----------------------------------------------------------

  lemma {:induction false} AtUp(m: Memory, c: Ctx<Node>, t: Tree<Node>, ptr: Node?, root: Node?)
    requires At(m, c, t, ptr, root, null) && c.In?
    ensures At(m, c.up, Join(c.side, c.red, t, c.e, c.other), c.e.node, root, null)
    ensures Nodes(Join(c.side, c.red, t, c.e, c.other)) + CtxNodes(c.up) == Nodes(t) + CtxNodes(c)
  {
    RepJoin(m, c.side, c.red, t, c.e, c.other, c.e.node, ParentOf(c.up, null));
  }

  lemma {:induction false} AtDown(m: Memory, c: Ctx<Node>, side: Side, red: bool, near: Tree<Node>, e: Entry<Node>, far: Tree<Node>,
               ptr: Node?, root: Node?)
    requires At(m, c, Join(side, red, near, e, far), ptr, root, null)
    ensures ptr == e.node && At(m, In(side, red, e, far, c), near, Get(m, e.node).Child(side), root, null)
    ensures Nodes(near) + CtxNodes(In(side, red, e, far, c)) == Nodes(Join(side, red, near, e, far)) + CtxNodes(c)
  {
    RepJoin(m, side, red, near, e, far, ptr, ParentOf(c, null));
  }

  lemma {:induction false} AtAcross(m: Memory, c: Ctx<Node>, t: Tree<Node>, ptr: Node?, root: Node?)
    requires At(m, c, t, ptr, root, null) && c.In?
    ensures At(m, Across(c, t), c.other, Get(m, c.e.node).Child(Opposite(c.side)), root, null)
    ensures Nodes(c.other) + CtxNodes(Across(c, t)) == Nodes(t) + CtxNodes(c)
    ensures Get(m, c.e.node).Child(c.side) == ptr && c.e.node in CtxNodes(c)
  {
    AtUp(m, c, t, ptr, root);
    AtDown(m, c.up, Opposite(c.side), c.red, c.other, c.e, t, c.e.node, root);
  }

  lemma {:induction false} PaintAt(m: Memory, c: Ctx<Node>, t: Tree<Node>, ptr: Node, red: bool, root: Node?)
    requires At(m, c, t, ptr, root, null)
    ensures t.Br? && At(PutRed(m, ptr, red), c, t.(red := red), ptr, root, null)
  {
    var m' := PutRed(m, ptr, red);
    RepFrame(m, m', t.left, Get(m, ptr).left, ptr);
    RepFrame(m, m', t.right, Get(m, ptr).right, ptr);
    RepCtxFrame(m, m', c, ptr, root, null);
  }

  // ----- taking a node out of the links ---------------------------------------------------------

  /** A node with at most one child: its child takes its place. */
  ghost function SplicedOut(m: Memory, node: Node, next: Node?, par: Node?): Memory {
    Reparented(Relinked(m, node, next, par), next, par)
  }

  lemma {:induction false} SpliceAt(m: Memory, c: Ctx<Node>, t: Tree<Node>, x: Tree<Node>, next: Node?, node: Node, root: Node?)
    requires At(m, c, t, node, root, null) && t.Br?
    requires if t.left.Leaf? then x == t.right && next == Get(m, node).right
             else t.right.Leaf? && x == t.left && next == Get(m, node).left
    ensures At(SplicedOut(m, node, next, ParentOf(c, null)), c, x, next, if c.Top? then next else root, null)
    ensures next != null ==> next in Nodes(x)
  {
    var par := ParentOf(c, null);
    assert Rep(m, x, next, node);
    RelinkRep(m, c, node, next, root);
    var m1 := Relinked(m, node, next, par);
    RepFrame(m, m1, x, next, node);
    var m2 := Reparented(m1, next, par);
    ReparentRep(m1, m2, x, next, node, par);
    RepCtxFrame(m1, m2, c, next, if c.Top? then next else root, null);
  }

  /** The writes of tree_del that put the successor `next` in the place of `node`, first half: the
      link from above, the colour and the left subtree. */
  ghost function Promoted(m: Memory, node: Node, next: Node, left: Node, par: Node?): Memory {
    PutParent(PutChild(PutRed(Relinked(m, node, next, par), next, Get(m, node).red), next, Left, left), left, next)
  }

  lemma {:induction false} PromotedCells(m: Memory, m': Memory, node: Node, next: Node, left: Node, par: Node?)
    requires next != node && next != left && next != par && left != par && node != par
    requires m' == Promoted(m, node, next, left, par)
    ensures Get(m', next) == Get(m, next).(red := Get(m, node).red, left := left)
    ensures Get(m', left) == Get(m, left).(parent := next)
    ensures forall n :: n != next && n != left ==> Get(m', n) == Get(Relinked(m, node, next, par), n)
  {}

  /** The successor takes the place of `node`: `m'` differs from the first half only inside the
      right subtree, which it leaves as `r'`. */
  lemma {:induction false} PromoteAt(m: Memory, m': Memory, c: Ctx<Node>, t: Tree<Node>, ne: Entry<Node>, r': Tree<Node>,
                  node: Node, left: Node, rptr: Node?, root: Node?)
    requires At(m, c, t, node, root, null) && t.Br? && ne.node in Nodes(t.right) && left == Get(m, node).left
    requires Nodes(r') == Nodes(t.right) - {ne.node}
    requires forall n :: n !in Nodes(t.right) ==> Get(m', n) == Get(Promoted(m, node, ne.node, left, ParentOf(c, null)), n)
    requires Get(m', ne.node) == Cell(left, rptr, ParentOf(c, null), ne.key, t.red)
    requires Rep(m', r', rptr, ne.node)
    ensures At(m', c, Br(t.red, t.left, ne, r'), ne.node, if c.Top? then ne.node else root, null)
  {
    var next, par := ne.node, ParentOf(c, null);
    assert Rep(m, t.left, left, node);
    RelinkRep(m, c, node, next, root);
    PromoteFrame(m, m', c, t, next, node, left, root);
    RepCtxFrame(Relinked(m, node, next, par), m', c, next, if c.Top? then next else root, null);
    ReparentRep(m, m', t.left, left, node, next);
  }

  lemma {:induction false} PromoteFrame(m: Memory, m': Memory, c: Ctx<Node>, t: Tree<Node>, next: Node, node: Node, left: Node, root: Node?)
    requires At(m, c, t, node, root, null) && t.Br? && next in Nodes(t.right) && left in Nodes(t.left)
    requires forall n :: n !in Nodes(t.right) ==> Get(m', n) == Get(Promoted(m, node, next, left, ParentOf(c, null)), n)
    ensures SameOn(Relinked(m, node, next, ParentOf(c, null)), m', CtxNodes(c))
    ensures SameOn(Reparented(m, left, next), m', Nodes(t.left))
  {
    PromotedCells(m, Promoted(m, node, next, left, ParentOf(c, null)), node, next, left, ParentOf(c, null));
  }

  lemma {:induction false} PromotedInside(m: Memory, c: Ctx<Node>, t: Tree<Node>, next: Node, node: Node, left: Node, root: Node?)
    requires At(m, c, t, node, root, null) && t.Br? && next in Nodes(t.right) && left in Nodes(t.left)
    ensures SameOn(m, Promoted(m, node, next, left, ParentOf(c, null)), Nodes(t.right) - {next})
    ensures Get(Promoted(m, node, next, left, ParentOf(c, null)), next) == Get(m, next).(red := t.red, left := left)
  {
    PromotedCells(m, Promoted(m, node, next, left, ParentOf(c, null)), node, next, left, ParentOf(c, null));
  }

  /** The right subtree without its leftmost node `s`, hung under that node. */
  lemma {:induction false} DetachLeftmost(m: Memory, m': Memory, d: Ctx<Node>, s: Tree<Node>, right: Node, node: Node)
    requires d.In? && d.side.Left? && s.Br? && s.left.Leaf? && Rep(m, Plug(d, s), right, node)
    requires var next, dn := s.e.node, d.e.node;
             var xptr := Get(m, next).right;
             var m1 := Reparented(PutChild(m, dn, Left, xptr), xptr, dn);
             SameOn(Reparented(m1, right, next), m', Nodes(Plug(d, s)) - {next})
    ensures Rep(m', Plug(d, s.right), right, s.e.node) && Nodes(Plug(d, s.right)) == Nodes(Plug(d, s)) - {s.e.node}
    ensures Get(m, s.e.node).parent == d.e.node
  {
    var next, dn, x := s.e.node, d.e.node, s.right;
    var ptr := AtUnplug(m, d, s, right, node);
    var xptr := Get(m, next).right;
    assert Rep(m, x, xptr, next);
    var m1 := Reparented(PutChild(m, dn, Left, xptr), xptr, dn);
    assert xptr != null ==> xptr in Nodes(x);
    HangLeft(m, m1, d, x, next, xptr, right, node);
    AtPlug(m1, d, x, xptr, right, node);
    ReparentRep(m1, m', Plug(d, x), right, node, next);
  }

  lemma {:induction false} HangLeft(m: Memory, m1: Memory, d: Ctx<Node>, x: Tree<Node>, next: Node, xptr: Node?, root: Node?, base: Node?)
    requires d.In? && d.side.Left? && RepCtx(m, d, next, root, base)
    requires Rep(m, x, xptr, next) && Nodes(x) !! CtxNodes(d)
    requires m1 == Reparented(PutChild(m, d.e.node, Left, xptr), xptr, d.e.node)
    ensures At(m1, d, x, xptr, root, base)
  {
    var dn := d.e.node;
    ReparentRep(m, m1, x, xptr, next, dn);
    RepFrame(m, m1, d.other, Get(m, dn).right, dn);
    RepCtxFrame(m, m1, d.up, dn, root, base);
  }

  /** Second half, when the successor is not the right child: `dn` is its parent and `x` its right
      child. */
  ghost function Extracted(m: Memory, next: Node, right: Node, par: Node?, dn: Node, x: Node?): Memory {
    var m1 := PutChild(PutParent(m, next, par), dn, Left, x);
    Reparented(PutParent(PutChild(m1, next, Right, right), right, next), x, dn)
  }

  lemma {:induction false} ExtractedCells(m: Memory, m': Memory, next: Node, right: Node, par: Node?, dn: Node, x: Node?)
    requires next != right && next != dn && next != x && x != dn && x != right
    requires m' == Extracted(m, next, right, par, dn, x)
    ensures Get(m', next) == Get(m, next).(parent := par, right := right)
    ensures forall n :: n != next ==> Get(m', n) == Get(Reparented(Reparented(PutChild(m, dn, Left, x), x, dn), right, next), n)
  {}

  lemma {:induction false} RootInCtx(m: Memory, c: Ctx<Node>, hole: Node?, root: Node?, base: Node?)
    requires RepCtx(m, c, hole, root, base) && c.In?
    ensures root != null && root in CtxNodes(c)
  {
    if c.up.In? { RootInCtx(m, c.up, c.e.node, root, base); }
  }

  /** The nodes tree_del touches around a successor deep in the right subtree. */
  lemma {:induction false} FarReads(m: Memory, d: Ctx<Node>, s: Tree<Node>, right: Node?, node: Node)
    requires Rep(m, Plug(d, s), right, node) && d.In? && d.side.Left? && s.Br? && s.left.Leaf?
    ensures right != null && right in CtxNodes(d) && s.e.node in Nodes(s) && d.e.node in CtxNodes(d)
    ensures Nodes(s) !! CtxNodes(d) && Nodes(Plug(d, s)) == Nodes(s) + CtxNodes(d)
    ensures Get(m, s.e.node).right == RootOf(s.right) && RootOf(s.right) != s.e.node && (s.right.Br? ==> s.right.e.node in Nodes(s))
    ensures Get(m, s.e.node).parent == d.e.node && Get(m, s.e.node).key == s.e.key
  {
    var ptr := AtUnplug(m, d, s, right, node);
    RootInCtx(m, d, ptr, right, node);
    assert Rep(m, s.right, Get(m, s.e.node).right, s.e.node);
  }

  lemma {:induction false} FarSubtree(m: Memory, m1: Memory, m': Memory, d: Ctx<Node>, s: Tree<Node>, right: Node, node: Node, par: Node?)
    requires Rep(m, Plug(d, s), right, node) && d.In? && d.side.Left? && s.Br? && s.left.Leaf?
    requires SameOn(m, m1, Nodes(Plug(d, s)) - {s.e.node}) && Get(m1, s.e.node).right == Get(m, s.e.node).right
    requires m' == Extracted(m1, s.e.node, right, par, d.e.node, Get(m, s.e.node).right)
    ensures Rep(m', Plug(d, s.right), right, s.e.node) && Nodes(Plug(d, s.right)) == Nodes(Plug(d, s)) - {s.e.node}
  {
    FarReads(m, d, s, right, node);
    ExtractedCells(m1, m', s.e.node, right, par, d.e.node, Get(m, s.e.node).right);
    DetachLeftmost(m, m', d, s, right, node);
  }

  lemma {:induction false} FarFacts(m: Memory, m1: Memory, m': Memory, c: Ctx<Node>, t: Tree<Node>, d: Ctx<Node>, s: Tree<Node>, node: Node,
                 left: Node, right: Node, root: Node?)
    requires At(m, c, t, node, root, null) && t.Br? && t.right == Plug(d, s)
    requires d.In? && d.side.Left? && s.Br? && s.left.Leaf?
    requires left == Get(m, node).left && right == Get(m, node).right
    requires m1 == Promoted(m, node, s.e.node, left, ParentOf(c, null))
    requires m' == Extracted(m1, s.e.node, right, ParentOf(c, null), d.e.node, Get(m, s.e.node).right)
    ensures forall n :: n !in Nodes(t.right) ==> Get(m', n) == Get(m1, n)
    ensures Get(m', s.e.node) == Cell(left, right, ParentOf(c, null), s.e.key, t.red)
    ensures Rep(m', Plug(d, s.right), right, s.e.node)
    ensures Nodes(Plug(d, s.right)) == Nodes(t.right) - {s.e.node} && s.e.node in Nodes(t.right)
  {
    var next, par := s.e.node, ParentOf(c, null);
    assert Rep(m, t.left, left, node) && Rep(m, t.right, right, node);
    FarReads(m, d, s, right, node);
    PromotedInside(m, c, t, next, node, left, root);
    FarSubtree(m, m1, m', d, s, right, node, par);
    ExtractedCells(m1, m', next, right, par, d.e.node, Get(m, next).right);
  }

  lemma {:induction false} SuccessorFar(m: Memory, m1: Memory, m': Memory, c: Ctx<Node>, t: Tree<Node>, d: Ctx<Node>, s: Tree<Node>, node: Node,
                     left: Node, right: Node, root: Node?)
    requires At(m, c, t, node, root, null) && t.Br? && t.right == Plug(d, s)
    requires d.In? && d.side.Left? && s.Br? && s.left.Leaf?
    requires left == Get(m, node).left && right == Get(m, node).right
    requires m1 == Promoted(m, node, s.e.node, left, ParentOf(c, null))
    requires m' == Extracted(m1, s.e.node, right, ParentOf(c, null), d.e.node, Get(m, s.e.node).right)
    ensures At(m', c, Br(t.red, t.left, s.e, Plug(d, s.right)), s.e.node, if c.Top? then s.e.node else root, null)
  {
    FarFacts(m, m1, m', c, t, d, s, node, left, right, root);
    PromoteAt(m, m', c, t, s.e, Plug(d, s.right), node, left, right, root);
  }

  /** The same, when the successor is the right child itself. */
  lemma {:induction false} SuccessorNear(m: Memory, m1: Memory, m': Memory, c: Ctx<Node>, t: Tree<Node>, node: Node, left: Node, root: Node?)
    requires At(m, c, t, node, root, null) && t.Br? && t.right.Br? && t.right.left.Leaf? && left == Get(m, node).left
    requires m1 == Promoted(m, node, t.right.e.node, left, ParentOf(c, null))
    requires m' == Reparented(PutParent(m1, t.right.e.node, ParentOf(c, null)), Get(m, t.right.e.node).right, t.right.e.node)
    ensures At(m', c, Br(t.red, t.left, t.right.e, t.right.right),
               t.right.e.node, if c.Top? then t.right.e.node else root, null)
  {
    var next, par, x := t.right.e.node, ParentOf(c, null), t.right.right;
    var xptr := Get(m, next).right;
    assert Rep(m, t.left, left, node) && Rep(m, t.right, Get(m, node).right, node);
    assert Rep(m, x, xptr, next);
    PromotedCells(m, m1, node, next, left, par);
    assert xptr != null ==> xptr in Nodes(x);
    RepFrame(m, m', x, xptr, next);
    PromoteAt(m, m', c, t, t.right.e, x, node, left, xptr, root);
  }

  ghost function Single(n: Node?): set<Node> {
    if n == null then {} else {n}
  }

  lemma {:induction false} SizeOfRep(m: Memory, t: Tree<Node>, ptr: Node?, par: Node?)
    requires Rep(m, t, ptr, par)
    ensures Size(t) == |Nodes(t)|
  {
    if t.Br? {
      SizeOfRep(m, t.left, Get(m, t.e.node).left, t.e.node);
      SizeOfRep(m, t.right, Get(m, t.e.node).right, t.e.node);
      assert |Nodes(t.left) + {t.e.node}| == |Nodes(t.left)| + 1;
      assert |Nodes(t.left) + {t.e.node} + Nodes(t.right)| == |Nodes(t.left)| + 1 + |Nodes(t.right)|;
    }
  }

  class TreeRoot {
    var root: Node?
    ghost var shape: Tree<Node>
    ghost var repr: set<Node>

    ghost function Mem(): Memory
      reads this`repr, repr
    {
      map n | n in repr :: Cell(n.left, n.right, n.parent, n.key, n.red)
    }

    /** Subtree `t` of this tree, in context `c`, is rooted at `ptr`. */
    ghost predicate Focus(c: Ctx<Node>, t: Tree<Node>, ptr: Node?)
      reads this`root, this`repr, repr
    {
      At(Mem(), c, t, ptr, root, null) && Nodes(t) + CtxNodes(c) == repr
    }

    method SetParent(n: Node, v: Node?)
      requires n in repr
      modifies n`parent
      ensures Mem() == PutParent(old(Mem()), n, v)
    {
      n.parent := v;
    }

    method SetChild(n: Node, s: Side, v: Node?)
      requires n in repr
      modifies n`left, n`right
      ensures Mem() == PutChild(old(Mem()), n, s, v)
    {
      if s.Left? { n.left := v; } else { n.right := v; }
    }

    method SetRed(n: Node, v: bool)
      requires n in repr
      modifies n`red
      ensures Mem() == PutRed(old(Mem()), n, v)
    {
      n.red := v;
    }

    method Paint(n: Node, red: bool, ghost c: Ctx<Node>, ghost t: Tree<Node>)
      requires Focus(c, t, n)
      modifies n`red
      ensures t.Br? && Focus(c, t.(red := red), n)
    {
      PaintAt(Mem(), c, t, n, red, root);
      SetRed(n, red);
    }

    /** Paint the node above the focus and move the focus there. */
    method PaintUp(n: Node, red: bool, ghost c: Ctx<Node>, ghost t: Tree<Node>, ghost ptr: Node?)
      requires Focus(c, t, ptr) && c.In? && n == c.e.node
      modifies n`red
      ensures Focus(c.up, Join(c.side, red, t, c.e, c.other), n)
    {
      AtUp(Mem(), c, t, ptr, root);
      Paint(n, red, c.up, Join(c.side, c.red, t, c.e, c.other));
    }

    /** Paint the child of the focus across from `side`. */
    method PaintFar(n: Node, red: bool, ghost c: Ctx<Node>, ghost side: Side, ghost r: bool, ghost near: Tree<Node>,
                    ghost e: Entry<Node>, ghost far: Tree<Node>)
      requires Focus(c, Join(side, r, near, e, far), e.node) && far.Br? && n == far.e.node
      modifies n`red
      ensures Focus(c, Join(side, r, near, e, far.(red := red)), e.node)
    {
      ghost var s := Opposite(side);
      AtDown(Mem(), c, s, r, far, e, near, e.node, root);
      Paint(n, red, In(s, r, e, near, c), far);
      AtUp(Mem(), In(s, r, e, near, c), far.(red := red), n, root);
    }

    method Relink(was: Node, now: Node?, parent: Node?)
      requires parent != null ==> parent in repr
      modifies this`root, Single(parent)
      ensures Mem() == Relinked(old(Mem()), was, now, parent)
      ensures root == if parent == null then now else old(root)
    {
      if parent != null {
        if parent.left == was { SetChild(parent, Left, now); } else { SetChild(parent, Right, now); }
      } else {
        root := now;
      }
    }

    /** tree__rotate_left and tree__rotate_right: `cis` is the way the node goes down. */
    method Rotate(cis: Side, node: Node, ghost c: Ctx<Node>, ghost pr: bool, ghost a: Tree<Node>, ghost pe: Entry<Node>,
                  ghost qr: bool, ghost b: Tree<Node>, ghost qe: Entry<Node>, ghost d: Tree<Node>)
      requires Focus(c, Join(cis, pr, a, pe, Join(cis, qr, b, qe, d)), node)
      modifies this`root, repr
      ensures Focus(c, Join(cis, qr, Join(cis, pr, a, pe, b), qe, d), qe.node)
    {
      RotatePlan(Mem(), cis, c, pr, a, pe, qr, b, qe, d, node, root, repr);
      RotateRaw(cis, node, qe.node, ParentOf(c, null));
    }

    method RotateRaw(cis: Side, node: Node, ghost q: Node, ghost par: Node?)
      requires node in repr && q in repr && node != q
      requires Get(Mem(), node).Child(Opposite(cis)) == q && Get(Mem(), node).parent == par
      requires par != null ==> par in repr && par != node && par != q
      requires var inner := Get(Mem(), q).Child(cis);
               inner != node && inner != q && (inner != null ==> inner in repr && inner != par)
      modifies this`root, repr
      ensures Mem() == Rotated(old(Mem()), cis, node, q)
      ensures root == if par == null then q else old(root)
    {
      var p, q := node, node.Child(Opposite(cis));
      var parent := p.parent;
      Relink(p, q, parent);
      RotateLinks(cis, p, q, parent);
    }

    method RotateLinks(cis: Side, p: Node, q: Node, parent: Node?)
      requires p in repr && q in repr && p != q && p.parent == parent
      requires q.Child(cis) != null ==> q.Child(cis) in repr && q.Child(cis) != p && q.Child(cis) != q
      modifies repr
      ensures Mem() == RotatedLinks(old(Mem()), cis, p, q)
    {
      ghost var m := Mem();
      ghost var inner := q.Child(cis);
      SetParent(q, parent);
      SetParent(p, q);
      assert q.Child(cis) == inner;
      SetChild(p, Opposite(cis), q.Child(cis));
      assert p.Child(Opposite(cis)) == inner;
      if p.Child(Opposite(cis)) != null { SetParent(p.Child(Opposite(cis)), p); }
      SetChild(q, cis, p);
    }

    // ----- insertion ------------------------------------------------------------------------

    /** TREE__REBALANCE_AFTER_INSERT, red uncle. */
    method RecolourUncle(parent: Node, uncle: Node, grandparent: Node, ghost c: Ctx<Node>, ghost t: Tree<Node>, ghost node: Node?)
      requires Focus(c, t, node) && c.In? && c.up.In? && c.up.other.Br?
      requires parent == c.e.node && grandparent == c.up.e.node && uncle == c.up.other.e.node
      modifies repr
      ensures Focus(c.up.up, Recoloured(c, t), grandparent)
    {
      ghost var pt := Join(c.side, false, t, c.e, c.other);
      PaintUp(parent, false, c, t, node);
      AtUp(Mem(), c.up, pt, parent, root);
      PaintFar(uncle, false, c.up.up, c.up.side, c.up.red, pt, c.up.e, c.up.other);
      Paint(grandparent, true, c.up.up, Join(c.up.side, c.up.red, pt, c.up.e, c.up.other.(red := false)));
    }

    /** TREE__REBALANCE_AFTER_INSERT, inner grandchild. */
    method Straighten(cis: Side, parent: Node, ghost c: Ctx<Node>, ghost t: Tree<Node>, ghost node: Node)
      requires Focus(c, t, node) && t.Br? && t.red && c.In? && c.red && c.up.In?
      requires c.up.side == cis && c.side == Opposite(cis) && parent == c.e.node
      modifies this`root, repr
      ensures Focus(Straightened(c, t), StraightenedFocus(c, t), parent)
    {
      ghost var a, b, d := c.other, Near(cis, t), Near(Opposite(cis), t);
      assert t == Join(cis, true, b, t.e, d);
      AtUp(Mem(), c, t, node, root);
      Rotate(cis, parent, c.up, true, a, c.e, true, b, t.e, d);
      AtDown(Mem(), c.up, cis, true, Join(cis, true, a, c.e, b), t.e, d, t.e.node, root);
    }

    /** TREE__REBALANCE_AFTER_INSERT, outer grandchild. */
    method Lift(cis: Side, parent: Node, grandparent: Node, ghost c: Ctx<Node>, ghost t: Tree<Node>, ghost node: Node?)
      requires Focus(c, t, node) && c.In? && c.up.In? && c.side == c.up.side == cis
      requires parent == c.e.node && grandparent == c.up.e.node
      modifies this`root, repr
      ensures Focus(Lifted(c), t, node)
    {
      ghost var top, u := c.up.up, c.up.other;
      PaintUp(parent, false, c, t, node);
      PaintUp(grandparent, true, c.up, Join(cis, false, t, c.e, c.other), parent);
      Rotate(Opposite(cis), grandparent, top, true, u, c.up.e, false, c.other, c.e, t);
      AtDown(Mem(), top, c.side, false, t, c.e, Join(c.side, true, c.other, c.up.e, u), parent, root);
    }

    /** TREE__REBALANCE_AFTER_INSERT: one turn of the loop. */
    method InsertStep(cis: Side, node: Node, parent: Node, ghost c: Ctx<Node>, ghost t: Tree<Node>, ghost h: nat)
      returns (node': Node, ghost c': Ctx<Node>, ghost t': Tree<Node>, ghost h': nat)
      requires Focus(c, t, node) && t.Br? && t.red && RedRed(c, cis) && parent == c.e.node
      requires Balanced(t, h) && BalancedCtx(c, h)
      modifies this`root, repr
      ensures Focus(c', t', node') && t'.Br? && t'.red
      ensures Balanced(t', h') && BalancedCtx(c', h') && InOrder(Plug(c', t')) == InOrder(Plug(c, t))
      ensures !RedHead(c') || Depth(c') < Depth(c)
    {
      InsertReads(Mem(), c, cis, t, node, root);
      var grandparent := parent.parent;
      var uncle := grandparent.Child(Opposite(cis));
      if uncle != null && uncle.red {
        RecolourBalance(c, t, h);
        RecolourUncle(parent, uncle, grandparent, c, t, node);
        node', c', t', h' := grandparent, c.up.up, Recoloured(c, t), h + 1;
      } else {
        node', c', t', h' := RotateIn(cis, node, parent, grandparent, c, t, h);
      }
    }

    /** TREE__REBALANCE_AFTER_INSERT, black or missing uncle. */
    method RotateIn(cis: Side, node: Node, parent: Node, grandparent: Node, ghost c: Ctx<Node>, ghost t: Tree<Node>, ghost h: nat)
      returns (node': Node, ghost c': Ctx<Node>, ghost t': Tree<Node>, ghost h': nat)
      requires Focus(c, t, node) && t.Br? && t.red && RedRed(c, cis) && parent == c.e.node && grandparent == c.up.e.node
      requires Balanced(t, h) && BalancedCtx(c, h) && Black(c.up.other)
      modifies this`root, repr
      ensures Focus(c', t', node') && t'.Br? && t'.red
      ensures Balanced(t', h') && BalancedCtx(c', h') && InOrder(Plug(c', t')) == InOrder(Plug(c, t))
      ensures !RedHead(c')
    {
      var parent' := parent;
      node', c', t', h' := node, c, t, h;
      InsertReads(Mem(), c, cis, t, node, root);
      if node == parent.Child(Opposite(cis)) {
        StraightenBalance(c, t, h);
        Straighten(cis, parent, c, t, node);
        c', t' := Straightened(c, t), StraightenedFocus(c, t);
        node' := parent;
        parent' := node'.parent;
      }
      LiftBalance(c', t', h);
      Lift(cis, parent', grandparent, c', t', node');
      c' := Lifted(c');
    }

    /** Search order, exact links, and balance: the tree is what tree_add and tree_del must keep. */
    ghost predicate Valid()
      reads this, repr
    {
      && Rep(Mem(), shape, root, null) && Nodes(shape) == repr
      && Sorted(InOrder(shape)) && RedBlack(shape)
    }

    /** The finite map the tree stands for. */
    ghost function Contents(): map<nat, Node>
      reads this
    {
      MapOf(InOrder(shape))
    }

    /** However the tree was built, its height is at most 2 * log2(n + 1) for its n nodes. */
    lemma {:induction false} Shallow()
      requires Valid()
      ensures Pow2(Height(shape)) <= (|repr| + 1) * (|repr| + 1)
    {
      SizeOfRep(Mem(), shape, root, null);
      HeightBound(shape);
    }

    /** tree_init. */
    constructor ()
      ensures Valid() && Contents() == map[] && repr == {}
    {
      root, shape, repr := null, Leaf, {};
      new;
      assert Balanced<Node>(Leaf, 0);
    }

    /** The descent of tree_add: either the node that has the key, or the childless side where a
        node with the key belongs. */
    method Descend(key: nat) returns (parent: Node?, side: Side, found: bool, ghost c: Ctx<Node>)
      requires Valid()
      ensures found <==> key in Contents()
      ensures !found ==> Plug(c, Leaf) == shape && Between(c, key) && Focus(c, Leaf, null) && parent == ParentOf(c, null)
      ensures !found && parent != null ==> c.side == side
    {
      parent, side, found, c := root, Left, false, Top;
      ghost var t := shape;
      while parent != null
        invariant parent != null ==> Focus(c, t, parent) && Plug(c, t) == shape && Between(c, key)
        invariant parent == null ==> c == Top && t == shape && Focus(c, t, null)
        decreases t
      {
        if key == parent.key {
          SearchFound(c, t);
          found := true;
          return;
        }
        SearchStep(c, t, key);
        side := if key < parent.key then Left else Right;
        AtDown(Mem(), c, side, t.red, Near(side, t), t.e, Near(Opposite(side), t), parent, root);
        c, t := StepDown(side, c, t), Near(side, t);
        if parent.Child(side) == null {
          SearchMissing(c, key);
          return;
        }
        parent := parent.Child(side);
      }
      SearchMissing(c, key);
    }

    /** tree_find. */
    method Find(key: nat) returns (r: Node?)
      requires Valid()
      ensures r != null <==> key in Contents()
      ensures r != null ==> Contents()[key] == r && r in repr && r.key == key
    {
      r := root;
      ghost var c: Ctx<Node>, t := Top, shape;
      while r != null
        invariant Focus(c, t, r) && Plug(c, t) == shape && Between(c, key)
        decreases t
      {
        if key < r.key {
          SearchStep(c, t, key);
          AtDown(Mem(), c, Left, t.red, t.left, t.e, t.right, r, root);
          c, t := StepDown(Left, c, t), t.left;
          r := r.left;
        } else if key > r.key {
          SearchStep(c, t, key);
          AtDown(Mem(), c, Right, t.red, t.right, t.e, t.left, r, root);
          c, t := StepDown(Right, c, t), t.right;
          r := r.right;
        } else {
          SearchFound(c, t);
          return;
        }
      }
      SearchMissing(c, key);
    }

    /** Hang a new red leaf in the hole of `c`. */
    method Attach(node: Node, key: nat, parent: Node?, side: Side, ghost c: Ctx<Node>)
      requires Focus(c, Leaf, null) && parent == ParentOf(c, null) && node !in repr
      requires parent != null ==> c.side == side
      modifies this`root, this`repr, repr, node
      ensures repr == old(repr) + {node}
      ensures Focus(c, Br(true, Leaf, Entry(node, key), Leaf), node)
    {
      AttachRep(Mem(), c, node, key, root);
      AttachLinks(node, key, parent, side);
    }

    method AttachLinks(node: Node, key: nat, parent: Node?, side: Side)
      requires node !in repr && (parent != null ==> parent in repr)
      modifies this`root, this`repr, Single(parent)`left, Single(parent)`right, node
      ensures repr == old(repr) + {node} && root == if parent == null then node else old(root)
      ensures var m := old(Mem());
              var m1 := if parent == null then m else PutChild(m, parent, side, node);
              Mem() == m1[node := Cell(null, null, parent, key, true)]
    {
      if parent == null {
        root := node;
      } else {
        SetChild(parent, side, node);
      }
      Enter(node, key, parent);
    }

    method Enter(node: Node, key: nat, parent: Node?)
      requires node !in repr
      modifies this`repr, node
      ensures repr == old(repr) + {node}
      ensures Mem() == old(Mem())[node := Cell(null, null, parent, key, true)]
    {
      node.key := key;
      node.left := null;
      node.right := null;
      node.parent := parent;
      node.red := true;
      repr := repr + {node};
    }

    /** The loop of tree_add that restores balance. */
    method RebalanceAfterInsert(node0: Node, ghost c0: Ctx<Node>, ghost t0: Tree<Node>, ghost h0: nat)
      returns (ghost node: Node, ghost c: Ctx<Node>, ghost t: Tree<Node>, ghost h: nat)
      requires Focus(c0, t0, node0) && t0.Br? && t0.red && Balanced(t0, h0) && BalancedCtx(c0, h0)
      modifies this`root, repr
      ensures Focus(c, t, node) && t.Br? && t.red && Balanced(t, h) && BalancedCtx(c, h) && !RedHead(c)
      ensures InOrder(Plug(c, t)) == InOrder(Plug(c0, t0))
    {
      var node1, parent := node0, node0.parent;
      c, t, h := c0, t0, h0;
      while parent != null && parent.red
        invariant Focus(c, t, node1) && t.Br? && t.red && parent == ParentOf(c, null)
        invariant Balanced(t, h) && BalancedCtx(c, h) && InOrder(Plug(c, t)) == InOrder(Plug(c0, t0))
        decreases if RedHead(c) then Depth(c) + 1 else 0
      {
        SideOfParent(Mem(), c, t, node1, root);
        if parent == parent.parent.left {
          node1, c, t, h := InsertStep(Left, node1, parent, c, t, h);
        } else {
          node1, c, t, h := InsertStep(Right, node1, parent, c, t, h);
        }
        parent := node1.parent;
      }
      node := node1;
    }

    /** The final write of tree_add. */
    method Blacken(ghost node: Node, ghost c: Ctx<Node>, ghost t: Tree<Node>, ghost h: nat)
      requires Focus(c, t, node) && t.Br? && t.red && Balanced(t, h) && BalancedCtx(c, h) && !RedHead(c)
      requires Sorted(InOrder(Plug(c, t)))
      modifies this`shape, repr
      ensures Valid() && InOrder(shape) == InOrder(Plug(c, t))
    {
      BlackenRoot(c, t, h);
      AtPlug(Mem(), c, t, node, root, null);
      PaintRoot(Plug(c, t));
    }

    method PaintRoot(ghost t: Tree<Node>)
      requires Focus(Top, t, root) && t.Br? && RedBlack(t.(red := false)) && Sorted(InOrder(t))
      modifies this`shape, repr`red
      ensures Valid() && InOrder(shape) == InOrder(t)
    {
      Paint(root, false, Top, t);
      shape := t.(red := false);
    }

    /** tree_add: -1 when the key is present, and then nothing changes; otherwise the key is bound
        to the node. */
    method Add(node: Node, key: nat) returns (r: int)
      requires Valid() && node !in repr
      modifies this, repr, node
      ensures Valid()
      ensures r == (if key in old(Contents()) then -1 else 0)
      ensures r == -1 ==> unchanged(this) && unchanged(old(repr)) && unchanged(node)
      ensures r == 0 ==> Contents() == old(Contents())[key := node] && repr == old(repr) + {node}
    {
      var parent, side, found, c := Descend(key);
      if found {
        return -1;
      }
      InsertLeaf(c, Entry(node, key));
      Attach(node, key, parent, side, c);
      ghost var n, c', t', h' := RebalanceAfterInsert(node, c, Br(true, Leaf, Entry(node, key), Leaf), 0);
      Blacken(n, c', t', h');
      return 0;
    }

    // ----- removal --------------------------------------------------------------------------

    /** TREE__REBALANCE_AFTER_REMOVE, red sibling. */
    method RaiseSibling(cis: Side, parent: Node, sibling: Node, ghost c: Ctx<Node>, ghost t: Tree<Node>, ghost node: Node?)
      requires Focus(c, t, node) && c.In? && c.side == cis && c.other.Br?
      requires parent == c.e.node && sibling == c.other.e.node
      modifies this`root, repr
      ensures Focus(SiblingUp(c), t, node)
    {
      ghost var s, near, far := c.other, Near(cis, c.other), Near(Opposite(cis), c.other);
      ghost var s' := Join(cis, false, near, s.e, far);
      AtUp(Mem(), c, t, node, root);
      PaintFar(sibling, false, c.up, cis, c.red, t, c.e, s);
      assert s' == s.(red := false);
      Paint(parent, true, c.up, Join(cis, c.red, t, c.e, s'));
      Rotate(cis, parent, c.up, true, t, c.e, false, near, s.e, far);
      DownTwice(cis, c.up, true, t, c.e, near, false, s.e, far);
    }

    /** The focus moves from a branch to the near child of its near child. */
    lemma {:induction false} DownTwice(cis: Side, c: Ctx<Node>, r: bool, t: Tree<Node>, e: Entry<Node>, u: Tree<Node>,
                    r': bool, e': Entry<Node>, v: Tree<Node>)
      requires Focus(c, Join(cis, r', Join(cis, r, t, e, u), e', v), e'.node)
      ensures Focus(In(cis, r, e, u, In(cis, r', e', v, c)), t, Get(Mem(), e.node).Child(cis))
    {
      AtDown(Mem(), c, cis, r', Join(cis, r, t, e, u), e', v, e'.node, root);
      AtDown(Mem(), In(cis, r', e', v, c), cis, r, t, e, u, e.node, root);
    }

    /** TREE__REBALANCE_AFTER_REMOVE, far nephew not red. */
    method TurnSibling(cis: Side, sibling: Node, nephew: Node, ghost c: Ctx<Node>, ghost t: Tree<Node>, ghost node: Node?)
      requires Focus(c, t, node) && c.In? && c.side == cis && c.other.Br? && Near(cis, c.other).Br?
      requires sibling == c.other.e.node && nephew == Near(cis, c.other).e.node
      modifies this`root, repr
      ensures Focus(SiblingTurned(c), t, node)
    {
      var trans := Opposite(cis);
      ghost var s, x := c.other, Across(c, t);
      ghost var q, far := Near(cis, s), Near(trans, s);
      AtAcross(Mem(), c, t, node, root);
      PaintFar(nephew, false, x, trans, s.red, far, s.e, q);
      Paint(sibling, true, x, Join(trans, s.red, far, s.e, q.(red := false)));
      assert q.(red := false) == Join(trans, false, Near(trans, q), q.e, Near(cis, q));
      Rotate(trans, sibling, x, true, far, s.e, false, Near(trans, q), q.e, Near(cis, q));
      AtAcross(Mem(), x, SiblingTurned(c).other, nephew, root);
    }

    /** TREE__REBALANCE_AFTER_REMOVE, far nephew red: the last rotation. */
    method Restore(cis: Side, parent: Node, sibling: Node, nephew: Node, ghost c: Ctx<Node>, ghost t: Tree<Node>, ghost node: Node?)
      requires Focus(c, t, node) && c.In? && c.side == cis && RedChild(Opposite(cis), c.other)
      requires parent == c.e.node && sibling == c.other.e.node && nephew == Near(Opposite(cis), c.other).e.node
      modifies this`root, repr
      ensures Focus(c.up, Restored(c, t), sibling)
    {
      ghost var s, x := c.other, Across(c, t);
      ghost var near, far := Near(cis, s), Near(Opposite(cis), s).(red := false);
      AtAcross(Mem(), c, t, node, root);
      Paint(sibling, parent.red, x, s);
      assert s.(red := c.red) == Join(cis, c.red, near, s.e, Near(Opposite(cis), s));
      PaintFar(nephew, false, x, cis, c.red, near, s.e, Near(Opposite(cis), s));
      PaintUp(parent, false, x, Join(cis, c.red, near, s.e, far), sibling);
      Rotate(cis, parent, c.up, false, t, c.e, c.red, near, s.e, far);
    }

    /** TREE__REBALANCE_AFTER_REMOVE, no red nephew. */
    method ReddenSibling(sibling: Node, ghost c: Ctx<Node>, ghost t: Tree<Node>, ghost node: Node?)
      requires Focus(c, t, node) && c.In? && c.other.Br? && sibling == c.other.e.node
      modifies repr
      ensures Focus(c.up, SiblingReddened(c, t), c.e.node)
    {
      AtUp(Mem(), c, t, node, root);
      PaintFar(sibling, true, c.up, c.side, c.red, t, c.e, c.other);
    }

    /** A node that is null, or there and black. */
    predicate NotRed(n: Node?)
      reads n
    {
      n == null || !n.red
    }

    /** TREE__REBALANCE_AFTER_REMOVE: one turn of the loop. `done` is its `break`. */
    method RemoveStep(cis: Side, parent: Node, ghost node: Node?, ghost c: Ctx<Node>, ghost t: Tree<Node>, ghost h: nat)
      returns (done: bool, ghost ptr: Node, ghost c': Ctx<Node>, ghost t': Tree<Node>)
      requires Focus(c, t, node) && Short(c, t, h) && c.In? && c.side == cis && parent == c.e.node
      modifies this`root, repr
      ensures Focus(c', t', ptr) && t'.Br? && InOrder(Plug(c', t')) == InOrder(Plug(c, t))
      ensures done ==> RedBlack(Plug(c', t'))
      ensures !done ==> ptr == parent
      ensures !done && t'.red ==> RedBlack(Plug(c', Blackened(t')))
      ensures !done && !t'.red ==> Short(c', t', h + 1) && Depth(c') < Depth(c)
    {
      c', t' := c, t;
      SiblingReads(Mem(), c, t, node, root);
      var sibling := parent.Child(Opposite(cis));
      if sibling.red {
        SiblingUpBalance(c, t, h);
        RaiseSibling(cis, parent, sibling, c, t, node);
        c' := SiblingUp(c);
        SiblingReads(Mem(), c', t, node, root);
        sibling := parent.Child(Opposite(cis));
      }
      done, ptr, c', t' := RemoveBySibling(cis, parent, sibling, node, c', t, h);
    }

    method RemoveBySibling(cis: Side, parent: Node, sibling0: Node, ghost node: Node?, ghost c: Ctx<Node>, ghost t: Tree<Node>, ghost h: nat)
      returns (done: bool, ghost ptr: Node, ghost c': Ctx<Node>, ghost t': Tree<Node>)
      requires Focus(c, t, node) && Short(c, t, h) && c.In? && c.side == cis && parent == c.e.node
      requires c.other.Br? && !c.other.red && sibling0 == c.other.e.node
      modifies this`root, repr
      ensures Focus(c', t', ptr) && t'.Br? && InOrder(Plug(c', t')) == InOrder(Plug(c, t))
      ensures done ==> RedBlack(Plug(c', t'))
      ensures !done ==> ptr == parent && c' == c.up && t'.red == c.red
      ensures !done && t'.red ==> RedBlack(Plug(c', Blackened(t')))
      ensures !done && !t'.red ==> Short(c', t', h + 1)
    {
      var sibling := sibling0;
      SiblingReads(Mem(), c, t, node, root);
      if !NotRed(sibling.left) || !NotRed(sibling.right) {
        c' := c;
        if NotRed(sibling.Child(Opposite(cis))) {
          SiblingTurnedBalance(c, t, h);
          TurnSibling(cis, sibling, sibling.Child(cis), c, t, node);
          c' := SiblingTurned(c);
          SiblingReads(Mem(), c', t, node, root);
          sibling := parent.Child(Opposite(cis));
        }
        RestoredBalance(c', t, h);
        Restore(cis, parent, sibling, sibling.Child(Opposite(cis)), c', t, node);
        done, ptr, c', t' := true, sibling, c'.up, Restored(c', t);
      } else {
        SiblingReddenedBalance(c, t, h);
        ReddenSibling(sibling, c, t, node);
        done, ptr, c', t' := false, parent, c.up, SiblingReddened(c, t);
      }
    }

    /** One turn of the loop at the end of tree_del; `stop` when it leaves the loop. */
    method RemoveTurn(node: Node?, parent: Node?, ghost c: Ctx<Node>, ghost t: Tree<Node>, ghost h: nat)
      returns (stop: bool, node': Node?, parent': Node?, ghost c': Ctx<Node>, ghost t': Tree<Node>)
      requires Focus(c, t, node) && Short(c, t, h) && parent == ParentOf(c, null)
      modifies this`root, repr
      ensures Focus(c', t', node') && InOrder(Plug(c', t')) == InOrder(Plug(c, t))
      ensures stop ==> RedBlack(Plug(c', Blackened(t')))
      ensures !stop ==> Short(c', t', h + 1) && parent' == ParentOf(c', null) && Depth(c') < Depth(c)
    {
      RemoveReads(Mem(), c, t, h, node, root);
      if node == root {
        PlugBalanced(c, t, h);
        stop, node', parent', c', t' := true, node, parent, c, t;
      } else {
        stop, node', parent', c', t' := RemoveBelow(node, parent, c, t, h);
      }
    }

    method RemoveBelow(node: Node?, parent: Node, ghost c: Ctx<Node>, ghost t: Tree<Node>, ghost h: nat)
      returns (stop: bool, node': Node?, parent': Node?, ghost c': Ctx<Node>, ghost t': Tree<Node>)
      requires Focus(c, t, node) && Short(c, t, h) && parent == ParentOf(c, null) && node != root
      modifies this`root, repr
      ensures Focus(c', t', node') && InOrder(Plug(c', t')) == InOrder(Plug(c, t))
      ensures stop ==> RedBlack(Plug(c', Blackened(t')))
      ensures !stop ==> Short(c', t', h + 1) && parent' == ParentOf(c', null) && Depth(c') < Depth(c)
    {
      RemoveReads(Mem(), c, t, h, node, root);
      var cis := if node == parent.left then Left else Right;
      ghost var ptr;
      stop, ptr, c', t' := RemoveStep(cis, parent, node, c, t, h);
      if stop {
        WholeTree(c', t', ptr);
        node', parent', c', t' := root, parent, Top, Plug(c', t');
      } else {
        FocusReads(c', t', parent);
        node', parent', stop := parent, parent.parent, parent.red;
      }
    }

    /** The focus moved up to the root. */
    lemma {:induction false} WholeTree(c: Ctx<Node>, t: Tree<Node>, ptr: Node?)
      requires Focus(c, t, ptr) && RedBlack(Plug(c, t))
      ensures Focus(Top, Plug(c, t), root) && Blackened(Plug(c, t)) == Plug(c, t) && Plug(Top, Plug(c, t)) == Plug(c, t)
    {
      AtPlug(Mem(), c, t, ptr, root, null);
    }

    lemma {:induction false} FocusReads(c: Ctx<Node>, t: Tree<Node>, ptr: Node)
      requires Focus(c, t, ptr) && t.Br?
      ensures ptr in repr && ptr.parent == ParentOf(c, null) && ptr.red == t.red
    {}

    /** The loop at the end of tree_del. */
    method RebalanceAfterRemove(node0: Node?, parent0: Node?, ghost c0: Ctx<Node>, ghost t0: Tree<Node>, ghost h0: nat)
      returns (node: Node?, ghost c: Ctx<Node>, ghost t: Tree<Node>)
      requires Focus(c0, t0, node0) && Short(c0, t0, h0) && parent0 == ParentOf(c0, null)
      modifies this`root, repr
      ensures Focus(c, t, node) && RedBlack(Plug(c, Blackened(t))) && InOrder(Plug(c, t)) == InOrder(Plug(c0, t0))
    {
      var parent, stop := parent0, false;
      node := node0;
      ghost var h := h0;
      c, t := c0, t0;
      while !stop
        invariant Focus(c, t, node) && InOrder(Plug(c, t)) == InOrder(Plug(c0, t0))
        invariant stop ==> RedBlack(Plug(c, Blackened(t)))
        invariant !stop ==> Short(c, t, h) && parent == ParentOf(c, null)
        decreases if stop then 0 else 1 + Depth(c)
      {
        stop, node, parent, c, t := RemoveTurn(node, parent, c, t, h);
        h := h + 1;
      }
    }

    /** tree_del's last write. */
    method BlackenFocus(node: Node?, ghost c: Ctx<Node>, ghost t: Tree<Node>)
      requires Focus(c, t, node) && RedBlack(Plug(c, Blackened(t))) && Sorted(InOrder(Plug(c, t)))
      modifies this`shape, repr
      ensures Valid() && InOrder(shape) == InOrder(Plug(c, t))
    {
      InOrderBlackened(c, t);
      if node != null {
        Paint(node, false, c, t);
      }
      assert Focus(c, Blackened(t), node);
      Reshape(c, Blackened(t), node);
    }

    /** The tree around the focus is the whole tree. */
    ghost method Reshape(c: Ctx<Node>, t: Tree<Node>, ptr: Node?)
      requires Focus(c, t, ptr) && RedBlack(Plug(c, t)) && Sorted(InOrder(Plug(c, t)))
      modifies this`shape
      ensures Valid() && shape == Plug(c, t)
    {
      AtPlug(Mem(), c, t, ptr, root, null);
      shape := Plug(c, t);
    }

    /** The first half of tree_del for a node with at most one child. */
    method SpliceOut(node: Node, next: Node?, parent: Node?, ghost c: Ctx<Node>, ghost t: Tree<Node>, ghost x: Tree<Node>)
      requires Focus(c, t, node) && t.Br? && parent == ParentOf(c, null)
      requires if t.left.Leaf? then x == t.right && next == node.right else t.right.Leaf? && x == t.left && next == node.left
      modifies this`root, this`repr, repr
      ensures repr == old(repr) - {node} && Focus(c, x, next)
    {
      SpliceAt(Mem(), c, t, x, next, node, root);
      SpliceLinks(node, next, parent);
      Forget(node, c, x, next);
    }

    method SpliceLinks(node: Node, next: Node?, parent: Node?)
      requires (parent != null ==> parent in repr) && (next != null ==> next in repr)
      modifies this`root, repr
      ensures Mem() == SplicedOut(old(Mem()), node, next, parent) && root == if parent == null then next else old(root)
    {
      Relink(node, next, parent);
      if next != null { SetParent(next, parent); }
    }

    /** The node that was unlinked no longer belongs to the tree. */
    ghost method Forget(node: Node, c: Ctx<Node>, t: Tree<Node>, ptr: Node?)
      requires At(Mem(), c, t, ptr, root, null) && Nodes(t) + CtxNodes(c) == repr - {node}
      modifies this`repr
      ensures repr == old(repr) - {node} && Focus(c, t, ptr)
    {
      ghost var m := Mem();
      repr := repr - {node};
      RepFrame(m, Mem(), t, ptr, ParentOf(c, null));
      RepCtxFrame(m, Mem(), c, ptr, root, null);
    }

    /** tree_del: the successor takes over the place, the colour and the left subtree of the node. */
    method Promote(node: Node, next: Node, left: Node, parent: Node?) returns (red: bool)
      requires node in repr && next in repr && left in repr && (parent != null ==> parent in repr && parent != node && parent != next)
      modifies this`root, repr
      ensures Mem() == Promoted(old(Mem()), node, next, left, parent) && root == if parent == null then next else old(root)
      ensures red == old(next.red)
    {
      Relink(node, next, parent);
      red := next.red;
      SetRed(next, node.red);
      SetChild(next, Left, left);
      SetParent(left, next);
    }

    method Extract(next: Node, right: Node, dn: Node, parent: Node?, ghost x: Node?) returns (focus: Node?)
      requires next in repr && right in repr && dn in repr && x == next.right && (x != null ==> x in repr)
      requires next != dn
      modifies repr
      ensures Mem() == Extracted(old(Mem()), next, right, parent, dn, x) && focus == x
    {
      SetParent(next, parent);
      focus := next.right;
      SetChild(dn, Left, focus);
      SetChild(next, Right, right);
      SetParent(right, next);
      if focus != null { SetParent(focus, dn); }
    }

    /** tree_del: the walk to the leftmost node of the right subtree. */
    method Leftmost(right: Node, ghost r: Tree<Node>, ghost node: Node) returns (next: Node, ghost d: Ctx<Node>, ghost s: Tree<Node>)
      requires Rep(Mem(), r, right, node) && Nodes(r) <= repr
      ensures Plug(d, s) == r && LeftChain(d) && s.Br? && s.left.Leaf? && s.e.node == next
      ensures d.Top? <==> next == right
    {
      next, d, s := right, Top, r;
      ghost var par: Node? := node;
      while next.left != null
        invariant Rep(Mem(), s, next, par) && Nodes(s) <= Nodes(r) && s.Br?
        invariant Plug(d, s) == r && LeftChain(d)
        decreases s
      {
        par := next;
        d, s := In(Left, s.red, s.e, s.right, d), s.left;
        next := next.left;
      }
      LeftmostReads(Mem(), d, s, next, right, node);
    }

    method PromoteFar(node: Node, next: Node, left: Node, right: Node, parent: Node?, ghost c: Ctx<Node>, ghost t: Tree<Node>,
                      ghost d: Ctx<Node>, ghost s: Tree<Node>) returns (red: bool, focus: Node?, parent': Node)
      requires Focus(c, t, node) && t.Br? && t.right == Plug(d, s) && d.In? && d.side.Left? && s.Br? && s.left.Leaf?
      requires left == node.left && right == node.right && parent == ParentOf(c, null) && next == s.e.node
      modifies this`root, repr
      ensures At(Mem(), c, Br(t.red, t.left, s.e, Plug(d, s.right)), next, root, null)
      ensures red == s.red && parent' == d.e.node && focus == RootOf(s.right)
    {
      ghost var m := Mem();
      PromoteReads(m, c, t, d, s, node, left, right, root);
      ghost var m1 := Promoted(m, node, next, left, parent);
      SuccessorFar(m, m1, Extracted(m1, next, right, parent, d.e.node, Get(m, next).right), c, t, d, s, node, left, right, root);
      PromotedInside(m, c, t, next, node, left, root);
      red := Promote(node, next, left, parent);
      assert Get(Mem(), next).parent == d.e.node && Get(Mem(), next).right == Get(m, next).right;
      parent' := next.parent;
      focus := Extract(next, right, parent', parent, next.right);
    }

    method PromoteNear(node: Node, next: Node, left: Node, parent: Node?, ghost c: Ctx<Node>, ghost t: Tree<Node>)
      returns (red: bool, focus: Node?, parent': Node)
      requires Focus(c, t, node) && t.Br? && t.left.Br? && t.right.Br? && t.right.left.Leaf?
      requires left == node.left && next == node.right && parent == ParentOf(c, null)
      modifies this`root, repr
      ensures At(Mem(), c, Br(t.red, t.left, t.right.e, t.right.right), next, root, null)
      ensures red == t.right.red && parent' == next && focus == RootOf(t.right.right)
    {
      ghost var m := Mem();
      ChildrenReads(m, c, t, node, root);
      PromoteReads(m, c, t, Top, t.right, node, left, next, root);
      ghost var m1 := Promoted(m, node, next, left, parent);
      SuccessorNear(m, m1, Reparented(PutParent(m1, next, parent), Get(m, next).right, next), c, t, node, left, root);
      PromotedInside(m, c, t, next, node, left, root);
      red := Promote(node, next, left, parent);
      assert Get(Mem(), next).right == Get(m, next).right;
      focus := Raise(next, parent);
      parent' := next;
    }

    /** tree_del: the right child is the successor and keeps its own right subtree. */
    method Raise(next: Node, parent: Node?) returns (focus: Node?)
      requires next in repr && (next.right != null ==> next.right in repr)
      modifies repr
      ensures Mem() == Reparented(PutParent(old(Mem()), next, parent), old(next.right), next) && focus == old(next.right)
    {
      SetParent(next, parent);
      focus := next.right;
      if focus != null { SetParent(focus, next); }
    }

    /** The first half of tree_del for a node with two children. */
    method ReplaceBySuccessor(node: Node, left: Node, right: Node, parent: Node?, ghost c: Ctx<Node>, ghost t: Tree<Node>)
      returns (red: bool, focus: Node?, parent': Node, ghost d: Ctx<Node>, ghost s: Tree<Node>)
      requires Focus(c, t, node) && t.Br? && t.left.Br? && t.right.Br?
      requires left == node.left && right == node.right && parent == ParentOf(c, null)
      modifies this`root, this`repr, repr
      ensures repr == old(repr) - {node}
      ensures t.right == Plug(d, s) && LeftChain(d) && s.Br? && s.left.Leaf? && red == s.red
      ensures Focus(SuccessorCtx(c, t.red, t.left, s.e, d), s.right, focus)
      ensures parent' == ParentOf(SuccessorCtx(c, t.red, t.left, s.e, d), null)
    {
      red, focus, parent', d, s := PromoteSuccessor(node, left, right, parent, c, t);
      Refocus(Mem(), c, t, d, s, s.e.node, root);
      Forget(node, SuccessorCtx(c, t.red, t.left, s.e, d), s.right, focus);
    }

    method PromoteSuccessor(node: Node, left: Node, right: Node, parent: Node?, ghost c: Ctx<Node>, ghost t: Tree<Node>)
      returns (red: bool, focus: Node?, parent': Node, ghost d: Ctx<Node>, ghost s: Tree<Node>)
      requires Focus(c, t, node) && t.Br? && t.left.Br? && t.right.Br?
      requires left == node.left && right == node.right && parent == ParentOf(c, null)
      modifies this`root, repr
      ensures t.right == Plug(d, s) && LeftChain(d) && s.Br? && s.left.Leaf?
      ensures At(Mem(), c, Br(t.red, t.left, s.e, Plug(d, s.right)), s.e.node, root, null)
      ensures red == s.red && focus == RootOf(s.right) && parent' == ParentOf(d, s.e.node)
      ensures node in repr && node !in Nodes(t.left) + Nodes(t.right) + CtxNodes(c)
    {
      assert Rep(Mem(), t.right, right, node);
      var next;
      next, d, s := Leftmost(right, t.right, node);
      if next != right {
        red, focus, parent' := PromoteFar(node, next, left, right, parent, c, t, d, s);
      } else {
        red, focus, parent' := PromoteNear(node, next, left, parent, c, t);
      }
    }

    /** The first half of tree_del: the node leaves the links; `red` is the colour that went. */
    method Unlink(node: Node, ghost c: Ctx<Node>, ghost t: Tree<Node>)
      returns (red: bool, focus: Node?, parent: Node?, ghost c': Ctx<Node>, ghost x: Tree<Node>,
               ghost a: seq<Entry<Node>>, ghost b: seq<Entry<Node>>)
      requires Focus(c, t, node) && t.Br? && RedBlack(Plug(c, t))
      modifies this`root, this`repr, repr
      ensures repr == old(repr) - {node} && Focus(c', x, focus) && parent == ParentOf(c', null)
      ensures Spliced(c', red, x)
      ensures InOrder(Plug(c, t)) == a + [t.e] + b && InOrder(Plug(c', x)) == a + b
    {
      ChildrenReads(Mem(), c, t, node, root);
      parent := node.parent;
      var left, right := node.left, node.right;
      if left == null || right == null {
        focus := if left == null then right else left;
        c', x := c, if t.left.Leaf? then t.right else t.left;
        ghost var h := UnplugBalanced(c, t);
        SpliceBalance(c, t, x, h);
        a, b := SpliceOrder(c, t, x);
        red := node.red;
        SpliceOut(node, focus, parent, c, t, x);
      } else {
        ghost var d, s;
        red, focus, parent, d, s := ReplaceBySuccessor(node, left, right, parent, c, t);
        c', x := SuccessorCtx(c, t.red, t.left, s.e, d), s.right;
        SuccessorBalance(c, t.red, t.left, t.e, d, s);
        a, b := SuccessorOrder(c, t.red, t.left, t.e, d, s);
      }
    }

    /** The second half of tree_del: balance. */
    method Settle(red: bool, focus: Node?, parent: Node?, ghost c: Ctx<Node>, ghost x: Tree<Node>)
      requires Focus(c, x, focus) && parent == ParentOf(c, null) && Spliced(c, red, x) && Sorted(InOrder(Plug(c, x)))
      modifies this`root, this`shape, repr
      ensures Valid() && InOrder(shape) == InOrder(Plug(c, x))
    {
      if red {
        AtPlug(Mem(), c, x, focus, root, null);
        shape := Plug(c, x);
      } else if focus != null && focus.red {
        BlackenFocus(focus, c, x);
      } else {
        ghost var h: nat :| Short(c, x, h);
        var node;
        ghost var c', t';
        node, c', t' := RebalanceAfterRemove(focus, parent, c, x, h);
        BlackenFocus(node, c', t');
      }
    }

    /** tree_del: the key of the node is no longer bound; the node keeps its stale links. */
    method Del(node: Node)
      requires Valid() && node in repr
      modifies this, repr
      ensures Valid() && repr == old(repr) - {node}
      ensures old(node.key) in old(Contents()) && old(Contents())[old(node.key)] == node
      ensures Contents() == old(Contents()) - {old(node.key)}
    {
      ghost var c, t := FindCtx(shape, node, Top);
      ghost var ptr := AtUnplug(Mem(), c, t, root, null);
      assert Get(Mem(), node).key == t.e.key;
      var red, focus, parent;
      ghost var c', x, a, b;
      red, focus, parent, c', x, a, b := Unlink(node, c, t);
      MapOfRemove(a, t.e, b);
      Settle(red, focus, parent, c', x);
    }
  }

  lemma {:induction false} FindCtx(t: Tree<Node>, n: Node, c: Ctx<Node>) returns (c': Ctx<Node>, t': Tree<Node>)
    requires n in Nodes(t)
    ensures t'.Br? && t'.e.node == n && Plug(c', t') == Plug(c, t)
  {
    if t.e.node == n {
      c', t' := c, t;
    } else if n in Nodes(t.left) {
      c', t' := FindCtx(t.left, n, StepDown(Left, c, t));
    } else {
      c', t' := FindCtx(t.right, n, StepDown(Right, c, t));
    }
  }

  lemma {:induction false} ChildrenReads(m: Memory, c: Ctx<Node>, t: Tree<Node>, node: Node, root: Node?)
    requires At(m, c, t, node, root, null) && t.Br?
    ensures Get(m, node).left == RootOf(t.left) && Get(m, node).right == RootOf(t.right)
    ensures Get(m, node).parent == ParentOf(c, null) && Get(m, node).red == t.red
  {
    assert Rep(m, t.left, Get(m, node).left, node) && Rep(m, t.right, Get(m, node).right, node);
  }

  lemma {:induction false} NodesPlug(c: Ctx<Node>, t: Tree<Node>)
    ensures Nodes(Plug(c, t)) == Nodes(t) + CtxNodes(c)
    decreases c
  {
    if c.In? { NodesPlug(c.up, Join(c.side, c.red, t, c.e, c.other)); }
  }

  /** From the successor in its new place to the child it left behind. */
  lemma {:induction false} Refocus(m: Memory, c: Ctx<Node>, t: Tree<Node>, d: Ctx<Node>, s: Tree<Node>, next: Node, root: Node?)
    requires t.Br? && t.right == Plug(d, s) && s.Br? && s.left.Leaf?
    requires At(m, c, Br(t.red, t.left, s.e, Plug(d, s.right)), next, root, null)
    ensures At(m, SuccessorCtx(c, t.red, t.left, s.e, d), s.right, RootOf(s.right), root, null)
    ensures Nodes(s.right) + CtxNodes(SuccessorCtx(c, t.red, t.left, s.e, d)) == Nodes(t.left) + Nodes(t.right) + CtxNodes(c)
  {
    var c', t' := SuccessorCtx(c, t.red, t.left, s.e, d), Br(t.red, t.left, s.e, Plug(d, s.right));
    AtPlug(m, c, t', next, root, null);
    PlugAppend(d, In(Right, t.red, s.e, t.left, c), s.right);
    var ptr := AtUnplug(m, c', s.right, root, null);
    NodesPlug(d, s);
    NodesPlug(d, s.right);
    assert Nodes(s) == {s.e.node} + Nodes(s.right);
  }

  /** The nodes tree_del reads around a node with two children. */
  lemma {:induction false} PromoteReads(m: Memory, c: Ctx<Node>, t: Tree<Node>, d: Ctx<Node>, s: Tree<Node>, node: Node, left: Node, right: Node, root: Node?)
    requires At(m, c, t, node, root, null) && t.Br? && t.right == Plug(d, s) && s.Br?
    requires left == Get(m, node).left && right == Get(m, node).right
    ensures left in Nodes(t.left) && s.e.node in Nodes(t.right) && right in Nodes(t.right) && node in Nodes(t)
    ensures node != s.e.node && left != s.e.node && Get(m, s.e.node).red == s.red
    ensures Get(m, s.e.node).parent == ParentOf(d, node)
    ensures Get(m, s.e.node).right == RootOf(s.right) && (s.right.Br? ==> s.right.e.node in Nodes(t.right))
    ensures d.In? ==> d.e.node in Nodes(t.right) && d.e.node != s.e.node
    ensures c.In? ==> c.e.node in CtxNodes(c) && c.e.node != node && c.e.node != s.e.node
  {
    assert Rep(m, t.left, left, node) && Rep(m, t.right, right, node);
    var ptr := AtUnplug(m, d, s, right, node);
    assert Rep(m, s.right, Get(m, s.e.node).right, s.e.node);
  }

  lemma {:induction false} LeftmostReads(m: Memory, d: Ctx<Node>, s: Tree<Node>, next: Node, right: Node, node: Node)
    requires Rep(m, Plug(d, s), right, node) && s.Br? && s.e.node == next
    ensures d.Top? <==> next == right
  {
    var ptr := AtUnplug(m, d, s, right, node);
    if d.In? { RootInCtx(m, d, ptr, right, node); }
  }

  /** What the head of the removal loop reads: the focus is the root exactly when nothing is above
      it, and its side is told by its parent's left link. */
  lemma {:induction false} RemoveReads(m: Memory, c: Ctx<Node>, t: Tree<Node>, h: nat, ptr: Node?, root: Node?)
    requires At(m, c, t, ptr, root, null) && Short(c, t, h)
    ensures ptr == root <==> c.Top?
    ensures c.In? ==> c.e.node in CtxNodes(c) && (Get(m, c.e.node).left == ptr <==> c.side == Left)
  {
    if c.In? {
      RootInCtx(m, c, ptr, root, null);
      SiblingReads(m, c, t, ptr, root);
      assert c.other.Br?;
    }
  }

  /** What one turn of the removal loop reads: the sibling and its children. */
  lemma {:induction false} SiblingReads(m: Memory, c: Ctx<Node>, t: Tree<Node>, ptr: Node?, root: Node?)
    requires At(m, c, t, ptr, root, null) && c.In?
    ensures c.e.node in CtxNodes(c) && Get(m, c.e.node).Child(c.side) == ptr && Get(m, c.e.node).red == c.red
    ensures c.other.Br? ==>
              && Get(m, c.e.node).Child(Opposite(c.side)) == c.other.e.node && c.other.e.node in CtxNodes(c)
              && Get(m, c.other.e.node).red == c.other.red
              && ChildReads(m, Left, c.other, CtxNodes(c)) && ChildReads(m, Right, c.other, CtxNodes(c))
  {
    if c.other.Br? {
      var s := c.other;
      assert Rep(m, s, s.e.node, c.e.node);
      assert Rep(m, s.left, Get(m, s.e.node).left, s.e.node);
      assert Rep(m, s.right, Get(m, s.e.node).right, s.e.node);
      assert s.left.Br? ==> s.left.e.node in Nodes(s);
      assert s.right.Br? ==> s.right.e.node in Nodes(s);
    }
  }

  ghost predicate ChildReads(m: Memory, side: Side, t: Tree<Node>, ns: set<Node>)
    requires t.Br?
  {
    var n, sub := Get(m, t.e.node).Child(side), Near(side, t);
    && (n == null <==> sub.Leaf?)
    && (n != null ==> n == sub.e.node && Get(m, n).red == sub.red && n in ns)
  }

  lemma {:induction false} AttachRep(m: Memory, c: Ctx<Node>, node: Node, key: nat, root: Node?)
    requires At(m, c, Leaf, null, root, null) && node !in CtxNodes(c)
    ensures var m1 := if c.Top? then m else PutChild(m, c.e.node, c.side, node);
            At(m1[node := Cell(null, null, ParentOf(c, null), key, true)], c, Br(true, Leaf, Entry(node, key), Leaf),
               node, if c.Top? then node else root, null)
  {
    if c.In? {
      var p := c.e.node;
      var m' := PutChild(m, p, c.side, node)[node := Cell(null, null, p, key, true)];
      RepFrame(m, m', c.other, Get(m, p).Child(Opposite(c.side)), p);
      RepCtxFrame(m, m', c.up, p, root, null);
    }
  }

  /** Which child of its own parent the node above the focus is. */
  lemma {:induction false} SideOfParent(m: Memory, c: Ctx<Node>, t: Tree<Node>, ptr: Node?, root: Node?)
    requires At(m, c, t, ptr, root, null) && c.In? && c.up.In?
    ensures Get(m, c.e.node).parent == c.up.e.node && {c.e.node, c.up.e.node} <= CtxNodes(c)
    ensures c.up.side == if Get(m, c.up.e.node).left == c.e.node then Left else Right
  {
    assert RepCtx(m, c.up, c.e.node, root, null);
  }

  /** What one turn of the insertion loop reads. */
  lemma {:induction false} InsertReads(m: Memory, c: Ctx<Node>, cis: Side, t: Tree<Node>, node: Node, root: Node?)
    requires At(m, c, t, node, root, null) && t.Br? && RedRed(c, cis)
    ensures Get(m, c.e.node).parent == c.up.e.node && {c.e.node, c.up.e.node} <= CtxNodes(c)
    ensures node == Get(m, c.e.node).Child(Opposite(cis)) <==> c.side == Opposite(cis)
    ensures Get(m, c.up.e.node).Child(Opposite(cis)) == RootOf(c.up.other)
    ensures c.up.other.Br? ==> Get(m, c.up.other.e.node).red == c.up.other.red && c.up.other.e.node in CtxNodes(c)
  {
    assert node in Nodes(t);
    assert Rep(m, c.other, Get(m, c.e.node).Child(Opposite(c.side)), c.e.node);
    assert RepCtx(m, c.up, c.e.node, root, null);
  }
}
