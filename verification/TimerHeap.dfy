/** The timer queue's pairing heap: nodes melded, merged and cancelled in place. */
module TimerHeap {
  import opened Sequences
  import opened TimerHeapShape

  class TimerNode {
    var expire: int
    var child: TimerNode?
    var sibling: TimerNode?
    var parent: TimerNode?
    var owner: TimerQueue?
    var callable: bool

    constructor (callable: bool)
      ensures child == null && sibling == null && parent == null && owner == null && this.callable == callable
    {
      child, sibling, parent, owner, this.callable := null, null, null, null, callable;
    }
  }

  datatype Cell = Cell(expire: int, child: TimerNode?, sibling: TimerNode?, parent: TimerNode?)

  type Memory = map<TimerNode, Cell>

  ghost function Get(m: Memory, n: TimerNode): Cell {
    if n in m then m[n] else Cell(0, null, null, null)
  }

  ghost function PutChild(m: Memory, n: TimerNode, v: TimerNode?): Memory {
    m[n := Get(m, n).(child := v)]
  }

  ghost function PutSibling(m: Memory, n: TimerNode, v: TimerNode?): Memory {
    m[n := Get(m, n).(sibling := v)]
  }

  ghost function PutParent(m: Memory, n: TimerNode, v: TimerNode?): Memory {
    m[n := Get(m, n).(parent := v)]
  }

  ghost function Nodes(h: Heap<TimerNode>): set<TimerNode> {
    match h
    case Nil => {}
    case Nd(t, kids, sibs) => {t.node} + Nodes(kids) + Nodes(sibs)
  }

  ghost function CtxNodes(c: Ctx<TimerNode>): set<TimerNode> {
    match c
    case Top => {}
    case InKids(t, sibs, up) => {t.node} + Nodes(sibs) + CtxNodes(up)
    case InSibs(t, kids, up) => {t.node} + Nodes(kids) + CtxNodes(up)
  }

  /** The links from `ptr` spell out the row of heaps `h`, every heap of the row with parent link
      `par` and every node below with its exact parent; no node occurs twice. */
  ghost predicate Rep(m: Memory, h: Heap<TimerNode>, ptr: TimerNode?, par: TimerNode?) {
    match h
    case Nil => ptr == null
    case Nd(t, kids, sibs) =>
      && ptr == t.node
      && Get(m, t.node) == Cell(t.expire, Get(m, t.node).child, Get(m, t.node).sibling, par)
      && t.node !in Nodes(kids) && t.node !in Nodes(sibs) && Nodes(kids) !! Nodes(sibs)
      && Rep(m, kids, Get(m, t.node).child, t.node)
      && Rep(m, sibs, Get(m, t.node).sibling, par)
  }

  ghost function Stale(m: Memory, ptr: TimerNode?): TimerNode? {
    if ptr == null then null else Get(m, ptr).parent
  }

  /** One heap, whose root's parent link may hold anything: what the merges work on. */
  ghost predicate Loose(m: Memory, h: Heap<TimerNode>, ptr: TimerNode?) {
    Single(h) && Rep(m, h, ptr, Stale(m, ptr))
  }

  ghost predicate SameOn(m: Memory, m': Memory, ns: set<TimerNode>) {
    forall n :: n in ns ==> Get(m', n) == Get(m, n)
  }

  lemma {:induction false} RepFrame(m: Memory, m': Memory, h: Heap<TimerNode>, ptr: TimerNode?, par: TimerNode?)
    requires Rep(m, h, ptr, par) && SameOn(m, m', Nodes(h))
    ensures Rep(m', h, ptr, par)
  {
    if h.Nd? {
      RepFrame(m, m', h.kids, Get(m, ptr).child, ptr);
      RepFrame(m, m', h.sibs, Get(m, ptr).sibling, par);
    }
  }

  lemma {:induction false} LooseFrame(m: Memory, m': Memory, h: Heap<TimerNode>, ptr: TimerNode?)
    requires Loose(m, h, ptr) && SameOn(m, m', Nodes(h))
    ensures Loose(m', h, ptr)
  {
    RepFrame(m, m', h, ptr, Stale(m, ptr));
  }

  /** A row of one heap, unfolded. */
  lemma {:induction false} RepSingle(m: Memory, h: Heap<TimerNode>, ptr: TimerNode?, par: TimerNode?)
    requires Single(h) && h.Nd?
    ensures Rep(m, h, ptr, par) <==>
            && ptr == h.t.node && Get(m, ptr) == Cell(h.t.expire, Get(m, ptr).child, null, par)
            && h.t.node !in Nodes(h.kids) && Rep(m, h.kids, Get(m, ptr).child, ptr)
    ensures Nodes(h) == {h.t.node} + Nodes(h.kids)
  {
    assert Rep(m, h.sibs, Get(m, h.t.node).sibling, par) <==> Get(m, h.t.node).sibling == null;
  }

  /** Giving a single heap's root another parent gives a heap with that parent. */
  lemma {:induction false} Reparent(m: Memory, m': Memory, h: Heap<TimerNode>, ptr: TimerNode?, par: TimerNode?)
    requires Loose(m, h, ptr) && m' == (if ptr == null then m else PutParent(m, ptr, par))
    ensures Rep(m', h, ptr, par) && Loose(m', h, ptr)
  {
    if h.Nd? {
      RepSingle(m, h, ptr, Get(m, ptr).parent);
      RepFrame(m, m', h.kids, Get(m, ptr).child, ptr);
      RepSingle(m', h, ptr, par);
    }
  }

  lemma {:induction false} NodesOfTimers(m: Memory, h: Heap<TimerNode>, ptr: TimerNode?, par: TimerNode?)
    requires Rep(m, h, ptr, par)
    ensures forall n :: n in Nodes(h) ==> Timer(n, Get(m, n).expire) in Timers(h)
    ensures forall t :: t in Timers(h) ==> t.node in Nodes(h) && Get(m, t.node).expire == t.expire
  {
    if h.Nd? {
      NodesOfTimers(m, h.kids, Get(m, ptr).child, ptr);
      NodesOfTimers(m, h.sibs, Get(m, ptr).sibling, par);
    }
  }

  // ----- heap_meld ------------------------------------------------------------------------------

  ghost function Adopted(m: Memory, a: TimerNode, b: TimerNode): Memory {
    PutParent(PutChild(PutSibling(m, b, Get(m, a).child), a, b), b, a)
  }

  ghost function Melded(m: Memory, a: TimerNode?, b: TimerNode?): Memory {
    if a == null || b == null then m
    else if Get(m, a).expire <= Get(m, b).expire then Adopted(m, a, b)
    else Adopted(m, b, a)
  }

  ghost function MeldRoot(m: Memory, a: TimerNode?, b: TimerNode?): TimerNode? {
    if a == null then b else if b == null then a
    else if Get(m, a).expire <= Get(m, b).expire then a else b
  }

  lemma {:induction false} AdoptRep(m: Memory, m': Memory, ha: Heap<TimerNode>, hb: Heap<TimerNode>, a: TimerNode, b: TimerNode)
    requires Loose(m, ha, a) && Loose(m, hb, b) && Nodes(ha) !! Nodes(hb) && m' == Adopted(m, a, b)
    ensures Loose(m', ha.(kids := hb.(sibs := ha.kids)), a)
    ensures Get(m', a).parent == Get(m, a).parent
  {
    RepSingle(m, ha, a, Get(m, a).parent);
    RepSingle(m, hb, b, Get(m, b).parent);
    RepFrame(m, m', ha.kids, Get(m, a).child, a);
    RepFrame(m, m', hb.kids, Get(m, b).child, b);
    assert Rep(m', hb.(sibs := ha.kids), b, a);
    RepSingle(m', ha.(kids := hb.(sibs := ha.kids)), a, Get(m, a).parent);
  }

  lemma {:induction false} MeldRep(m: Memory, m': Memory, ha: Heap<TimerNode>, hb: Heap<TimerNode>, a: TimerNode?, b: TimerNode?)
    requires Loose(m, ha, a) && Loose(m, hb, b) && Nodes(ha) !! Nodes(hb) && m' == Melded(m, a, b)
    ensures Loose(m', Meld(ha, hb), MeldRoot(m, a, b)) && Nodes(Meld(ha, hb)) == Nodes(ha) + Nodes(hb)
    ensures forall n :: n !in Nodes(ha) + Nodes(hb) ==> Get(m', n) == Get(m, n)
  {
    if a != null && b != null {
      assert a in Nodes(ha) && b in Nodes(hb);
      if ha.t.expire <= hb.t.expire { AdoptRep(m, m', ha, hb, a, b); } else { AdoptRep(m, m', hb, ha, b, a); }
    }
  }

  // ----- two_pass_merge -----------------------------------------------------------------------

  ghost function Detached(m: Memory, a: TimerNode, b: TimerNode): Memory {
    PutParent(PutParent(PutSibling(PutSibling(m, a, null), b, null), a, null), b, null)
  }

  lemma {:induction false} DetachRep(m: Memory, m': Memory, h: Heap<TimerNode>, a: TimerNode, b: TimerNode, par: TimerNode?)
    requires Rep(m, h, a, par) && h.sibs.Nd? && h.sibs.t.node == b && m' == Detached(m, a, b)
    ensures a != b && Get(m, a).sibling == b
    ensures Loose(m', h.(sibs := Nil), a) && Loose(m', h.sibs.(sibs := Nil), b)
    ensures Rep(m', h.sibs.sibs, Get(m, b).sibling, par)
    ensures Nodes(h.(sibs := Nil)) !! Nodes(h.sibs.(sibs := Nil))
    ensures Nodes(h.(sibs := Nil)) + Nodes(h.sibs.(sibs := Nil)) !! Nodes(h.sibs.sibs)
    ensures Nodes(h) == Nodes(h.(sibs := Nil)) + Nodes(h.sibs.(sibs := Nil)) + Nodes(h.sibs.sibs)
  {
    assert Rep(m, h.sibs, b, par);
    assert b in Nodes(h.sibs);
    RepFrame(m, m', h.kids, Get(m, a).child, a);
    RepFrame(m, m', h.sibs.kids, Get(m, b).child, b);
    RepFrame(m, m', h.sibs.sibs, Get(m, b).sibling, par);
  }

  // ----- contexts -------------------------------------------------------------------------------

  ghost function ParentAt(c: Ctx<TimerNode>): TimerNode? {
    match c
    case Top => null
    case InKids(t, _, _) => t.node
    case InSibs(_, _, up) => ParentAt(up)
  }

  /** The links around the hole of `c` spell out `c`; the hole holds `hole`, the heap starts at `root`. */
  ghost predicate RepCtx(m: Memory, c: Ctx<TimerNode>, hole: TimerNode?, root: TimerNode?) {
    match c
    case Top => root == hole
    case InKids(t, sibs, up) =>
      && Get(m, t.node) == Cell(t.expire, hole, Get(m, t.node).sibling, ParentAt(up))
      && t.node !in Nodes(sibs) && t.node !in CtxNodes(up) && Nodes(sibs) !! CtxNodes(up)
      && Rep(m, sibs, Get(m, t.node).sibling, ParentAt(up))
      && RepCtx(m, up, t.node, root)
    case InSibs(t, kids, up) =>
      && Get(m, t.node) == Cell(t.expire, Get(m, t.node).child, hole, ParentAt(up))
      && t.node !in Nodes(kids) && t.node !in CtxNodes(up) && Nodes(kids) !! CtxNodes(up)
      && Rep(m, kids, Get(m, t.node).child, t.node)
      && RepCtx(m, up, t.node, root)
  }

  ghost predicate At(m: Memory, c: Ctx<TimerNode>, h: Heap<TimerNode>, ptr: TimerNode?, root: TimerNode?) {
    Rep(m, h, ptr, ParentAt(c)) && RepCtx(m, c, ptr, root) && Nodes(h) !! CtxNodes(c)
  }

  lemma {:induction false} RepCtxFrame(m: Memory, m': Memory, c: Ctx<TimerNode>, hole: TimerNode?, root: TimerNode?)
    requires RepCtx(m, c, hole, root) && SameOn(m, m', CtxNodes(c))
    ensures RepCtx(m', c, hole, root)
  {
    match c
    case Top =>
    case InKids(t, sibs, up) =>
      RepFrame(m, m', sibs, Get(m, t.node).sibling, ParentAt(up));
      RepCtxFrame(m, m', up, t.node, root);
    case InSibs(t, kids, up) =>
      RepFrame(m, m', kids, Get(m, t.node).child, t.node);
      RepCtxFrame(m, m', up, t.node, root);
  }

  lemma {:induction false} AtPlug(m: Memory, c: Ctx<TimerNode>, h: Heap<TimerNode>, ptr: TimerNode?, root: TimerNode?)
    requires At(m, c, h, ptr, root)
    ensures Rep(m, Plug(c, h), root, null) && Nodes(Plug(c, h)) == Nodes(h) + CtxNodes(c)
    decreases c
  {
    match c
    case Top =>
    case InKids(t, sibs, up) => AtPlug(m, up, Nd(t, h, sibs), t.node, root);
    case InSibs(t, kids, up) => AtPlug(m, up, Nd(t, kids, h), t.node, root);
  }

  lemma {:induction false} AtUnplug(m: Memory, c: Ctx<TimerNode>, h: Heap<TimerNode>, root: TimerNode?) returns (ptr: TimerNode?)
    requires Rep(m, Plug(c, h), root, null)
    ensures At(m, c, h, ptr, root) && Nodes(Plug(c, h)) == Nodes(h) + CtxNodes(c)
    decreases c
  {
    match c
    case Top => ptr := root;
    case InKids(t, sibs, up) =>
      var p := AtUnplug(m, up, Nd(t, h, sibs), root);
      ptr := Get(m, t.node).child;
    case InSibs(t, kids, up) =>
      var p := AtUnplug(m, up, Nd(t, kids, h), root);
      ptr := Get(m, t.node).sibling;
  }

  /** The link into the hole of `c` now skips the first heap of the hole's row. */
  ghost function Bypassed(m: Memory, c: Ctx<TimerNode>, to: TimerNode?): Memory {
    match c
    case Top => m
    case InKids(t, _, _) => PutChild(m, t.node, to)
    case InSibs(t, _, _) => PutSibling(m, t.node, to)
  }

  /** Unlinking a node with its children: the rest is a heap, the children are a row of their own. */
  lemma {:induction false} BypassRep(m: Memory, m': Memory, c: Ctx<TimerNode>, h: Heap<TimerNode>, node: TimerNode, root: TimerNode?)
    requires At(m, c, h, node, root) && !c.Top? && m' == Bypassed(m, c, Get(m, node).sibling)
    ensures Rep(m', Plug(c, h.sibs), root, null) && Rep(m', h.kids, Get(m, node).child, node)
    ensures Get(m', node) == Get(m, node)
    ensures Nodes(Plug(c, h.sibs)) == Nodes(h.sibs) + CtxNodes(c)
    ensures Nodes(Plug(c, h.sibs)) !! Nodes(h.kids) && node !in Nodes(h.kids) && node !in Nodes(Plug(c, h.sibs))
    ensures Nodes(h) + CtxNodes(c) == {node} + Nodes(h.kids) + Nodes(Plug(c, h.sibs))
  {
    assert c.t.node in CtxNodes(c) && node in Nodes(h);
    RepFrame(m, m', h.kids, Get(m, node).child, node);
    RepFrame(m, m', h.sibs, Get(m, node).sibling, ParentAt(c));
    BypassCtx(m, m', c, node, Get(m, node).sibling, root);
    AtPlug(m', c, h.sibs, Get(m, node).sibling, root);
  }

  /** The context, with another pointer in its hole. */
  lemma {:induction false} BypassCtx(m: Memory, m': Memory, c: Ctx<TimerNode>, was: TimerNode?, now: TimerNode?, root: TimerNode?)
    requires RepCtx(m, c, was, root) && !c.Top? && m' == Bypassed(m, c, now)
    ensures RepCtx(m', c, now, root)
  {
    RepCtxFrame(m, m', c.up, c.t.node, root);
    if c.InKids? {
      RepFrame(m, m', c.sibs, Get(m, c.t.node).sibling, ParentAt(c.up));
    } else {
      RepFrame(m, m', c.kids, Get(m, c.t.node).child, c.t.node);
    }
  }

  /** One step along a row of siblings. */
  lemma {:induction false} AtNext(m: Memory, c: Ctx<TimerNode>, h: Heap<TimerNode>, ptr: TimerNode?, root: TimerNode?)
    requires At(m, c, h, ptr, root) && h.Nd?
    ensures ptr == h.t.node && At(m, InSibs(h.t, h.kids, c), h.sibs, Get(m, h.t.node).sibling, root)
  {}

  /** Where a node below the root is: in the row of children of its parent. */
  lemma {:induction false} LocateRow(m: Memory, h: Heap<TimerNode>, root: TimerNode, node: TimerNode)
    returns (c: Ctx<TimerNode>, row: Heap<TimerNode>)
    requires Rep(m, h, root, null) && Single(h) && node in Nodes(h) && node != root
    ensures c.InKids? && InRow(row, Timer(node, Get(m, node).expire)) && Plug(c, row) == h
    ensures At(m, c, row, Get(m, c.t.node).child, root) && Get(m, node).parent == c.t.node && c.t.node in Nodes(h)
  {
    NodesOfTimers(m, h, root, null);
    var t := Timer(node, Get(m, node).expire);
    c, row := FindRow(Top, h, t);
    var ptr := AtUnplug(m, c, row, root);
    RowParent(m, row, ptr, c.t.node, t);
    assert c.t.node in CtxNodes(c);
  }

  lemma {:induction false} RowParent(m: Memory, h: Heap<TimerNode>, ptr: TimerNode?, par: TimerNode?, t: Timer<TimerNode>)
    requires Rep(m, h, ptr, par) && InRow(h, t)
    ensures Get(m, t.node).parent == par
  {
    if h.t != t { RowParent(m, h.sibs, Get(m, ptr).sibling, par, t); }
  }

  lemma {:induction false} CutFacts(m: Memory, m': Memory, c: Ctx<TimerNode>, h: Heap<TimerNode>, node: TimerNode, root: TimerNode?)
    requires At(m, c, h, node, root) && !c.Top? && m' == Bypassed(m, c, Get(m, node).sibling) && MinHeap(Plug(c, h))
    ensures h.Nd? && Single(Plug(c, h.sibs)) && MinHeap(Meld(Plug(c, h.sibs), TwoPass(h.kids)))
    ensures Rep(m', Plug(c, h.sibs), root, null) && Rep(m', h.kids, Get(m', node).child, node)
    ensures Nodes(Plug(c, h.sibs)) !! Nodes(h.kids) && c.t.node in Nodes(Plug(c, h))
    ensures Nodes(Plug(c, h.sibs)) + Nodes(h.kids) == Nodes(Plug(c, h)) - {node}
  {
    CancelFacts(c, h);
    AtPlug(m, c, h, node, root);
    BypassRep(m, m', c, h, node, root);
    assert c.t.node in CtxNodes(c);
  }

  // ----- the executor's ready list ------------------------------------------------------------

  /** add_new_nolock for one more node not among those already reposted: out of the list wherever it
      was, then on at the tail. */
  lemma {:induction false} RepostOne<T>(s: seq<T>, xs: seq<T>, y: T)
    requires y !in xs
    ensures Without(Keeping(s, Elements(xs)) + xs, y) + [y] == Keeping(s, Elements(xs + [y])) + (xs + [y])
  {
    WithoutAppend(Keeping(s, Elements(xs)), xs, y);
    KeepingWithout(s, Elements(xs), y);
    WithoutAbsent(xs, y);
    assert Elements(xs + [y]) == Elements(xs) + {y};
  }

  // ----- the queue ------------------------------------------------------------------------------

  class TimerQueue {
    var heap_root: TimerNode?
    /** The executor's list of runnable nodes. */
    var ready: seq<TimerNode>
    ghost var shape: Heap<TimerNode>
    /** The nodes in the heap. */
    ghost var repr: set<TimerNode>

    ghost function Mem(): Memory
      reads this`repr, repr
    {
      map n | n in repr :: Cell(n.expire, n.child, n.sibling, n.parent)
    }

    /** The nodes in the heap are exactly a tree from heap_root, in min-order, with a null root
        sibling and parent and exact parent links everywhere else. */
    ghost predicate Valid()
      reads this`heap_root, this`shape, this`repr, repr
    {
      && MinHeap(shape)
      && Rep(Mem(), shape, heap_root, null)
      && Nodes(shape) == repr
      && forall n :: n in repr ==> n.owner == this
    }

    constructor ()
      ensures Valid() && repr == {} && ready == []
    {
      heap_root, ready, shape, repr := null, [], Nil, {};
    }

    method SetChild(n: TimerNode, v: TimerNode?)
      requires n in repr
      modifies n`child
      ensures Mem() == PutChild(old(Mem()), n, v)
    {
      n.child := v;
    }

    method SetSibling(n: TimerNode, v: TimerNode?)
      requires n in repr
      modifies n`sibling
      ensures Mem() == PutSibling(old(Mem()), n, v)
    {
      n.sibling := v;
    }

    method SetParent(n: TimerNode, v: TimerNode?)
      requires n in repr
      modifies n`parent
      ensures Mem() == PutParent(old(Mem()), n, v)
    {
      n.parent := v;
    }

    method Adopt(a: TimerNode, b: TimerNode)
      requires a in repr && b in repr && a != b
      modifies repr`child, repr`sibling, repr`parent
      ensures Mem() == Adopted(old(Mem()), a, b)
    {
      SetSibling(b, a.child);
      SetChild(a, b);
      SetParent(b, a);
    }

    method HeapMeld(a: TimerNode?, b: TimerNode?, ghost ha: Heap<TimerNode>, ghost hb: Heap<TimerNode>) returns (r: TimerNode?)
      requires Loose(Mem(), ha, a) && Loose(Mem(), hb, b) && Nodes(ha) !! Nodes(hb) && Nodes(ha) + Nodes(hb) <= repr
      modifies repr`child, repr`sibling, repr`parent
      ensures Loose(Mem(), Meld(ha, hb), r) && Nodes(Meld(ha, hb)) == Nodes(ha) + Nodes(hb)
      ensures SameOn(old(Mem()), Mem(), repr - Nodes(ha) - Nodes(hb))
    {
      MeldRep(Mem(), Melded(Mem(), a, b), ha, hb, a, b);
      if a == null { return b; }
      if b == null { return a; }
      assert a in Nodes(ha) && b in Nodes(hb);
      if a.expire <= b.expire {
        Adopt(a, b);
        return a;
      } else {
        Adopt(b, a);
        return b;
      }
    }

    method Detach(a: TimerNode, b: TimerNode)
      requires a in repr && b in repr && a != b
      modifies repr`sibling, repr`parent
      ensures Mem() == Detached(old(Mem()), a, b)
    {
      SetSibling(a, null);
      SetSibling(b, null);
      SetParent(a, null);
      SetParent(b, null);
    }

    /** The first two heaps of a row become one; the rest of the row is as it was. */
    method MergePair(a: TimerNode, b: TimerNode, ghost rest: TimerNode?, ghost h: Heap<TimerNode>, ghost par: TimerNode?) returns (r: TimerNode?)
      requires Rep(Mem(), h, a, par) && h.sibs.Nd? && Nodes(h) <= repr
      requires b == h.sibs.t.node && rest == Get(Mem(), b).sibling
      modifies repr`child, repr`sibling, repr`parent
      ensures Loose(Mem(), Meld(h.(sibs := Nil), h.sibs.(sibs := Nil)), r) && Rep(Mem(), h.sibs.sibs, rest, par)
      ensures Nodes(h) == Nodes(Meld(h.(sibs := Nil), h.sibs.(sibs := Nil))) + Nodes(h.sibs.sibs)
      ensures Nodes(Meld(h.(sibs := Nil), h.sibs.(sibs := Nil))) !! Nodes(h.sibs.sibs)
      ensures SameOn(old(Mem()), Mem(), repr - Nodes(h))
    {
      ghost var m1 := Detached(Mem(), a, b);
      DetachRep(Mem(), m1, h, a, b, par);
      Detach(a, b);
      r := HeapMeld(a, b, h.(sibs := Nil), h.sibs.(sibs := Nil));
      RepFrame(m1, Mem(), h.sibs.sibs, rest, par);
    }

    method TwoPassMerge(node: TimerNode?, ghost h: Heap<TimerNode>, ghost par: TimerNode?) returns (r: TimerNode?)
      requires Rep(Mem(), h, node, par) && Nodes(h) <= repr
      modifies repr`child, repr`sibling, repr`parent
      ensures Loose(Mem(), TwoPass(h), r) && Nodes(TwoPass(h)) == Nodes(h)
      ensures SameOn(old(Mem()), Mem(), repr - Nodes(h))
      decreases h
    {
      if node == null || node.sibling == null {
        return node;
      }
      var a := node;
      var b := a.sibling;
      var rest := b.sibling;
      ghost var ha, hb, hr := h.(sibs := Nil), h.sibs.(sibs := Nil), h.sibs.sibs;
      var first := MergePair(a, b, rest, h, par);
      ghost var m1 := Mem();
      var others := TwoPassMerge(rest, hr, par);
      LooseFrame(m1, Mem(), Meld(ha, hb), first);
      r := HeapMeld(first, others, Meld(ha, hb), TwoPass(hr));
    }

    /** A null pointer keeps its heap; a root gets a null parent. */
    method Uproot(r: TimerNode?, ghost h: Heap<TimerNode>)
      requires Loose(Mem(), h, r) && Nodes(h) <= repr
      modifies repr`parent
      ensures Rep(Mem(), h, r, null) && SameOn(old(Mem()), Mem(), repr - Nodes(h))
    {
      Reparent(Mem(), if r == null then Mem() else PutParent(Mem(), r, null), h, r, null);
      if r != null {
        assert r in Nodes(h);
        SetParent(r, null);
      }
    }

    method DeleteMin() returns (nr: TimerNode?)
      requires Valid() && heap_root != null
      modifies repr`child, repr`sibling, repr`parent
      ensures Rep(Mem(), TwoPass(shape.kids), nr, null) && Nodes(TwoPass(shape.kids)) == repr - {heap_root}
      ensures MinHeap(TwoPass(shape.kids))
    {
      DeleteMinFacts(shape);
      RepSingle(Mem(), shape, heap_root, null);
      nr := TwoPassMerge(heap_root.child, shape.kids, heap_root);
      Uproot(nr, TwoPass(shape.kids));
    }

    /** A node cut off from the heap loses its links and its owner. */
    method Forget(node: TimerNode, ghost rest: Heap<TimerNode>)
      requires node in repr && Rep(Mem(), rest, heap_root, null) && Nodes(rest) == repr - {node} && MinHeap(rest)
      requires forall n :: n in repr ==> n.owner == this
      modifies this`shape, this`repr, node`child, node`sibling, node`parent, node`owner
      ensures Valid() && repr == old(repr) - {node} && shape == rest
      ensures node.owner == null && node.child == null && node.sibling == null && node.parent == null
    {
      ghost var m := Mem();
      node.owner := null;
      node.parent := null;
      node.child := null;
      node.sibling := null;
      repr := repr - {node};
      shape := rest;
      RepFrame(m, Mem(), rest, heap_root, null);
    }

    method PopRoot() returns (dpos: TimerNode)
      requires Valid() && heap_root != null
      modifies this`heap_root, this`shape, this`repr, repr`child, repr`sibling, repr`parent, repr`owner
      ensures Valid() && dpos == old(heap_root) && dpos in old(repr) && repr == old(repr) - {dpos} && dpos.owner == null
      ensures forall n :: n in repr ==> dpos.expire <= n.expire
      ensures forall n :: n in old(repr) && n != dpos ==> n.owner == old(n.owner)
    {
      dpos := heap_root;
      RootLeast();
      heap_root := DeleteMin();
      Forget(dpos, TwoPass(shape.kids));
    }

    /** tim_chk_cb at time `now`: `popped` are the nodes it takes out, in order. */
    method Tick(now: int) returns (trig: bool, ghost popped: seq<TimerNode>)
      requires Valid()
      modifies this, repr`child, repr`sibling, repr`parent, repr`owner
      ensures Valid() && repr == Later(old(Due()), now)
      ensures Earlier(popped, old(Due()), now)
      ensures Unowned(old(repr) - repr)
      ensures ready == Keeping(old(ready), Elements(Among(popped, old(Callable())))) + Among(popped, old(Callable()))
      ensures trig <==> Among(popped, old(Callable())) != []
    {
      ghost var due, can := Due(), Callable();
      KeepingAll(ready);
      assert Elements(Among([], can)) == {};
      trig, popped := PopAllDue(now, due, can, ready);
      NoneDue(now);
      PoppedAll(popped, due, repr, now);
    }

    method PopAllDue(now: int, ghost due: map<TimerNode, int>, ghost can: set<TimerNode>, ghost was: seq<TimerNode>)
      returns (trig: bool, ghost popped: seq<TimerNode>)
      requires Valid() && Fired([], due, can, now, was)
      modifies this, repr`child, repr`sibling, repr`parent, repr`owner
      ensures Valid() && Fired(popped, due, can, now, was) && repr <= old(repr)
      ensures heap_root != null ==> heap_root.expire > now
      ensures Unowned(old(repr) - repr)
      ensures trig <==> Among(popped, can) != []
    {
      trig, popped := false, [];
      while heap_root != null && heap_root.expire <= now
        invariant Valid() && repr <= old(repr)
        invariant Unowned(old(repr) - repr)
        invariant Fired(popped, due, can, now, was)
        invariant trig <==> Among(popped, can) != []
        decreases |repr|
      {
        var fires;
        ghost var gone := old(repr) - repr;
        fires, popped := PopDue(now, popped, due, can, was);
        assert Unowned(gone);
        trig := trig || fires;
      }
    }

    lemma {:induction false} NoneDue(now: int)
      requires Valid() && (heap_root != null ==> heap_root.expire > now)
      ensures forall n :: n in repr ==> n.expire > now
    {
      if heap_root != null { RootLeast(); }
    }

    /** Those popped so far, and the executor's list since. */
    ghost predicate Fired(popped: seq<TimerNode>, due: map<TimerNode, int>, can: set<TimerNode>, now: int, was: seq<TimerNode>)
      reads this`repr, this`ready, repr
    {
      && Popped(popped, due, repr, now)
      && (forall n :: n in repr ==> n in due && due[n] == n.expire && (n in can <==> n.callable))
      && ready == Keeping(was, Elements(Among(popped, can))) + Among(popped, can)
    }

    /** tim_chk_cb: one turn of the loop. */
    method PopDue(now: int, ghost popped: seq<TimerNode>, ghost due: map<TimerNode, int>, ghost can: set<TimerNode>, ghost was: seq<TimerNode>)
      returns (fires: bool, ghost popped': seq<TimerNode>)
      requires Valid() && heap_root != null && heap_root.expire <= now && Fired(popped, due, can, now, was)
      modifies this, repr`child, repr`sibling, repr`parent, repr`owner
      ensures Valid() && repr == old(repr) - {old(heap_root)} && old(heap_root) in old(repr)
      ensures popped' == popped + [old(heap_root)] && Unowned({old(heap_root)})
      ensures Fired(popped', due, can, now, was)
      ensures fires <==> old(heap_root) in can
      ensures Among(popped', can) == Among(popped, can) + if fires then [old(heap_root)] else []
    {
      RootLeast();
      PoppedSnoc(popped, due, repr, now, heap_root);
      NotPopped(popped, due, repr, now, heap_root);
      AmongSnoc(popped, can, heap_root);
      var dpos := PopRoot();
      popped' := popped + [dpos];
      fires := dpos.callable;
      if fires { Enqueue(dpos, was, popped, can); } else { assert Among(popped', can) == Among(popped, can); }
    }

    /** add_new_nolock. */
    method Enqueue(n: TimerNode, ghost was: seq<TimerNode>, ghost popped: seq<TimerNode>, ghost can: set<TimerNode>)
      requires ready == Keeping(was, Elements(Among(popped, can))) + Among(popped, can) && n !in popped && n in can
      modifies this`ready
      ensures ready == Keeping(was, Elements(Among(popped + [n], can))) + Among(popped + [n], can)
    {
      AmongSnoc(popped, can, n);
      RepostOne(was, Among(popped, can), n);
      ready := Without(ready, n) + [n];
    }

    ghost function Due(): map<TimerNode, int>
      reads this`repr, repr
    {
      map n | n in repr :: n.expire
    }

    /** The nodes in the heap that have a callback. */
    ghost function Callable(): set<TimerNode>
      reads this`repr, repr
    {
      set n | n in repr && n.callable
    }

    lemma {:induction false} RootLeast()
      requires Valid() && heap_root != null
      ensures heap_root in repr && forall n :: n in repr ==> heap_root.expire <= n.expire
    {
      NodesOfTimers(Mem(), shape, heap_root, null);
      forall n | n in repr ensures heap_root.expire <= n.expire {
        OrderedLeast(shape, shape.t.expire, Timer(n, Get(Mem(), n).expire));
      }
    }

    /** post_delayed_work: `due` is the present time plus the delay. */
    method PostDelayedWork(dwork: TimerNode, due: int)
      requires Valid() && dwork !in repr
      modifies this`heap_root, this`shape, this`repr, repr`child, repr`sibling, repr`parent,
               dwork`expire, dwork`child, dwork`sibling, dwork`parent, dwork`owner
      ensures Valid() && repr == old(repr) + {dwork} && dwork.expire == due
    {
      ghost var was, single := shape, Nd(Timer(dwork, due), Nil, Nil);
      Admit(dwork, due);
      InsertFacts(was, Timer(dwork, due));
      MeldIn(dwork, single);
    }

    /** Meld another heap with the queue's. */
    method MeldIn(other: TimerNode?, ghost h: Heap<TimerNode>)
      requires Single(shape) && Rep(Mem(), shape, heap_root, null) && Loose(Mem(), h, other)
      requires Nodes(shape) !! Nodes(h) && Nodes(shape) + Nodes(h) <= repr
      modifies this`heap_root, this`shape, repr`child, repr`sibling, repr`parent
      ensures shape == Meld(old(shape), h) && Nodes(shape) == Nodes(old(shape)) + Nodes(h)
      ensures Rep(Mem(), shape, heap_root, null)
    {
      heap_root := HeapMeld(heap_root, other, shape, h);
      shape := Meld(shape, h);
      Uproot(heap_root, shape);
    }

    /** cancel: the search through the parent's children for the link to the node. */
    method FindLink(node: TimerNode) returns (parent: TimerNode, prev: TimerNode?, ghost c: Ctx<TimerNode>, ghost h: Heap<TimerNode>)
      requires Valid() && node in repr && node != heap_root
      ensures At(Mem(), c, h, node, heap_root) && Plug(c, h) == shape
      ensures !c.Top? && c.t.node == (if prev == null then parent else prev) && (c.InKids? <==> prev == null)
    {
      ghost var m := Mem();
      c, h := LocateRow(m, shape, heap_root, node);
      parent := node.parent;
      prev := null;
      var cur := parent.child;
      while cur != node
        invariant At(m, c, h, cur, heap_root) && Plug(c, h) == shape && InRow(h, Timer(node, node.expire))
        invariant !c.Top? && c.t.node == (if prev == null then parent else prev) && (c.InKids? <==> prev == null)
        decreases h
      {
        AtNext(m, c, h, cur, heap_root);
        AtPlug(m, c, h, cur, heap_root);
        prev, cur := cur, cur.sibling;
        c, h := InSibs(h.t, h.kids, c), h.sibs;
      }
    }

    method Bypass(node: TimerNode, parent: TimerNode, prev: TimerNode?, ghost c: Ctx<TimerNode>)
      requires node in repr && !c.Top? && c.t.node in repr
      requires c.t.node == (if prev == null then parent else prev) && (c.InKids? <==> prev == null)
      modifies repr`child, repr`sibling
      ensures Mem() == Bypassed(old(Mem()), c, Get(old(Mem()), node).sibling)
    {
      if prev != null { SetSibling(prev, node.sibling); } else { SetChild(parent, node.sibling); }
    }

    /** cancel: the node and its subheap leave the heap; its children come back, merged. */
    method CancelInterior(node: TimerNode)
      requires Valid() && node in repr && node != heap_root
      modifies this`heap_root, this`shape, repr`child, repr`sibling, repr`parent
      ensures Rep(Mem(), shape, heap_root, null) && Nodes(shape) == repr - {node} && MinHeap(shape)
    {
      var c, h := CutOut(node);
      ReturnChildren(node, h.kids);
    }

    method CutOut(node: TimerNode) returns (ghost c: Ctx<TimerNode>, ghost h: Heap<TimerNode>)
      requires Valid() && node in repr && node != heap_root
      modifies this`shape, repr`child, repr`sibling
      ensures h.Nd? && shape == Plug(c, h.sibs) && Single(shape) && MinHeap(Meld(shape, TwoPass(h.kids)))
      ensures Rep(Mem(), shape, heap_root, null) && Rep(Mem(), h.kids, node.child, node)
      ensures Nodes(shape) !! Nodes(h.kids) && Nodes(shape) + Nodes(h.kids) == repr - {node}
    {
      var parent, prev;
      parent, prev, c, h := FindLink(node);
      ghost var m := Mem();
      ghost var m' := Bypassed(m, c, Get(m, node).sibling);
      CutFacts(m, m', c, h, node, heap_root);
      Bypass(node, parent, prev, c);
      shape := Plug(c, h.sibs);
      assert Mem() == m' && Get(m', node).child == node.child;
    }

    method ReturnChildren(node: TimerNode, ghost kids: Heap<TimerNode>)
      requires Single(shape) && Rep(Mem(), shape, heap_root, null) && node in repr && Rep(Mem(), kids, node.child, node)
      requires Nodes(shape) !! Nodes(kids) && Nodes(shape) + Nodes(kids) <= repr
      modifies this`heap_root, this`shape, repr`child, repr`sibling, repr`parent
      ensures shape == Meld(old(shape), TwoPass(kids)) && Nodes(shape) == Nodes(old(shape)) + Nodes(kids)
      ensures Rep(Mem(), shape, heap_root, null)
    {
      if node.child != null {
        var merged := TwoPassMerge(node.child, kids, node);
        Uproot(merged, TwoPass(kids));
        RepFrame(old(Mem()), Mem(), shape, heap_root, null);
        MeldIn(merged, TwoPass(kids));
      }
    }

    /** A node whose owner is not this queue is left alone; any other leaves the heap, and only it. */
    method Cancel(node: TimerNode?)
      requires Valid() && (node != null && node.owner == this ==> node in repr)
      modifies this`heap_root, this`shape, this`repr, repr`child, repr`sibling, repr`parent, repr`owner
      ensures Valid() && repr == old(repr) - {node}
      ensures node !in old(repr) ==> shape == old(shape) && heap_root == old(heap_root) && forall n :: n in repr ==> Get(Mem(), n) == old(Get(Mem(), n))
      ensures node != null && node in old(repr) ==> Unowned({node})
    {
      if node == null || node.owner != this {
        return;
      }
      if node == heap_root {
        heap_root := DeleteMin();
        shape := TwoPass(shape.kids);
      } else {
        CancelInterior(node);
      }
      Forget(node, shape);
    }

    method Admit(dwork: TimerNode, due: int)
      requires Valid() && dwork !in repr
      modifies this`repr, dwork`expire, dwork`child, dwork`sibling, dwork`parent, dwork`owner
      ensures repr == old(repr) + {dwork} && dwork.expire == due
      ensures Rep(Mem(), shape, heap_root, null) && Loose(Mem(), Nd(Timer(dwork, due), Nil, Nil), dwork)
      ensures forall n :: n in repr ==> n.owner == this
    {
      ghost var m := Mem();
      dwork.expire := due;
      dwork.child := null;
      dwork.sibling := null;
      dwork.parent := null;
      dwork.owner := this;
      repr := repr + {dwork};
      RepFrame(m, Mem(), shape, heap_root, null);
      RepSingle(Mem(), Nd(Timer(dwork, due), Nil, Nil), dwork, null);
    }
  }

  /** Of the nodes and due times in `due`, `popped` are out and `left` are left; each was due by
      `now`, and none left after it was due before it. */
  ghost predicate Popped(popped: seq<TimerNode>, due: map<TimerNode, int>, left: set<TimerNode>, now: int) {
    if popped == [] then left == due.Keys
    else
      var last := popped[|popped| - 1];
      && last !in left && last in due && due[last] <= now
      && (forall n :: n in left ==> n in due && due[last] <= due[n])
      && Popped(popped[..|popped| - 1], due, left + {last}, now)
  }

  lemma {:induction false} PoppedSnoc(popped: seq<TimerNode>, due: map<TimerNode, int>, left: set<TimerNode>, now: int, next: TimerNode)
    requires Popped(popped, due, left, now) && next in left && next in due && due[next] <= now
    requires forall n :: n in left ==> n in due && due[next] <= due[n]
    ensures Popped(popped + [next], due, left - {next}, now)
  {
    assert (popped + [next])[..|popped|] == popped;
    assert left - {next} + {next} == left;
  }

  lemma {:induction false} PoppedFacts(popped: seq<TimerNode>, due: map<TimerNode, int>, left: set<TimerNode>, now: int)
    requires Popped(popped, due, left, now)
    ensures left <= due.Keys && forall n :: n in popped <==> n in due && n !in left
    ensures forall n :: n in popped ==> due[n] <= now
    ensures forall i, j :: 0 <= i < j < |popped| ==> popped[i] != popped[j] && due[popped[i]] <= due[popped[j]]
    ensures forall i, n :: 0 <= i < |popped| && n in left ==> due[popped[i]] <= due[n]
  {
    if popped != [] {
      var last := popped[|popped| - 1];
      PoppedFacts(popped[..|popped| - 1], due, left + {last}, now);
    }
  }

  lemma {:induction false} NotPopped(popped: seq<TimerNode>, due: map<TimerNode, int>, left: set<TimerNode>, now: int, n: TimerNode)
    requires Popped(popped, due, left, now) && n in left
    ensures n !in popped
  {
    if popped != [] { NotPopped(popped[..|popped| - 1], due, left + {popped[|popped| - 1]}, now, n); }
  }

  /** The nodes due after `now`. */
  ghost function Later(due: map<TimerNode, int>, now: int): set<TimerNode> {
    set n | n in due && due[n] > now
  }

  /** `popped` are exactly the nodes due by `now`, each once, in order of due time. */
  ghost predicate Earlier(popped: seq<TimerNode>, due: map<TimerNode, int>, now: int) {
    && (forall n :: n in popped ==> n in due && due[n] <= now)
    && (forall n :: n in due && due[n] <= now ==> n in popped)
    && (forall i, j :: 0 <= i < j < |popped| ==> popped[i] != popped[j] && due[popped[i]] <= due[popped[j]])
  }

  lemma {:induction false} PoppedAll(popped: seq<TimerNode>, due: map<TimerNode, int>, left: set<TimerNode>, now: int)
    requires Popped(popped, due, left, now) && forall n :: n in left ==> n in due && due[n] > now
    ensures Earlier(popped, due, now) && left == Later(due, now)
  {
    PoppedFacts(popped, due, left, now);
  }

  ghost predicate Unowned(ns: set<TimerNode>)
    reads ns
  {
    forall n :: n in ns ==> n.owner == null
  }

  /** Those of `ns` in `can`, in order. */
  ghost function Among(ns: seq<TimerNode>, can: set<TimerNode>): seq<TimerNode> {
    if ns == [] then []
    else Among(ns[..|ns| - 1], can) + if ns[|ns| - 1] in can then [ns[|ns| - 1]] else []
  }

  lemma {:induction false} AmongSnoc(ns: seq<TimerNode>, can: set<TimerNode>, n: TimerNode)
    ensures Among(ns + [n], can) == Among(ns, can) + if n in can then [n] else []
    ensures n !in ns ==> n !in Among(ns, can)
  {
    assert (ns + [n])[..|ns|] == ns;
    AmongIn(ns, can);
  }

  lemma {:induction false} AmongIn(ns: seq<TimerNode>, can: set<TimerNode>)
    ensures forall n :: n in Among(ns, can) <==> n in ns && n in can
  {
    if ns != [] { AmongIn(ns[..|ns| - 1], can); }
  }
}
