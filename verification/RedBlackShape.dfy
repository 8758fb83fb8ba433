/** Red-black trees as values: shapes, one-hole contexts, symmetric order and balance.

    The heap tree of RedBlackTree represents one of these shapes at every moment; the
    rotations and recolourings of wepoll's tree are reasoned about here, on values. `N` is
    whatever identifies a node (an object reference in RedBlackTree). */
module RedBlackShape {

  /** The two names the TREE__ macros are instantiated with. */
  datatype Side = Left | Right

  function Opposite(s: Side): Side {
    if s.Left? then Right else Left
  }

  datatype Entry<N> = Entry(node: N, key: nat)

  datatype Tree<N> = Leaf | Br(red: bool, left: Tree<N>, e: Entry<N>, right: Tree<N>)

  /** A tree with one subtree missing: the hole is the `side` child of entry `e`. */
  datatype Ctx<N> = Top | In(side: Side, red: bool, e: Entry<N>, other: Tree<N>, up: Ctx<N>)

  /** The branch whose `side` child is `near` and whose opposite child is `far`. */
  function Join<N>(side: Side, red: bool, near: Tree<N>, e: Entry<N>, far: Tree<N>): Tree<N> {
    if side.Left? then Br(red, near, e, far) else Br(red, far, e, near)
  }

  function Near<N>(side: Side, t: Tree<N>): Tree<N>
    requires t.Br?
  {
    if side.Left? then t.left else t.right
  }

  function Plug<N>(c: Ctx<N>, t: Tree<N>): Tree<N>
    decreases c
  {
    match c
    case Top => t
    case In(side, red, e, other, up) => Plug(up, Join(side, red, t, e, other))
  }

  /** The context `inner` continued outwards by `outer`. */
  function Append<N>(inner: Ctx<N>, outer: Ctx<N>): Ctx<N> {
    match inner
    case Top => outer
    case In(side, red, e, other, up) => In(side, red, e, other, Append(up, outer))
  }

  lemma {:induction false} PlugAppend<N>(inner: Ctx<N>, outer: Ctx<N>, t: Tree<N>)
    ensures Plug(Append(inner, outer), t) == Plug(outer, Plug(inner, t))
    decreases inner
  {
    match inner
    case Top =>
    case In(side, red, e, other, up) => PlugAppend(up, outer, Join(side, red, t, e, other));
  }

  // ----- symmetric order ------------------------------------------------------------------

  function InOrder<N>(t: Tree<N>): seq<Entry<N>> {
    match t
    case Leaf => []
    case Br(_, l, e, r) => InOrder(l) + [e] + InOrder(r)
  }

  /** What precedes, and what follows, the hole of a context in symmetric order. */
  function Before<N>(c: Ctx<N>): seq<Entry<N>> {
    match c
    case Top => []
    case In(side, _, e, other, up) => if side.Left? then Before(up) else Before(up) + InOrder(other) + [e]
  }

  function After<N>(c: Ctx<N>): seq<Entry<N>> {
    match c
    case Top => []
    case In(side, _, e, other, up) => if side.Left? then [e] + InOrder(other) + After(up) else After(up)
  }

  lemma {:induction false} InOrderPlug<N>(c: Ctx<N>, t: Tree<N>)
    ensures InOrder(Plug(c, t)) == Before(c) + InOrder(t) + After(c)
    decreases c
  {
    match c
    case Top =>
    case In(side, red, e, other, up) =>
      InOrderPlug(up, Join(side, red, t, e, other));
      if side.Left? {
        Regroup(Before(up), InOrder(t), [e], InOrder(other), After(up));
      } else {
        Regroup(Before(up), InOrder(other), [e], InOrder(t), After(up));
      }
  }

  lemma {:induction false} Regroup<T>(a: seq<T>, b: seq<T>, c: seq<T>, d: seq<T>, e: seq<T>)
    ensures a + (b + c + d) + e == a + b + (c + d + e)
    ensures a + (b + c + d) + e == (a + b + c) + d + e
  {}

  /** A rotation keeps the symmetric order. */
  lemma {:induction false} InOrderRotate<N>(cis: Side, pr: bool, qr: bool, pr': bool, qr': bool,
                         a: Tree<N>, p: Entry<N>, b: Tree<N>, q: Entry<N>, d: Tree<N>)
    ensures InOrder(Join(cis, pr, a, p, Join(cis, qr, b, q, d)))
         == InOrder(Join(cis, qr', Join(cis, pr', a, p, b), q, d))
  {
    if cis.Left? {
      assert InOrder(a) + [p] + (InOrder(b) + [q] + InOrder(d)) == (InOrder(a) + [p] + InOrder(b)) + [q] + InOrder(d);
    } else {
      assert (InOrder(d) + [q] + InOrder(b)) + [p] + InOrder(a) == InOrder(d) + [q] + (InOrder(b) + [p] + InOrder(a));
    }
  }

  ghost predicate Sorted<N>(s: seq<Entry<N>>) {
    forall i, j :: 0 <= i < j < |s| ==> s[i].key < s[j].key
  }

  ghost predicate AllBelow<N>(s: seq<Entry<N>>, k: nat) {
    forall i :: 0 <= i < |s| ==> s[i].key < k
  }

  ghost predicate AllAbove<N>(s: seq<Entry<N>>, k: nat) {
    forall i :: 0 <= i < |s| ==> k < s[i].key
  }

  // ----- the finite map a sorted sequence of entries stands for -----------------------------

  ghost function MapOf<N>(s: seq<Entry<N>>): map<nat, N> {
    if s == [] then map[] else map[s[0].key := s[0].node] + MapOf(s[1..])
  }

  lemma {:induction false} MergeAssociative<N>(a: map<nat, N>, b: map<nat, N>, c: map<nat, N>)
    ensures a + (b + c) == (a + b) + c
  {}

  lemma {:induction false} MapOfConcat<N>(a: seq<Entry<N>>, b: seq<Entry<N>>)
    ensures MapOf(a + b) == MapOf(a) + MapOf(b)
  {
    if a == [] {
      assert a + b == b;
    } else {
      assert (a + b)[1..] == a[1..] + b;
      MapOfConcat(a[1..], b);
      MergeAssociative(map[a[0].key := a[0].node], MapOf(a[1..]), MapOf(b));
    }
  }

  lemma {:induction false} MapOfKeys<N>(s: seq<Entry<N>>, k: nat)
    ensures k in MapOf(s) <==> exists i :: 0 <= i < |s| && s[i].key == k
  {
    if s != [] {
      MapOfKeys(s[1..], k);
      if i :| 0 <= i < |s| && s[i].key == k {
        if i > 0 { assert s[1..][i - 1].key == k; }
      }
      if i :| 0 <= i < |s[1..]| && s[1..][i].key == k {
        assert s[i + 1].key == k;
      }
    }
  }

  /** In sorted order a key is bound to the node of its one entry. */
  lemma {:induction false} MapOfAt<N>(s: seq<Entry<N>>, i: nat)
    requires Sorted(s) && i < |s|
    ensures s[i].key in MapOf(s) && MapOf(s)[s[i].key] == s[i].node
  {
    if i == 0 {
      if s[0].key in MapOf(s[1..]) {
        MapOfKeys(s[1..], s[0].key);
      }
    } else {
      MapOfAt(s[1..], i - 1);
    }
  }

  lemma {:induction false} MergeAround<N>(a: map<nat, N>, k: nat, n: N, b: map<nat, N>)
    requires k !in b
    ensures a + map[k := n] + b == (a + b)[k := n]
  {
    var x, y := a + map[k := n] + b, (a + b)[k := n];
    assert x.Keys == y.Keys;
    forall i | i in x ensures x[i] == y[i] {}
  }

  lemma {:induction false} MapOfOne<N>(e: Entry<N>)
    ensures MapOf([e]) == map[e.key := e.node]
  {
    assert [e][1..] == [];
  }

  lemma {:induction false} MapOfSplit<N>(a: seq<Entry<N>>, e: Entry<N>, b: seq<Entry<N>>)
    ensures MapOf(a + [e] + b) == MapOf(a) + map[e.key := e.node] + MapOf(b)
  {
    MapOfConcat(a + [e], b);
    MapOfConcat(a, [e]);
    MapOfOne(e);
  }

  /** Inserting one entry between its neighbours extends the map by one binding. */
  lemma {:induction false} MapOfInsert<N>(a: seq<Entry<N>>, e: Entry<N>, b: seq<Entry<N>>)
    requires AllBelow(a, e.key) && AllAbove(b, e.key)
    ensures e.key !in MapOf(a + b)
    ensures MapOf(a + [e] + b) == MapOf(a + b)[e.key := e.node]
  {
    MapOfKeys(a, e.key);
    MapOfKeys(b, e.key);
    MapOfConcat(a, b);
    MapOfSplit(a, e, b);
    MergeAround(MapOf(a), e.key, e.node, MapOf(b));
  }

  lemma {:induction false} SortedInsert<N>(a: seq<Entry<N>>, e: Entry<N>, b: seq<Entry<N>>)
    requires Sorted(a + b) && AllBelow(a, e.key) && AllAbove(b, e.key)
    ensures Sorted(a + [e] + b)
  {
    forall i, j | 0 <= i < j < |a + [e] + b|
      ensures (a + [e] + b)[i].key < (a + [e] + b)[j].key
    {
      if i < |a| && j > |a| { assert (a + b)[i].key < (a + b)[j - 1].key; }
      if j < |a| { assert (a + b)[i].key < (a + b)[j].key; }
      if i > |a| { assert (a + b)[i - 1].key < (a + b)[j - 1].key; }
    }
  }

  lemma {:induction false} SortedRemove<N>(a: seq<Entry<N>>, e: Entry<N>, b: seq<Entry<N>>)
    requires Sorted(a + [e] + b)
    ensures Sorted(a + b) && AllBelow(a, e.key) && AllAbove(b, e.key)
  {
    var s := a + [e] + b;
    assert s[|a|] == e;
    forall i | 0 <= i < |a| ensures a[i].key < e.key { assert s[i] == a[i]; }
    forall i | 0 <= i < |b| ensures e.key < b[i].key { assert s[|a| + 1 + i] == b[i]; }
    forall i, j | 0 <= i < j < |a + b| ensures (a + b)[i].key < (a + b)[j].key {
      assert (a + b)[i] == s[if i < |a| then i else i + 1];
      assert (a + b)[j] == s[if j < |a| then j else j + 1];
    }
  }

  // ----- balance ------------------------------------------------------------------------------

  predicate Black<N>(t: Tree<N>) {
    t.Br? ==> !t.red
  }

  /** No red node has a red child and every path to a leaf has `h` black nodes. */
  predicate Balanced<N>(t: Tree<N>, h: nat) {
    match t
    case Leaf => h == 0
    case Br(red, l, _, r) =>
      if red then Black(l) && Black(r) && Balanced(l, h) && Balanced(r, h)
      else h > 0 && Balanced(l, h - 1) && Balanced(r, h - 1)
  }

  predicate RedHead<N>(c: Ctx<N>) {
    c.In? && c.red
  }

  /** Plugging a tree of black height `h` into `c` gives a balanced tree with a black root, apart
      from a red plugged root under a red head. */
  predicate BalancedCtx<N>(c: Ctx<N>, h: nat) {
    match c
    case Top => true
    case In(_, red, _, other, up) =>
      && Balanced(other, h)
      && (if red then Black(other) && up.In? && !up.red && BalancedCtx(up, h) else BalancedCtx(up, h + 1))
  }

  ghost predicate RedBlack<N>(t: Tree<N>) {
    Black(t) && exists h: nat :: Balanced(t, h)
  }

  lemma {:induction false} PlugBalanced<N>(c: Ctx<N>, t: Tree<N>, h: nat)
    requires Balanced(t, h) && BalancedCtx(c, h)
    requires !Black(t) ==> !RedHead(c)
    requires c.Top? ==> Black(t)
    ensures RedBlack(Plug(c, t))
    decreases c
  {
    match c
    case Top =>
    case In(side, red, e, other, up) =>
      PlugBalanced(up, Join(side, red, t, e, other), if red then h else h + 1);
  }

  lemma {:induction false} UnplugBalanced<N>(c: Ctx<N>, t: Tree<N>) returns (h: nat)
    requires RedBlack(Plug(c, t))
    ensures Balanced(t, h) && BalancedCtx(c, h)
    ensures !Black(t) ==> c.In? && !RedHead(c)
    decreases c
  {
    match c
    case Top =>
      h :| Balanced(t, h);
    case In(side, red, e, other, up) =>
      var h' := UnplugBalanced(up, Join(side, red, t, e, other));
      h := if red then h' else h' - 1;
  }

  // ----- height ---------------------------------------------------------------------------------

  function Size<N>(t: Tree<N>): nat {
    match t
    case Leaf => 0
    case Br(_, l, _, r) => Size(l) + 1 + Size(r)
  }

  function Height<N>(t: Tree<N>): nat {
    match t
    case Leaf => 0
    case Br(_, l, _, r) => 1 + (if Height(l) >= Height(r) then Height(l) else Height(r))
  }

  function Pow2(n: nat): nat {
    if n == 0 then 1 else 2 * Pow2(n - 1)
  }

  lemma {:induction false} Pow2Sum(m: nat, n: nat)
    ensures Pow2(m + n) == Pow2(m) * Pow2(n)
  {
    if m > 0 { Pow2Sum(m - 1, n); }
  }

  lemma {:induction false} Pow2Monotone(m: nat, n: nat)
    requires m <= n
    ensures 1 <= Pow2(m) <= Pow2(n)
    decreases n
  {
    if m < n { Pow2Monotone(m, n - 1); } else if m > 0 { Pow2Monotone(m - 1, n - 1); }
  }

  lemma {:induction false} BlackHeightBounds<N>(t: Tree<N>, h: nat)
    requires Balanced(t, h)
    ensures Pow2(h) <= Size(t) + 1
    ensures Height(t) <= 2 * h + (if Black(t) then 0 else 1)
  {
    match t
    case Leaf =>
    case Br(red, l, _, r) =>
      BlackHeightBounds(l, if red then h else h - 1);
      BlackHeightBounds(r, if red then h else h - 1);
  }

  lemma {:induction false} SquareMonotone(p: nat, n: nat)
    requires p <= n
    ensures p * p <= n * n
  {
    assert p * p <= p * n <= n * n;
  }

  /** The height of a red-black tree of n entries is at most 2 * log2(n + 1). */
  lemma {:induction false} HeightBound<N>(t: Tree<N>)
    requires RedBlack(t)
    ensures Pow2(Height(t)) <= (Size(t) + 1) * (Size(t) + 1)
  {
    var h: nat :| Balanced(t, h);
    BlackHeightBounds(t, h);
    Pow2Monotone(Height(t), h + h);
    Pow2Sum(h, h);
    SquareMonotone(Pow2(h), Size(t) + 1);
  }

  // ----- rebalancing after an insertion -----------------------------------------------------------

  /** `c` is where a red focus violates the colour rule: under red `p`, itself the `cis` child of
      a black grandparent. */
  predicate RedRed<N>(c: Ctx<N>, cis: Side) {
    c.In? && c.red && c.up.In? && !c.up.red && c.up.side == cis
  }

  /** A red uncle: parent and uncle turn black, the grandparent red. */
  function Recoloured<N>(c: Ctx<N>, t: Tree<N>): Tree<N>
    requires c.In? && c.up.In? && c.up.other.Br?
  {
    Join(c.up.side, true, Join(c.side, false, t, c.e, c.other), c.up.e, c.up.other.(red := false))
  }

  lemma {:induction false} RecolourBalance<N>(c: Ctx<N>, t: Tree<N>, h: nat)
    requires Balanced(t, h) && BalancedCtx(c, h)
    requires c.In? && c.red && c.up.In? && !c.up.red && c.up.other.Br? && c.up.other.red
    ensures Balanced(Recoloured(c, t), h + 1) && BalancedCtx(c.up.up, h + 1)
    ensures InOrder(Plug(c.up.up, Recoloured(c, t))) == InOrder(Plug(c, t))
  {
    InOrderPlug(c.up.up, Recoloured(c, t));
    InOrderPlug(c.up.up, Join(c.up.side, c.up.red, Join(c.side, c.red, t, c.e, c.other), c.up.e, c.up.other));
  }

  /** An inner grandchild: the focus and its parent change places. */
  function Straightened<N>(c: Ctx<N>, t: Tree<N>): Ctx<N>
    requires c.In? && c.up.In? && t.Br?
  {
    In(c.up.side, true, t.e, Near(Opposite(c.up.side), t), c.up)
  }

  function StraightenedFocus<N>(c: Ctx<N>, t: Tree<N>): Tree<N>
    requires c.In? && c.up.In? && t.Br?
  {
    Join(c.up.side, true, c.other, c.e, Near(c.up.side, t))
  }

  lemma {:induction false} StraightenBalance<N>(c: Ctx<N>, t: Tree<N>, h: nat)
    requires Balanced(t, h) && BalancedCtx(c, h) && t.Br? && t.red
    requires c.In? && c.red && c.up.In? && !c.up.red && c.side == Opposite(c.up.side)
    ensures Balanced(StraightenedFocus(c, t), h) && BalancedCtx(Straightened(c, t), h)
    ensures InOrder(Plug(Straightened(c, t), StraightenedFocus(c, t))) == InOrder(Plug(c, t))
  {
    var cis := c.up.side;
    var a, b, d := c.other, Near(cis, t), Near(Opposite(cis), t);
    assert t == Join(cis, true, b, t.e, d);
    InOrderRotate(cis, true, true, true, true, a, c.e, b, t.e, d);
    InOrderPlug(c.up, Join(cis, true, a, c.e, t));
    InOrderPlug(c.up, Join(cis, true, Join(cis, true, a, c.e, b), t.e, d));
  }

  /** An outer grandchild: the parent turns black and takes the place of the red grandparent. */
  function Lifted<N>(c: Ctx<N>): Ctx<N>
    requires c.In? && c.up.In?
  {
    In(c.side, false, c.e, Join(c.side, true, c.other, c.up.e, c.up.other), c.up.up)
  }

  lemma {:induction false} LiftBalance<N>(c: Ctx<N>, t: Tree<N>, h: nat)
    requires Balanced(t, h) && BalancedCtx(c, h)
    requires c.In? && c.red && c.up.In? && !c.up.red && c.side == c.up.side && Black(c.up.other)
    ensures BalancedCtx(Lifted(c), h)
    ensures InOrder(Plug(Lifted(c), t)) == InOrder(Plug(c, t))
  {
    var s := Opposite(c.side);
    InOrderRotate(s, true, true, true, false, c.up.other, c.up.e, c.other, c.e, t);
    InOrderPlug(c.up.up, Join(s, c.up.red, c.up.other, c.up.e, Join(s, c.red, c.other, c.e, t)));
    InOrderPlug(c.up.up, Join(s, false, Join(s, true, c.up.other, c.up.e, c.other), c.e, t));
  }

  /** The last step of an insertion: the root is painted black. */
  lemma {:induction false} BlackenRoot<N>(c: Ctx<N>, t: Tree<N>, h: nat)
    requires Balanced(t, h) && BalancedCtx(c, h) && t.Br? && t.red && !RedHead(c)
    ensures Plug(c, t).Br? && RedBlack(Plug(c, t).(red := false))
    ensures InOrder(Plug(c, t).(red := false)) == InOrder(Plug(c, t))
  {
    if c.Top? {
      assert Balanced(t.(red := false), h + 1);
    } else {
      PlugBranch(c, t);
      PlugBalanced(c, t, h);
    }
  }

  lemma {:induction false} PlugBranch<N>(c: Ctx<N>, t: Tree<N>)
    requires c.In? || t.Br?
    ensures Plug(c, t).Br?
    decreases c
  {
    if c.In? { PlugBranch(c.up, Join(c.side, c.red, t, c.e, c.other)); }
  }

  function Depth<N>(c: Ctx<N>): nat {
    if c.Top? then 0 else 1 + Depth(c.up)
  }

  // ----- search -------------------------------------------------------------------------------------

  /** Key `k` can only be bound below the focus of `c`. */
  ghost predicate Between<N>(c: Ctx<N>, k: nat) {
    AllBelow(Before(c), k) && AllAbove(After(c), k)
  }

  /** The child of a branch on the side where `k` belongs, and the context around it. */
  function StepDown<N>(side: Side, c: Ctx<N>, t: Tree<N>): Ctx<N>
    requires t.Br?
  {
    In(side, t.red, t.e, Near(Opposite(side), t), c)
  }

  lemma {:induction false} SplitAtRoot<N>(c: Ctx<N>, t: Tree<N>)
    requires t.Br?
    ensures InOrder(Plug(c, t)) == (Before(c) + InOrder(t.left)) + [t.e] + (InOrder(t.right) + After(c))
  {
    InOrderPlug(c, t);
    Regroup(Before(c), InOrder(t.left), [t.e], InOrder(t.right), After(c));
  }

  lemma {:induction false} SearchStep<N>(c: Ctx<N>, t: Tree<N>, k: nat)
    requires Sorted(InOrder(Plug(c, t))) && Between(c, k) && t.Br? && k != t.e.key
    ensures Between(StepDown(if k < t.e.key then Left else Right, c, t), k)
  {
    SplitAtRoot(c, t);
    var a, b := Before(c) + InOrder(t.left), InOrder(t.right) + After(c);
    SortedRemove(a, t.e, b);
    if k < t.e.key {
      assert After(StepDown(Left, c, t)) == [t.e] + b;
    } else {
      assert Before(StepDown(Right, c, t)) == a + [t.e];
    }
  }

  lemma {:induction false} SearchFound<N>(c: Ctx<N>, t: Tree<N>)
    requires Sorted(InOrder(Plug(c, t))) && t.Br?
    ensures t.e.key in MapOf(InOrder(Plug(c, t))) && MapOf(InOrder(Plug(c, t)))[t.e.key] == t.e.node
  {
    InOrderPlug(c, t);
    var i := |Before(c)| + |InOrder(t.left)|;
    assert InOrder(Plug(c, t))[i] == t.e;
    MapOfAt(InOrder(Plug(c, t)), i);
  }

  lemma {:induction false} SearchMissing<N>(c: Ctx<N>, k: nat)
    requires Between(c, k)
    ensures k !in MapOf(InOrder(Plug(c, Leaf)))
  {
    InOrderPlug(c, Leaf);
    MapOfKeys(InOrder(Plug(c, Leaf)), k);
  }

  /** A new red leaf in the place search ends at. */
  lemma {:induction false} InsertLeaf<N>(c: Ctx<N>, e: Entry<N>)
    requires RedBlack(Plug(c, Leaf)) && Sorted(InOrder(Plug(c, Leaf))) && Between(c, e.key)
    ensures var s := InOrder(Plug(c, Br(true, Leaf, e, Leaf)));
            Sorted(s) && MapOf(s) == MapOf(InOrder(Plug(c, Leaf)))[e.key := e.node]
    ensures Balanced(Br(true, Leaf, e, Leaf), 0) && BalancedCtx(c, 0)
  {
    InOrderPlug(c, Leaf);
    InOrderPlug(c, Br(true, Leaf, e, Leaf));
    var a, b := Before(c), After(c);
    assert InOrder(Plug(c, Leaf)) == a + b;
    assert InOrder(Br(true, Leaf, e, Leaf)) == [e];
    SortedInsert(a, e, b);
    MapOfInsert(a, e, b);
    var h := UnplugBalanced(c, Leaf);
  }

  // ----- rebalancing after a removal ------------------------------------------------------------------

  /** The focus is one black node short: its context wants black height h + 1. */
  predicate Short<N>(c: Ctx<N>, t: Tree<N>, h: nat) {
    Balanced(t, h) && Black(t) && BalancedCtx(c, h + 1)
  }

  /** The context seen from the focus's sibling. */
  function Across<N>(c: Ctx<N>, t: Tree<N>): Ctx<N>
    requires c.In?
  {
    In(Opposite(c.side), c.red, c.e, t, c.up)
  }

  /** A red sibling takes its parent's place; the focus gets a black one. */
  function SiblingUp<N>(c: Ctx<N>): Ctx<N>
    requires c.In? && c.other.Br?
  {
    In(c.side, true, c.e, Near(c.side, c.other), In(c.side, false, c.other.e, Near(Opposite(c.side), c.other), c.up))
  }

  lemma {:induction false} SiblingUpBalance<N>(c: Ctx<N>, t: Tree<N>, h: nat)
    requires Short(c, t, h) && c.In? && c.other.Br? && c.other.red
    ensures Short(SiblingUp(c), t, h) && Black(SiblingUp(c).other)
    ensures InOrder(Plug(SiblingUp(c), t)) == InOrder(Plug(c, t))
  {
    var s := c.other;
    InOrderRotate(c.side, c.red, true, true, false, t, c.e, Near(c.side, s), s.e, Near(Opposite(c.side), s));
    InOrderPlug(c.up, Join(c.side, c.red, t, c.e, s));
    InOrderPlug(c.up, Join(c.side, false, Join(c.side, true, t, c.e, Near(c.side, s)), s.e, Near(Opposite(c.side), s)));
  }

  predicate RedChild<N>(side: Side, t: Tree<N>) {
    t.Br? && Near(side, t).Br? && Near(side, t).red
  }

  /** A sibling whose only red child is the near one: that child takes the sibling's place. */
  function SiblingTurned<N>(c: Ctx<N>): Ctx<N>
    requires c.In? && c.other.Br? && Near(c.side, c.other).Br?
  {
    var s, q := c.other, Near(c.side, c.other);
    c.(other := Join(c.side, false, Near(c.side, q), q.e,
                     Join(c.side, true, Near(Opposite(c.side), q), s.e, Near(Opposite(c.side), s))))
  }

  lemma {:induction false} SiblingTurnedBalance<N>(c: Ctx<N>, t: Tree<N>, h: nat)
    requires Short(c, t, h) && c.In? && c.other.Br? && !c.other.red
    requires RedChild(c.side, c.other) && !RedChild(Opposite(c.side), c.other)
    ensures Short(SiblingTurned(c), t, h) && RedChild(Opposite(c.side), SiblingTurned(c).other)
    ensures InOrder(Plug(SiblingTurned(c), t)) == InOrder(Plug(c, t))
  {
    var s, q, trans := c.other, Near(c.side, c.other), Opposite(c.side);
    assert Balanced(q, h) && Balanced(Near(trans, s), h);
    assert Balanced(Near(c.side, q), h) && Balanced(Near(trans, q), h);
    assert Balanced(Join(c.side, true, Near(trans, q), s.e, Near(trans, s)), h);
    InOrderRotate(trans, true, false, true, false, Near(trans, s), s.e, Near(trans, q), q.e, Near(c.side, q));
    assert InOrder(SiblingTurned(c).other) == InOrder(s);
    InOrderPlug(c.up, Join(c.side, c.red, t, c.e, s));
    InOrderPlug(c.up, Join(c.side, c.red, t, c.e, SiblingTurned(c).other));
  }

  /** A sibling whose far child is red takes the parent's place and colour: balance is restored. */
  function Restored<N>(c: Ctx<N>, t: Tree<N>): Tree<N>
    requires c.In? && RedChild(Opposite(c.side), c.other)
  {
    var s, trans := c.other, Opposite(c.side);
    Join(c.side, c.red, Join(c.side, false, t, c.e, Near(c.side, s)), s.e, Near(trans, s).(red := false))
  }

  lemma {:induction false} RestoredBalance<N>(c: Ctx<N>, t: Tree<N>, h: nat)
    requires Short(c, t, h) && c.In? && c.other.Br? && !c.other.red && RedChild(Opposite(c.side), c.other)
    ensures RedBlack(Plug(c.up, Restored(c, t)))
    ensures InOrder(Plug(c.up, Restored(c, t))) == InOrder(Plug(c, t))
  {
    var s, trans := c.other, Opposite(c.side);
    assert Balanced(Near(c.side, s), h) && Balanced(Near(trans, s), h);
    assert Balanced(Join(c.side, false, t, c.e, Near(c.side, s)), h + 1);
    assert Balanced(Near(trans, s).(red := false), h + 1);
    PlugBalanced(c.up, Restored(c, t), if c.red then h + 1 else h + 2);
    InOrderRotate(c.side, c.red, false, false, c.red, t, c.e, Near(c.side, s), s.e, Near(trans, s));
    InOrderPlug(c.up, Join(c.side, c.red, t, c.e, s));
    InOrderPlug(c.up, Restored(c, t));
  }

  function Blackened<N>(t: Tree<N>): Tree<N> {
    if t.Br? then t.(red := false) else t
  }

  /** A sibling with black children turns red: the shortage moves up. */
  function SiblingReddened<N>(c: Ctx<N>, t: Tree<N>): Tree<N>
    requires c.In? && c.other.Br?
  {
    Join(c.side, c.red, t, c.e, c.other.(red := true))
  }

  lemma {:induction false} SiblingReddenedBalance<N>(c: Ctx<N>, t: Tree<N>, h: nat)
    requires Short(c, t, h) && c.In? && c.other.Br? && !c.other.red
    requires !RedChild(Left, c.other) && !RedChild(Right, c.other)
    ensures !c.red ==> Short(c.up, SiblingReddened(c, t), h + 1)
    ensures c.red ==> RedBlack(Plug(c.up, Blackened(SiblingReddened(c, t))))
    ensures InOrder(Plug(c.up, SiblingReddened(c, t))) == InOrder(Plug(c, t))
  {
    if c.red { PlugBalanced(c.up, Blackened(SiblingReddened(c, t)), h + 1); }
    InOrderPlug(c.up, Join(c.side, c.red, t, c.e, c.other));
    InOrderPlug(c.up, SiblingReddened(c, t));
  }

  lemma {:induction false} InOrderBlackened<N>(c: Ctx<N>, t: Tree<N>)
    ensures InOrder(Plug(c, Blackened(t))) == InOrder(Plug(c, t))
  {
    InOrderPlug(c, t);
    InOrderPlug(c, Blackened(t));
  }

  // ----- taking an entry out --------------------------------------------------------------------------

  /** A one-child branch of colour `red` in `c` gives way to its child `x`: what is left to repair. */
  ghost predicate Spliced<N>(c: Ctx<N>, red: bool, x: Tree<N>) {
    if red then RedBlack(Plug(c, x))
    else if Black(x) then exists h: nat :: Short(c, x, h)
    else RedBlack(Plug(c, Blackened(x)))
  }

  lemma {:induction false} SpliceBalance<N>(c: Ctx<N>, t: Tree<N>, x: Tree<N>, h: nat)
    requires Balanced(t, h) && BalancedCtx(c, h) && (!Black(t) ==> c.In? && !RedHead(c))
    requires t.Br? && ((t.left.Leaf? && x == t.right) || (t.right.Leaf? && x == t.left))
    ensures Spliced(c, t.red, x)
  {
    if t.red {
      PlugBalanced(c, x, h);
    } else if Black(x) {
      assert Short(c, x, h - 1);
    } else {
      assert Balanced(Blackened(x), h);
      PlugBalanced(c, Blackened(x), h);
    }
  }

  /** Taking the middle entry out of a sorted sequence takes its binding out of the map. */
  lemma {:induction false} MapOfRemove<N>(a: seq<Entry<N>>, e: Entry<N>, b: seq<Entry<N>>)
    requires Sorted(a + [e] + b)
    ensures Sorted(a + b) && MapOf(a + b) == MapOf(a + [e] + b) - {e.key}
    ensures e.key in MapOf(a + [e] + b) && MapOf(a + [e] + b)[e.key] == e.node
  {
    SortedRemove(a, e, b);
    MapOfInsert(a, e, b);
  }

  /** An entry with at most one child is taken out by splicing. */
  lemma {:induction false} SpliceOrder<N>(c: Ctx<N>, t: Tree<N>, x: Tree<N>) returns (a: seq<Entry<N>>, b: seq<Entry<N>>)
    requires t.Br? && ((t.left.Leaf? && x == t.right) || (t.right.Leaf? && x == t.left))
    ensures InOrder(Plug(c, t)) == a + [t.e] + b && InOrder(Plug(c, x)) == a + b
  {
    a, b := Before(c) + InOrder(t.left), InOrder(t.right) + After(c);
    SplitAtRoot(c, t);
    InOrderPlug(c, x);
    Collapse(Before(c), InOrder(x), After(c));
  }

  lemma {:induction false} Collapse<T>(p: seq<T>, x: seq<T>, q: seq<T>)
    ensures (p + []) + (x + q) == p + x + q
    ensures (p + x) + ([] + q) == p + x + q
  {}

  /** A chain of left children, as the walk to a successor leaves behind. */
  predicate LeftChain<N>(d: Ctx<N>) {
    d.In? ==> d.side.Left? && LeftChain(d.up)
  }

  lemma {:induction false} LeftChainBefore<N>(d: Ctx<N>)
    requires LeftChain(d)
    ensures Before(d) == []
  {
    if d.In? { LeftChainBefore(d.up); }
  }

  /** The context of the successor's child, once the successor has taken the place of `c`'s focus. */
  function SuccessorCtx<N>(c: Ctx<N>, red: bool, l: Tree<N>, e: Entry<N>, d: Ctx<N>): Ctx<N> {
    Append(d, In(Right, red, e, l, c))
  }

  lemma {:induction false} SuccessorCtxBalance<N>(c: Ctx<N>, red: bool, l: Tree<N>, e: Entry<N>, e': Entry<N>, d: Ctx<N>, h: nat)
    requires BalancedCtx(SuccessorCtx(c, red, l, e, d), h)
    ensures BalancedCtx(SuccessorCtx(c, red, l, e', d), h)
    ensures RedHead(SuccessorCtx(c, red, l, e', d)) == RedHead(SuccessorCtx(c, red, l, e, d))
    decreases d
  {
    if d.In? { SuccessorCtxBalance(c, red, l, e, e', d.up, if d.red then h else h + 1); }
  }

  lemma {:induction false} SuccessorBalance<N>(c: Ctx<N>, red: bool, l: Tree<N>, e: Entry<N>, d: Ctx<N>, s: Tree<N>)
    requires s.Br? && s.left.Leaf? && RedBlack(Plug(c, Br(red, l, e, Plug(d, s))))
    ensures Spliced(SuccessorCtx(c, red, l, s.e, d), s.red, s.right)
  {
    PlugAppend(d, In(Right, red, e, l, c), s);
    var h := UnplugBalanced(SuccessorCtx(c, red, l, e, d), s);
    SuccessorCtxBalance(c, red, l, e, s.e, d, h);
    assert SuccessorCtx(c, red, l, s.e, d).In? by { assert d.Top? || d.In?; }
    SpliceBalance(SuccessorCtx(c, red, l, s.e, d), s, s.right, h);
  }

  lemma {:induction false} SuccessorOrder<N>(c: Ctx<N>, red: bool, l: Tree<N>, e: Entry<N>, d: Ctx<N>, s: Tree<N>)
    returns (a: seq<Entry<N>>, b: seq<Entry<N>>)
    requires s.Br? && s.left.Leaf? && LeftChain(d)
    ensures InOrder(Plug(c, Br(red, l, e, Plug(d, s)))) == a + [e] + b
    ensures InOrder(Plug(SuccessorCtx(c, red, l, s.e, d), s.right)) == a + b
  {
    a, b := Before(c) + InOrder(l), InOrder(Plug(d, s)) + After(c);
    SplitAtRoot(c, Br(red, l, e, Plug(d, s)));
    SplitAtRoot(c, Br(red, l, s.e, Plug(d, s.right)));
    PlugAppend(d, In(Right, red, s.e, l, c), s.right);
    SuccessorFirst(d, s);
    Shift(a, [s.e], InOrder(Plug(d, s.right)), After(c));
  }

  lemma {:induction false} Shift<T>(a: seq<T>, b: seq<T>, c: seq<T>, d: seq<T>)
    ensures a + b + (c + d) == a + ((b + c) + d)
  {}

  lemma {:induction false} SuccessorFirst<N>(d: Ctx<N>, s: Tree<N>)
    requires s.Br? && s.left.Leaf? && LeftChain(d)
    ensures InOrder(Plug(d, s)) == [s.e] + InOrder(Plug(d, s.right))
  {
    LeftChainBefore(d);
    InOrderPlug(d, s);
    InOrderPlug(d, s.right);
    Front([s.e], InOrder(s.right), After(d));
  }

  lemma {:induction false} Front<T>(e: seq<T>, x: seq<T>, q: seq<T>)
    ensures [] + ([] + e + x) + q == e + ([] + x + q)
  {}
}
