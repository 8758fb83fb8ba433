/** Pairing heaps as values: the child/sibling trees that sync/timer.hpp links its nodes into, their
    melding, and the contexts that a cancelled node sits in. */
module TimerHeapShape {

  datatype Timer<N> = Timer(node: N, expire: int)

  /** A list of heaps in child/sibling form: the first heap's node, its children, its siblings. */
  datatype Heap<N> = Nil | Nd(t: Timer<N>, kids: Heap<N>, sibs: Heap<N>)

  /** At most one heap. */
  predicate Single<N>(h: Heap<N>) {
    h.Nd? ==> h.sibs.Nil?
  }

  ghost function Timers<N>(h: Heap<N>): set<Timer<N>> {
    match h
    case Nil => {}
    case Nd(t, kids, sibs) => {t} + Timers(kids) + Timers(sibs)
  }

  /** No timer fires before `lo`, and none before its parent. */
  predicate Ordered<N>(h: Heap<N>, lo: int) {
    match h
    case Nil => true
    case Nd(t, kids, sibs) => lo <= t.expire && Ordered(kids, t.expire) && Ordered(sibs, lo)
  }

  lemma {:induction false} OrderedWeaker<N>(h: Heap<N>, lo: int, lo': int)
    requires Ordered(h, lo) && lo' <= lo
    ensures Ordered(h, lo')
  {
    if h.Nd? { OrderedWeaker(h.sibs, lo, lo'); }
  }

  lemma {:induction false} OrderedLeast<N>(h: Heap<N>, lo: int, t: Timer<N>)
    requires Ordered(h, lo) && t in Timers(h)
    ensures lo <= t.expire
  {
    if t != h.t {
      if t in Timers(h.kids) { OrderedLeast(h.kids, h.t.expire, t); } else { OrderedLeast(h.sibs, lo, t); }
    }
  }

  // ----- heap_meld ------------------------------------------------------------------------------

  function Meld<N>(a: Heap<N>, b: Heap<N>): Heap<N> {
    if a.Nil? then b
    else if b.Nil? then a
    else if a.t.expire <= b.t.expire then a.(kids := b.(sibs := a.kids))
    else b.(kids := a.(sibs := b.kids))
  }

  lemma {:induction false} MeldFacts<N>(a: Heap<N>, b: Heap<N>, lo: int)
    requires Single(a) && Single(b)
    ensures Single(Meld(a, b)) && Timers(Meld(a, b)) == Timers(a) + Timers(b)
    ensures Ordered(a, lo) && Ordered(b, lo) ==> Ordered(Meld(a, b), lo)
  {}

  // ----- two_pass_merge -----------------------------------------------------------------------

  function TwoPass<N>(h: Heap<N>): Heap<N> {
    if h.Nil? || h.sibs.Nil? then h
    else Meld(Meld(h.(sibs := Nil), h.sibs.(sibs := Nil)), TwoPass(h.sibs.sibs))
  }

  /** Merging a list of siblings gives one heap with the same timers and keeps the order. */
  lemma {:induction false} TwoPassFacts<N>(h: Heap<N>, lo: int)
    ensures Single(TwoPass(h)) && Timers(TwoPass(h)) == Timers(h)
    ensures Ordered(h, lo) ==> Ordered(TwoPass(h), lo)
  {
    if h.Nd? && h.sibs.Nd? {
      var a, b, rest := h.(sibs := Nil), h.sibs.(sibs := Nil), h.sibs.sibs;
      TwoPassFacts(rest, lo);
      MeldFacts(a, b, lo);
      MeldFacts(Meld(a, b), TwoPass(rest), lo);
      assert Ordered(h, lo) ==> Ordered(h.sibs, lo) && Ordered(a, lo) && Ordered(b, lo);
      assert Timers(h.sibs) == Timers(b) + Timers(rest);
    }
  }

  // ----- contexts -------------------------------------------------------------------------------

  /** A heap with a list missing: the children of a node, or its following siblings. */
  datatype Ctx<N> =
    | Top
    | InKids(t: Timer<N>, sibs: Heap<N>, up: Ctx<N>)
    | InSibs(t: Timer<N>, kids: Heap<N>, up: Ctx<N>)

  function Plug<N>(c: Ctx<N>, h: Heap<N>): Heap<N>
    decreases c
  {
    match c
    case Top => h
    case InKids(t, sibs, up) => Plug(up, Nd(t, h, sibs))
    case InSibs(t, kids, up) => Plug(up, Nd(t, kids, h))
  }

  ghost function CtxTimers<N>(c: Ctx<N>): set<Timer<N>> {
    match c
    case Top => {}
    case InKids(t, sibs, up) => {t} + Timers(sibs) + CtxTimers(up)
    case InSibs(t, kids, up) => {t} + Timers(kids) + CtxTimers(up)
  }

  lemma {:induction false} TimersPlug<N>(c: Ctx<N>, h: Heap<N>)
    ensures Timers(Plug(c, h)) == Timers(h) + CtxTimers(c)
    decreases c
  {
    match c
    case Top =>
    case InKids(t, sibs, up) => TimersPlug(up, Nd(t, h, sibs));
    case InSibs(t, kids, up) => TimersPlug(up, Nd(t, kids, h));
  }

  /** Dropping the first of a list of siblings, with its subheap, keeps the order; the subheap is
      itself ordered. */
  lemma {:induction false} OrderedDrop<N>(c: Ctx<N>, h: Heap<N>, lo: int)
    requires Ordered(Plug(c, h), lo) && h.Nd?
    ensures Ordered(Plug(c, h.sibs), lo) && Ordered(h.kids, lo)
    decreases c
  {
    var b := OrderedHole(c, h, h.sibs, lo);
    OrderedWeaker(h.kids, h.t.expire, lo);
  }

  /** The bound in force at the hole; any list with that bound may be plugged in. */
  lemma {:induction false} OrderedHole<N>(c: Ctx<N>, h: Heap<N>, h': Heap<N>, lo: int) returns (b: int)
    requires Ordered(Plug(c, h), lo)
    ensures lo <= b && Ordered(h, b)
    ensures Ordered(h', b) ==> Ordered(Plug(c, h'), lo)
    decreases c
  {
    match c
    case Top => b := lo;
    case InKids(t, sibs, up) =>
      var b' := OrderedHole(up, Nd(t, h, sibs), Nd(t, h', sibs), lo);
      b := t.expire;
    case InSibs(t, kids, up) => b := OrderedHole(up, Nd(t, kids, h), Nd(t, kids, h'), lo);
  }

  // ----- siblings -------------------------------------------------------------------------------

  /** Timer `t` is in the top row of `h`. */
  ghost predicate InRow<N>(h: Heap<N>, t: Timer<N>) {
    h.Nd? && (h.t == t || InRow(h.sibs, t))
  }

  /** The row of children a timer below the top row sits in. */
  lemma {:induction false} FindRow<N>(c: Ctx<N>, h: Heap<N>, t: Timer<N>) returns (c': Ctx<N>, row: Heap<N>)
    requires t in Timers(h) && !InRow(h, t)
    ensures c'.InKids? && InRow(row, t) && Plug(c', row) == Plug(c, h)
    decreases h
  {
    if t in Timers(h.kids) {
      if InRow(h.kids, t) {
        c', row := InKids(h.t, h.sibs, c), h.kids;
      } else {
        c', row := FindRow(InKids(h.t, h.sibs, c), h.kids, t);
      }
    } else {
      c', row := FindRow(InSibs(h.t, h.kids, c), h.sibs, t);
    }
  }

  /** Shortening a list of siblings keeps a single heap single. */
  lemma {:induction false} PlugSingle<N>(c: Ctx<N>, h: Heap<N>, h': Heap<N>)
    requires Single(Plug(c, h)) && (h'.Nd? ==> h.Nd?) && (Single(h) ==> Single(h'))
    ensures Single(Plug(c, h'))
    decreases c
  {
    match c
    case Top =>
    case InKids(t, sibs, up) => PlugSingle(up, Nd(t, h, sibs), Nd(t, h', sibs));
    case InSibs(t, kids, up) => PlugSingle(up, Nd(t, kids, h), Nd(t, kids, h'));
  }

  // ----- whole heaps ----------------------------------------------------------------------------

  ghost predicate MinHeap<N>(h: Heap<N>) {
    Single(h) && (h.Nd? ==> Ordered(h, h.t.expire))
  }

  lemma {:induction false} Tighten<N>(h: Heap<N>, lo: int)
    requires Single(h) && Ordered(h, lo)
    ensures MinHeap(h)
  {}

  lemma {:induction false} DeleteMinFacts<N>(h: Heap<N>)
    requires MinHeap(h) && h.Nd?
    ensures MinHeap(TwoPass(h.kids))
  {
    TwoPassFacts(h.kids, h.t.expire);
    Tighten(TwoPass(h.kids), h.t.expire);
  }

  lemma {:induction false} InsertFacts<N>(h: Heap<N>, t: Timer<N>)
    requires MinHeap(h)
    ensures MinHeap(Meld(h, Nd(t, Nil, Nil)))
  {
    var lo := if h.Nd? && h.t.expire < t.expire then h.t.expire else t.expire;
    if h.Nd? { OrderedWeaker(h, h.t.expire, lo); }
    MeldFacts(h, Nd(t, Nil, Nil), lo);
    Tighten(Meld(h, Nd(t, Nil, Nil)), lo);
  }

  /** What cancelling an interior node leaves: the heap without its subheap, melded with the merge
      of its children. */
  lemma {:induction false} CancelFacts<N>(c: Ctx<N>, h: Heap<N>)
    requires MinHeap(Plug(c, h)) && h.Nd?
    ensures Single(Plug(c, h.sibs)) && MinHeap(Meld(Plug(c, h.sibs), TwoPass(h.kids)))
  {
    TimersPlug(c, h);
    assert h.t in Timers(Plug(c, h));
    var lo := Plug(c, h).t.expire;
    PlugSingle(c, h, h.sibs);
    OrderedDrop(c, h, lo);
    TwoPassFacts(h.kids, lo);
    MeldFacts(Plug(c, h.sibs), TwoPass(h.kids), lo);
    Tighten(Meld(Plug(c, h.sibs), TwoPass(h.kids)), lo);
  }
}
