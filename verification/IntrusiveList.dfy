/** Circular intrusive lists over an arbitrary set of links, and the work queue built on them.

    A link that is on no list is a ring by itself, exactly as list_del and INIT_LIST_HEAD leave it. */
module IntrusiveList {
  import opened Sequences

  class Link {
    var next: Link?
    var prev: Link?
    /** The work node around the link has a function to call. */
    var callable: bool

    constructor (callable: bool)
      ensures next == this && prev == this && this.callable == callable
    {
      this.callable := callable;
      new;
      next, prev := this, this;
    }
  }

  datatype Cell = Cell(next: Link?, prev: Link?)

  type Memory = map<Link, Cell>

  ghost function Get(m: Memory, n: Link): Cell {
    if n in m then m[n] else Cell(null, null)
  }

  ghost function PutNext(m: Memory, n: Link, v: Link): Memory {
    m[n := Get(m, n).(next := v)]
  }

  ghost function PutPrev(m: Memory, n: Link, v: Link): Memory {
    m[n := Get(m, n).(prev := v)]
  }

  // ----- rings ----------------------------------------------------------------------------------

  ghost predicate Linked(m: Memory, x: Link, y: Link) {
    Get(m, x).next == y && Get(m, y).prev == x
  }

  /** Each link of `r` leads to the next one, and back. */
  ghost predicate Run(m: Memory, r: seq<Link>) {
    |r| < 2 || (Linked(m, r[0], r[1]) && Run(m, r[1..]))
  }

  function Last(r: seq<Link>): Link
    requires r != []
  {
    r[|r| - 1]
  }

  /** The links of `r`, all different, in a circle. */
  ghost predicate Ring(m: Memory, r: seq<Link>) {
    r != [] && NoDup(r) && Run(m, r) && Linked(m, Last(r), r[0])
  }

  lemma {:induction false} RunAppend(m: Memory, a: seq<Link>, b: seq<Link>)
    requires a != [] && b != []
    ensures Run(m, a + b) <==> Run(m, a) && Linked(m, Last(a), b[0]) && Run(m, b)
  {
    if |a| == 1 {
      assert (a + b)[1..] == b;
    } else {
      assert (a + b)[1..] == a[1..] + b;
      RunAppend(m, a[1..], b);
    }
  }

  lemma {:induction false} RunAt(m: Memory, r: seq<Link>, i: nat)
    requires Run(m, r) && i + 1 < |r|
    ensures Linked(m, r[i], r[i + 1])
  {
    if i > 0 { RunAt(m, r[1..], i - 1); }
  }

  /** The links around any member of a ring stay in the ring. */
  lemma {:induction false} RingClosed(m: Memory, r: seq<Link>, i: nat)
    requires Ring(m, r) && i < |r|
    ensures Linked(m, r[i], r[if i + 1 == |r| then 0 else i + 1])
    ensures Linked(m, r[if i == 0 then |r| - 1 else i - 1], r[i])
  {
    if i + 1 < |r| { RunAt(m, r, i); }
    if i > 0 { RunAt(m, r, i - 1); }
  }

  /** Walking round `r` from a link of `s` never leaves `s`. */
  lemma {:induction false} WalkInside(m: Memory, r: seq<Link>, s: seq<Link>, i: nat, k: nat)
    requires Ring(m, r) && Ring(m, s) && i <= k < |r| && r[i] in s
    ensures r[k] in s
    decreases k
  {
    if i < k {
      WalkInside(m, r, s, i, k - 1);
      var j :| 0 <= j < |s| && s[j] == r[k - 1];
      RingClosed(m, r, k - 1);
      RingClosed(m, s, j);
    }
  }

  /** Two rings that share one link have the same links: no link is on two different lists. */
  lemma {:induction false} RingsAgree(m: Memory, r: seq<Link>, s: seq<Link>, x: Link)
    requires Ring(m, r) && Ring(m, s) && x in r && x in s
    ensures forall y :: y in r <==> y in s
  {
    RingInside(m, r, s, x);
    RingInside(m, s, r, x);
  }

  lemma {:induction false} RingInside(m: Memory, r: seq<Link>, s: seq<Link>, x: Link)
    requires Ring(m, r) && Ring(m, s) && x in r && x in s
    ensures forall y :: y in r ==> y in s
  {
    var i :| 0 <= i < |r| && r[i] == x;
    WalkInside(m, r, s, i, |r| - 1);
    var j :| 0 <= j < |s| && s[j] == r[|r| - 1];
    RingClosed(m, r, |r| - 1);
    RingClosed(m, s, j);
    forall k | 0 <= k < |r| ensures r[k] in s {
      WalkInside(m, r, s, 0, k);
    }
  }

  /** A ring read from one of its links can only be read in one way. */
  lemma {:induction false} RingUnique(m: Memory, r: seq<Link>, s: seq<Link>)
    requires Ring(m, r) && Ring(m, s) && r[0] == s[0]
    ensures r == s
  {
    var k := if |r| <= |s| then |r| else |s|;
    RingPrefix(m, r, s, k);
    RingClosed(m, r, k - 1);
    RingClosed(m, s, k - 1);
    assert r[0] !in r[1..] && s[0] !in s[1..];
  }

  lemma {:induction false} RingPrefix(m: Memory, r: seq<Link>, s: seq<Link>, k: nat)
    requires Ring(m, r) && Ring(m, s) && r[0] == s[0] && 0 < k <= |r| && k <= |s|
    ensures forall i :: 0 <= i < k ==> r[i] == s[i]
  {
    if k > 1 {
      RingPrefix(m, r, s, k - 1);
      RunAt(m, r, k - 2);
      RunAt(m, s, k - 2);
    }
  }

  /** Nothing inside the run changes: not the next link of any but its last, not the previous link
      of any but its first. */
  lemma {:induction false} RunKept(m: Memory, m': Memory, r: seq<Link>)
    requires r != [] && NoDup(r) && Run(m, r)
    requires forall x :: x in r && x != Last(r) ==> Get(m', x).next == Get(m, x).next
    requires forall x :: x in r && x != r[0] ==> Get(m', x).prev == Get(m, x).prev
    ensures Run(m', r)
  {
    if |r| >= 2 {
      assert Last(r) == Last(r[1..]) && Last(r) in r[1..] && r[1] in r[1..];
      RunKept(m, m', r[1..]);
    }
  }

  lemma {:induction false} RingFrame(m: Memory, m': Memory, r: seq<Link>)
    requires Ring(m, r) && forall n :: n in r ==> Get(m', n) == Get(m, n)
    ensures Ring(m', r)
  {
    assert Last(r) in r && r[0] in r;
    RunKept(m, m', r);
  }

  lemma {:induction false} SingleRun(m: Memory, n: Link)
    ensures NoDup([n]) && Run(m, [n]) && Last([n]) == n && [n] + [] == [n]
  {
    assert [n][1..] == [];
  }

  /** A ring cut in two: the two runs, and the two places where they meet. */
  ghost predicate Meet(m: Memory, a: seq<Link>, b: seq<Link>) {
    && a != [] && b != [] && NoDup(a) && NoDup(b) && (forall x :: x in a ==> x !in b)
    && Run(m, a) && Run(m, b) && Linked(m, Last(a), b[0]) && Linked(m, Last(b), a[0])
  }

  lemma {:induction false} RingCut(m: Memory, a: seq<Link>, b: seq<Link>)
    requires a != [] && b != []
    ensures Ring(m, a + b) <==> Meet(m, a, b)
  {
    RunAppend(m, a, b);
    NoDupAppend(a, b);
    assert Last(a + b) == Last(b) && (a + b)[0] == a[0];
  }

  lemma {:induction false} RingFrameAt(m: Memory, m': Memory, h: Link, s: seq<Link>)
    requires Ring(m, [h] + s) && Get(m', h) == Get(m, h) && forall n :: n in s ==> Get(m', n) == Get(m, n)
    ensures Ring(m', [h] + s)
  {
    forall n | n in [h] + s ensures Get(m', n) == Get(m, n) {
      assert n == h || n in s;
    }
    RingFrame(m, m', [h] + s);
  }

  // ----- list_add_tail, list_del, splice ----------------------------------------------------------

  /** __list_add. */
  ghost function Inserted(m: Memory, n: Link, prev: Link, next: Link): Memory {
    PutNext(PutPrev(PutNext(PutPrev(m, next, n), n, next), n, prev), prev, n)
  }

  lemma {:induction false} InsertedRing(m: Memory, m': Memory, r: seq<Link>, n: Link)
    requires Ring(m, r) && n !in r && m' == Inserted(m, n, Last(r), r[0])
    ensures Ring(m', r + [n])
    ensures forall x :: x !in r && x != n ==> Get(m', x) == Get(m, x)
  {
    assert Last(r) in r && r[0] in r;
    RunKept(m, m', r);
    SingleRun(m', n);
    RingCut(m', r, [n]);
  }

  /** list_del: the neighbours joined, the entry a ring of its own. */
  ghost function Deleted(m: Memory, e: Link, prev: Link, next: Link): Memory {
    PutPrev(PutNext(PutNext(PutPrev(m, next, prev), prev, next), e, e), e, e)
  }

  lemma {:induction false} DeletedCells(m: Memory, m': Memory, e: Link, prev: Link, next: Link)
    requires m' == Deleted(m, e, prev, next) && e != prev && e != next
    ensures Get(m', e) == Cell(e, e)
    ensures forall x :: x != e ==> Get(m', x) == Cell(if x == prev then next else Get(m, x).next, if x == next then prev else Get(m, x).prev)
  {}

  lemma {:induction false} DeletedRing(m: Memory, m': Memory, a: seq<Link>, e: Link, b: seq<Link>)
    requires a != [] && Ring(m, a + ([e] + b))
    requires m' == Deleted(m, e, Last(a), if b == [] then a[0] else b[0])
    ensures Get(m, e) == Cell(if b == [] then a[0] else b[0], Last(a))
    ensures Ring(m', a + b) && Ring(m', [e])
    ensures forall x :: x !in a && x != e && x !in b ==> Get(m', x) == Get(m, x)
  {
    RingCut(m, a, [e] + b);
    assert Last(a) in a && a[0] in a && e in [e] + b;
    if b == [] {
      assert [e] + b == [e] && a + b == a;
      DeletedCells(m, m', e, Last(a), a[0]);
      RunKept(m, m', a);
    } else {
      DeletedInside(m, m', a, e, b);
    }
  }

  lemma {:induction false} DeletedInside(m: Memory, m': Memory, a: seq<Link>, e: Link, b: seq<Link>)
    requires b != [] && Meet(m, a, [e] + b)
    requires m' == Deleted(m, e, Last(a), b[0])
    ensures Get(m, e) == Cell(b[0], Last(a)) && Ring(m', a + b) && Ring(m', [e])
    ensures forall x :: x !in a && x != e && x !in b ==> Get(m', x) == Get(m, x)
  {
    NoDupAppend([e], b);
    RunAppend(m, [e], b);
    assert Last([e] + b) == Last(b);
    assert e in [e] + b && Last(a) in a && a[0] in a && b[0] in b && Last(b) in b;
    assert forall x :: x in b ==> x in [e] + b;
    DeletedCells(m, m', e, Last(a), b[0]);
    RunKept(m, m', a);
    RunKept(m, m', b);
    RingCut(m', a, b);
  }

  /** A link by itself: list_del changes nothing. */
  lemma {:induction false} DeletedAlone(m: Memory, e: Link)
    requires Ring(m, [e]) && e in m
    ensures Get(m, e) == Cell(e, e) && Deleted(m, e, e, e) == m
  {}

  /** workqueue::post(batch): the batch's links follow the queue's. */
  ghost function Spliced(m: Memory, ws: Link, tail: Link, g: Link, first: Link, last: Link): Memory {
    var joined := PutPrev(PutNext(PutNext(PutPrev(m, first, tail), tail, first), last, ws), ws, last);
    PutPrev(PutNext(joined, g, g), g, g)
  }

  lemma {:induction false} SplicedCells(m: Memory, m': Memory, ws: Link, tail: Link, g: Link, first: Link, last: Link)
    requires m' == Spliced(m, ws, tail, g, first, last) && g !in {ws, tail, first, last} && {ws, tail} !! {first, last}
    ensures Get(m', g) == Cell(g, g)
    ensures forall x :: x != g ==> Get(m', x) == Cell(if x == tail then first else if x == last then ws else Get(m, x).next,
                                                      if x == first then tail else if x == ws then last else Get(m, x).prev)
  {}

  lemma {:induction false} SplicedRing(m: Memory, m': Memory, r: seq<Link>, g: Link, b: seq<Link>)
    requires Ring(m, r) && Ring(m, [g] + b) && b != [] && forall x :: x in r ==> x != g && x !in b
    requires m' == Spliced(m, r[0], Last(r), g, b[0], Last(b))
    ensures Get(m, g) == Cell(b[0], Last(b)) && Get(m, r[0]).prev == Last(r)
    ensures Ring(m', r + b) && Ring(m', [g])
    ensures forall x :: x !in r && x != g && x !in b ==> Get(m', x) == Get(m, x)
  {
    RingCut(m, [g], b);
    assert g in [g];
    assert r[0] in r && Last(r) in r && b[0] in b && Last(b) in b;
    SplicedCells(m, m', r[0], Last(r), g, b[0], Last(b));
    RunKept(m, m', b);
    RunKept(m, m', r);
    RingCut(m', r, b);
  }

  /** callback_wq's drain: another head takes over the whole list. */
  ghost function Moved(m: Memory, to: Link, from: Link, first: Link, last: Link): Memory {
    var joined := PutNext(PutPrev(PutPrev(PutNext(m, to, first), to, last), first, to), last, to);
    PutPrev(PutNext(joined, from, from), from, from)
  }

  lemma {:induction false} MovedCells(m: Memory, m': Memory, to: Link, from: Link, first: Link, last: Link)
    requires m' == Moved(m, to, from, first, last) && to != from && {to, from} !! {first, last}
    ensures Get(m', from) == Cell(from, from) && Get(m', to) == Cell(first, last)
    ensures forall x :: x != to && x != from ==> Get(m', x) == Cell(if x == last then to else Get(m, x).next,
                                                                    if x == first then to else Get(m, x).prev)
  {}

  lemma {:induction false} MovedRing(m: Memory, m': Memory, to: Link, from: Link, s: seq<Link>)
    requires Ring(m, [from] + s) && s != [] && to != from && to !in s
    requires m' == Moved(m, to, from, s[0], Last(s))
    ensures Get(m, from) == Cell(s[0], Last(s)) && Get(m, s[0]).prev == from && Get(m, Last(s)).next == from
    ensures Ring(m', [to] + s) && Ring(m', [from])
    ensures forall x :: x != to && x != from && x !in s ==> Get(m', x) == Get(m, x)
  {
    RingCut(m, [from], s);
    assert from in [from] && s[0] in s && Last(s) in s;
    MovedCells(m, m', to, from, s[0], Last(s));
    RunKept(m, m', s);
    RingCut(m', [to], s);
  }

  // ----- lists as sequences -----------------------------------------------------------------------

  lemma {:induction false} InsertedAt(m: Memory, m': Memory, h: Link, s: seq<Link>, n: Link)
    requires Ring(m, [h] + s) && n != h && n !in s && m' == Inserted(m, n, Last([h] + s), h)
    ensures Ring(m', [h] + (s + [n]))
    ensures forall x :: x != h && x !in s && x != n ==> Get(m', x) == Get(m, x)
  {
    InsertedRing(m, m', [h] + s, n);
    assert ([h] + s) + [n] == [h] + (s + [n]);
  }

  /** A ring opened at one of its members. */
  lemma {:induction false} OpenAt(m: Memory, h: Link, s: seq<Link>, e: Link) returns (a: seq<Link>, b: seq<Link>)
    requires Ring(m, [h] + s) && e in s
    ensures Ring(m, ([h] + a) + ([e] + b)) && ([h] + a) + b == [h] + Without(s, e)
    ensures (forall x :: x in a ==> x in s && x != e) && (forall x :: x in b ==> x in s && x != e)
  {
    assert ([h] + s)[1..] == s;
    a, b := SplitAt(s, e);
    assert ([h] + a) + ([e] + b) == [h] + s;
    assert ([h] + a) + b == [h] + (a + b);
  }

  lemma {:induction false} DeletedAt(m: Memory, h: Link, s: seq<Link>, e: Link) returns (prev: Link, next: Link, m': Memory)
    requires Ring(m, [h] + s) && e in s
    ensures m' == Deleted(m, e, prev, next) && Get(m, e) == Cell(next, prev)
    ensures (prev == h || prev in s) && (next == h || next in s)
    ensures Ring(m', [h] + Without(s, e)) && Ring(m', [e] + [])
    ensures forall x :: x != h && x !in s ==> Get(m', x) == Get(m, x)
  {
    var a, b := OpenAt(m, h, s, e);
    prev, next, m' := DeletedFrom(m, h, a, e, b);
    SingleRun(m', e);
  }

  lemma {:induction false} DeletedFrom(m: Memory, h: Link, a: seq<Link>, e: Link, b: seq<Link>) returns (prev: Link, next: Link, m': Memory)
    requires Ring(m, ([h] + a) + ([e] + b))
    ensures m' == Deleted(m, e, prev, next) && Get(m, e) == Cell(next, prev)
    ensures (prev == h || prev in a) && (next == h || next in b)
    ensures Ring(m', ([h] + a) + b) && Ring(m', [e])
    ensures forall x :: x != h && x !in a && x != e && x !in b ==> Get(m', x) == Get(m, x)
  {
    prev, next := Last([h] + a), if b == [] then h else b[0];
    assert a != [] ==> Last([h] + a) == Last(a);
    m' := Deleted(m, e, prev, next);
    assert forall x :: x in [h] + a ==> x == h || x in a;
    DeletedRing(m, m', [h] + a, e, b);
  }

  /** Whatever an operation does to the links of one list, every other list keeps its contents. */
  lemma {:induction false} OtherListKept(m: Memory, m': Memory, r: seq<Link>, q: seq<Link>)
    requires Ring(m, r) && Ring(m, q) && q[0] !in r
    requires forall x :: x !in r ==> Get(m', x) == Get(m, x)
    ensures Ring(m', q) && forall x :: x in q ==> x !in r
  {
    forall x | x in q ensures x !in r {
      if x in r { RingsAgree(m, r, q, x); }
    }
    RingFrame(m, m', q);
  }

  // ----- the operations ---------------------------------------------------------------------------

  /** All the links there are. */
  class Arena {
    ghost var repr: set<Link>

    constructor ()
      ensures repr == {}
    {
      repr := {};
    }

    ghost function Mem(): Memory
      reads this, repr
    {
      map n | n in repr :: Cell(n.next, n.prev)
    }

    /** The links of `s`, in order, follow `head`. */
    ghost predicate List(head: Link, s: seq<Link>)
      reads this, repr
    {
      head in repr && (forall x :: x in s ==> x in repr) && Ring(Mem(), [head] + s)
    }

    method SetNext(n: Link, v: Link)
      requires n in repr
      modifies n`next
      ensures Mem() == PutNext(old(Mem()), n, v)
    {
      n.next := v;
    }

    method SetPrev(n: Link, v: Link)
      requires n in repr
      modifies n`prev
      ensures Mem() == PutPrev(old(Mem()), n, v)
    {
      n.prev := v;
    }

    /** INIT_LIST_HEAD. */
    method Init(n: Link)
      requires n in repr
      modifies n`next, n`prev
      ensures Mem() == PutPrev(PutNext(old(Mem()), n, n), n, n)
    {
      SetNext(n, n);
      SetPrev(n, n);
    }

    method ListAdd(pnew: Link, prev: Link, next: Link)
      requires pnew in repr && prev in repr && next in repr
      modifies repr`next, repr`prev
      ensures Mem() == Inserted(old(Mem()), pnew, prev, next)
    {
      SetPrev(next, pnew);
      SetNext(pnew, next);
      SetPrev(pnew, prev);
      SetNext(prev, pnew);
    }

    lemma {:induction false} Ends(head: Link, s: seq<Link>)
      requires List(head, s)
      ensures head.prev == Last([head] + s) && Last([head] + s) in repr && head.next == (if s == [] then head else s[0])
      ensures s != [] ==> s[0] in repr && Last([head] + s) == Last(s) && Last(s) in s && s[0].prev == head && Last(s).next == head
    {
      RingClosed(Mem(), [head] + s, 0);
      RingClosed(Mem(), [head] + s, |s|);
    }

    method ListEmpty(head: Link, ghost s: seq<Link>) returns (empty: bool)
      requires List(head, s)
      ensures empty <==> s == []
    {
      Ends(head, s);
      empty := head.next == head;
      if s != [] { assert ([head] + s)[1..] == s && s[0] in s; }
    }

    method ListAddTail(pnew: Link, head: Link, ghost s: seq<Link>)
      requires List(head, s) && pnew in repr && pnew != head && pnew !in s
      modifies repr`next, repr`prev
      ensures List(head, s + [pnew])
      ensures forall x :: x != head && x !in s && x != pnew ==> Get(Mem(), x) == Get(old(Mem()), x)
    {
      Ends(head, s);
      InsertedAt(Mem(), Inserted(Mem(), pnew, Last([head] + s), head), head, s, pnew);
      ListAdd(pnew, head.prev, head);
    }

    method ListDelRaw(entry: Link)
      requires entry in repr && entry.prev != null && entry.next != null && entry.prev in repr && entry.next in repr
      modifies repr`next, repr`prev
      ensures Mem() == Deleted(old(Mem()), entry, old(entry.prev), old(entry.next))
    {
      var prev, next := entry.prev, entry.next;
      SetPrev(next, prev);
      SetNext(prev, next);
      Init(entry);
    }

    /** list_del of a link on the list after `head`, or of a link on no list (then `head` is itself). */
    method ListDel(entry: Link, ghost head: Link, ghost s: seq<Link>)
      requires List(head, s) && (entry in s || (entry == head && s == []))
      modifies repr`next, repr`prev
      ensures List(head, Without(s, entry)) && List(entry, [])
      ensures forall x :: x != head && x !in s ==> Get(Mem(), x) == Get(old(Mem()), x)
    {
      SingleRun(Mem(), entry);
      if entry in s {
        var prev, next, m' := DeletedAt(Mem(), head, s, entry);
        WithoutIn(s, entry);
      } else {
        DeletedAlone(Mem(), entry);
      }
      ListDelRaw(entry);
    }

    /** Batch splice: the links after `batch` follow those after `head`; `batch` is left empty. */
    method Splice(batch: Link, head: Link, ghost b: seq<Link>, ghost s: seq<Link>)
      requires List(head, s) && List(batch, b) && b != []
      requires batch != head && batch !in s && head !in b && forall x :: x in s ==> x !in b
      modifies repr`next, repr`prev
      ensures List(head, s + b) && List(batch, [])
      ensures forall x :: x != head && x !in s && x != batch && x !in b ==> Get(Mem(), x) == Get(old(Mem()), x)
    {
      Ends(head, s);
      Ends(batch, b);
      SplicedAt(Mem(), head, s, batch, b);
      SpliceRaw(batch, head, Last([head] + s), b[0], Last(b));
      SingleRun(Mem(), batch);
    }

    method SpliceRaw(batch: Link, head: Link, ghost t: Link, ghost f: Link, ghost l: Link)
      requires batch in repr && head in repr && t in repr && f in repr && l in repr
      requires batch.next == f && batch.prev == l && head.prev == t && f != head
      modifies repr`next, repr`prev
      ensures Mem() == Spliced(old(Mem()), head, t, batch, f, l)
    {
      var first, last := batch.next, batch.prev;
      SetPrev(first, head.prev);
      SetNext(head.prev, first);
      SetNext(last, head);
      SetPrev(head, last);
      Init(batch);
    }

    /** callback_wq's drain, under its lock: the list moves to `local` in one step. `corrupt` is the
        test for which the drain would give the list up instead; it never holds. */
    method TakeAll(pending: Link, local: Link, ghost s: seq<Link>) returns (corrupt: bool)
      requires List(pending, s) && s != [] && local in repr && local != pending && local !in s
      modifies repr`next, repr`prev
      ensures !corrupt && List(local, s) && List(pending, [])
      ensures forall x :: x != local && x != pending && x !in s ==> Get(Mem(), x) == Get(old(Mem()), x)
    {
      Ends(pending, s);
      MovedRing(Mem(), Moved(Mem(), local, pending, s[0], Last(s)), local, pending, s);
      var first, last := pending.next, pending.prev;
      corrupt := first.prev != pending || last.next != pending;
      SetNext(local, first);
      SetPrev(local, last);
      SetPrev(first, local);
      SetNext(last, local);
      Init(pending);
      SingleRun(Mem(), pending);
    }

    /** Walking a list visits its links once each, in order. */
    method AllCallable(head: Link, ghost s: seq<Link>) returns (ok: bool, ghost visited: seq<Link>)
      requires List(head, s)
      ensures visited == s
      ensures ok <==> forall x :: x in s ==> x.callable
    {
      ok, visited := true, [];
      Ends(head, s);
      var pos := head.next;
      while pos != head
        invariant |visited| <= |s| && visited == s[..|visited|]
        invariant pos == (if |visited| < |s| then s[|visited|] else head)
        invariant ok <==> forall x :: x in visited ==> x.callable
        decreases |s| - |visited|
      {
        Step(head, s, |visited|);
        if !pos.callable { ok := false; }
        visited := visited + [pos];
        pos := pos.next;
      }
      HeadOutside(head, s);
    }

    lemma {:induction false} Step(head: Link, s: seq<Link>, k: nat)
      requires List(head, s) && k < |s|
      ensures s[k] in repr && s[k].next == (if k + 1 < |s| then s[k + 1] else head)
    {
      RingClosed(Mem(), [head] + s, k + 1);
      assert s[k] in s;
    }

    lemma {:induction false} HeadOutside(head: Link, s: seq<Link>)
      requires List(head, s)
      ensures head !in s && NoDup(s)
    {
      assert ([head] + s)[1..] == s;
    }

    /** list_for_each_entry_safe whose body takes out the links in `victims`. */
    method RemoveWhere(head: Link, victims: set<Link>, ghost s: seq<Link>)
      requires List(head, s)
      modifies repr`next, repr`prev
      ensures List(head, Keeping(s, victims))
      ensures forall x :: x in s && x in victims ==> List(x, [])
      ensures forall x :: x in repr && x != head && x !in s ==> Get(Mem(), x) == Get(old(Mem()), x)
    {
      SweepStart(head, victims, s);
      NextOf(head, [], s);
      var pos := head.next;
      var n := pos.next;
      ghost var done: seq<Link>, left := [], s;
      while pos != head
        invariant Swept(head, victims, s, done, left, old(Mem()))
        invariant pos == First(left, head) && (left != [] ==> n == First(left[1..], head))
        decreases |left|
      {
        ghost var was := pos;
        pos, n := SweepOne(pos, n, head, victims, s, done, left, old(Mem()));
        done, left := done + [was], left[1..];
      }
      SweepEnd(head, victims, s, done, left, old(Mem()));
    }

    /** The loop has passed `done`, with `left` still to come. */
    ghost predicate Swept(head: Link, victims: set<Link>, s: seq<Link>, done: seq<Link>, left: seq<Link>, was: Memory)
      reads this, repr
    {
      && s == done + left && List(head, Keeping(done, victims) + left) && (forall x :: x in done ==> x in repr)
      && head !in s && NoDup(s)
      && (forall x :: x in done && x in victims ==> Get(Mem(), x) == Cell(x, x))
      && (forall x :: x in repr && x != head && x !in s ==> Get(Mem(), x) == Get(was, x))
    }

    lemma {:induction false} SweepStart(head: Link, victims: set<Link>, s: seq<Link>)
      requires List(head, s)
      ensures Swept(head, victims, s, [], s, Mem()) && [] + s == s
    {
      assert Keeping([], victims) + s == s && [] + s == s;
      HeadOutside(head, s);
    }

    lemma {:induction false} SweepEnd(head: Link, victims: set<Link>, s: seq<Link>, done: seq<Link>, left: seq<Link>, was: Memory)
      requires Swept(head, victims, s, done, left, was) && First(left, head) == head
      ensures List(head, Keeping(s, victims)) && forall x :: x in s && x in victims ==> List(x, [])
      ensures forall x :: x in repr && x != head && x !in s ==> Get(Mem(), x) == Get(was, x)
    {
      assert forall x :: x in left ==> x in s;
      assert s == done && Keeping(done, victims) + left == Keeping(s, victims);
      AllAlone(s, victims);
    }

    method SweepOne(pos: Link, n: Link, head: Link, victims: set<Link>, ghost s: seq<Link>, ghost done: seq<Link>, ghost left: seq<Link>, ghost was: Memory)
      returns (pos': Link, n': Link)
      requires Swept(head, victims, s, done, left, was) && left != [] && pos == left[0] && n == First(left[1..], head)
      modifies repr`next, repr`prev
      ensures Swept(head, victims, s, done + [pos], left[1..], was)
      ensures pos' == n && (left[1..] != [] ==> n' == First(left[1..][1..], head))
    {
      NoDupAppend(done, left);
      KeepingIn(done, victims);
      assert done + left == (done + [pos]) + left[1..];
      assert pos in left;
      pos', n' := SafeTurn(pos, n, head, victims, done, left);
    }

    lemma {:induction false} AllAlone(s: seq<Link>, victims: set<Link>)
      requires (forall x :: x in s ==> x in repr) && forall x :: x in s && x in victims ==> Get(Mem(), x) == Cell(x, x)
      ensures forall x :: x in s && x in victims ==> List(x, [])
    {
      forall x | x in s && x in victims ensures List(x, []) { SingleRun(Mem(), x); }
    }

    /** One turn of the loop: the links passed so far are `done`, those from `pos` on are `left`. */
    method SafeTurn(pos: Link, n: Link, head: Link, victims: set<Link>, ghost done: seq<Link>, ghost left: seq<Link>)
      returns (pos': Link, n': Link)
      requires List(head, Keeping(done, victims) + left) && left != [] && pos == left[0] && n == First(left[1..], head)
      modifies repr`next, repr`prev
      ensures List(head, Keeping(done + [pos], victims) + left[1..])
      ensures pos' == n && (left[1..] != [] ==> n' == First(left[1..][1..], head))
      ensures pos in victims ==> Get(Mem(), pos) == Cell(pos, pos)
      ensures forall x :: x != head && x !in Keeping(done, victims) && x !in left ==> Get(Mem(), x) == Get(old(Mem()), x)
    {
      ghost var kept, rest := Keeping(done, victims), left[1..];
      KeepingSnoc(done, victims, pos);
      assert left == [pos] + rest;
      if pos in victims {
        RemoveNext(pos, head, kept, left);
        assert Keeping(done + [pos], victims) + rest == kept + rest;
      } else {
        assert Keeping(done + [pos], victims) + rest == kept + left;
      }
      NextOf(head, Keeping(done + [pos], victims), rest);
      pos', n' := n, n.next;
    }

    /** What follows the part of a list already passed. */
    lemma {:induction false} NextOf(head: Link, a: seq<Link>, b: seq<Link>)
      requires List(head, a + b)
      ensures First(b, head) in repr && First(b, head).next != null && First(b, head).next in repr
      ensures a == [] ==> head.next == First(b, head)
      ensures b != [] ==> First(b, head) != head && First(b, head).next == First(b[1..], head)
    {
      Ends(head, a + b);
      HeadOutside(head, a + b);
      if b != [] {
        Step(head, a + b, |a|);
        assert (a + b)[|a|] == b[0] && b[0] in a + b;
        if |b| > 1 { assert (a + b)[|a| + 1] == b[1] && b[1] in a + b; }
      }
    }

    method RemoveNext(pos: Link, ghost head: Link, ghost kept: seq<Link>, ghost left: seq<Link>)
      requires List(head, kept + left) && left != [] && pos == left[0]
      modifies repr`next, repr`prev
      ensures List(head, kept + left[1..]) && List(pos, [])
      ensures forall x :: x != head && x !in kept && x !in left ==> Get(Mem(), x) == Get(old(Mem()), x)
    {
      HeadOutside(head, kept + left);
      NoDupAppend(kept, left);
      assert left == [pos] + left[1..];
      WithoutPresent(kept, pos, left[1..]);
      ListDel(pos, head, kept + left);
    }
  }

  function First(s: seq<Link>, head: Link): Link {
    if s == [] then head else s[0]
  }

  lemma {:induction false} SplicedAt(m: Memory, h: Link, s: seq<Link>, g: Link, b: seq<Link>)
    requires Ring(m, [h] + s) && Ring(m, [g] + b) && b != []
    requires g != h && g !in s && h !in b && forall x :: x in s ==> x !in b
    ensures var m' := Spliced(m, h, Last([h] + s), g, b[0], Last(b));
            Ring(m', [h] + (s + b)) && Ring(m', [g]) && forall x :: x != h && x !in s && x != g && x !in b ==> Get(m', x) == Get(m, x)
  {
    var m' := Spliced(m, h, Last([h] + s), g, b[0], Last(b));
    forall x | x in [h] + s ensures x != g && x !in b { assert x == h || x in s; }
    SplicedRing(m, m', [h] + s, g, b);
    assert ([h] + s) + b == [h] + (s + b);
  }
}
