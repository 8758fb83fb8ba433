/** The executor's work queue: a list of work nodes posted at the tail and taken from the head. */
module Workqueue {
  import opened Sequences
  import opened IntrusiveList

  class WorkQueue {
    const arena: Arena
    const ws_head: Link
    /** How often the trigger was called. */
    var trigs: nat
    ghost var queue: seq<Link>

    ghost predicate Valid()
      reads this, arena, arena.repr
    {
      arena.List(ws_head, queue)
    }

    /** Where a work node is before it is posted: on this queue, on another list, or on none (then
        `h` is the node itself). */
    ghost predicate Sits(pnode: Link, h: Link, s: seq<Link>)
      reads this, arena, arena.repr
    {
      && arena.List(h, s) && pnode != ws_head && (pnode in s || (pnode == h && s == []))
      && (if h == ws_head then s == queue else ws_head !in s && h !in queue)
    }

    constructor (arena: Arena)
      modifies arena
      ensures this.arena == arena && Valid() && queue == [] && trigs == 0 && fresh(ws_head)
      ensures arena.repr == old(arena.repr) + {ws_head}
      ensures forall x :: x in old(arena.repr) ==> Get(arena.Mem(), x) == Get(old(arena.Mem()), x)
    {
      var head := new Link(false);
      this.arena, ws_head, trigs, queue := arena, head, 0, [];
      new;
      arena.repr := arena.repr + {head};
      SingleRun(arena.Mem(), head);
    }

    /** add_new_nolock, and the locked part of post: whatever list the node was on, it is now the
        last of this queue and on no other. */
    method AddNew(pnode: Link, ghost h: Link, ghost s: seq<Link>)
      requires Valid() && Sits(pnode, h, s)
      modifies this`queue, arena.repr`next, arena.repr`prev
      ensures Valid() && queue == Without(old(queue), pnode) + [pnode]
      ensures h != ws_head && h != pnode ==> arena.List(h, Without(s, pnode))
      ensures forall x :: x in arena.repr && x != ws_head && x !in old(queue) && x != h && x !in s ==>
                          Get(arena.Mem(), x) == Get(old(arena.Mem()), x)
    {
      Detach(pnode, h, s);
      AddLast(pnode, h, Without(s, pnode));
    }

    method AddLast(pnode: Link, ghost h: Link, ghost t: seq<Link>)
      requires Valid() && pnode in arena.repr && pnode != ws_head && pnode !in queue
      requires h != ws_head ==> arena.List(h, t) && h !in queue && forall x :: x in t ==> x != pnode && x != ws_head && x !in queue
      modifies this`queue, arena.repr`next, arena.repr`prev
      ensures Valid() && queue == old(queue) + [pnode]
      ensures h != ws_head && h != pnode ==> arena.List(h, t)
      ensures forall x :: x in arena.repr && x != ws_head && x !in old(queue) && x != pnode ==> Get(arena.Mem(), x) == Get(old(arena.Mem()), x)
    {
      arena.ListAddTail(pnode, ws_head, queue);
      if h != ws_head && h != pnode { RingFrameAt(old(arena.Mem()), arena.Mem(), h, t); }
      queue := queue + [pnode];
    }

    method Detach(pnode: Link, ghost h: Link, ghost s: seq<Link>)
      requires Valid() && Sits(pnode, h, s)
      modifies this`queue, arena.repr`next, arena.repr`prev
      ensures Valid() && queue == Without(old(queue), pnode) && pnode !in queue && pnode in arena.repr
      ensures h != ws_head ==> arena.List(h, Without(s, pnode)) && forall x :: x in Without(s, pnode) ==> x != pnode && x != ws_head && x !in queue
      ensures forall x :: x in arena.repr && x != h && x !in s ==> Get(arena.Mem(), x) == Get(old(arena.Mem()), x)
      ensures forall x :: x in queue ==> x in old(queue)
    {
      WithoutIn(s, pnode);
      if h != ws_head {
        Apart(pnode, h, s);
        WithoutAbsent(queue, pnode);
      }
      arena.ListDel(pnode, h, s);
      if h != ws_head {
        RingFrameAt(old(arena.Mem()), arena.Mem(), ws_head, queue);
      } else {
        queue := Without(queue, pnode);
      }
    }

    /** No link of another list is on the queue. */
    lemma {:induction false} Apart(pnode: Link, h: Link, s: seq<Link>)
      requires Valid() && Sits(pnode, h, s) && h != ws_head
      ensures forall x :: x in s ==> x != ws_head && x !in queue
      ensures pnode !in queue
    {
      ghost var q, r := [ws_head] + queue, [h] + s;
      assert h !in q && h in r;
      forall x | x in r ensures x !in q {
        if x in q { RingsAgree(arena.Mem(), q, r, x); }
      }
      assert forall x :: x in s ==> x in r;
      assert pnode in r;
      assert forall x :: x in queue ==> x in q;
    }

    method Post(pnode: Link, ghost h: Link, ghost s: seq<Link>)
      requires Valid() && Sits(pnode, h, s)
      modifies this`queue, this`trigs, arena.repr`next, arena.repr`prev
      ensures Valid() && queue == Without(old(queue), pnode) + [pnode] && trigs == old(trigs) + 1
      ensures h != ws_head && h != pnode ==> arena.List(h, Without(s, pnode))
    {
      AddNew(pnode, h, s);
      trigs := trigs + 1;
    }

    /** post of a batch: all of it, in order, with one trigger; nothing for an empty batch. `valid` is what
        its assertions look at before the splice. */
    method PostBatch(batch: Link, ghost b: seq<Link>) returns (valid: bool)
      requires Valid() && arena.List(batch, b) && batch != ws_head && batch !in queue && ws_head !in b
      modifies this`queue, this`trigs, arena.repr`next, arena.repr`prev
      ensures Valid() && queue == old(queue) + b && arena.List(batch, [])
      ensures trigs == old(trigs) + if b == [] then 0 else 1
      ensures valid <==> forall x :: x in b ==> x.callable
    {
      var empty := arena.ListEmpty(batch, b);
      if empty {
        assert queue + b == queue;
        return true;
      }
      ghost var visited;
      valid, visited := arena.AllCallable(batch, b);
      BatchApart(batch, b);
      arena.Splice(batch, ws_head, b, queue);
      queue := queue + b;
      trigs := trigs + 1;
    }

    lemma {:induction false} BatchApart(batch: Link, b: seq<Link>)
      requires Valid() && arena.List(batch, b) && batch != ws_head && batch !in queue && ws_head !in b
      ensures forall x :: x in queue ==> x !in b
    {
      ghost var q, r := [ws_head] + queue, [batch] + b;
      assert batch !in q && batch in r;
      forall x | x in queue ensures x !in b {
        if x in b {
          assert x in q && x in r;
          RingsAgree(arena.Mem(), q, r, x);
        }
      }
    }

    /** get_work_node: the oldest node, which is then on no list. */
    method GetWorkNode() returns (pnod: Link?)
      requires Valid()
      modifies this`queue, arena.repr`next, arena.repr`prev
      ensures Valid()
      ensures if old(queue) == [] then pnod == null && queue == []
              else pnod == old(queue)[0] && queue == old(queue)[1..] && arena.List(pnod, [])
    {
      var empty := arena.ListEmpty(ws_head, queue);
      if empty {
        pnod := null;
      } else {
        arena.Ends(ws_head, queue);
        arena.HeadOutside(ws_head, queue);
        var first := ws_head.next;
        WithoutFirst(queue);
        arena.ListDel(first, ws_head, queue);
        queue := queue[1..];
        pnod := first;
      }
    }

    /** work_once up to the call: `called` says whether the node's function is called. */
    method WorkOnce() returns (worked: bool, called: bool, pnod: Link?)
      requires Valid()
      modifies this`queue, arena.repr`next, arena.repr`prev
      ensures Valid() && (worked <==> old(queue) != [])
      ensures worked ==> pnod == old(queue)[0] && queue == old(queue)[1..] && (called <==> pnod.callable)
      ensures !worked ==> pnod == null && !called && queue == []
    {
      pnod := GetWorkNode();
      if pnod != null {
        worked, called := true, pnod.callable;
      } else {
        worked, called := false, false;
      }
    }
  }

  // ----- histories --------------------------------------------------------------------------------

  datatype Op = Post(node: Link) | Batch(nodes: seq<Link>) | Take

  /** The queue, and the nodes taken, after a history of operations. */
  function Queue(q: seq<Link>, ops: seq<Op>): seq<Link>
    decreases |ops|
  {
    if ops == [] then q else Queue(Next(q, ops[0]), ops[1..])
  }

  function Next(q: seq<Link>, op: Op): seq<Link> {
    match op
    case Post(n) => Without(q, n) + [n]
    case Batch(ns) => q + ns
    case Take => if q == [] then q else q[1..]
  }

  function TakenBy(q: seq<Link>, op: Op): seq<Link> {
    if op.Take? && q != [] then [q[0]] else []
  }

  function Taken(q: seq<Link>, ops: seq<Op>): seq<Link>
    decreases |ops|
  {
    if ops == [] then [] else TakenBy(q, ops[0]) + Taken(Next(q, ops[0]), ops[1..])
  }

  function PostedBy(op: Op): seq<Link> {
    match op case Post(n) => [n] case Batch(ns) => ns case Take => []
  }

  function Posted(ops: seq<Op>): seq<Link> {
    if ops == [] then [] else PostedBy(ops[0]) + Posted(ops[1..])
  }

  /** No node is posted while it is still queued. */
  predicate NoRepost(q: seq<Link>, ops: seq<Op>)
    decreases |ops|
  {
    ops == [] || ((ops[0].Post? ==> ops[0].node !in q) && NoRepost(Next(q, ops[0]), ops[1..]))
  }

  /** First in, first out: what was taken, followed by what is queued, is what was posted. */
  lemma {:induction false} Fifo(q: seq<Link>, ops: seq<Op>)
    requires NoRepost(q, ops)
    ensures Taken(q, ops) + Queue(q, ops) == q + Posted(ops)
    decreases |ops|
  {
    if ops != [] {
      var q' := Next(q, ops[0]);
      Fifo(q', ops[1..]);
      FifoStep(q, ops[0], Posted(ops[1..]));
      assert Taken(q, ops) + Queue(q, ops) == TakenBy(q, ops[0]) + (Taken(q', ops[1..]) + Queue(q', ops[1..]));
    }
  }

  lemma {:induction false} FifoStep(q: seq<Link>, op: Op, rest: seq<Link>)
    requires op.Post? ==> op.node !in q
    ensures TakenBy(q, op) + (Next(q, op) + rest) == q + (PostedBy(op) + rest)
  {
    if op.Post? { WithoutAbsent(q, op.node); }
  }

  /** A node posted again while queued runs once, in its last place. */
  lemma {:induction false} RepostMovesToTail(q: seq<Link>, n: Link, k: nat)
    requires NoDup(q) && n in q && k < |Next(q, Post(n))|
    ensures |Next(q, Post(n))| == |q|
    ensures Next(q, Post(n))[k] == n <==> k == |q| - 1
  {
    var a, b := SplitAt(q, n);
    assert a + b == Without(q, n);
    assert k < |q| - 1 ==> (a + b)[k] in a + b;
    WithoutIn(q, n);
  }
}
