/** wepoll's poll groups: AFD device handles shared by up to 32 sockets each. */
module PollGroups {
  import opened Basics
  import opened Sequences

  const MaxGroupSize: nat := 32

  /** The queue of groups and the size of each. */
  datatype Pool<G> = Pool(queue: seq<G>, size: map<G, nat>)

  ghost function Total<G>(q: seq<G>, size: map<G, nat>): nat {
    if q == [] then 0 else (if q[0] in size then size[q[0]] else 0) + Total(q[1..], size)
  }

  /** No full group comes after one that is not full. */
  ghost predicate FullFirst<G>(q: seq<G>, size: map<G, nat>) {
    q == [] || (FullFirst(q[1..], size) && (Full(q[0], size) || NoneFull(q[1..], size)))
  }

  ghost predicate Full<G>(g: G, size: map<G, nat>) {
    g in size && size[g] == MaxGroupSize
  }

  ghost predicate NoneFull<G>(q: seq<G>, size: map<G, nat>) {
    forall g :: g in q ==> !Full(g, size)
  }

  ghost predicate AllFull<G>(q: seq<G>, size: map<G, nat>) {
    forall g :: g in q ==> Full(g, size)
  }

  ghost predicate Sized<G>(p: Pool<G>) {
    && NoDup(p.queue) && (forall g :: g in p.queue ==> g in p.size)
    && (forall g :: g in p.size ==> g in p.queue && p.size[g] <= MaxGroupSize)
  }

  /** The number of groups needed for `n` sockets. */
  function GroupsFor(n: nat): nat {
    (n + MaxGroupSize - 1) / MaxGroupSize
  }

  /** `held` acquisitions are outstanding and `peak` is the most there ever were. */
  ghost predicate Optimal<G>(p: Pool<G>, held: nat, peak: nat) {
    && Sized(p) && FullFirst(p.queue, p.size)
    && Total(p.queue, p.size) == held <= peak
    && |p.queue| == GroupsFor(peak)
  }

  // ----- poll_group_acquire and poll_group_release ----------------------------------------------

  /** The group poll_group_acquire would use without making a new one. */
  function Candidate<G(==)>(p: Pool<G>): Option<G> {
    if p.queue == [] then None
    else
      var g := p.queue[|p.queue| - 1];
      if g in p.size && p.size[g] >= MaxGroupSize then None else Some(g)
  }

  /** One more socket on a group; a group that becomes full moves to the start of the queue. */
  function Join<G(==)>(p: Pool<G>, g: G): Pool<G> {
    var n := (if g in p.size then p.size[g] else 0) + 1;
    Pool(if n == MaxGroupSize then [g] + Without(p.queue, g) else p.queue, p.size[g := n])
  }

  function Grown<G(==)>(p: Pool<G>, made: G): Pool<G> {
    Pool(p.queue + [made], p.size[made := 0])
  }

  /** poll_group_acquire; `made` is the new group if one can be made. */
  function Acquire<G(==)>(p: Pool<G>, made: Option<G>): (Pool<G>, Option<G>) {
    match Candidate(p)
    case Some(g) => (Join(p, g), Some(g))
    case None => if made.None? then (p, None) else (Join(Grown(p, made.value), made.value), made)
  }

  function Release<G(==)>(p: Pool<G>, g: G): Pool<G>
    requires g in p.size && p.size[g] > 0
  {
    Pool(Without(p.queue, g) + [g], p.size[g := p.size[g] - 1])
  }

  // ----- sums and orders -------------------------------------------------------------------------

  lemma {:induction false} TotalAppend<G>(a: seq<G>, b: seq<G>, size: map<G, nat>)
    ensures Total(a + b, size) == Total(a, size) + Total(b, size)
  {
    if a == [] {
      assert a + b == b;
    } else {
      assert (a + b)[1..] == a[1..] + b;
      TotalAppend(a[1..], b, size);
    }
  }

  lemma {:induction false} TotalElsewhere<G>(q: seq<G>, size: map<G, nat>, g: G, n: nat)
    requires g !in q
    ensures Total(q, size[g := n]) == Total(q, size)
  {
    if q != [] { TotalElsewhere(q[1..], size, g, n); }
  }

  lemma {:induction false} TotalOne<G>(g: G, size: map<G, nat>)
    requires g in size
    ensures Total([g], size) == size[g]
  {
    assert [g][1..] == [];
  }

  lemma {:induction false} TotalAt<G>(q: seq<G>, size: map<G, nat>, g: G)
    requires NoDup(q) && g in q && g in size
    ensures Total(q, size) == Total(Without(q, g), size) + size[g]
  {
    var a, b := SplitAt(q, g);
    TotalAppend(a, [g] + b, size);
    TotalAppend([g], b, size);
    TotalAppend(a, b, size);
    TotalOne(g, size);
  }

  lemma {:induction false} TotalBound<G>(q: seq<G>, size: map<G, nat>)
    requires forall g :: g in q ==> g in size && size[g] <= MaxGroupSize
    ensures Total(q, size) <= MaxGroupSize * |q|
    ensures AllFull(q, size) ==> Total(q, size) == MaxGroupSize * |q|
    ensures !AllFull(q, size) ==> Total(q, size) < MaxGroupSize * |q|
  {
    if q != [] {
      TotalBound(q[1..], size);
      assert forall g :: g in q <==> g == q[0] || g in q[1..];
      assert AllFull(q, size) <==> Full(q[0], size) && AllFull(q[1..], size);
    }
  }

  lemma {:induction false} FullFirstAppend<G>(a: seq<G>, b: seq<G>, size: map<G, nat>)
    ensures FullFirst(a + b, size) <==> FullFirst(a, size) && FullFirst(b, size) && (AllFull(a, size) || NoneFull(b, size))
  {
    if a == [] {
      assert a + b == b;
    } else {
      assert (a + b)[1..] == a[1..] + b;
      FullFirstAppend(a[1..], b, size);
      assert NoneFull(a[1..] + b, size) <==> NoneFull(a[1..], size) && NoneFull(b, size) by {
        assert forall g :: g in a[1..] + b <==> g in a[1..] || g in b;
      }
      assert AllFull(a, size) <==> Full(a[0], size) && AllFull(a[1..], size) by {
        assert forall g :: g in a <==> g == a[0] || g in a[1..];
      }
    }
  }

  // ----- what the operations keep ----------------------------------------------------------------

  lemma {:induction false} FullFirstElsewhere<G>(q: seq<G>, size: map<G, nat>, g: G, n: nat)
    requires g !in q
    ensures FullFirst(q, size[g := n]) <==> FullFirst(q, size)
  {
    if q != [] {
      FullFirstElsewhere(q[1..], size, g, n);
      assert q[0] in q;
    }
  }

  /** Taking a group out of the queue keeps the full ones first. */
  lemma {:induction false} FullFirstWithout<G>(q: seq<G>, size: map<G, nat>, g: G)
    requires NoDup(q) && g in q && FullFirst(q, size)
    ensures FullFirst(Without(q, g), size) && NoDup(Without(q, g)) && |Without(q, g)| == |q| - 1
  {
    var a, b := SplitAt(q, g);
    FullFirstAppend(a, [g] + b, size);
    FullFirstAppend([g], b, size);
    FullFirstAppend(a, b, size);
    NoDupAppend(a, [g] + b);
    NoDupAppend([g], b);
    NoDupAppend(a, b);
    assert forall x :: x in b ==> x in [g] + b;
  }

  lemma {:induction false} FullFirstOne<G>(g: G, size: map<G, nat>)
    ensures FullFirst([g], size)
  {
    var none: seq<G> := [];
    assert [g][1..] == none && FullFirst(none, size) && NoneFull(none, size);
  }

  lemma {:induction false} NoneFullWithout<G>(q: seq<G>, size: map<G, nat>, g: G)
    requires NoDup(q) && q != [] && FullFirst(q, size) && g == q[|q| - 1] && !Full(g, size)
    ensures Without(q, g) == q[..|q| - 1]
  {
    var a := q[..|q| - 1];
    assert q == a + ([g] + []);
    NoDupAppend(a, [g] + []);
    assert g in [g] + [];
    WithoutPresent(a, g, []);
    assert a + [] == a;
  }

  /** The last group taken out of the queue. */
  lemma {:induction false} TakeLast<G>(p: Pool<G>, g: G)
    requires Sized(p) && FullFirst(p.queue, p.size) && p.queue != [] && g == p.queue[|p.queue| - 1] && !Full(g, p.size)
    ensures var rest := Without(p.queue, g);
            p.queue == rest + [g] && NoDup(rest) && g !in rest && FullFirst(rest, p.size) && g in p.size
    ensures Total(p.queue, p.size) == Total(Without(p.queue, g), p.size) + p.size[g]
  {
    var rest := Without(p.queue, g);
    NoneFullWithout(p.queue, p.size, g);
    FullFirstWithout(p.queue, p.size, g);
    WithoutIn(p.queue, g);
    TotalAt(p.queue, p.size, g);
    assert p.queue == rest + [g];
  }

  lemma {:induction false} JoinKeeps<G>(p: Pool<G>, g: G, held: nat)
    requires Sized(p) && FullFirst(p.queue, p.size) && Total(p.queue, p.size) == held
    requires p.queue != [] && g == p.queue[|p.queue| - 1] && !Full(g, p.size)
    ensures Sized(Join(p, g)) && FullFirst(Join(p, g).queue, Join(p, g).size)
    ensures Total(Join(p, g).queue, Join(p, g).size) == held + 1 && |Join(p, g).queue| == |p.queue|
  {
    TakeLast(p, g);
    JoinOrder(p, Without(p.queue, g), g);
    SizedAgain(p, g, p.size[g] + 1);
  }

  lemma {:induction false} JoinOrder<G>(p: Pool<G>, rest: seq<G>, g: G)
    requires p.queue == rest + [g] && rest == Without(p.queue, g) && NoDup(rest) && g !in rest && FullFirst(rest, p.size)
    requires g in p.size && p.size[g] < MaxGroupSize
    ensures NoDup(Join(p, g).queue) && FullFirst(Join(p, g).queue, Join(p, g).size)
    ensures Total(Join(p, g).queue, Join(p, g).size) == Total(rest, p.size) + p.size[g] + 1 && |Join(p, g).queue| == |p.queue|
  {
    var n := p.size[g] + 1;
    if n == MaxGroupSize { JoinFirst(rest, p.size, g, n); } else { JoinLast(rest, p.size, g, n); }
  }

  lemma {:induction false} JoinFirst<G>(rest: seq<G>, size: map<G, nat>, g: G, n: nat)
    requires NoDup(rest) && g !in rest && FullFirst(rest, size) && n == MaxGroupSize
    ensures var size' := size[g := n];
            NoDup([g] + rest) && FullFirst([g] + rest, size') && Total([g] + rest, size') == Total(rest, size) + n
  {
    TotalElsewhere(rest, size, g, n);
    FullFirstElsewhere(rest, size, g, n);
    PutFirst(rest, size[g := n], g);
  }

  lemma {:induction false} JoinLast<G>(rest: seq<G>, size: map<G, nat>, g: G, n: nat)
    requires NoDup(rest) && g !in rest && FullFirst(rest, size) && n < MaxGroupSize
    ensures var size' := size[g := n];
            NoDup(rest + [g]) && FullFirst(rest + [g], size') && Total(rest + [g], size') == Total(rest, size) + n
  {
    TotalElsewhere(rest, size, g, n);
    FullFirstElsewhere(rest, size, g, n);
    PutLast(rest, size[g := n], g);
  }

  lemma {:induction false} SizedAgain<G>(p: Pool<G>, g: G, n: nat)
    requires Sized(p) && g in p.size && n <= MaxGroupSize
    ensures var p1 := Pool([g] + Without(p.queue, g), p.size[g := n]); NoDup(p1.queue) ==> Sized(p1)
    ensures Sized(Pool(p.queue, p.size[g := n]))
  {
    WithoutIn(p.queue, g);
    assert forall x :: x in [g] + Without(p.queue, g) <==> x == g || x in Without(p.queue, g);
  }

  lemma {:induction false} PutFirst<G>(rest: seq<G>, size: map<G, nat>, g: G)
    requires NoDup(rest) && g !in rest && Full(g, size) && FullFirst(rest, size)
    ensures NoDup([g] + rest) && FullFirst([g] + rest, size) && Total([g] + rest, size) == Total(rest, size) + size[g]
  {
    assert ([g] + rest)[1..] == rest;
  }

  lemma {:induction false} PutLast<G>(rest: seq<G>, size: map<G, nat>, g: G)
    requires NoDup(rest) && g !in rest && g in size && !Full(g, size) && FullFirst(rest, size)
    ensures NoDup(rest + [g]) && FullFirst(rest + [g], size) && Total(rest + [g], size) == Total(rest, size) + size[g]
  {
    FullFirstAppend(rest, [g], size);
    FullFirstOne(g, size);
    TotalAppend(rest, [g], size);
    TotalOne(g, size);
    NoDupAppend(rest, [g]);
    assert [g][1..] == [];
  }

  lemma {:induction false} AcquireKeeps<G>(p: Pool<G>, made: Option<G>, held: nat, peak: nat)
    requires Optimal(p, held, peak) && (made.Some? ==> made.value !in p.size)
    ensures var (p', got) := Acquire(p, made);
            if got.None? then p' == p && made.None? && held == MaxGroupSize * |p.queue|
            else
              && Optimal(p', held + 1, if held < peak then peak else held + 1)
              && got.value in p'.size && 0 < p'.size[got.value] <= MaxGroupSize
              && p'.size == p.size[got.value := (if got.value in p.size then p.size[got.value] else 0) + 1]
  {
    TotalBound(p.queue, p.size);
    match Candidate(p)
    case Some(g) =>
      JoinKeeps(p, g, held);
      assert !AllFull(p.queue, p.size);
    case None =>
      LastFull(p);
      if made.Some? {
        GrowKeeps(p, made.value, held);
        JoinKeeps(Grown(p, made.value), made.value, held);
      }
  }

  lemma {:induction false} LastFull<G>(p: Pool<G>)
    requires Sized(p) && FullFirst(p.queue, p.size) && Candidate(p).None?
    ensures AllFull(p.queue, p.size)
  {
    if p.queue != [] {
      var a, g := p.queue[..|p.queue| - 1], p.queue[|p.queue| - 1];
      assert p.queue == a + [g];
      FullFirstAppend(a, [g], p.size);
      assert g in [g] && g in p.queue;
    }
  }

  lemma {:induction false} GrowKeeps<G>(p: Pool<G>, g: G, held: nat)
    requires Sized(p) && FullFirst(p.queue, p.size) && Total(p.queue, p.size) == held && g !in p.size
    ensures Sized(Grown(p, g)) && FullFirst(Grown(p, g).queue, Grown(p, g).size) && Total(Grown(p, g).queue, Grown(p, g).size) == held
  {
    var p' := Grown(p, g);
    JoinLast(p.queue, p.size, g, 0);
  }

  lemma {:induction false} ReleaseKeeps<G>(p: Pool<G>, g: G, held: nat, peak: nat)
    requires Optimal(p, held, peak) && g in p.size && p.size[g] > 0
    ensures held > 0 && Optimal(Release(p, g), held - 1, peak)
  {
    var q, size, p' := p.queue, p.size, Release(p, g);
    var rest := Without(q, g);
    FullFirstWithout(q, size, g);
    WithoutIn(q, g);
    TotalAt(q, size, g);
    JoinLast(rest, size, g, size[g] - 1);
  }
}
