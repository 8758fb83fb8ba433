/** callback_wq: callbacks of one owner, posted from any number of threads and drained in batches by
    whichever worker runs the owner's runner node. Each section under the queue's lock, each exchange of
    a waiter's flag, each executor call and each callback's start and end is one step. */
module CallbackQueue {
  import opened Basics
  import opened Sequences

  /** A worker inside drain: the batch it took, and the waiter whose callback it is executing. */
  datatype Drain = Drain(local: seq<nat>, busy: Option<nat>)

  /** Waiters and threads are numbers. `posting` are the threads that found no runner and are about to
      schedule it, `queued` says whether the runner is on the executor's list, `flags` are the waiters
      marked as enqueued. `accepted` and `started` record the order of accepted posts and of callbacks. */
  datatype State = State(pending: seq<nat>, running: bool, posting: set<nat>, queued: bool, drains: map<nat, Drain>,
                         flags: set<nat>, accepted: seq<nat>, started: seq<nat>)

  function Init(): State {
    State([], false, {}, false, map[], {}, [], [])
  }

  datatype Act =
    | Post(t: nat, waiter: nat)
    | Schedule(t: nat)
    | Begin(w: nat)
    | Batch(w: nat)
    | Start(w: nat)
    | End(w: nat)

  /** When a step may happen: a thread posts when it is not in the middle of a post. */
  predicate Enabled(s: State, a: Act) {
    match a
    case Post(t, x) => t !in s.posting
    case Schedule(t) => t in s.posting
    case Begin(w) => s.queued && w !in s.drains
    case Batch(w) => w in s.drains && s.drains[w] == Drain([], None)
    case Start(w) => w in s.drains && s.drains[w].local != [] && s.drains[w].busy.None?
    case End(w) => w in s.drains && s.drains[w].busy.Some?
  }

  function Do(s: State, a: Act): State
    requires Enabled(s, a)
  {
    match a
    case Post(t, x) =>
      if x in s.flags then s
      else s.(flags := s.flags + {x}, pending := s.pending + [x], accepted := s.accepted + [x], running := true,
              posting := if s.running then s.posting else s.posting + {t})
    case Schedule(t) => s.(posting := s.posting - {t}, queued := true)
    case Begin(w) => s.(queued := false, drains := s.drains[w := Drain([], None)])
    case Batch(w) =>
      if s.pending == [] then s.(running := false, drains := s.drains - {w})
      else s.(pending := [], drains := s.drains[w := Drain(s.pending, None)])
    case Start(w) =>
      var x := s.drains[w].local[0];
      s.(flags := s.flags - {x}, started := s.started + [x], drains := s.drains[w := Drain(s.drains[w].local[1..], Some(x))])
    case End(w) => s.(drains := s.drains[w := s.drains[w].(busy := None)])
  }

  // ----- the invariant ----------------------------------------------------------------------------

  /** Where the one runner is. */
  datatype Stage = Off | Posting(t: nat) | Queued | Draining(w: nat, d: Drain)

  function Local(g: Stage): seq<nat> {
    if g.Draining? then g.d.local else []
  }

  /** The runner is in one place only; accepted posts are started, local or pending, in order; a waiter
      is flagged exactly while it is local or pending; nothing is pending without a runner. */
  ghost predicate Inv(s: State, g: Stage) {
    && s.posting == (if g.Posting? then {g.t} else {})
    && s.queued == g.Queued?
    && s.drains == (if g.Draining? then map[g.w := g.d] else map[])
    && s.running == !g.Off?
    && (s.pending != [] ==> s.running)
    && s.accepted == s.started + (Local(g) + s.pending)
    && NoDup(Local(g) + s.pending)
    && (forall x :: x in s.flags <==> x in Local(g) || x in s.pending)
  }

  lemma {:induction false} PostInv(s: State, g: Stage, t: nat, x: nat) returns (g': Stage)
    requires Inv(s, g) && Enabled(s, Post(t, x))
    ensures Inv(Do(s, Post(t, x)), g') && Local(g') == Local(g)
  {
    g' := if x !in s.flags && g.Off? then Posting(t) else g;
    if x !in s.flags {
      NoDupSnoc(Local(g) + s.pending, x);
      assert (Local(g) + s.pending) + [x] == Local(g) + (s.pending + [x]);
      assert (s.started + (Local(g) + s.pending)) + [x] == s.started + (Local(g) + (s.pending + [x]));
    }
  }

  lemma {:induction false} RunnerInv(s: State, g: Stage, a: Act) returns (g': Stage)
    requires Inv(s, g) && Enabled(s, a) && (a.Schedule? || a.Begin? || a.End?)
    ensures Inv(Do(s, a), g') && Local(g') == Local(g)
  {
    match a
    case Schedule(t) => g' := Queued;
    case Begin(w) => g' := Draining(w, Drain([], None));
    case End(w) => g' := Draining(w, g.d.(busy := None));
  }

  lemma {:induction false} BatchInv(s: State, g: Stage, w: nat) returns (g': Stage)
    requires Inv(s, g) && Enabled(s, Batch(w))
    ensures Inv(Do(s, Batch(w)), g') && Local(g') == s.pending
  {
    var s' := Do(s, Batch(w));
    assert g == Draining(w, Drain([], None));
    assert Local(g) + s.pending == s.pending;
    if s.pending == [] {
      g' := Off;
      assert Local(g') + s'.pending == s.pending;
    } else {
      g' := Draining(w, Drain(s.pending, None));
      assert s'.drains == map[w := g'.d];
      assert Local(g') + s'.pending == s.pending;
    }
  }

  lemma {:induction false} StartInv(s: State, g: Stage, w: nat) returns (g': Stage)
    requires Inv(s, g) && Enabled(s, Start(w))
    ensures Inv(Do(s, Start(w)), g') && g.Draining? && g.d.local != [] && Local(g') == Local(g)[1..]
  {
    var x, rest := g.d.local[0], g.d.local[1..];
    g' := Draining(w, Drain(rest, Some(x)));
    assert (g.d.local + s.pending)[1..] == rest + s.pending && (g.d.local + s.pending)[0] == x;
    assert s.started + (g.d.local + s.pending) == (s.started + [x]) + (rest + s.pending);
  }

  lemma {:induction false} StepInv(s: State, g: Stage, a: Act) returns (g': Stage)
    requires Inv(s, g) && Enabled(s, a)
    ensures Inv(Do(s, a), g')
  {
    match a
    case Post(t, x) => g' := PostInv(s, g, t, x);
    case Batch(w) => g' := BatchInv(s, g, w);
    case Start(w) => g' := StartInv(s, g, w);
    case _ => g' := RunnerInv(s, g, a);
  }

  // ----- runs -------------------------------------------------------------------------------------

  ghost predicate Run(ss: seq<State>, acts: seq<Act>) {
    && |ss| == |acts| + 1 && ss[0] == Init()
    && forall i :: 0 <= i < |acts| ==> Enabled(ss[i], acts[i]) && ss[i + 1] == Do(ss[i], acts[i])
  }

  lemma {:induction false} RunInv(ss: seq<State>, acts: seq<Act>, i: nat) returns (g: Stage)
    requires Run(ss, acts) && i <= |acts|
    ensures Inv(ss[i], g)
  {
    if i == 0 {
      g := Off;
    } else {
      g := RunInv(ss, acts, i - 1);
      g := StepInv(ss[i - 1], g, acts[i - 1]);
    }
  }

  /** In every interleaving at most one drain is under way, and accepted posts are started in order, each
      once: what was started, then the drain's batch, then what is pending, is what was accepted. */
  lemma {:induction false} OneDrainInOrder(ss: seq<State>, acts: seq<Act>, i: nat) returns (backlog: seq<nat>)
    requires Run(ss, acts) && i <= |acts|
    ensures forall v, w :: v in ss[i].drains && w in ss[i].drains ==> v == w
    ensures ss[i].accepted == ss[i].started + backlog && NoDup(backlog)
    ensures if ss[i].drains == map[] then backlog == ss[i].pending
            else exists w :: w in ss[i].drains && backlog == ss[i].drains[w].local + ss[i].pending
    ensures forall x :: x in backlog <==> x in ss[i].flags
  {
    var g := RunInv(ss, acts, i);
    backlog := Local(g) + ss[i].pending;
    if g.Draining? { assert g.w in ss[i].drains; }
  }

  // ----- against the simple queue ---------------------------------------------------------------------

  /** What the queue is for, without runner, batches and flags: a waiter that is posted joins the end unless
      it is there already, and the first one is started next. */
  datatype Simple = Simple(queue: seq<nat>, accepted: seq<nat>, started: seq<nat>)

  function SimpleAfter(acts: seq<Act>): Simple {
    if acts == [] then Simple([], [], []) else SimpleStep(SimpleAfter(acts[..|acts| - 1]), acts[|acts| - 1])
  }

  function SimpleStep(q: Simple, a: Act): Simple {
    match a
    case Post(_, x) => if x in q.queue then q else q.(queue := q.queue + [x], accepted := q.accepted + [x])
    case Start(_) => if q.queue == [] then q else q.(queue := q.queue[1..], started := q.started + [q.queue[0]])
    case _ => q
  }

  ghost predicate Like(s: State, g: Stage, q: Simple) {
    Inv(s, g) && q == Simple(Local(g) + s.pending, s.accepted, s.started)
  }

  lemma {:induction false} LikeStep(s: State, g: Stage, a: Act, q: Simple) returns (g': Stage)
    requires Like(s, g, q) && Enabled(s, a)
    ensures Like(Do(s, a), g', SimpleStep(q, a))
    ensures a.Start? ==> q.queue != [] && a.w in Do(s, a).drains && Do(s, a).drains[a.w].busy == Some(q.queue[0])
  {
    match a
    case Post(t, x) =>
      g' := PostInv(s, g, t, x);
      assert (Local(g) + s.pending) + [x] == Local(g) + (s.pending + [x]);
    case Batch(w) =>
      g' := BatchInv(s, g, w);
      assert Local(g') + Do(s, a).pending == Local(g) + s.pending;
    case Start(w) =>
      g' := StartInv(s, g, w);
      assert (Local(g) + s.pending)[1..] == Local(g)[1..] + s.pending;
    case _ => g' := RunnerInv(s, g, a);
  }

  /** In every interleaving, what is accepted and what is started, in which order, are what the simple queue
      accepts and starts in the same run of posts and starts; and the callback that a step starts is that of
      the simple queue's first waiter. */
  lemma {:induction false} RefinesSimple(ss: seq<State>, acts: seq<Act>, i: nat) returns (g: Stage)
    requires Run(ss, acts) && i <= |acts|
    ensures Like(ss[i], g, SimpleAfter(acts[..i]))
    ensures ss[i].accepted == SimpleAfter(acts[..i]).accepted && ss[i].started == SimpleAfter(acts[..i]).started
    ensures forall x :: x in ss[i].flags <==> x in SimpleAfter(acts[..i]).queue
    ensures i > 0 && acts[i - 1].Start? ==>
              var q := SimpleAfter(acts[..i - 1]).queue;
              q != [] && acts[i - 1].w in ss[i].drains && ss[i].drains[acts[i - 1].w].busy == Some(q[0])
  {
    if i == 0 {
      g := Off;
    } else {
      g := RefinesSimple(ss, acts, i - 1);
      assert acts[..i][..i - 1] == acts[..i - 1];
      g := LikeStep(ss[i - 1], g, acts[i - 1], SimpleAfter(acts[..i - 1]));
    }
  }

  /** The simple queue starts what it accepted, in order, and holds the rest, each once. */
  lemma {:induction false} SimpleInOrder(acts: seq<Act>)
    ensures var q := SimpleAfter(acts); q.accepted == q.started + q.queue && NoDup(q.queue)
  {
    if acts != [] {
      var q := SimpleAfter(acts[..|acts| - 1]);
      SimpleInOrder(acts[..|acts| - 1]);
      var a := acts[|acts| - 1];
      if a.Post? && a.waiter !in q.queue {
        NoDupSnoc(q.queue, a.waiter);
        assert (q.started + q.queue) + [a.waiter] == q.started + (q.queue + [a.waiter]);
      }
      if q.queue != [] { assert q.started + q.queue == (q.started + [q.queue[0]]) + q.queue[1..]; }
    }
  }

  /** Work pending means that a runner is about to be scheduled, is queued, or drains. */
  lemma {:induction false} PendingHasRunner(ss: seq<State>, acts: seq<Act>, i: nat)
    requires Run(ss, acts) && i <= |acts| && ss[i].pending != []
    ensures ss[i].running && (ss[i].posting != {} || ss[i].queued || ss[i].drains != map[])
  {
    var g := RunInv(ss, acts, i);
    if g.Draining? { assert g.w in ss[i].drains; }
    if g.Posting? { assert g.t in ss[i].posting; }
  }

  // ----- progress ---------------------------------------------------------------------------------

  /** How many steps other than posts are left at most. */
  function Rank(s: State, g: Stage): nat {
    3 * |s.pending| + 2 * |Local(g)| + match g
      case Off => 0
      case Posting(_) => 3
      case Queued => 2
      case Draining(_, d) => if d.busy.Some? then 2 else 1
  }

  lemma {:induction false} StepsRunOut(s: State, g: Stage, a: Act) returns (g': Stage)
    requires Inv(s, g) && Enabled(s, a) && !a.Post?
    ensures Inv(Do(s, a), g') && Rank(Do(s, a), g') < Rank(s, g)
  {
    match a
    case Batch(w) => g' := if s.pending == [] then Off else Draining(w, Drain(s.pending, None)); var _ := BatchInv(s, g, w);
    case Start(w) =>
      g' := StartInv(s, g, w);
      g' := Draining(w, Drain(g.d.local[1..], Some(g.d.local[0])));
    case Schedule(t) => g' := Queued;
    case Begin(w) => g' := Draining(w, Drain([], None));
    case End(w) => g' := Draining(w, g.d.(busy := None));
  }

  /** While there is a runner, as there is whenever anything is accepted and not started, some step
      other than a post can happen. */
  lemma {:induction false} NeverStuck(s: State, g: Stage) returns (a: Act)
    requires Inv(s, g) && s.running
    ensures Enabled(s, a) && !a.Post?
  {
    match g
    case Posting(t) => a := Schedule(t);
    case Queued => a := Begin(0);
    case Draining(w, d) => a := if d.busy.Some? then End(w) else if d.local != [] then Start(w) else Batch(w);
  }

  /** A waiter that is accepted and not started stays so until its callback starts, and moves up by one
      with each callback: also a waiter whose later posts are coalesced is started later. */
  lemma {:induction false} BacklogMoves(s: State, g: Stage, a: Act, g': Stage, i: nat)
    requires Inv(s, g) && Enabled(s, a) && Inv(Do(s, a), g') && i < |Local(g) + s.pending|
    ensures var q, q' := Local(g) + s.pending, Local(g') + Do(s, a).pending;
            if a.Start? then (if i == 0 then Do(s, a).started == s.started + [q[0]] else i - 1 < |q'| && q'[i - 1] == q[i])
            else i < |q'| && q'[i] == q[i]
  {
    var s' := Do(s, a);
    var q, q' := Local(g) + s.pending, Local(g') + s'.pending;
    assert s.accepted == s.started + q && s'.accepted == s'.started + q';
    if a.Start? {
      assert s.accepted[|s.started|] == q[0] && s'.accepted[|s.started|] == s'.started[|s.started|];
      assert i > 0 ==> s'.accepted[|s'.started| + (i - 1)] == s.accepted[|s.started| + i];
    } else {
      assert s'.accepted[|s.started| + i] == s.accepted[|s.started| + i];
    }
  }

  /** Every post of a waiter, accepted or coalesced, is followed by a start of its callback before the
      waiter's flag is down again. */
  lemma {:induction false} PostedIsStarted(ss: seq<State>, acts: seq<Act>, i: nat, j: nat, t: nat, x: nat) returns (k: nat)
    requires Run(ss, acts) && i < j <= |acts| && acts[i] == Post(t, x) && x !in ss[j].flags
    ensures i < k < j && acts[k].Start? && ss[k + 1].started == ss[k].started + [x]
    ensures acts[k].w in ss[k + 1].drains && ss[k + 1].drains[acts[k].w].busy == Some(x)
    decreases j
  {
    assert x in ss[i + 1].flags;
    assert Enabled(ss[j - 1], acts[j - 1]) && ss[j] == Do(ss[j - 1], acts[j - 1]);
    if x in ss[j - 1].flags {
      k := j - 1;
    } else {
      k := PostedIsStarted(ss, acts, i, j - 1, t, x);
    }
  }

  /** And when no step but a post can happen, everything posted has been started. */
  lemma {:induction false} AllStartedAtRest(ss: seq<State>, acts: seq<Act>, i: nat)
    requires Run(ss, acts) && i <= |acts| && forall a :: Enabled(ss[i], a) ==> a.Post?
    ensures ss[i].started == ss[i].accepted && ss[i].flags == {} && !ss[i].running
  {
    var g := RunInv(ss, acts, i);
    if ss[i].running {
      var a := NeverStuck(ss[i], g);
      assert false;
    }
    assert ss[i].started + (Local(g) + ss[i].pending) == ss[i].started;
  }
}
