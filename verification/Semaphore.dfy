/** The coroutine semaphore: the check loop over its waiters, and the protocol of acquirers, releasers,
    checks and timeouts as a transition system. Each section under the executor's lock, each exchange of
    an armed flag and each executor call is one step; await_suspend is one step. */
module Semaphore {
  import opened Sequences

  // ----- sem_chk_cb -------------------------------------------------------------------------------

  /** What a check leaves of the waiters and of the value, and whom it grants a token. */
  datatype Check = Check(left: seq<nat>, cur: nat, granted: seq<nat>)

  function Checked(waiters: seq<nat>, cancelled: set<nat>, cur: nat): Check {
    if waiters == [] then Check([], cur, [])
    else if waiters[0] in cancelled then Checked(waiters[1..], cancelled, cur)
    else if cur > 0 then
      var c := Checked(waiters[1..], cancelled, cur - 1);
      c.(granted := [waiters[0]] + c.granted)
    else
      var c := Checked(waiters[1..], cancelled, 0);
      c.(left := [waiters[0]] + c.left)
  }

  /** Without cancelled waiters a check grants to the first ones, as many as there are tokens. */
  lemma {:induction false} CheckedGrantsFirst(waiters: seq<nat>, cancelled: set<nat>, cur: nat)
    requires forall id :: id in waiters ==> id !in cancelled
    ensures var c := Checked(waiters, cancelled, cur); var k := if cur < |waiters| then cur else |waiters|;
            c.granted == waiters[..k] && c.left == waiters[k..] && c.cur == cur - k
  {
    if waiters != [] {
      CheckedGrantsFirst(waiters[1..], cancelled, if cur > 0 then cur - 1 else 0);
      assert waiters == [waiters[0]] + waiters[1..];
    }
  }

  /** The semaphore's own fields, and the executor's list of runnable nodes. */
  class Sem {
    var cur: nat
    var max: nat
    var waiters: seq<nat>
    var cancelled: set<nat>
    var ready: seq<nat>

    constructor (init: nat, max: nat)
      requires init <= max
      ensures cur == init && this.max == max && waiters == [] && cancelled == {} && ready == []
    {
      cur, this.max, waiters, cancelled, ready := init, max, [], {}, [];
    }

    /** acquire: a token now, or a place at the end of the waiters. */
    method Acquire(id: nat)
      modifies this`cur, this`waiters, this`ready
      ensures if old(cur) > 0 then cur == old(cur) - 1 && ready == old(ready) + [id] && waiters == old(waiters)
              else cur == 0 && waiters == old(waiters) + [id] && ready == old(ready)
    {
      if cur > 0 {
        cur, ready := cur - 1, ready + [id];
      } else {
        waiters := waiters + [id];
      }
    }

    method TryAcquire() returns (succ: bool)
      modifies this`cur
      ensures (succ <==> old(cur) > 0) && old(cur) == cur + if succ then 1 else 0
    {
      succ := cur > 0;
      if succ { cur := cur - 1; }
    }

    /** release: a release at the maximum does not count; one that counts asks for a check if anyone waits. */
    method Release() returns (post: bool)
      requires cur <= max
      modifies this`cur
      ensures cur == (if old(cur) < max then old(cur) + 1 else max) && (post <==> old(cur) < max && waiters != [])
    {
      post := false;
      if cur < max {
        cur := cur + 1;
        post := waiters != [];
      }
    }

    /** sem_chk_cb's loop: a walk over the waiters that removes some of them. */
    method Chk() returns (trig: bool)
      modifies this`cur, this`waiters, this`ready
      ensures var c := Checked(old(waiters), cancelled, old(cur));
              waiters == c.left && cur == c.cur && ready == old(ready) + c.granted && (trig <==> c.granted != [])
    {
      trig := false;
      ghost var all, granted := waiters, [];
      var i, j := 0, 0;
      while j < |waiters|
        invariant 0 <= j <= |waiters| && 0 <= i <= |all| && waiters[j..] == all[i..]
        invariant ready == old(ready) + granted && (trig <==> granted != [])
        invariant var c := Checked(all[i..], cancelled, cur);
                  Checked(all, cancelled, old(cur)) == Check(waiters[..j] + c.left, c.cur, granted + c.granted)
        decreases |waiters| - j
      {
        var pos := waiters[j];
        assert all[i..][0] == pos && all[i..][1..] == all[i + 1..];
        ghost var before, c, c1 := waiters[..j], Checked(all[i..], cancelled, cur), Checked(all[i + 1..], cancelled, if pos in cancelled || cur == 0 then cur else cur - 1);
        if pos in cancelled {
          waiters := waiters[..j] + waiters[j + 1..];
          assert waiters[..j] == before && waiters[j..] == all[i + 1..];
        } else if cur > 0 {
          cur := cur - 1;
          waiters := waiters[..j] + waiters[j + 1..];
          ready := ready + [pos];
          trig := true;
          assert waiters[..j] == before && waiters[j..] == all[i + 1..];
          assert granted + c.granted == (granted + [pos]) + c1.granted;
          granted := granted + [pos];
        } else {
          assert before + c.left == waiters[..j + 1] + c1.left;
          j := j + 1;
        }
        i := i + 1;
      }
      assert all[i..] == [] && waiters[..j] == waiters;
    }

    /** cancel_waiter: the request is marked, and taken off the list if it is still there. */
    method CancelWaiter(id: nat) returns (removed: bool)
      requires NoDup(waiters)
      modifies this`cancelled, this`waiters
      ensures cancelled == old(cancelled) + {id} && waiters == Without(old(waiters), id) && (removed <==> id in old(waiters))
    {
      cancelled := cancelled + {id};
      removed := false;
      var j := 0;
      while j < |waiters|
        invariant 0 <= j <= |waiters| && id !in waiters[..j]
      {
        if waiters[j] == id {
          removed := true;
          assert waiters == waiters[..j] + ([id] + waiters[j + 1..]);
          NoDupAppend(waiters[..j], [id] + waiters[j + 1..]);
          NoDupAppend([id], waiters[j + 1..]);
          assert id in [id];
          WithoutPresent(waiters[..j], id, waiters[j + 1..]);
          waiters := waiters[..j] + waiters[j + 1..];
          return;
        }
        j := j + 1;
      }
      WithoutAbsent(waiters, id);
    }
  }

  // ----- the protocol -------------------------------------------------------------------------------

  /** What await_resume will look at. */
  datatype Sta = Unset | Granted | TimedOut

  /** An awaiter: with or without a timeout, its armed flag, whether its timer has won and is about to
      cancel it, whether it was cancelled, its status, and how often its coroutine was resumed. */
  datatype Req = Req(timed: bool, armed: bool, firing: bool, cancelled: bool, sta: Sta, resumes: nat)

  /** The semaphore and its surroundings. Requests are numbered in the order of await_suspend. `posting`
      are releasers about to post the semaphore's check, `queued` says whether it is on the executor's
      list, `checking` are workers in it, between its first look and its lock. `ready` are granted nodes
      on the executor's list. `granted` records grants to queued requests, `taken` counts all grants, `direct`
      those of try_acquire, `served` those whose node resumed its coroutine, and `lost` are the requests whose
      node found its timer ahead; `released` counts the releases that counted. */
  datatype State = State(cur: int, max: int, waiters: seq<nat>, reqs: map<nat, Req>, next: nat, posting: set<nat>, queued: bool,
                         checking: set<nat>, ready: set<nat>, granted: seq<nat>, taken: nat, released: nat,
                         direct: nat, served: nat, lost: set<nat>)

  function Init(init: nat, max: nat): State {
    State(init, max, [], map[], 0, {}, false, {}, {}, [], 0, 0, 0, 0, {})
  }

  datatype Act =
    | TryAcquire
    | Suspend(timed: bool)
    | Release(t: nat)
    | PostCheck(t: nat)
    | Look(w: nat)
    | RunCheck(w: nat)
    | Resume(id: nat)
    | TimerWins(id: nat)
    | TimerCancels(id: nat)

  predicate Enabled(s: State, a: Act) {
    match a
    case TryAcquire => true
    case Suspend(_) => true
    case Release(t) => t !in s.posting
    case PostCheck(t) => t in s.posting
    case Look(w) => s.queued && w !in s.checking
    case RunCheck(w) => w in s.checking
    case Resume(id) => id in s.ready && id in s.reqs
    case TimerWins(id) => id in s.reqs && s.reqs[id].timed && s.reqs[id].armed
    case TimerCancels(id) => id in s.reqs && s.reqs[id].firing
  }

  function Cancelled(s: State): set<nat> {
    set id | id in s.reqs && s.reqs[id].cancelled
  }

  function Marked(reqs: map<nat, Req>, ids: seq<nat>): map<nat, Req> {
    map id | id in reqs :: if id in ids then reqs[id].(sta := Granted) else reqs[id]
  }

  /** sem_chk_cb under the lock. */
  function CheckAll(s: State): State
    requires s.cur >= 0
  {
    var c := Checked(s.waiters, Cancelled(s), s.cur);
    s.(waiters := c.left, cur := c.cur, ready := s.ready + (set id | id in c.granted), reqs := Marked(s.reqs, c.granted),
       granted := s.granted + c.granted, taken := s.taken + |c.granted|)
  }

  function Do(s: State, a: Act): State
    requires Enabled(s, a) && s.cur >= 0
  {
    match a
    case TryAcquire => if s.cur > 0 then s.(cur := s.cur - 1, taken := s.taken + 1, direct := s.direct + 1) else s
    case Suspend(timed) =>
      var s' := s.(reqs := s.reqs[s.next := Req(timed, timed, false, false, Unset, 0)], next := s.next + 1);
      if s.cur > 0 then s'.(cur := s.cur - 1, taken := s.taken + 1, ready := s.ready + {s.next})
      else s'.(waiters := s.waiters + [s.next])
    case Release(t) =>
      if s.cur < s.max then
        s.(cur := s.cur + 1, released := s.released + 1, posting := if s.waiters != [] then s.posting + {t} else s.posting)
      else s
    case PostCheck(t) => s.(posting := s.posting - {t}, queued := true)
    case Look(w) => s.(queued := false, checking := if s.waiters == [] then s.checking else s.checking + {w})
    case RunCheck(w) => CheckAll(s).(checking := s.checking - {w})
    case Resume(id) =>
      var r := s.reqs[id];
      if r.timed && !r.armed then s.(ready := s.ready - {id}, lost := s.lost + {id})
      else s.(ready := s.ready - {id}, served := s.served + 1, reqs := s.reqs[id := r.(armed := false, resumes := r.resumes + 1)])
    case TimerWins(id) => s.(reqs := s.reqs[id := s.reqs[id].(armed := false, firing := true)])
    case TimerCancels(id) =>
      s.(waiters := Without(s.waiters, id),
         reqs := s.reqs[id := s.reqs[id].(firing := false, cancelled := true, sta := TimedOut, resumes := s.reqs[id].resumes + 1)])
  }

  // ----- the invariant ----------------------------------------------------------------------------

  function Bit(b: bool): nat {
    if b then 1 else 0
  }

  /** Tokens are conserved. */
  ghost predicate Counts(s: State, init: nat) {
    0 <= s.cur <= s.max && s.cur + s.taken == init + s.released
  }

  /** Free tokens and waiters only meet while a check is on its way. */
  ghost predicate Awake(s: State) {
    s.cur > 0 && s.waiters != [] ==> s.queued || s.posting != {} || s.checking != {}
  }

  ghost predicate Increasing(q: seq<nat>, bound: nat) {
    q == [] || (q[|q| - 1] < bound && Increasing(q[..|q| - 1], q[|q| - 1]))
  }

  /** Granted requests, then waiters, are in order of arrival; waiters are not cancelled. */
  ghost predicate Ordered(s: State) {
    && Increasing(s.granted + s.waiters, s.next)
    && (forall id :: id in s.reqs ==> id < s.next) && (forall id :: id in s.ready ==> id in s.reqs)
    && (forall id :: id in s.waiters ==> id in s.reqs && !s.reqs[id].cancelled)
  }

  /** Of waiting, runnable, armed or firing, resumed, a request is in exactly one state. */
  ghost predicate ReqOk(s: State, id: nat)
    requires id in s.reqs
  {
    var r := s.reqs[id];
    && (id in s.waiters ==> id !in s.ready)
    && (if r.timed then Bit(r.armed) + Bit(r.firing) + r.resumes == 1
        else !r.armed && !r.firing && !r.cancelled && Bit(id in s.waiters) + Bit(id in s.ready) + r.resumes == 1)
    && (r.cancelled ==> r.sta == TimedOut && !r.armed && !r.firing)
  }

  lemma {:induction false} IncreasingWeaker(q: seq<nat>, bound: nat, bound': nat)
    requires Increasing(q, bound) && bound <= bound'
    ensures Increasing(q, bound')
  {}

  lemma {:induction false} IncreasingSnoc(q: seq<nat>, bound: nat)
    requires Increasing(q, bound)
    ensures Increasing(q + [bound], bound + 1)
  {
    assert (q + [bound])[..|q|] == q;
  }

  lemma {:induction false} IncreasingWithout(a: seq<nat>, b: seq<nat>, bound: nat, id: nat)
    requires Increasing(a + b, bound)
    ensures Increasing(a + Without(b, id), bound)
    decreases |b|
  {
    if b != [] {
      var last, b' := b[|b| - 1], b[..|b| - 1];
      assert b == b' + [last] && (a + b)[..|a + b| - 1] == a + b' && (a + b)[|a + b| - 1] == last;
      IncreasingWithout(a, b', last, id);
      WithoutAppend(b', [last], id);
      assert Without([last], id) == if last == id then [] else [last];
      if last == id {
        assert a + Without(b, id) == a + Without(b', id);
        IncreasingWeaker(a + Without(b', id), last, bound);
      } else {
        assert a + Without(b, id) == (a + Without(b', id)) + [last];
        assert (a + Without(b, id))[..|a + Without(b, id)| - 1] == a + Without(b', id);
      }
    }
  }

  /** What sem_chk_cb does to a state: the first waiters get the tokens. */
  lemma {:induction false} CheckFacts(s: State) returns (k: nat)
    requires Ordered(s) && s.cur >= 0
    ensures k <= |s.waiters| && k <= s.cur && (k == s.cur || k == |s.waiters|)
    ensures Checked(s.waiters, Cancelled(s), s.cur) == Check(s.waiters[k..], s.cur - k, s.waiters[..k])
    ensures forall id :: id in s.waiters[..k] ==> id in s.waiters && id !in s.waiters[k..]
    ensures forall id :: id in s.waiters ==> id in s.waiters[..k] || id in s.waiters[k..]
  {
    CheckedGrantsFirst(s.waiters, Cancelled(s), s.cur);
    k := if s.cur < |s.waiters| then s.cur else |s.waiters|;
    IncreasingNoDup(s.granted + s.waiters, s.next);
    NoDupAppend(s.granted, s.waiters);
    assert s.waiters == s.waiters[..k] + s.waiters[k..];
    NoDupAppend(s.waiters[..k], s.waiters[k..]);
  }

  lemma {:induction false} IncreasingNoDup(q: seq<nat>, bound: nat)
    requires Increasing(q, bound)
    ensures NoDup(q) && forall x :: x in q ==> x < bound
  {
    if q != [] {
      var last, q' := q[|q| - 1], q[..|q| - 1];
      IncreasingNoDup(q', last);
      NoDupSnoc(q', last);
      assert q == q' + [last];
    }
  }

  lemma {:induction false} CountsKept(s: State, init: nat, a: Act)
    requires Counts(s, init) && Ordered(s) && Enabled(s, a)
    ensures Counts(Do(s, a), init)
  {
    if a.RunCheck? { var k := CheckFacts(s); }
  }

  lemma {:induction false} AwakeKept(s: State, a: Act)
    requires Awake(s) && Ordered(s) && s.cur >= 0 && Enabled(s, a)
    ensures Awake(Do(s, a))
  {
    match a
    case RunCheck(w) => var k := CheckFacts(s);
    case Release(t) => assert s.waiters != [] ==> t in s.posting + {t};
    case Look(w) => assert s.waiters != [] ==> w in s.checking + {w};
    case TimerCancels(id) => if s.waiters == [] { WithoutAbsent(s.waiters, id); }
    case _ =>
  }

  lemma {:induction false} OrderedCheck(s: State)
    requires Ordered(s) && s.cur >= 0
    ensures Ordered(CheckAll(s))
  {
    var k := CheckFacts(s);
    assert (s.granted + s.waiters[..k]) + s.waiters[k..] == s.granted + s.waiters;
  }

  lemma {:induction false} OrderedSuspend(s: State, timed: bool)
    requires Ordered(s) && s.cur >= 0
    ensures Ordered(Do(s, Suspend(timed)))
  {
    var s' := Do(s, Suspend(timed));
    if s.cur > 0 {
      IncreasingWeaker(s.granted + s.waiters, s.next, s.next + 1);
    } else {
      IncreasingSnoc(s.granted + s.waiters, s.next);
      assert s'.granted + s'.waiters == (s.granted + s.waiters) + [s.next];
    }
    OrderedNew(s, s');
  }

  lemma {:induction false} OrderedNew(s: State, s': State)
    requires Ordered(s) && Increasing(s'.granted + s'.waiters, s'.next) && s'.next == s.next + 1
    requires s.next in s'.reqs && s'.reqs == s.reqs[s.next := s'.reqs[s.next]] && !s'.reqs[s.next].cancelled
    requires s'.ready <= s.ready + {s.next} && (s'.waiters == s.waiters || s'.waiters == s.waiters + [s.next])
    ensures Ordered(s')
  {}

  lemma {:induction false} OrderedCancel(s: State, id: nat)
    requires Ordered(s) && s.cur >= 0 && Enabled(s, TimerCancels(id))
    ensures Ordered(Do(s, TimerCancels(id)))
  {
    IncreasingWithout(s.granted, s.waiters, s.next, id);
    WithoutIn(s.waiters, id);
  }

  /** Any step that leaves the queue alone and neither makes nor cancels a request. */
  lemma {:induction false} OrderedSame(s: State, s': State)
    requires Ordered(s) && s'.granted == s.granted && s'.waiters == s.waiters && s'.next == s.next && s'.ready <= s.ready
    requires s'.reqs.Keys == s.reqs.Keys && forall id :: id in s.reqs ==> s'.reqs[id].cancelled == s.reqs[id].cancelled
    ensures Ordered(s')
  {}

  lemma {:induction false} OrderedKept(s: State, a: Act)
    requires Ordered(s) && s.cur >= 0 && Enabled(s, a)
    ensures Ordered(Do(s, a))
  {
    match a
    case RunCheck(w) =>
      OrderedCheck(s);
      OrderedSame(CheckAll(s), Do(s, a));
    case Suspend(timed) => OrderedSuspend(s, timed);
    case TimerCancels(id) => OrderedCancel(s, id);
    case _ => OrderedSame(s, Do(s, a));
  }

  ghost predicate ReqsOk(s: State) {
    forall id :: id in s.reqs ==> ReqOk(s, id)
  }

  lemma {:induction false} ReqsCheck(s: State)
    requires Ordered(s) && ReqsOk(s) && s.cur >= 0
    ensures ReqsOk(CheckAll(s))
  {
    var k := CheckFacts(s);
    var s' := CheckAll(s);
    forall id | id in s'.reqs ensures ReqOk(s', id) {
      assert ReqOk(s, id);
      assert id in s'.ready <==> id in s.ready || id in s.waiters[..k];
    }
  }

  lemma {:induction false} ReqsCancel(s: State, x: nat)
    requires Ordered(s) && ReqsOk(s) && s.cur >= 0 && Enabled(s, TimerCancels(x))
    ensures ReqsOk(Do(s, TimerCancels(x)))
  {
    var s' := Do(s, TimerCancels(x));
    WithoutIn(s.waiters, x);
    forall id | id in s'.reqs ensures ReqOk(s', id) { assert ReqOk(s, id); }
  }

  lemma {:induction false} ReqsSuspend(s: State, timed: bool)
    requires Ordered(s) && ReqsOk(s) && s.cur >= 0
    ensures ReqsOk(Do(s, Suspend(timed)))
  {
    var s' := Do(s, Suspend(timed));
    assert s.next !in s.reqs;
    forall id | id in s'.reqs ensures ReqOk(s', id) {
      if id != s.next { assert ReqOk(s, id); }
    }
  }

  lemma {:induction false} ReqsOther(s: State, a: Act)
    requires Ordered(s) && ReqsOk(s) && s.cur >= 0 && Enabled(s, a) && !a.RunCheck? && !a.TimerCancels? && !a.Suspend?
    ensures ReqsOk(Do(s, a))
  {
    var s' := Do(s, a);
    forall id | id in s'.reqs ensures ReqOk(s', id) { assert ReqOk(s, id); }
  }

  lemma {:induction false} ReqsKept(s: State, a: Act)
    requires Ordered(s) && ReqsOk(s) && s.cur >= 0 && Enabled(s, a)
    ensures ReqsOk(Do(s, a))
  {
    match a
    case RunCheck(w) =>
      ReqsCheck(s);
      ReqsSame(CheckAll(s), Do(s, a));
    case TimerCancels(x) => ReqsCancel(s, x);
    case Suspend(timed) => ReqsSuspend(s, timed);
    case _ => ReqsOther(s, a);
  }

  lemma {:induction false} ReqsSame(s: State, s': State)
    requires ReqsOk(s) && s'.reqs == s.reqs && s'.waiters == s.waiters && s'.ready == s.ready
    ensures ReqsOk(s')
  {
    forall id | id in s'.reqs ensures ReqOk(s', id) { assert ReqOk(s, id); }
  }

  // ----- runs -------------------------------------------------------------------------------------

  ghost predicate Next(s: State, a: Act, s': State) {
    Enabled(s, a) && s.cur >= 0 && s' == Do(s, a)
  }

  ghost predicate Run(ss: seq<State>, acts: seq<Act>, init: nat, max: nat) {
    && |ss| == |acts| + 1 && ss[0] == Init(init, max)
    && forall i :: 0 <= i < |acts| ==> Next(ss[i], acts[i], ss[i + 1])
  }

  ghost predicate Inv(s: State, init: nat) {
    Counts(s, init) && Awake(s) && Ordered(s) && ReqsOk(s)
  }

  /** In every run of a semaphore with 0 <= init <= max: the value stays within bounds, tokens are conserved,
      free tokens and waiters only meet while a check is on its way, and grants follow arrival. */
  lemma {:induction false} RunInv(ss: seq<State>, acts: seq<Act>, init: nat, max: nat, i: nat)
    requires Run(ss, acts, init, max) && init <= max && i <= |acts|
    ensures Inv(ss[i], init) && ss[i].max == max
  {
    if i > 0 {
      RunInv(ss, acts, init, max, i - 1);
      var s, a := ss[i - 1], acts[i - 1];
      CountsKept(s, init, a);
      AwakeKept(s, a);
      OrderedKept(s, a);
      ReqsKept(s, a);
    }
  }

  /** A coroutine is resumed at most once, with or without a timeout. */
  lemma {:induction false} ResumedOnce(ss: seq<State>, acts: seq<Act>, init: nat, max: nat, i: nat, id: nat)
    requires Run(ss, acts, init, max) && init <= max && i <= |acts| && id in ss[i].reqs
    ensures ss[i].reqs[id].resumes <= 1
    ensures ss[i].reqs[id].resumes == 1 ==> !Enabled(ss[i], TimerWins(id)) && !Enabled(ss[i], TimerCancels(id))
  {
    RunInv(ss, acts, init, max, i);
    assert ReqOk(ss[i], id);
  }

  /** After cancel_waiter a request is never granted. */
  lemma {:induction false} NoGrantAfterCancel(ss: seq<State>, acts: seq<Act>, init: nat, max: nat, i: nat, j: nat, id: nat)
    requires Run(ss, acts, init, max) && init <= max && i <= j <= |acts| && id in ss[i].reqs && ss[i].reqs[id].cancelled
    ensures id in ss[j].reqs && ss[j].reqs[id].cancelled && id !in ss[j].waiters
    ensures id in ss[j].granted ==> id in ss[i].granted
    decreases j
  {
    RunInv(ss, acts, init, max, j);
    if i < j {
      NoGrantAfterCancel(ss, acts, init, max, i, j - 1, id);
      RunInv(ss, acts, init, max, j - 1);
      CancelledStays(ss[j - 1], acts[j - 1], id);
    }
  }

  lemma {:induction false} CancelledStays(s: State, a: Act, id: nat)
    requires Ordered(s) && s.cur >= 0 && Enabled(s, a) && id in s.reqs && s.reqs[id].cancelled && id !in s.waiters
    ensures id in Do(s, a).reqs && Do(s, a).reqs[id].cancelled
    ensures id in Do(s, a).granted ==> id in s.granted
  {
    if a.RunCheck? { var k := CheckFacts(s); }
  }

  /** Free tokens with waiters queued are not stuck: a step towards the check is possible, and the check
      grants the first waiter. */
  lemma {:induction false} TokensReachWaiters(ss: seq<State>, acts: seq<Act>, init: nat, max: nat, i: nat) returns (a: Act)
    requires Run(ss, acts, init, max) && init <= max && i <= |acts| && ss[i].cur > 0 && ss[i].waiters != []
    ensures Enabled(ss[i], a) && (a.PostCheck? || a.Look? || a.RunCheck?)
    ensures a.RunCheck? ==> ss[i].granted + [ss[i].waiters[0]] <= Do(ss[i], a).granted
  {
    var s := ss[i];
    RunInv(ss, acts, init, max, i);
    if s.checking != {} {
      var w :| w in s.checking;
      a := RunCheck(w);
      var k := CheckFacts(s);
    } else if s.posting != {} {
      var t :| t in s.posting;
      a := PostCheck(t);
    } else {
      a := Look(0);
    }
  }

  ghost function Armed(s: State): set<nat> {
    set id | id in s.reqs && s.reqs[id].armed
  }

  ghost function Firing(s: State): set<nat> {
    set id | id in s.reqs && s.reqs[id].firing
  }

  /** How many steps are left at most while nobody acquires or releases. */
  ghost function Rank(s: State): nat {
    3 * |s.posting| + 2 * Bit(s.queued) + |s.checking| + 2 * |s.waiters| + |s.ready| + 2 * |Armed(s)| + |Firing(s)|
  }

  /** Checks, granted nodes and timers come to an end: without new requests and releases only finitely many
      steps are left. */
  lemma {:induction false} StepsRunOut(s: State, a: Act)
    requires Ordered(s) && s.cur >= 0 && Enabled(s, a) && !a.TryAcquire? && !a.Suspend? && !a.Release?
    ensures Rank(Do(s, a)) < Rank(s)
  {
    match a
    case PostCheck(t) =>
      SameTimers(s, Do(s, a));
      OneFewer(s.posting, t);
    case Look(w) =>
      SameTimers(s, Do(s, a));
      OneMore(s.checking, w);
    case RunCheck(w) => CheckRank(s, w);
    case Resume(id) => ResumeRank(s, id);
    case TimerWins(id) => WinRank(s, id);
    case TimerCancels(id) => CancelRank(s, id);
  }

  lemma {:induction false} OneMore(ids: set<nat>, id: nat)
    requires id !in ids
    ensures |ids + {id}| == |ids| + 1
  {}

  lemma {:induction false} OneFewer(ids: set<nat>, id: nat)
    requires id in ids
    ensures |ids - {id}| == |ids| - 1
  {}

  lemma {:induction false} SameTimers(s: State, s': State)
    requires s'.reqs.Keys == s.reqs.Keys
    requires forall id :: id in s.reqs ==> s'.reqs[id].armed == s.reqs[id].armed && s'.reqs[id].firing == s.reqs[id].firing
    ensures Armed(s') == Armed(s) && Firing(s') == Firing(s)
  {}

  lemma {:induction false} CheckRank(s: State, w: nat)
    requires Ordered(s) && s.cur >= 0 && Enabled(s, RunCheck(w))
    ensures Rank(Do(s, RunCheck(w))) < Rank(s)
  {
    var s' := Do(s, RunCheck(w));
    var k := CheckFacts(s);
    SameTimers(s, s');
    OneFewer(s.checking, w);
    AtMost(s.ready, s.waiters[..k]);
  }

  lemma {:induction false} AtMost(ids: set<nat>, q: seq<nat>)
    ensures |ids + (set id | id in q)| <= |ids| + |q|
  {
    if q == [] {
      assert ids + (set id | id in q) == ids;
    } else {
      var init, last := q[..|q| - 1], q[|q| - 1];
      AtMost(ids, init);
      assert q == init + [last];
      var was := ids + set id | id in init;
      assert ids + (set id | id in q) == was + {last};
      if last in was { assert was + {last} == was; } else { OneMore(was, last); }
    }
  }

  lemma {:induction false} ResumeRank(s: State, id: nat)
    requires s.cur >= 0 && Enabled(s, Resume(id))
    ensures Rank(Do(s, Resume(id))) < Rank(s)
  {
    var s' := Do(s, Resume(id));
    OneFewer(s.ready, id);
    assert Firing(s') == Firing(s);
    if id in Armed(s) {
      OneFewer(Armed(s), id);
      assert Armed(s') == Armed(s) - {id};
    } else {
      assert Armed(s') == Armed(s);
    }
  }

  lemma {:induction false} WinRank(s: State, id: nat)
    requires s.cur >= 0 && Enabled(s, TimerWins(id))
    ensures Rank(Do(s, TimerWins(id))) < Rank(s)
  {
    var s' := Do(s, TimerWins(id));
    OneFewer(Armed(s), id);
    assert Armed(s') == Armed(s) - {id} && Firing(s') == Firing(s) + {id};
    if id in Firing(s) { assert Firing(s) + {id} == Firing(s); } else { OneMore(Firing(s), id); }
  }

  lemma {:induction false} CancelRank(s: State, id: nat)
    requires s.cur >= 0 && Enabled(s, TimerCancels(id))
    ensures Rank(Do(s, TimerCancels(id))) < Rank(s)
  {
    var s' := Do(s, TimerCancels(id));
    OneFewer(Firing(s), id);
    assert Armed(s') == Armed(s) && Firing(s') == Firing(s) - {id};
    WithoutShorter(s.waiters, id);
  }

  lemma {:induction false} WithoutShorter(q: seq<nat>, id: nat)
    ensures |Without(q, id)| <= |q|
  {
    if q != [] { WithoutShorter(q[1..], id); }
  }

  // ----- what await_resume sees ---------------------------------------------------------------------

  /** Only a grant through the queue sets the status. */
  ghost predicate StaOk(s: State) {
    && (forall id :: id in s.granted ==> id in s.reqs)
    && (forall id :: id in s.reqs && !s.reqs[id].cancelled ==> s.reqs[id].sta == if id in s.granted then Granted else Unset)
  }

  lemma {:induction false} StaKept(s: State, a: Act)
    requires Ordered(s) && StaOk(s) && s.cur >= 0 && Enabled(s, a)
    ensures StaOk(Do(s, a))
  {
    if a.RunCheck? { StaCheck(s, Do(s, a)); }
  }

  lemma {:induction false} StaCheck(s: State, s': State)
    requires Ordered(s) && StaOk(s) && s.cur >= 0 && s' == CheckAll(s).(checking := s'.checking)
    ensures StaOk(s')
  {
    var k := CheckFacts(s);
    forall id | id in s'.reqs && !s'.reqs[id].cancelled
      ensures s'.reqs[id].sta == if id in s'.granted then Granted else Unset
    {
      assert id in s'.granted <==> id in s.granted || id in s.waiters[..k];
    }
  }

  lemma {:induction false} RunSta(ss: seq<State>, acts: seq<Act>, init: nat, max: nat, i: nat)
    requires Run(ss, acts, init, max) && init <= max && i <= |acts|
    ensures StaOk(ss[i])
  {
    if i > 0 {
      RunSta(ss, acts, init, max, i - 1);
      RunInv(ss, acts, init, max, i - 1);
      StaKept(ss[i - 1], acts[i - 1]);
    }
  }

  /** A request that found a token in acquire is never queued; any other waits, was granted by a check, or
      was cancelled. */
  lemma {:induction false} QueuedIffNoToken(ss: seq<State>, acts: seq<Act>, init: nat, max: nat, j: nat, i: nat)
    requires Run(ss, acts, init, max) && init <= max && j < i <= |acts| && acts[j].Suspend?
    ensures var id := ss[j].next;
            && id in ss[i].reqs && ss[i].reqs[id].timed == acts[j].timed
            && if ss[j].cur > 0 then id !in ss[i].waiters && id !in ss[i].granted
               else id in ss[i].waiters || id in ss[i].granted || ss[i].reqs[id].cancelled
    decreases i
  {
    var s, a, id := ss[i - 1], acts[i - 1], ss[j].next;
    assert Next(s, a, ss[i]);
    RunInv(ss, acts, init, max, i - 1);
    if i == j + 1 {
      IncreasingNoDup(s.granted + s.waiters, s.next);
      assert forall x :: x in s.granted || x in s.waiters ==> x in s.granted + s.waiters;
    } else {
      QueuedIffNoToken(ss, acts, init, max, j, i - 1);
      PlaceKept(s, a, id);
    }
  }

  /** Only a waiter becomes granted, and a waiter stops waiting by a grant or by its cancellation. */
  lemma {:induction false} PlaceKept(s: State, a: Act, id: nat)
    requires Ordered(s) && s.cur >= 0 && Enabled(s, a) && id in s.reqs
    ensures var s' := Do(s, a);
            && id in s'.reqs && s'.reqs[id].timed == s.reqs[id].timed && (s.reqs[id].cancelled ==> s'.reqs[id].cancelled)
            && (id in s.granted ==> id in s'.granted)
            && (id in s.waiters ==> id in s'.waiters || id in s'.granted || s'.reqs[id].cancelled)
            && (id !in s.waiters && id !in s.granted ==> id !in s'.waiters && id !in s'.granted)
  {
    if a.RunCheck? { var k := CheckFacts(s); }
    if a.TimerCancels? { WithoutIn(s.waiters, a.id); }
  }

  /** An awaiter resumed by its granted node is told of the grant if and only if acquire found no token for
      it: acquire gives a token without setting the status. */
  lemma {:induction false} ToldOfGrantIffQueued(ss: seq<State>, acts: seq<Act>, init: nat, max: nat, j: nat, i: nat)
    requires Run(ss, acts, init, max) && init <= max && j < i < |acts| && acts[j].Suspend? && acts[i] == Resume(ss[j].next)
    ensures var id := ss[j].next;
            && id in ss[i].reqs && id in ss[i + 1].reqs
            && (ss[i + 1].reqs[id].resumes == ss[i].reqs[id].resumes + 1 ==> (ss[i + 1].reqs[id].sta == Granted <==> ss[j].cur == 0))
  {
    RunSta(ss, acts, init, max, i);
    RunInv(ss, acts, init, max, i);
    RunInv(ss, acts, init, max, j);
    QueuedIffNoToken(ss, acts, init, max, j, i);
    assert ReqOk(ss[i], ss[j].next);
  }

  /** A run in which a timed awaiter gets a token and resumes with its status never set: a token comes
      back between its failed try_acquire and its acquire. */
  lemma {:induction false} GrantedButNotTold() returns (ss: seq<State>, acts: seq<Act>)
    ensures Run(ss, acts, 0, 1) && acts == [TryAcquire, Release(0), Suspend(true), Resume(0)]
    ensures ss[4].taken == 1 && 0 in ss[4].reqs && ss[4].reqs[0].resumes == 1 && ss[4].reqs[0].sta == Unset
  {
    var s0 := Init(0, 1);
    var s1, s2, s3, s4 := ToTheGrant();
    FourSteps(s0, s1, s2, s3, s4);
    acts := [TryAcquire, Release(0), Suspend(true), Resume(0)];
    ss := [s0, s1, s2, s3, s4];
  }

  lemma {:induction false} ToTheGrant() returns (s1: State, s2: State, s3: State, s4: State)
    ensures Next(Init(0, 1), TryAcquire, s1) && Next(s1, Release(0), s2) && Next(s2, Suspend(true), s3) && Next(s3, Resume(0), s4)
    ensures s4.taken == 1 && 0 in s4.reqs && s4.reqs[0].resumes == 1 && s4.reqs[0].sta == Unset
  {
    s1 := Do(Init(0, 1), TryAcquire);
    s2 := Do(s1, Release(0));
    s3 := Do(s2, Suspend(true));
    s4 := Do(s3, Resume(0));
  }

  lemma {:induction false} FourSteps(s0: State, s1: State, s2: State, s3: State, s4: State)
    requires s0 == Init(0, 1) && Next(s0, TryAcquire, s1) && Next(s1, Release(0), s2) && Next(s2, Suspend(true), s3) && Next(s3, Resume(0), s4)
    ensures Run([s0, s1, s2, s3, s4], [TryAcquire, Release(0), Suspend(true), Resume(0)], 0, 1)
  {}

  // ----- tokens lost to timers ------------------------------------------------------------------------

  /** Every token taken is accounted for: given by try_acquire, on its way to an awaiter, used by one, or
      lost. */
  ghost predicate Accounted(s: State) {
    && s.taken == s.direct + s.served + |s.ready| + |s.lost|
    && (forall id :: id in s.lost ==> id in s.reqs && id !in s.ready && id !in s.waiters)
  }

  lemma {:induction false} AccountedKept(s: State, a: Act)
    requires Ordered(s) && ReqsOk(s) && Accounted(s) && s.cur >= 0 && Enabled(s, a)
    ensures Accounted(Do(s, a))
  {
    match a
    case RunCheck(w) => AccountedCheck(s, Do(s, a));
    case Suspend(timed) => AccountedSuspend(s, timed);
    case Resume(id) => AccountedResume(s, id);
    case TimerCancels(id) => WithoutIn(s.waiters, id);
    case _ =>
  }

  lemma {:induction false} AccountedSuspend(s: State, timed: bool)
    requires Ordered(s) && Accounted(s) && s.cur >= 0
    ensures Accounted(Do(s, Suspend(timed)))
  {
    assert s.next !in s.reqs && s.next !in s.ready;
    OneMore(s.ready, s.next);
  }

  lemma {:induction false} AccountedResume(s: State, id: nat)
    requires ReqsOk(s) && Accounted(s) && s.cur >= 0 && Enabled(s, Resume(id))
    ensures Accounted(Do(s, Resume(id)))
  {
    assert |s.ready - {id}| == |s.ready| - 1 && |s.lost + {id}| == |s.lost| + 1;
    assert ReqOk(s, id);
  }

  lemma {:induction false} AccountedCheck(s: State, s': State)
    requires Ordered(s) && ReqsOk(s) && Accounted(s) && s.cur >= 0 && s' == CheckAll(s).(checking := s'.checking)
    ensures Accounted(s')
  {
    var k := CheckFacts(s);
    var now := Elements(s.waiters[..k]);
    IncreasingNoDup(s.granted + s.waiters, s.next);
    NoDupAppend(s.granted, s.waiters);
    assert s.waiters == s.waiters[..k] + s.waiters[k..];
    NoDupAppend(s.waiters[..k], s.waiters[k..]);
    ElementsCount(s.waiters[..k]);
    forall id | id in now ensures id !in s.ready { assert ReqOk(s, id); }
    assert |s.ready + now| == |s.ready| + |now|;
  }

  /** The releases that found the value below its maximum, the calls of try_acquire that found a token, and
      the granted nodes that resumed their coroutine, in the first `i` steps. */
  ghost function Releases(ss: seq<State>, acts: seq<Act>, i: nat): nat
    requires i <= |acts| < |ss|
  {
    if i == 0 then 0 else Releases(ss, acts, i - 1) + Bit(acts[i - 1].Release? && ss[i - 1].cur < ss[i - 1].max)
  }

  ghost function Tries(ss: seq<State>, acts: seq<Act>, i: nat): nat
    requires i <= |acts| < |ss|
  {
    if i == 0 then 0 else Tries(ss, acts, i - 1) + Bit(acts[i - 1].TryAcquire? && ss[i - 1].cur > 0)
  }

  ghost function Resumptions(ss: seq<State>, acts: seq<Act>, i: nat): nat
    requires i <= |acts| < |ss|
  {
    if i == 0 then 0
    else Resumptions(ss, acts, i - 1) + Bit(acts[i - 1].Resume? && Resumed(ss[i - 1], ss[i], acts[i - 1].id))
  }

  ghost predicate Resumed(s: State, s': State, id: nat) {
    id in s.reqs && id in s'.reqs && s'.reqs[id].resumes > s.reqs[id].resumes
  }

  lemma {:induction false} CountersOfRun(ss: seq<State>, acts: seq<Act>, init: nat, max: nat, i: nat)
    requires Run(ss, acts, init, max) && i <= |acts|
    ensures ss[i].released == Releases(ss, acts, i) && ss[i].direct == Tries(ss, acts, i) && ss[i].served == Resumptions(ss, acts, i)
  {
    if i > 0 {
      CountersOfRun(ss, acts, init, max, i - 1);
      assert Next(ss[i - 1], acts[i - 1], ss[i]);
      CountersStep(ss[i - 1], acts[i - 1]);
    }
  }

  lemma {:induction false} CountersStep(s: State, a: Act)
    requires Enabled(s, a) && s.cur >= 0
    ensures var s' := Do(s, a);
            && s'.released == s.released + Bit(a.Release? && s.cur < s.max)
            && s'.direct == s.direct + Bit(a.TryAcquire? && s.cur > 0)
            && s'.served == s.served + Bit(a.Resume? && Resumed(s, s', a.id))
  {}

  /** Conservation, over every run: the value, the calls of try_acquire that succeeded, the awaiters that were
      resumed with their token, the tokens on their way and those that timers made useless add up to the
      initial value and the releases that counted. */
  lemma {:induction false} TokensConserved(ss: seq<State>, acts: seq<Act>, init: nat, max: nat, i: nat)
    requires Run(ss, acts, init, max) && init <= max && i <= |acts|
    ensures ss[i].cur + Tries(ss, acts, i) + Resumptions(ss, acts, i) + |ss[i].ready| + |ss[i].lost| == init + Releases(ss, acts, i)
  {
    RunInv(ss, acts, init, max, i);
    RunAccounted(ss, acts, init, max, i);
    CountersOfRun(ss, acts, init, max, i);
  }

  lemma {:induction false} RunAccounted(ss: seq<State>, acts: seq<Act>, init: nat, max: nat, i: nat)
    requires Run(ss, acts, init, max) && init <= max && i <= |acts|
    ensures Accounted(ss[i])
  {
    if i > 0 {
      RunAccounted(ss, acts, init, max, i - 1);
      RunInv(ss, acts, init, max, i - 1);
      AccountedKept(ss[i - 1], acts[i - 1]);
    }
  }

  /** What the past says of a request: nothing happens to it before it is made; once its node has run it is
      neither queued nor runnable; a timed one is armed exactly until its timer wins or its node runs. */
  lemma {:induction false} PastOf(ss: seq<State>, acts: seq<Act>, init: nat, max: nat, i: nat, id: nat)
    requires Run(ss, acts, init, max) && init <= max && i <= |acts|
    ensures id !in ss[i].reqs ==> TimerWins(id) !in acts[..i] && Resume(id) !in acts[..i]
    ensures Resume(id) in acts[..i] ==> id !in ss[i].waiters && id !in ss[i].ready
    ensures id in ss[i].reqs && TimerWins(id) in acts[..i] ==> ss[i].reqs[id].timed
    ensures id in ss[i].reqs && ss[i].reqs[id].timed ==>
              (ss[i].reqs[id].armed <==> TimerWins(id) !in acts[..i] && Resume(id) !in acts[..i])
  {
    if i > 0 {
      var s, a := ss[i - 1], acts[i - 1];
      assert Next(s, a, ss[i]);
      PastOf(ss, acts, init, max, i - 1, id);
      RunInv(ss, acts, init, max, i - 1);
      assert acts[..i] == acts[..i - 1] + [a];
      PastStep(s, a, id);
    }
  }

  /** What one step does to a request's flag and places. */
  lemma {:induction false} PastStep(s: State, a: Act, id: nat)
    requires Ordered(s) && ReqsOk(s) && s.cur >= 0 && Enabled(s, a)
    ensures var s' := Do(s, a);
            && (id in s.reqs ==> id in s'.reqs && s'.reqs[id].timed == s.reqs[id].timed)
            && (id in s.reqs && s.reqs[id].timed ==> s'.reqs[id].armed == (s.reqs[id].armed && a != TimerWins(id) && a != Resume(id)))
            && (id !in s.reqs && id in s'.reqs ==> a.Suspend? && s'.reqs[id].armed == s'.reqs[id].timed)
            && (id in s.reqs && id !in s.waiters && id !in s.ready ==> id !in s'.waiters && id !in s'.ready)
            && (a == Resume(id) ==> id in s.reqs && id !in s'.waiters && id !in s'.ready)
            && (a == TimerWins(id) ==> id in s.reqs && s.reqs[id].timed)
  {
    match a
    case RunCheck(w) => var k := CheckFacts(s);
    case Resume(x) => assert ReqOk(s, x);
    case TimerCancels(x) => WithoutIn(s.waiters, x);
    case _ =>
  }

  /** When a granted node runs, it resumes its coroutine if and only if the request's timer has not won, as
      without a timeout it never does; otherwise, and only then, a token is lost. */
  lemma {:induction false} ServedIffTimerDidNotWin(ss: seq<State>, acts: seq<Act>, init: nat, max: nat, i: nat, id: nat)
    requires Run(ss, acts, init, max) && init <= max && i < |acts| && acts[i] == Resume(id)
    ensures id in ss[i].reqs && id in ss[i + 1].reqs && id !in ss[i].lost
    ensures ss[i + 1].reqs[id].resumes == ss[i].reqs[id].resumes + 1 <==> TimerWins(id) !in acts[..i]
    ensures !ss[i].reqs[id].timed ==> TimerWins(id) !in acts[..i]
    ensures ss[i + 1].lost == if TimerWins(id) in acts[..i] then ss[i].lost + {id} else ss[i].lost
  {
    PastOf(ss, acts, init, max, i, id);
    RunAccounted(ss, acts, init, max, i);
    assert Next(ss[i], acts[i], ss[i + 1]);
  }

  /** A request's token is lost exactly if its timer won first and its granted node ran after that. */
  lemma {:induction false} LostIffTimerFirst(ss: seq<State>, acts: seq<Act>, init: nat, max: nat, i: nat, id: nat)
    requires Run(ss, acts, init, max) && init <= max && i <= |acts|
    ensures id in ss[i].lost <==> exists k :: 0 <= k < i && acts[k] == Resume(id) && TimerWins(id) in acts[..k]
  {
    if i > 0 {
      LostIffTimerFirst(ss, acts, init, max, i - 1, id);
      if acts[i - 1].Resume? { ServedIffTimerDidNotWin(ss, acts, init, max, i - 1, acts[i - 1].id); }
    }
  }

  /** A run in which a released token reaches nobody: the check grants it, and before the granted node runs
      the timer wins, cancels and resumes the awaiter as timed out. */
  lemma {:induction false} TokenLostToTimer() returns (ss: seq<State>, acts: seq<Act>)
    ensures acts == [Suspend(true), Release(0), PostCheck(0), Look(0), RunCheck(0), TimerWins(0), TimerCancels(0), Resume(0)]
    ensures Run(ss, acts, 0, 1)
    ensures ss[8].released == 1 && ss[8].taken == 1 && ss[8].cur == 0 && ss[8].ready == {} && ss[8].lost == {0}
    ensures 0 in ss[8].reqs && ss[8].reqs[0].sta == TimedOut && ss[8].reqs[0].resumes == 1
  {
    var s0 := Init(0, 1);
    var s1, s2, s3, s4 := ToTheCheck();
    var s5, s6, s7, s8 := FromTheCheck(s4);
    EightSteps(s0, s1, s2, s3, s4, s5, s6, s7, s8);
    ss := [s0, s1, s2, s3, s4, s5, s6, s7, s8];
    acts := [Suspend(true), Release(0), PostCheck(0), Look(0), RunCheck(0), TimerWins(0), TimerCancels(0), Resume(0)];
  }

  lemma {:induction false} EightSteps(s0: State, s1: State, s2: State, s3: State, s4: State, s5: State, s6: State, s7: State, s8: State)
    requires s0 == Init(0, 1) && Next(s0, Suspend(true), s1) && Next(s1, Release(0), s2) && Next(s2, PostCheck(0), s3) && Next(s3, Look(0), s4)
    requires Next(s4, RunCheck(0), s5) && Next(s5, TimerWins(0), s6) && Next(s6, TimerCancels(0), s7) && Next(s7, Resume(0), s8)
    ensures Run([s0, s1, s2, s3, s4, s5, s6, s7, s8],
                [Suspend(true), Release(0), PostCheck(0), Look(0), RunCheck(0), TimerWins(0), TimerCancels(0), Resume(0)], 0, 1)
  {}

  lemma {:induction false} ToTheCheck() returns (s1: State, s2: State, s3: State, s4: State)
    ensures Next(Init(0, 1), Suspend(true), s1) && Next(s1, Release(0), s2) && Next(s2, PostCheck(0), s3) && Next(s3, Look(0), s4)
    ensures s4 == Init(0, 1).(cur := 1, waiters := [0], reqs := map[0 := Req(true, true, false, false, Unset, 0)], next := 1,
                              checking := {0}, released := 1)
  {
    s1 := Do(Init(0, 1), Suspend(true));
    s2 := Do(s1, Release(0));
    s3 := Do(s2, PostCheck(0));
    s4 := Do(s3, Look(0));
  }

  lemma {:induction false} FromTheCheck(s4: State) returns (s5: State, s6: State, s7: State, s8: State)
    requires s4 == Init(0, 1).(cur := 1, waiters := [0], reqs := map[0 := Req(true, true, false, false, Unset, 0)], next := 1,
                               checking := {0}, released := 1)
    ensures Next(s4, RunCheck(0), s5) && Next(s5, TimerWins(0), s6) && Next(s6, TimerCancels(0), s7) && Next(s7, Resume(0), s8)
    ensures s8.released == 1 && s8.taken == 1 && s8.cur == 0 && s8.ready == {} && s8.lost == {0}
    ensures 0 in s8.reqs && s8.reqs[0].sta == TimedOut && s8.reqs[0].resumes == 1
  {
    CheckedGrantsFirst([0], Cancelled(s4), 1);
    s5 := Do(s4, RunCheck(0));
    assert s5.waiters == [] && s5.ready == {0} && s5.reqs == map[0 := Req(true, true, false, false, Granted, 0)];
    s6 := Do(s5, TimerWins(0));
    s7 := Do(s6, TimerCancels(0));
    s8 := Do(s7, Resume(0));
  }
}
