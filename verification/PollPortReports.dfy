/** wepoll's polls and reports, operation by operation: what is polled for, what a completion reports, and
    what stays of the user's request. */
module PollPortReports {
  import opened Basics
  import opened Sequences
  import opened PollGroups
  import opened PollPortSteps

  // ----- events -----------------------------------------------------------------------------------

  /** The user is told of an event exactly if a condition that stands for it occurred. */
  lemma {:induction false} EventByEvent(a: bv32)
    ensures AfdToEpoll(a) & EPOLLIN != 0 <==> a & (AfdReceive | AfdAccept | AfdDisconnect | AfdConnectFail) != 0
    ensures AfdToEpoll(a) & EPOLLRDNORM != 0 <==> a & (AfdReceive | AfdAccept | AfdDisconnect | AfdConnectFail) != 0
    ensures AfdToEpoll(a) & EPOLLPRI != 0 <==> a & AfdReceiveExpedited != 0
    ensures AfdToEpoll(a) & EPOLLRDBAND != 0 <==> a & AfdReceiveExpedited != 0
    ensures AfdToEpoll(a) & EPOLLOUT != 0 <==> a & (AfdSend | AfdConnectFail) != 0
    ensures AfdToEpoll(a) & EPOLLWRNORM != 0 <==> a & (AfdSend | AfdConnectFail) != 0
    ensures AfdToEpoll(a) & EPOLLWRBAND != 0 <==> a & AfdSend != 0
    ensures AfdToEpoll(a) & EPOLLRDHUP != 0 <==> a & (AfdDisconnect | AfdConnectFail) != 0
    ensures AfdToEpoll(a) & EPOLLHUP != 0 <==> a & AfdAbort != 0
    ensures AfdToEpoll(a) & EPOLLERR != 0 <==> a & AfdConnectFail != 0
    ensures AfdToEpoll(a) & !(KnownEvents & !EPOLLMSG) == 0
  {}

  /** An event among `e` is reported only if a condition that `e` is polled by occurred, or connecting failed. */
  lemma {:induction false} NothingInvented(a: bv32, e: bv32)
    requires AfdToEpoll(a) & e != 0
    ensures a & (EpollToAfd(e) | AfdConnectFail) & !AfdLocalClose != 0
  {}

  // ----- polls ------------------------------------------------------------------------------------

  /** What sock_update does with each state of the socket's poll and each answer: it polls an idle socket for
      what the user asks, drops one that turns out closed, and cancels a poll that does not watch for enough. */
  lemma {:induction false} UpdateGives<S, G>(p: Port<S, G>, s: S, poll: PollResult, cancelled: bool, p': Port<S, G>, ok: bool)
    requires s in p.socks && !p.socks[s].deletePending && (p', ok) == Update(p, s, poll, cancelled)
    ensures p.socks[s].status == Idle && poll == Submitted ==> ok && s in p'.socks && s in p'.outstanding && p'.socks[s].pending == p.socks[s].user
    ensures ok && p.socks[s].status == Pending && !Covered(p.socks[s].user, p.socks[s].pending) ==> cancelled && s in p'.socks && p'.socks[s].status == Cancelled
    ensures p.socks[s].status == Idle && poll == InvalidHandle ==> ok && s !in p'.socks && s in p'.freed
    ensures !ok <==> if p.socks[s].status == Idle then poll == OtherError
                     else p.socks[s].status == Pending && !Covered(p.socks[s].user, p.socks[s].pending) && !cancelled
  {}

  // ----- reports ----------------------------------------------------------------------------------

  /** What happened, as event bits: an error for a failed poll, nothing for a cancelled or an empty one, and
      else what the conditions that occurred stand for. */
  lemma {:induction false} WhatHappened(done: Completion)
    ensures done == Failed ==> Reported(done) == EPOLLERR
    ensures done == WasCancelled || done == NoHandles ==> Reported(done) == 0
    ensures done.Events? ==> Reported(done) == AfdToEpoll(done.afd)
    ensures Reported(done) & !(KnownEvents & !EPOLLMSG) == 0
  {
    if done.Events? { EventByEvent(done.afd); }
  }

  lemma {:induction false} RearmIs<S, G>(p: Port<S, G>, s: S, reported: bv32, events: bv32, oneShot: bool)
    requires s in p.socks && events == reported & p.socks[s].user && (oneShot <==> p.socks[s].user & EPOLLONESHOT != 0)
    ensures Rearm(p, s, reported) == RearmWith(p, s, events, oneShot)
  {}

  lemma {:induction false} RearmSays<S, G>(p: Port<S, G>, s: S, events: bv32, oneShot: bool)
    requires s in p.socks
    ensures RearmWith(p, s, events, oneShot).1 == if events == 0 then Silent else Report(p.socks[s].data, events)
  {}

  lemma {:induction false} SettleReports<S, G>(p: Port<S, G>, s: S, closed: bool, reported: bv32)
    requires s in p.socks
    ensures if p.socks[s].deletePending || closed then Settle(p, s, closed, reported).1 == Silent
            else Settle(p, s, closed, reported) == Rearm(p, s, reported)
  {}

  /** What a completion reports: nothing of a socket that is deleted or closed, and else exactly those events
      that occurred and were asked for, with the socket's own data. */
  lemma {:induction false} FeedReports<S, G>(p: Port<S, G>, s: S, done: Completion, events: bv32)
    requires s in p.socks && events == Reported(done) & p.socks[s].user
    ensures var c, r := p.socks[s], Feed(p, s, done).1;
            r == if c.deletePending || (done.Events? && done.afd & AfdLocalClose != 0) || events == 0 then Silent else Report(c.data, events)
  {
    var q := Completed(p, s);
    SettleReports(q, s, Closes(done), Reported(done));
    RearmIs(q, s, Reported(done), events, q.socks[s].user & EPOLLONESHOT != 0);
    RearmSays(q, s, events, q.socks[s].user & EPOLLONESHOT != 0);
  }

  /** What there is to say of a socket in state `c` when its poll completes. */
  ghost function Said<G>(c: Sock<G>, done: Completion): Report {
    Filtered(c, Closes(done), Reported(done) & c.user)
  }

  ghost function Filtered<G>(c: Sock<G>, closed: bool, events: bv32): Report {
    if c.deletePending || closed || events == 0 then Silent else Report(c.data, events)
  }

  lemma {:induction false} FeedSaid<S, G>(p: Port<S, G>, s: S, done: Completion)
    requires s in p.socks
    ensures Feed(p, s, done).1 == Said(p.socks[s], done)
  {
    FeedReports(p, s, done, Reported(done) & p.socks[s].user);
  }

  /** A closed socket goes, and so does one that was only waiting for its poll; no other socket changes. */
  lemma {:induction false} FeedEnds<S, G>(p: Port<S, G>, s: S, done: Completion)
    requires s in p.socks && (p.socks[s].deletePending || (done.Events? && done.afd & AfdLocalClose != 0))
    ensures Feed(p, s, done).0.socks == p.socks - {s} && s in Feed(p, s, done).0.freed
  {
    IdleDelete(Completed(p, s), s);
  }

  lemma {:induction false} SettleStays<S, G>(p: Port<S, G>, s: S, reported: bv32, oneShot: bool)
    requires s in p.socks && !p.socks[s].deletePending && (oneShot <==> p.socks[s].user & EPOLLONESHOT != 0)
    ensures var c, (p', r) := p.socks[s], Settle(p, s, false, reported);
            && p'.update == (if s in p.update || s in p.deleted then p.update else p.update + [s])
            && p'.socks == p.socks[s := c.(user := if r.Report? && oneShot then 0 else c.user)]
  {
    RearmIs(p, s, reported, reported & p.socks[s].user, oneShot);
    RearmLeaves(p, s, reported & p.socks[s].user, oneShot);
  }

  /** Any other is queued for its next poll with its data and with the events it asked for, but for a one-shot
      report, after which it asks for none; no other socket changes. */
  lemma {:induction false} FeedStays<S, G>(p: Port<S, G>, s: S, done: Completion, oneShot: bool)
    requires s in p.socks && !p.socks[s].deletePending && !(done.Events? && done.afd & AfdLocalClose != 0)
    requires oneShot <==> p.socks[s].user & EPOLLONESHOT != 0
    ensures var c, (p', r) := p.socks[s], Feed(p, s, done);
            && p'.update == (if s in p.update || s in p.deleted then p.update else p.update + [s])
            && p'.socks == p.socks[s := c.(status := Idle, pending := 0, user := if r.Report? && oneShot then 0 else c.user)]
  {
    var q := Completed(p, s);
    FeedSettles(p, s, done);
    SettleStays(q, s, Reported(done), oneShot);
    CompletedThen(p, s, q, Feed(p, s, done).0, if Feed(p, s, done).1.Report? && oneShot then 0 else p.socks[s].user);
  }

  lemma {:induction false} CompletedThen<S, G>(p: Port<S, G>, s: S, q: Port<S, G>, p': Port<S, G>, user: bv32)
    requires s in p.socks && q == Completed(p, s) && p'.socks == q.socks[s := q.socks[s].(user := user)]
    ensures p'.socks == p.socks[s := p.socks[s].(status := Idle, pending := 0, user := user)]
    ensures q.update == p.update && q.deleted == p.deleted && q.socks[s].user == p.socks[s].user
  {}

  lemma {:induction false} FeedSettles<S, G>(p: Port<S, G>, s: S, done: Completion)
    requires s in p.socks && !(done.Events? && done.afd & AfdLocalClose != 0)
    ensures Feed(p, s, done) == Settle(Completed(p, s), s, false, Reported(done))
  {}

  lemma {:induction false} IdleDelete<S, G>(p: Port<S, G>, s: S)
    requires s in p.socks && p.socks[s].status == Idle
    ensures var p' := Delete(p, s, false, false);
            p'.socks == p.socks - {s} && s in p'.freed
  {}

  lemma {:induction false} RearmLeaves<S, G>(p: Port<S, G>, s: S, events: bv32, oneShot: bool)
    requires s in p.socks
    ensures var (p', r) := RearmWith(p, s, events, oneShot);
            && p'.update == (if s in p.update || s in p.deleted then p.update else p.update + [s])
            && p'.socks == p.socks[s := p.socks[s].(user := if r.Report? && oneShot then 0 else p.socks[s].user)]
  {
    assert p.socks[s := p.socks[s]] == p.socks;
  }

  /** What a batch reports, in order: silent completions leave no trace. */
  function Spoken(rs: seq<Report>): seq<Report> {
    if rs == [] then [] else Spoken(rs[..|rs| - 1]) + if rs[|rs| - 1].Report? then [rs[|rs| - 1]] else []
  }

  lemma {:induction false} SpokenSnoc(rs: seq<Report>, i: nat)
    requires i < |rs|
    ensures Spoken(rs[..i + 1]) == Spoken(rs[..i]) + if rs[i].Report? then [rs[i]] else []
  {
    assert rs[..i + 1][..i] == rs[..i];
  }

  // ----- what steps leave alone -------------------------------------------------------------------

  lemma {:induction false} DeletePeak<S, G>(p: Port<S, G>, s: S, force: bool, cancelled: bool)
    requires s in p.socks
    ensures Delete(p, s, force, cancelled).peak == p.peak
  {}

  lemma {:induction false} UpdatePeak<S, G>(p: Port<S, G>, s: S, poll: PollResult, cancelled: bool)
    requires s in p.socks
    ensures Update(p, s, poll, cancelled).0.peak == p.peak
  {
    DeletePeak(p, s, false, cancelled);
  }

  lemma {:induction false} FeedPeak<S, G>(p: Port<S, G>, s: S, done: Completion)
    requires s in p.socks
    ensures Feed(p, s, done).0.peak == p.peak
  {
    var q := Completed(p, s);
    DeletePeak(q, s, false, false);
    SettlePeak(q, s, Closes(done), Reported(done));
  }

  lemma {:induction false} SettlePeak<S, G>(p: Port<S, G>, s: S, closed: bool, reported: bv32)
    requires s in p.socks && Delete(p, s, false, false).peak == p.peak
    ensures Settle(p, s, closed, reported).0.peak == p.peak
  {}

  lemma {:induction false} NewPeak<S, G>(p: Port<S, G>, s: S, key: nat, made: Option<G>, room: bool)
    ensures New(p, s, key, made, room).0.peak
            == if (Candidate(p.pool).Some? || made.Some?) && |p.socks| >= p.peak then |p.socks| + 1 else p.peak
  {}

  /** The peak that bounds the number of poll groups only grows, and only by a registration for which a group
      could be had: to the number of sockets with the new one. */
  lemma {:induction false} PeakFollows<S, G>(p: Port<S, G>, step: PortStep<S, G>)
    ensures Take(p, step).peak
            == if step.NewStep? && step.s !in p.socks && (Candidate(p.pool).Some? || step.made.Some?) && |p.socks| >= p.peak then |p.socks| + 1
               else p.peak
  {
    match step
    case NewStep(x, key, made, room) => if x !in p.socks { NewPeak(p, x, key, made, room); }
    case SetEventStep(x, events, data) =>
    case UpdateStep(x, poll, cancelled) => if x in p.socks { UpdatePeak(p, x, poll, cancelled); }
    case FeedStep(x, done) => if x in p.socks { FeedPeak(p, x, done); }
    case DeleteStep(x, force, cancelled) => if x in p.socks { DeletePeak(p, x, force, cancelled); }
  }

  /** If the socket is still there, its user has asked of it what he had asked before. */
  ghost predicate SameRequest<S, G>(p: Port<S, G>, p': Port<S, G>, s: S)
    requires s in p.socks
  {
    s in p'.socks ==> p'.socks[s].user == p.socks[s].user && p'.socks[s].data == p.socks[s].data && p'.socks[s].key == p.socks[s].key
  }

  lemma {:induction false} UnregisterRequest<S, G>(p: Port<S, G>, x: S, cancelled: bool, s: S)
    requires s in p.socks && x in p.socks
    ensures s in Unregister(p, x, cancelled).socks && SameRequest(p, Unregister(p, x, cancelled), s)
  {}

  lemma {:induction false} FreeRequest<S, G>(p: Port<S, G>, x: S, s: S)
    requires s in p.socks && x in p.socks
    ensures SameRequest(p, Free(p, x), s) && SameRequest(p, AddDeleted(p, x), s)
  {}

  lemma {:induction false} DeleteRequest<S, G>(p: Port<S, G>, x: S, force: bool, cancelled: bool, s: S)
    requires s in p.socks && x in p.socks
    ensures SameRequest(p, Delete(p, x, force, cancelled), s)
  {
    UnregisterRequest(p, x, cancelled, s);
    UnregisterRequest(p, x, cancelled, x);
    FreeRequest(Unregister(p, x, cancelled), x, s);
  }

  lemma {:induction false} PollingRequest<S, G>(p: Port<S, G>, x: S, cancelled: bool, s: S)
    requires s in p.socks && x in p.socks
    ensures SameRequest(p, Unqueue(Polling(p, x, cancelled), x), s)
  {}

  lemma {:induction false} UpdateRequest<S, G>(p: Port<S, G>, x: S, poll: PollResult, cancelled: bool, s: S)
    requires s in p.socks && x in p.socks
    ensures SameRequest(p, Update(p, x, poll, cancelled).0, s)
  {
    UpdateShape(p, x, poll, cancelled);
    DeleteRequest(p, x, false, cancelled, s);
    PollingRequest(p, x, cancelled, s);
  }

  lemma {:induction false} NewRequest<S, G>(p: Port<S, G>, x: S, key: nat, made: Option<G>, room: bool, s: S)
    requires s in p.socks && x !in p.socks
    ensures SameRequest(p, New(p, x, key, made, room).0, s)
  {}

  lemma {:induction false} FeedRequest<S, G>(p: Port<S, G>, x: S, done: Completion, s: S)
    requires s in p.socks && x in p.socks
    requires !(x == s && Feed(p, x, done).1.Report? && p.socks[s].user & EPOLLONESHOT != 0)
    ensures SameRequest(p, Feed(p, x, done).0, s)
  {
    if p.socks[x].deletePending || Closes(done) {
      FeedEnds(p, x, done);
    } else {
      FeedStays(p, x, done, p.socks[x].user & EPOLLONESHOT != 0);
    }
  }

  /** Events are reported again and again: no step changes what is asked of a socket but its user's own
      request, which sets it, and a one-shot report. */
  lemma {:induction false} RequestStays<S, G>(p: Port<S, G>, step: PortStep<S, G>, s: S)
    requires s in p.socks && !(step.FeedStep? && step.s == s && Feed(p, s, step.done).1.Report? && p.socks[s].user & EPOLLONESHOT != 0)
    ensures if step.SetEventStep? && step.s == s then
              s in Take(p, step).socks && Take(p, step).socks[s] == p.socks[s].(user := step.events | EPOLLERR | EPOLLHUP, data := step.data)
            else SameRequest(p, Take(p, step), s)
  {
    match step
    case NewStep(x, key, made, room) => if x !in p.socks { NewRequest(p, x, key, made, room, s); }
    case SetEventStep(x, events, data) =>
    case UpdateStep(x, poll, cancelled) => if x in p.socks { UpdateRequest(p, x, poll, cancelled, s); }
    case FeedStep(x, done) => if x in p.socks { FeedRequest(p, x, done, s); }
    case DeleteStep(x, force, cancelled) => if x in p.socks { DeleteRequest(p, x, force, cancelled, s); }
  }
}
