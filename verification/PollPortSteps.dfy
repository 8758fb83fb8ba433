/** wepoll's per-socket poll state machine, as functions on the whole state of a port: what each
    operation does under the port lock, and what all of them keep. */
module PollPortSteps {
  import opened Basics
  import opened Sequences
  import opened PollGroups

  // ----- event masks ------------------------------------------------------------------------------

  const EPOLLIN: bv32 := 1
  const EPOLLPRI: bv32 := 2
  const EPOLLOUT: bv32 := 4
  const EPOLLERR: bv32 := 8
  const EPOLLHUP: bv32 := 16
  const EPOLLRDNORM: bv32 := 64
  const EPOLLRDBAND: bv32 := 128
  const EPOLLWRNORM: bv32 := 256
  const EPOLLWRBAND: bv32 := 512
  const EPOLLMSG: bv32 := 1024
  const EPOLLRDHUP: bv32 := 8192
  const EPOLLONESHOT: bv32 := 0x8000_0000

  const KnownEvents: bv32 :=
    EPOLLIN | EPOLLPRI | EPOLLOUT | EPOLLERR | EPOLLHUP | EPOLLRDNORM | EPOLLRDBAND | EPOLLWRNORM | EPOLLWRBAND | EPOLLMSG | EPOLLRDHUP

  const AfdReceive: bv32 := 0x0001
  const AfdReceiveExpedited: bv32 := 0x0002
  const AfdSend: bv32 := 0x0004
  const AfdDisconnect: bv32 := 0x0008
  const AfdAbort: bv32 := 0x0010
  const AfdLocalClose: bv32 := 0x0020
  const AfdAccept: bv32 := 0x0080
  const AfdConnectFail: bv32 := 0x0100

  function Bits(on: bool, bits: bv32): bv32 {
    if on then bits else 0
  }

  function EpollToAfd(e: bv32): bv32 {
    AfdLocalClose
    | Bits(e & (EPOLLIN | EPOLLRDNORM) != 0, AfdReceive | AfdAccept)
    | Bits(e & (EPOLLPRI | EPOLLRDBAND) != 0, AfdReceiveExpedited)
    | Bits(e & (EPOLLOUT | EPOLLWRNORM | EPOLLWRBAND) != 0, AfdSend)
    | Bits(e & (EPOLLIN | EPOLLRDNORM | EPOLLRDHUP) != 0, AfdDisconnect)
    | Bits(e & EPOLLHUP != 0, AfdAbort)
    | Bits(e & EPOLLERR != 0, AfdConnectFail)
  }

  function AfdToEpoll(a: bv32): bv32 {
    Bits(a & (AfdReceive | AfdAccept) != 0, EPOLLIN | EPOLLRDNORM)
    | Bits(a & AfdReceiveExpedited != 0, EPOLLPRI | EPOLLRDBAND)
    | Bits(a & AfdSend != 0, EPOLLOUT | EPOLLWRNORM | EPOLLWRBAND)
    | Bits(a & AfdDisconnect != 0, EPOLLIN | EPOLLRDNORM | EPOLLRDHUP)
    | Bits(a & AfdAbort != 0, EPOLLHUP)
    | Bits(a & AfdConnectFail != 0, EPOLLIN | EPOLLOUT | EPOLLERR | EPOLLRDNORM | EPOLLWRNORM | EPOLLRDHUP)
  }

  /** Everything the user can ask for is polled for in a form that is reported back as it, except
      EPOLLMSG, which is never reported. */
  lemma {:induction false} NothingLostInTranslation(e: bv32)
    ensures e & KnownEvents & !EPOLLMSG & !AfdToEpoll(EpollToAfd(e)) == 0
  {}

  /** The pending poll watches for all the known events the user wants. */
  predicate Covered(user: bv32, pending: bv32) {
    user & KnownEvents & !pending == 0
  }

  lemma {:induction false} CoveredSelf(user: bv32)
    ensures Covered(user, user)
  {}

  /** With no poll pending, asking for events always asks for an update. */
  lemma {:induction false} NeverCoveredByNothing(events: bv32)
    ensures !Covered(events | EPOLLERR | EPOLLHUP, 0)
  {}

  // ----- state --------------------------------------------------------------------------------------

  datatype Status = Idle | Pending | Cancelled

  datatype Sock<G> = Sock(key: nat, group: G, user: bv32, data: nat, pending: bv32, status: Status, deletePending: bool)

  /** A port: sockets by handle, the two queues that share each socket's queue node, the live
      sockets, those whose poll the kernel has not yet completed, those freed, and the poll groups. */
  datatype Port<S, G> = Port(tree: map<nat, S>, update: seq<S>, deleted: seq<S>, socks: map<S, Sock<G>>,
                             outstanding: set<S>, freed: set<S>, pool: Pool<G>, peak: nat)

  function Empty<S, G>(): Port<S, G> {
    Port(map[], [], [], map[], {}, {}, Pool([], map[]), 0)
  }

  // ----- what holds -----------------------------------------------------------------------------

  /** A live socket is in the tree or in the deleted queue, never both, and its queue node is in at
      most one queue. */
  ghost predicate Placed<S, G>(p: Port<S, G>) {
    && NoDup(p.update) && NoDup(p.deleted)
    && (forall s :: s in p.update ==> s in p.socks) && (forall s :: s in p.deleted ==> s in p.socks)
    && (forall k :: k in p.tree ==> p.tree[k] in p.socks && p.socks[p.tree[k]].key == k && !p.socks[p.tree[k]].deletePending)
    && (forall s :: s in p.socks && p.socks[s].deletePending ==> s in p.deleted && s !in p.update)
    && (forall s :: s in p.socks && !p.socks[s].deletePending ==> s !in p.deleted && p.socks[s].key in p.tree && p.tree[p.socks[s].key] == s)
    && p.freed !! p.socks.Keys
  }

  /** The status tells whether the kernel has a poll of the socket; outside a closing port only live
      sockets have one. */
  ghost predicate Polled<S, G>(p: Port<S, G>, closing: bool) {
    && (forall s :: s in p.socks ==> (p.socks[s].status == Idle <==> s !in p.outstanding))
    && (forall s :: s in p.socks && p.socks[s].status != Pending ==> p.socks[s].pending == 0)
    && (!closing ==> p.outstanding <= p.socks.Keys)
  }

  ghost function Users<S, G>(p: Port<S, G>, g: G): set<S> {
    set s | s in p.socks && p.socks[s].group == g
  }

  /** Each poll group's size is the number of live sockets on it. */
  ghost predicate Counted<S, G>(p: Port<S, G>) {
    && (forall s :: s in p.socks ==> p.socks[s].group in p.pool.size)
    && (forall g :: g in p.pool.size ==> p.pool.size[g] == |Users(p, g)|)
  }

  ghost predicate Sound<S, G>(p: Port<S, G>, closing: bool) {
    Placed(p) && Polled(p, closing) && Counted(p)
  }

  /** There are never more groups than the most acquisitions there ever were made necessary. */
  ghost predicate Thrifty<S, G>(p: Port<S, G>) {
    forall k: nat :: Unfold(k) ==> Optimal(p.pool, |p.socks|, p.peak)
  }

  /** The socket's interest is taken care of: an update is queued, or a pending poll covers it, or a
      cancelled poll's completion will queue an update. A deleted socket is taken care of by the
      completion that will free it. */
  ghost predicate Attended<S, G>(p: Port<S, G>, s: S)
    requires s in p.socks
  {
    var c := p.socks[s];
    if c.deletePending then c.status != Idle
    else s in p.update || (c.status == Pending && Covered(c.user, c.pending)) || c.status == Cancelled
  }

  ghost predicate NoLostInterest<S, G>(p: Port<S, G>) {
    forall s :: s in p.socks ==> Attended(p, s)
  }

  /** Settled and Thrifty stay folded in proofs that only hand them on; a proof that needs what they
      say mentions Unfold. */
  ghost predicate Unfold(k: nat) {
    k >= 0
  }

  /** What holds whenever the port lock is free. */
  ghost predicate Settled<S, G>(p: Port<S, G>) {
    forall k: nat :: Unfold(k) ==> Sound(p, false) && NoLostInterest(p)
  }

  // ----- queue primitives -------------------------------------------------------------------------

  predicate Enqueued<S(==), G>(p: Port<S, G>, s: S) {
    s in p.update || s in p.deleted
  }

  /** port_cancel_socket_update and port_remove_deleted_socket: out of whichever queue it is in. */
  function Unqueue<S(==), G>(p: Port<S, G>, s: S): Port<S, G> {
    if Enqueued(p, s) then p.(update := Without(p.update, s), deleted := Without(p.deleted, s)) else p
  }

  function RequestUpdate<S(==), G>(p: Port<S, G>, s: S): Port<S, G> {
    if Enqueued(p, s) then p else p.(update := p.update + [s])
  }

  function AddDeleted<S(==), G>(p: Port<S, G>, s: S): Port<S, G> {
    if Enqueued(p, s) then p else p.(deleted := p.deleted + [s])
  }

  function With<S(==), G>(p: Port<S, G>, s: S, c: Sock<G>): Port<S, G> {
    p.(socks := p.socks[s := c])
  }

  // ----- sock operations --------------------------------------------------------------------------

  /** sock_new for a valid handle; `made` is a new poll group if one can be made, `room` whether the
      socket's memory can be had. */
  function New<S(==), G(==)>(p: Port<S, G>, s: S, key: nat, made: Option<G>, room: bool): (Port<S, G>, bool) {
    var (pool, got) := Acquire(p.pool, made);
    if got.None? then (p, false) else Register(Acquired(p, pool), s, key, got.value, room)
  }

  function Acquired<S, G>(p: Port<S, G>, pool: Pool<G>): Port<S, G> {
    p.(pool := pool, peak := if |p.socks| < p.peak then p.peak else |p.socks| + 1)
  }

  function Register<S(==), G(==)>(p: Port<S, G>, s: S, key: nat, g: G, room: bool): (Port<S, G>, bool) {
    if !room || key in p.tree then (ReleaseGroup(p, g), false)
    else (p.(tree := p.tree[key := s], socks := p.socks[s := Sock(key, g, 0, 0, 0, Idle, false)]), true)
  }

  /** sock_new when the socket cannot be registered: the group, if there was one, is given back. */
  function Refused<S, G(==)>(p: Port<S, G>, made: Option<G>): Port<S, G> {
    var (pool, got) := Acquire(p.pool, made);
    if got.None? then p else ReleaseGroup(Acquired(p, pool), got.value)
  }

  function ReleaseGroup<S, G(==)>(p: Port<S, G>, g: G): Port<S, G> {
    if g in p.pool.size && p.pool.size[g] > 0 then p.(pool := Release(p.pool, g)) else p
  }

  /** sock__cancel_poll's effect when the cancellation succeeds. */
  function CancelPoll<G>(c: Sock<G>): Sock<G> {
    c.(status := Cancelled, pending := 0)
  }

  /** sock__delete, first half. */
  function Unregister<S(==), G>(p: Port<S, G>, s: S, cancelled: bool): Port<S, G>
    requires s in p.socks
  {
    var c := p.socks[s];
    if c.deletePending then p
    else
      var c' := if c.status == Pending && cancelled then CancelPoll(c) else c;
      With(Unqueue(p, s), s, c'.(deletePending := true)).(tree := p.tree - {c.key})
  }

  function Free<S(==), G(==)>(p: Port<S, G>, s: S): Port<S, G>
    requires s in p.socks
  {
    ReleaseGroup(Unqueue(p, s), p.socks[s].group).(socks := p.socks - {s}, freed := p.freed + {s})
  }

  /** sock__delete. */
  function Delete<S(==), G(==)>(p: Port<S, G>, s: S, force: bool, cancelled: bool): Port<S, G>
    requires s in p.socks
  {
    var p1 := Unregister(p, s, cancelled);
    if force || p1.socks[s].status == Idle then Free(p1, s) else AddDeleted(p1, s)
  }

  function SetEvent<S(==), G>(p: Port<S, G>, s: S, events: bv32, data: nat): Port<S, G>
    requires s in p.socks
  {
    var c := p.socks[s].(user := events | EPOLLERR | EPOLLHUP, data := data);
    if Covered(c.user, c.pending) then With(p, s, c) else RequestUpdate(With(p, s, c), s)
  }

  datatype PollResult = Submitted | InvalidHandle | OtherError

  /** sock_update; the boolean is false for the error return. */
  function Update<S(==), G(==)>(p: Port<S, G>, s: S, poll: PollResult, cancelled: bool): (Port<S, G>, bool)
    requires s in p.socks
  {
    var c := p.socks[s];
    match c.status
    case Pending =>
      if Covered(c.user, c.pending) then (Unqueue(p, s), true)
      else if !cancelled then (p, false)
      else (Unqueue(With(p, s, CancelPoll(c)), s), true)
    case Cancelled => (Unqueue(p, s), true)
    case Idle =>
      match poll
      case InvalidHandle => (Delete(p, s, false, cancelled), true)
      case OtherError => (p, false)
      case Submitted =>
        (Unqueue(With(p, s, c.(status := Pending, pending := c.user)).(outstanding := p.outstanding + {s}), s), true)
  }

  /** What the kernel reports with a completion. */
  datatype Completion = WasCancelled | Failed | NoHandles | Events(afd: bv32)

  datatype Report = Silent | Report(data: nat, events: bv32)

  /** The completion of a poll is taken: none is outstanding now. */
  function Completed<S(==), G>(p: Port<S, G>, s: S): Port<S, G>
    requires s in p.socks
  {
    With(p, s, p.socks[s].(status := Idle, pending := 0)).(outstanding := p.outstanding - {s})
  }

  function Reported(c: Completion): bv32 {
    match c
    case Failed => EPOLLERR
    case Events(afd) => AfdToEpoll(afd)
    case _ => 0
  }

  /** sock_feed_event. */
  function Feed<S(==), G(==)>(p: Port<S, G>, s: S, done: Completion): (Port<S, G>, Report)
    requires s in p.socks
  {
    Settle(Completed(p, s), s, Closes(done), Reported(done))
  }

  predicate Closes(c: Completion) {
    c.Events? && c.afd & AfdLocalClose != 0
  }

  function Settle<S(==), G(==)>(p: Port<S, G>, s: S, closed: bool, reported: bv32): (Port<S, G>, Report)
    requires s in p.socks
  {
    if p.socks[s].deletePending || closed then (Delete(p, s, false, false), Silent) else Rearm(p, s, reported)
  }

  /** The socket is queued for a new poll, and the events the user asked for are reported. */
  function Rearm<S(==), G>(p: Port<S, G>, s: S, reported: bv32): (Port<S, G>, Report)
    requires s in p.socks
  {
    RearmWith(p, s, reported & p.socks[s].user, p.socks[s].user & EPOLLONESHOT != 0)
  }

  function RearmWith<S(==), G>(p: Port<S, G>, s: S, events: bv32, oneShot: bool): (Port<S, G>, Report)
    requires s in p.socks
  {
    var p1 := RequestUpdate(p, s);
    if events == 0 then (p1, Silent)
    else (if oneShot then With(p1, s, p.socks[s].(user := 0)) else p1, Report(p.socks[s].data, events))
  }

  // ----- what the primitives keep -----------------------------------------------------------------

  lemma {:induction false} TouchPlaced<S, G>(p: Port<S, G>, s: S, c: Sock<G>)
    requires Placed(p) && s in p.socks && c.key == p.socks[s].key && c.deletePending == p.socks[s].deletePending
    ensures Placed(With(p, s, c))
  {}

  lemma {:induction false} UnqueuePlaced<S, G>(p: Port<S, G>, s: S)
    requires Placed(p) && s in p.socks && !p.socks[s].deletePending
    ensures Placed(Unqueue(p, s)) && Unqueue(p, s) == p.(update := Without(p.update, s)) && s !in Unqueue(p, s).update
    ensures forall x :: x in p.socks && x != s && x in p.update ==> x in Unqueue(p, s).update
  {
    NoDupWithout(p.update, s);
    WithoutIn(p.update, s);
    WithoutAbsent(p.deleted, s);
    if s !in p.update { WithoutAbsent(p.update, s); }
  }

  lemma {:induction false} RequestPlaced<S, G>(p: Port<S, G>, s: S)
    requires Placed(p) && s in p.socks && !p.socks[s].deletePending
    ensures Placed(RequestUpdate(p, s)) && s in RequestUpdate(p, s).update
    ensures forall x :: x in p.update ==> x in RequestUpdate(p, s).update
  {
    if s !in p.update { NoDupSnoc(p.update, s); }
  }

  /** A registered socket taken out of the tree and the update queue. */
  lemma {:induction false} UnregisterShape<S, G>(p: Port<S, G>, s: S, cancelled: bool)
    requires Placed(p) && s in p.socks && !p.socks[s].deletePending
    ensures var c := p.socks[s]; var p' := Unregister(p, s, cancelled);
            p' == p.(update := Without(p.update, s), tree := p.tree - {c.key}, socks := p'.socks)
            && p'.socks == p.socks[s := (if c.status == Pending && cancelled then CancelPoll(c) else c).(deletePending := true)]
    ensures s !in Without(p.update, s) && s !in p.deleted && NoDup(Without(p.update, s))
  {
    UnqueuePlaced(p, s);
    NoDupWithout(p.update, s);
  }

  lemma {:induction false} FreePlaced<S, G>(p: Port<S, G>, p': Port<S, G>, s: S)
    requires Placed(p) && s in p.socks
    requires p'.tree == (if p.socks[s].deletePending then p.tree else p.tree - {p.socks[s].key})
    requires p'.update == Without(p.update, s) && p'.deleted == Without(p.deleted, s)
    requires p'.socks == p.socks - {s} && p'.freed == p.freed + {s}
    ensures Placed(p')
  {
    NoDupWithout(p.update, s);
    NoDupWithout(p.deleted, s);
    WithoutIn(p.update, s);
    WithoutIn(p.deleted, s);
  }

  lemma {:induction false} DeferPlaced<S, G>(p: Port<S, G>, p': Port<S, G>, s: S)
    requires Placed(p) && s in p.socks && !p.socks[s].deletePending
    requires p'.tree == p.tree - {p.socks[s].key} && p'.update == Without(p.update, s) && p'.deleted == p.deleted + [s]
    requires s in p'.socks && p'.socks == p.socks[s := p'.socks[s]] && p'.socks[s].deletePending && p'.freed == p.freed
    ensures Placed(p')
  {
    NoDupWithout(p.update, s);
    WithoutIn(p.update, s);
    NoDupSnoc(p.deleted, s);
  }

  ghost predicate Freed<S, G>(p: Port<S, G>, p': Port<S, G>, s: S)
    requires s in p.socks
  {
    p' == p.(tree := (if p.socks[s].deletePending then p.tree else p.tree - {p.socks[s].key}),
             update := Without(p.update, s), deleted := Without(p.deleted, s),
             socks := p.socks - {s}, freed := p.freed + {s}, pool := ReleaseGroup(p, p.socks[s].group).pool)
  }

  ghost predicate Deferred<S, G>(p: Port<S, G>, p': Port<S, G>, s: S, c: Sock<G>)
    requires s in p.socks
  {
    p' == p.(tree := p.tree - {p.socks[s].key}, update := Without(p.update, s), deleted := p.deleted + [s],
             socks := p.socks[s := c.(deletePending := true)])
  }

  lemma {:induction false} UnqueueShape<S, G>(p: Port<S, G>, s: S)
    ensures Unqueue(p, s) == p.(update := Without(p.update, s), deleted := Without(p.deleted, s))
  {
    if !Enqueued(p, s) {
      WithoutAbsent(p.update, s);
      WithoutAbsent(p.deleted, s);
    }
  }

  lemma {:induction false} FreeShape<S, G>(p: Port<S, G>, s: S)
    requires s in p.socks
    ensures Free(p, s) == p.(update := Without(p.update, s), deleted := Without(p.deleted, s),
                             socks := p.socks - {s}, freed := p.freed + {s}, pool := ReleaseGroup(p, p.socks[s].group).pool)
  {
    UnqueueShape(p, s);
  }

  lemma {:induction false} DeleteRegistered<S, G>(p: Port<S, G>, p1: Port<S, G>, s: S, force: bool, cancelled: bool, c: Sock<G>)
    requires Placed(p) && s in p.socks && !p.socks[s].deletePending && p1 == Unregister(p, s, cancelled)
    requires c == if p.socks[s].status == Pending && cancelled then CancelPoll(p.socks[s]) else p.socks[s]
    ensures Freed(p, Free(p1, s), s) && Deferred(p, AddDeleted(p1, s), s, c)
    ensures p1.socks[s].status == c.status
  {
    UnregisterShape(p, s, cancelled);
    FreeShape(p1, s);
    WithoutAbsent(p.deleted, s);
    WithoutAbsent(Without(p.update, s), s);
    assert p1.socks - {s} == p.socks - {s};
  }

  /** The three outcomes of sock__delete. */
  lemma {:induction false} DeleteShape<S, G>(p: Port<S, G>, p': Port<S, G>, s: S, force: bool, cancelled: bool)
    requires Placed(p) && s in p.socks && p' == Delete(p, s, force, cancelled)
    ensures var c := p.socks[s];
            if force || c.status == Idle then Freed(p, p', s)
            else if c.deletePending then p' == p
            else Deferred(p, p', s, if c.status == Pending && cancelled then CancelPoll(c) else c)
  {
    var c := p.socks[s];
    if c.deletePending {
      FreeShape(p, s);
    } else {
      DeleteRegistered(p, Unregister(p, s, cancelled), s, force, cancelled, if c.status == Pending && cancelled then CancelPoll(c) else c);
    }
  }

  lemma {:induction false} DeletePlaced<S, G>(p: Port<S, G>, s: S, force: bool, cancelled: bool)
    requires Placed(p) && s in p.socks
    ensures Placed(Delete(p, s, force, cancelled))
  {
    var p' := Delete(p, s, force, cancelled);
    DeleteShape(p, p', s, force, cancelled);
    if force || p.socks[s].status == Idle {
      FreePlaced(p, p', s);
    } else if !p.socks[s].deletePending {
      DeferPlaced(p, p', s);
    }
  }

  lemma {:induction false} FreedPolled<S, G>(p: Port<S, G>, p': Port<S, G>, s: S, closing: bool)
    requires Polled(p, closing) && s in p.socks && p'.socks == p.socks - {s} && p'.outstanding == p.outstanding
    requires p.socks[s].status == Idle || closing
    ensures Polled(p', closing)
  {}

  lemma {:induction false} DeletePolled<S, G>(p: Port<S, G>, p': Port<S, G>, s: S, force: bool, cancelled: bool, closing: bool)
    requires Placed(p) && s in p.socks && Polled(p, closing) && (force ==> closing) && p' == Delete(p, s, force, cancelled)
    ensures Polled(p', closing)
  {
    DeleteShape(p, p', s, force, cancelled);
    if force || p.socks[s].status == Idle { FreedPolled(p, p', s, closing); }
  }

  // ----- groups -----------------------------------------------------------------------------------

  lemma {:induction false} SameCounts<S, G>(p: Port<S, G>, p': Port<S, G>)
    requires Counted(p) && p'.pool.size == p.pool.size && p'.socks.Keys == p.socks.Keys
    requires forall s :: s in p.socks ==> p'.socks[s].group == p.socks[s].group
    ensures Counted(p')
  {
    forall g | g in p.pool.size ensures Users(p', g) == Users(p, g) {}
  }

  lemma {:induction false} FreeCounted<S, G>(p: Port<S, G>, p': Port<S, G>, s: S, g: G)
    requires Counted(p) && s in p.socks && p'.socks == p.socks - {s} && g == p.socks[s].group
    requires p.pool.size[g] > 0 ==> p'.pool.size == p.pool.size[g := p.pool.size[g] - 1]
    ensures p.pool.size[g] > 0 && Counted(p') && |p'.socks| == |p.socks| - 1
  {
    assert s in Users(p, g);
    assert p'.socks.Keys == p.socks.Keys - {s} && |p'.socks| == |p'.socks.Keys| && |p.socks| == |p.socks.Keys|;
    forall h | h in p'.pool.size ensures p'.pool.size[h] == |Users(p', h)| {
      if h == g {
        assert Users(p', h) == Users(p, h) - {s};
      } else {
        assert Users(p', h) == Users(p, h);
      }
    }
  }

  lemma {:induction false} DeleteCounted<S, G>(p: Port<S, G>, p': Port<S, G>, s: S, force: bool, cancelled: bool)
    requires Placed(p) && Counted(p) && s in p.socks && p' == Delete(p, s, force, cancelled)
    ensures Counted(p')
  {
    DeleteShape(p, p', s, force, cancelled);
    if force || p.socks[s].status == Idle {
      FreeCounted(p, p', s, p.socks[s].group);
    } else {
      SameCounts(p, p');
    }
  }

  /** One more socket, on group `g`. */
  lemma {:induction false} AddCounted<S, G>(p: Port<S, G>, p': Port<S, G>, s: S, g: G)
    requires Counted(p) && s !in p.socks && s in p'.socks && p'.socks == p.socks[s := p'.socks[s]] && p'.socks[s].group == g
    requires p'.pool.size == p.pool.size[g := (if g in p.pool.size then p.pool.size[g] else 0) + 1]
    ensures Counted(p')
  {
    forall h | h in p'.pool.size ensures p'.pool.size[h] == |Users(p', h)| {
      AddUser(p, p', s, g, h);
      if h !in p.pool.size { assert Users(p, h) == {}; }
    }
  }

  lemma {:induction false} AddUser<S, G>(p: Port<S, G>, p': Port<S, G>, s: S, g: G, h: G)
    requires s !in p.socks && s in p'.socks && p'.socks == p.socks[s := p'.socks[s]] && p'.socks[s].group == g
    ensures |Users(p', h)| == |Users(p, h)| + if h == g then 1 else 0
  {
    if h == g {
      assert Users(p', h) == Users(p, h) + {s};
    } else {
      assert Users(p', h) == Users(p, h);
    }
  }

  /** A group taken and given back: at most a new, empty group is there. */
  lemma {:induction false} EmptyCounted<S, G>(p: Port<S, G>, p': Port<S, G>, g: G)
    requires Counted(p) && p'.socks == p.socks
    requires p'.pool.size == p.pool.size[g := if g in p.pool.size then p.pool.size[g] else 0]
    ensures Counted(p')
  {
    forall h | h in p'.pool.size ensures p'.pool.size[h] == |Users(p', h)| {
      assert Users(p', h) == Users(p, h);
      if h !in p.pool.size { assert Users(p, h) == {}; }
    }
  }

  // ----- what the operations keep -----------------------------------------------------------------

  lemma {:induction false} EmptySettled<S, G>()
    ensures Settled(Empty<S, G>())
  {}

  ghost predicate AttendedBut<S, G>(p: Port<S, G>, s: S) {
    forall x :: x in p.socks && x != s ==> Attended(p, x)
  }

  /** sock_new once a group is acquired. */
  lemma {:induction false} RegisterKeeps<S, G>(p: Port<S, G>, p1: Port<S, G>, s: S, key: nat, g: G, room: bool, p': Port<S, G>, ok: bool)
    requires Placed(p) && Polled(p, false) && NoLostInterest(p) && Counted(p) && s !in p.socks && s !in p.freed
    requires p1 == p.(pool := p1.pool, peak := p1.peak) && (p', ok) == Register(p1, s, key, g, room)
    requires p1.pool.size == p.pool.size[g := (if g in p.pool.size then p.pool.size[g] else 0) + 1]
    ensures Sound(p', false) && AttendedBut(p', s)
    ensures ok <==> room && key !in p.tree
    ensures if ok then p'.socks.Keys == p.socks.Keys + {s} && p'.tree == p.tree[key := s] && !p'.socks[s].deletePending
            else p' == p.(pool := p'.pool, peak := p'.peak)
  {
    if ok {
      NewPlaced(p, p', s, key);
      AddCounted(p, p', s, g);
    } else {
      EmptyCounted(p, p', g);
    }
  }

  lemma {:induction false} RegisterThrifty<S, G>(p: Port<S, G>, s: S, key: nat, g: G, room: bool)
    requires Optimal(p.pool, |p.socks| + 1, p.peak) && s !in p.socks && g in p.pool.size && p.pool.size[g] > 0
    ensures Thrifty(Register(p, s, key, g, room).0)
  {
    if !room || key in p.tree {
      ReleaseKeeps(p.pool, g, |p.socks| + 1, p.peak);
    } else {
      var p' := Register(p, s, key, g, room).0;
      assert p'.socks.Keys == p.socks.Keys + {s} && |p'.socks| == |p'.socks.Keys| && |p.socks| == |p.socks.Keys|;
    }
  }

  /** sock_new: a socket is registered exactly if its handle was free and there was room for it. */
  lemma {:induction false} NewKeeps<S, G>(p: Port<S, G>, s: S, key: nat, made: Option<G>, room: bool, p': Port<S, G>, ok: bool)
    requires Settled(p) && s !in p.socks && s !in p.freed && (made.Some? ==> made.value !in p.pool.size)
    requires Thrifty(p) && (p', ok) == New(p, s, key, made, room)
    ensures Sound(p', false) && AttendedBut(p', s) && Thrifty(p')
    ensures ok <==> Acquire(p.pool, made).1.Some? && room && key !in p.tree
    ensures if ok then p'.socks.Keys == p.socks.Keys + {s} && p'.tree == p.tree[key := s] && !p'.socks[s].deletePending
            else p' == p.(pool := p'.pool, peak := p'.peak)
  {
    assert Unfold(0);
    AcquireFacts(p, made);
    var pool, got := Acquire(p.pool, made).0, Acquire(p.pool, made).1;
    if got.Some? {
      RegisterKeeps(p, Acquired(p, pool), s, key, got.value, room, p', ok);
      RegisterThrifty(Acquired(p, pool), s, key, got.value, room);
    }
  }

  lemma {:induction false} RefusedKeeps<S, G>(p: Port<S, G>, made: Option<G>)
    requires Settled(p) && Thrifty(p) && (made.Some? ==> made.value !in p.pool.size)
    ensures Settled(Refused(p, made)) && Thrifty(Refused(p, made))
    ensures Refused(p, made) == p.(pool := Refused(p, made).pool, peak := Refused(p, made).peak)
  {
    AcquireFacts(p, made);
    var pool, got := Acquire(p.pool, made).0, Acquire(p.pool, made).1;
    if got.Some? { GiveBackKeeps(p, Acquired(p, pool), got.value); }
  }

  lemma {:induction false} GiveBackKeeps<S, G>(p: Port<S, G>, p1: Port<S, G>, g: G)
    requires Settled(p) && p1 == p.(pool := p1.pool, peak := p1.peak)
    requires p1.pool.size == p.pool.size[g := (if g in p.pool.size then p.pool.size[g] else 0) + 1]
    requires Optimal(p1.pool, |p.socks| + 1, p1.peak)
    ensures Settled(ReleaseGroup(p1, g)) && Thrifty(ReleaseGroup(p1, g))
  {
    var p' := ReleaseGroup(p1, g);
    ReleaseKeeps(p1.pool, g, |p.socks| + 1, p1.peak);
    PoolKeeps(p, p', g);
  }

  /** Only the pool changes, and the count of each group's users stays right. */
  lemma {:induction false} PoolKeeps<S, G>(p: Port<S, G>, p': Port<S, G>, g: G)
    requires Settled(p) && p' == p.(pool := p'.pool, peak := p'.peak)
    requires p'.pool.size == p.pool.size[g := if g in p.pool.size then p.pool.size[g] else 0]
    ensures Settled(p')
  {
    assert Unfold(0);
    EmptyCounted(p, p', g);
    forall x | x in p'.socks ensures Attended(p', x) { assert Attended(p, x); }
  }

  lemma {:induction false} AcquireFacts<S, G>(p: Port<S, G>, made: Option<G>)
    requires Thrifty(p) && (made.Some? ==> made.value !in p.pool.size)
    ensures var pool, got := Acquire(p.pool, made).0, Acquire(p.pool, made).1;
            got.Some? ==>
              && Optimal(pool, |p.socks| + 1, Acquired(p, pool).peak)
              && got.value in pool.size && pool.size[got.value] > 0
              && pool.size == p.pool.size[got.value := (if got.value in p.pool.size then p.pool.size[got.value] else 0) + 1]
  {
    assert Unfold(0);
    AcquireKeeps(p.pool, made, |p.socks|, p.peak);
  }

  lemma {:induction false} NewPlaced<S, G>(p: Port<S, G>, p': Port<S, G>, s: S, key: nat)
    requires Placed(p) && Polled(p, false) && NoLostInterest(p) && s !in p.socks && s !in p.freed && key !in p.tree && s in p'.socks
    requires p' == p.(tree := p.tree[key := s], socks := p.socks[s := p'.socks[s]], pool := p'.pool, peak := p'.peak)
    requires p'.socks[s].key == key && p'.socks[s].pending == 0 && p'.socks[s].status == Idle && !p'.socks[s].deletePending
    ensures Placed(p') && Polled(p', false) && AttendedBut(p', s)
  {
    NewAttended(p, p', s);
  }

  lemma {:induction false} NewAttended<S, G>(p: Port<S, G>, p': Port<S, G>, s: S)
    requires NoLostInterest(p) && s !in p.socks && s in p'.socks && p'.socks == p.socks[s := p'.socks[s]] && p'.update == p.update
    ensures AttendedBut(p', s)
  {
    forall x | x in p.socks ensures Attended(p', x) {
      assert Attended(p, x);
    }
  }

  /** port__ctl_add: sock_new, then sock_set_event. */
  lemma {:induction false} AddKeeps<S, G>(p: Port<S, G>, s: S, key: nat, made: Option<G>, room: bool, events: bv32, data: nat)
    requires Settled(p) && Thrifty(p) && s !in p.socks && s !in p.freed && (made.Some? ==> made.value !in p.pool.size)
    requires New(p, s, key, made, room).1
    ensures var p1 := New(p, s, key, made, room).0;
            && s in p1.socks && key !in p.tree && p1.tree == p.tree[key := s]
            && Settled(SetEvent(p1, s, events, data)) && Thrifty(SetEvent(p1, s, events, data))
  {
    var p1 := New(p, s, key, made, room).0;
    NewKeeps(p, s, key, made, room, p1, true);
    SetEventKeeps(p1, s, events, data);
    SetEventThrifty(p1, s, events, data);
  }

  /** The three parts of Sound when one socket changes in anything but its place and its group. */
  lemma {:induction false} TouchSound<S, G>(p: Port<S, G>, p': Port<S, G>, s: S)
    requires Sound(p, false) && s in p.socks && s in p'.socks && p' == With(p, s, p'.socks[s]).(outstanding := p'.outstanding)
    requires var c, c' := p.socks[s], p'.socks[s];
             && c'.key == c.key && c'.deletePending == c.deletePending && c'.group == c.group
             && (c'.status != Pending ==> c'.pending == 0)
             && p'.outstanding == if c'.status == Idle then p.outstanding - {s} else p.outstanding + {s}
    ensures Sound(p', false)
  {
    TouchPlaced(p, s, p'.socks[s]);
    TouchPolled(p, p', s);
    SameCounts(p, p');
  }

  lemma {:induction false} TouchPolled<S, G>(p: Port<S, G>, p': Port<S, G>, s: S)
    requires Polled(p, false) && s in p.socks && s in p'.socks && p'.socks == p.socks[s := p'.socks[s]]
    requires p'.socks[s].status != Pending ==> p'.socks[s].pending == 0
    requires p'.outstanding == if p'.socks[s].status == Idle then p.outstanding - {s} else p.outstanding + {s}
    ensures Polled(p', false)
  {}

  lemma {:induction false} RequestSound<S, G>(p: Port<S, G>, s: S)
    requires Sound(p, false) && s in p.socks && !p.socks[s].deletePending
    ensures Sound(RequestUpdate(p, s), false) && s in RequestUpdate(p, s).update
    ensures AttendedBut(p, s) ==> NoLostInterest(RequestUpdate(p, s))
  {
    RequestPlaced(p, s);
    SameCounts(p, RequestUpdate(p, s));
    if AttendedBut(p, s) {
      forall x | x in p.socks ensures Attended(RequestUpdate(p, s), x) {
        if x != s { assert Attended(p, x); }
      }
    }
  }

  lemma {:induction false} TouchAttended<S, G>(p: Port<S, G>, p': Port<S, G>, s: S)
    requires AttendedBut(p, s) && s in p'.socks && p' == With(p, s, p'.socks[s]).(outstanding := p'.outstanding)
    ensures AttendedBut(p', s)
    ensures Attended(p', s) ==> NoLostInterest(p')
  {
    forall x | x in p'.socks && x != s ensures Attended(p', x) {
      assert Attended(p, x);
    }
  }

  /** sock_set_event, also straight after sock_new. */
  lemma {:induction false} SetEventKeeps<S, G>(p: Port<S, G>, s: S, events: bv32, data: nat)
    requires Sound(p, false) && AttendedBut(p, s) && s in p.socks && !p.socks[s].deletePending
    ensures Settled(SetEvent(p, s, events, data))
    ensures SetEvent(p, s, events, data).update
            == if (events | EPOLLERR | EPOLLHUP) & KnownEvents & !p.socks[s].pending != 0 && s !in p.update then p.update + [s] else p.update
  {
    var c := p.socks[s].(user := events | EPOLLERR | EPOLLHUP, data := data);
    var p1 := With(p, s, c);
    NeverCoveredByNothing(events);
    TouchSound(p, p1, s);
    TouchAttended(p, p1, s);
    RequestSound(p1, s);
  }

  /** sock__delete: a socket is freed exactly when forced or when its poll is not outstanding. */
  lemma {:induction false} DeleteKeeps<S, G>(p: Port<S, G>, p': Port<S, G>, s: S, force: bool, cancelled: bool, closing: bool)
    requires Sound(p, closing) && s in p.socks && (force ==> closing) && p' == Delete(p, s, force, cancelled)
    ensures Sound(p', closing)
    ensures if force || s !in p.outstanding then p'.freed == p.freed + {s} && p'.socks == p.socks - {s}
            else p'.freed == p.freed && s in p'.deleted
    ensures AttendedBut(p, s) ==> NoLostInterest(p')
  {
    DeletePlaced(p, s, force, cancelled);
    DeletePolled(p, p', s, force, cancelled, closing);
    DeleteCounted(p, p', s, force, cancelled);
    DeleteAttended(p, p', s, force, cancelled);
  }

  lemma {:induction false} DeleteAttended<S, G>(p: Port<S, G>, p': Port<S, G>, s: S, force: bool, cancelled: bool)
    requires Placed(p) && s in p.socks && p' == Delete(p, s, force, cancelled)
    ensures if force || p.socks[s].status == Idle then p'.freed == p.freed + {s} && p'.socks == p.socks - {s}
            else p'.freed == p.freed && s in p'.deleted
    ensures AttendedBut(p, s) ==> NoLostInterest(p')
  {
    DeleteShape(p, p', s, force, cancelled);
    if AttendedBut(p, s) {
      WithoutIn(p.update, s);
      forall x | x in p'.socks ensures Attended(p', x) {
        if x != s { assert Attended(p, x); }
      }
    }
  }

  lemma {:induction false} UnqueueSound<S, G>(p: Port<S, G>, s: S)
    requires Sound(p, false) && s in p.socks && !p.socks[s].deletePending
    ensures Sound(Unqueue(p, s), false) && Unqueue(p, s) == p.(update := Without(p.update, s))
    ensures AttendedBut(p, s) ==> AttendedBut(Unqueue(p, s), s)
    ensures AttendedBut(p, s) && Attended(Unqueue(p, s), s) ==> NoLostInterest(Unqueue(p, s))
  {
    UnqueuePlaced(p, s);
    SameCounts(p, Unqueue(p, s));
    if AttendedBut(p, s) {
      forall x | x in p.socks && x != s ensures Attended(Unqueue(p, s), x) {
        assert Attended(p, x);
      }
    }
  }

  /** sock_update: it fails without a trace, or takes the socket off the update queue and leaves every
      socket's interest taken care of. */
  lemma {:induction false} UpdateKeeps<S, G>(p: Port<S, G>, s: S, poll: PollResult, cancelled: bool, p': Port<S, G>, ok: bool)
    requires Settled(p) && s in p.socks && !p.socks[s].deletePending && (p', ok) == Update(p, s, poll, cancelled)
    ensures Settled(p')
    ensures if ok then p'.update == Without(p.update, s) else p' == p
  {
    assert Unfold(0);
    var c := p.socks[s];
    assert AttendedBut(p, s);
    if c.status == Idle && poll == InvalidHandle {
      DeleteKeeps(p, p', s, false, cancelled, false);
      DeleteShape(p, p', s, false, cancelled);
    } else if ok {
      var p1 := Polling(p, s, cancelled);
      PollingKeeps(p, p1, s, cancelled);
      UnqueueSound(p1, s);
    }
  }

  /** sock_update up to taking the socket off the queue: a poll is submitted, cancelled or left. */
  function Polling<S(==), G>(p: Port<S, G>, s: S, cancelled: bool): Port<S, G>
    requires s in p.socks
  {
    var c := p.socks[s];
    match c.status
    case Pending => if Covered(c.user, c.pending) || !cancelled then p else With(p, s, CancelPoll(c))
    case Cancelled => p
    case Idle => With(p, s, c.(status := Pending, pending := c.user)).(outstanding := p.outstanding + {s})
  }

  /** Whether sock_update goes through, for a socket that is not found closed. */
  predicate Goes<G>(c: Sock<G>, poll: PollResult, cancelled: bool) {
    if c.status == Idle then poll == Submitted else c.status == Cancelled || Covered(c.user, c.pending) || cancelled
  }

  lemma {:induction false} UpdateShape<S, G>(p: Port<S, G>, s: S, poll: PollResult, cancelled: bool)
    requires s in p.socks
    ensures Update(p, s, poll, cancelled) ==
            if p.socks[s].status == Idle && poll == InvalidHandle then (Delete(p, s, false, cancelled), true)
            else if Goes(p.socks[s], poll, cancelled) then (Unqueue(Polling(p, s, cancelled), s), true)
            else (p, false)
  {}

  lemma {:induction false} PollingKeeps<S, G>(p: Port<S, G>, p': Port<S, G>, s: S, cancelled: bool)
    requires Sound(p, false) && AttendedBut(p, s) && s in p.socks && !p.socks[s].deletePending && p' == Polling(p, s, cancelled)
    requires p.socks[s].status == Pending && !Covered(p.socks[s].user, p.socks[s].pending) ==> cancelled
    ensures Sound(p', false) && AttendedBut(p', s) && p'.update == p.update && p'.deleted == p.deleted
    ensures Attended(Unqueue(p', s), s) && !p'.socks[s].deletePending
  {
    assert p.socks[s := p.socks[s]] == p.socks;
    TouchSound(p, p', s);
    TouchAttended(p, p', s);
    PollingAttends(p, p', s, cancelled);
  }

  lemma {:induction false} PollingAttends<S, G>(p: Port<S, G>, p': Port<S, G>, s: S, cancelled: bool)
    requires s in p.socks && !p.socks[s].deletePending && p' == Polling(p, s, cancelled)
    requires p.socks[s].status == Pending && !Covered(p.socks[s].user, p.socks[s].pending) ==> cancelled
    ensures Attended(Unqueue(p', s), s) && !p'.socks[s].deletePending
  {
    CoveredSelf(p.socks[s].user);
  }

  /** sock_feed_event on a socket whose poll completes: live, and looked after again afterwards. */
  lemma {:induction false} FeedKeeps<S, G>(p: Port<S, G>, s: S, done: Completion, p': Port<S, G>, r: Report)
    requires Settled(p) && s in p.socks && s in p.outstanding && (p', r) == Feed(p, s, done)
    ensures Settled(p') && p'.outstanding == p.outstanding - {s}
    ensures forall x :: x in p.socks && x != s ==> x in p'.socks
    ensures r.Report? ==> s in p'.socks && s in p'.update
  {
    assert Unfold(0);
    assert AttendedBut(p, s);
    CompletedKeeps(p, Completed(p, s), s);
    SettleKeeps(Completed(p, s), s, Closes(done), Reported(done), p', r);
  }

  lemma {:induction false} SettleKeeps<S, G>(p: Port<S, G>, s: S, closed: bool, reported: bv32, p': Port<S, G>, r: Report)
    requires Sound(p, false) && AttendedBut(p, s) && s in p.socks && s !in p.outstanding && (p', r) == Settle(p, s, closed, reported)
    ensures Settled(p') && p'.outstanding == p.outstanding
    ensures p'.socks.Keys >= p.socks.Keys - {s} && (r.Report? ==> s in p'.socks && s in p'.update)
  {
    if p.socks[s].deletePending || closed { CloseKeeps(p, p', s); } else { ReportKeeps(p, s, reported, p', r); }
  }

  /** A socket without a poll is deleted at once. */
  lemma {:induction false} CloseKeeps<S, G>(p: Port<S, G>, p': Port<S, G>, s: S)
    requires Sound(p, false) && AttendedBut(p, s) && s in p.socks && s !in p.outstanding && p' == Delete(p, s, false, false)
    ensures Settled(p') && p'.outstanding == p.outstanding
    ensures p'.socks.Keys == p.socks.Keys - {s}
  {
    DeleteKeeps(p, p', s, false, false, false);
    DeleteShape(p, p', s, false, false);
  }

  /** sock_feed_event once the socket is known to stay. */
  lemma {:induction false} ReportKeeps<S, G>(p: Port<S, G>, s: S, reported: bv32, p': Port<S, G>, r: Report)
    requires Sound(p, false) && AttendedBut(p, s) && s in p.socks && !p.socks[s].deletePending && (p', r) == Rearm(p, s, reported)
    ensures Settled(p') && p'.outstanding == p.outstanding
    ensures p'.socks.Keys == p.socks.Keys && s in p'.update
  {
    var p1 := RequestUpdate(p, s);
    RequestSound(p, s);
    RearmShape(p, s, reported, p', r);
    QueuedKeeps(p1, p', s);
  }

  lemma {:induction false} RearmShape<S, G>(p: Port<S, G>, s: S, reported: bv32, p': Port<S, G>, r: Report)
    requires s in p.socks && (p', r) == Rearm(p, s, reported)
    ensures s in p'.socks && p' == With(RequestUpdate(p, s), s, p'.socks[s]) && p'.socks[s] == p.socks[s].(user := p'.socks[s].user)
  {
    assert p.socks[s := p.socks[s]] == p.socks;
  }

  /** A queued socket may change its mind about its events. */
  lemma {:induction false} QueuedKeeps<S, G>(p: Port<S, G>, p': Port<S, G>, s: S)
    requires Settled(p) && s in p.socks && s in p.update && s in p'.socks && p' == With(p, s, p'.socks[s])
    requires p'.socks[s] == p.socks[s].(user := p'.socks[s].user)
    ensures Settled(p')
  {
    assert Unfold(0);
    TouchSound(p, p', s);
    TouchAttended(p, p', s);
  }

  lemma {:induction false} CompletedKeeps<S, G>(p: Port<S, G>, p': Port<S, G>, s: S)
    requires Sound(p, false) && AttendedBut(p, s) && s in p.socks && p' == Completed(p, s)
    ensures Sound(p', false) && AttendedBut(p', s)
  {
    TouchSound(p, p', s);
    TouchAttended(p, p', s);
  }

  // ----- the poll groups stay few ------------------------------------------------------------------

  lemma {:induction false} SameThrifty<S, G>(p: Port<S, G>, p': Port<S, G>)
    requires Thrifty(p) && p'.pool == p.pool && p'.peak == p.peak && p'.socks.Keys == p.socks.Keys
    ensures Thrifty(p')
  {
    assert Unfold(0);
    assert |p'.socks| == |p'.socks.Keys| == |p.socks.Keys| == |p.socks|;
  }

  lemma {:induction false} FreeThrifty<S, G>(p: Port<S, G>, p': Port<S, G>, s: S, g: G)
    requires Counted(p) && Thrifty(p) && s in p.socks && p'.socks == p.socks - {s} && g == p.socks[s].group && p'.peak == p.peak
    requires p'.pool == ReleaseGroup(p, g).pool
    ensures Thrifty(p')
  {
    assert Unfold(0);
    assert s in Users(p, g);
    assert p'.socks.Keys == p.socks.Keys - {s} && |p'.socks| == |p'.socks.Keys| && |p.socks| == |p.socks.Keys|;
    ReleaseKeeps(p.pool, g, |p.socks|, p.peak);
  }

  lemma {:induction false} DeleteThrifty<S, G>(p: Port<S, G>, p': Port<S, G>, s: S, force: bool, cancelled: bool)
    requires Placed(p) && Counted(p) && Thrifty(p) && s in p.socks && p' == Delete(p, s, force, cancelled)
    ensures Thrifty(p')
  {
    DeleteShape(p, p', s, force, cancelled);
    if force || p.socks[s].status == Idle { FreeThrifty(p, p', s, p.socks[s].group); } else { SameThrifty(p, p'); }
  }

  lemma {:induction false} UpdateThrifty<S, G>(p: Port<S, G>, s: S, poll: PollResult, cancelled: bool)
    requires Settled(p) && Thrifty(p) && s in p.socks
    ensures Thrifty(Update(p, s, poll, cancelled).0)
  {
    assert Unfold(0);
    if p.socks[s].status == Idle && poll == InvalidHandle {
      DeleteThrifty(p, Delete(p, s, false, cancelled), s, false, cancelled);
    } else {
      UpdateStays(p, s, poll, cancelled);
      SameThrifty(p, Update(p, s, poll, cancelled).0);
    }
  }

  lemma {:induction false} UpdateStays<S, G>(p: Port<S, G>, s: S, poll: PollResult, cancelled: bool)
    requires s in p.socks && (p.socks[s].status == Idle ==> poll != InvalidHandle)
    ensures var p' := Update(p, s, poll, cancelled).0;
            p'.pool == p.pool && p'.peak == p.peak && p'.socks.Keys == p.socks.Keys
  {}

  lemma {:induction false} FeedThrifty<S, G>(p: Port<S, G>, s: S, done: Completion)
    requires Settled(p) && Thrifty(p) && s in p.socks
    ensures Thrifty(Feed(p, s, done).0)
  {
    assert Unfold(0);
    CompletedKeeps(p, Completed(p, s), s);
    SameThrifty(p, Completed(p, s));
    SettleThrifty(Completed(p, s), s, Closes(done), Reported(done));
  }

  lemma {:induction false} SettleThrifty<S, G>(p: Port<S, G>, s: S, closed: bool, reported: bv32)
    requires Placed(p) && Counted(p) && Thrifty(p) && s in p.socks
    ensures Thrifty(Settle(p, s, closed, reported).0)
  {
    if p.socks[s].deletePending || closed {
      DeleteThrifty(p, Delete(p, s, false, false), s, false, false);
    } else {
      var r := Rearm(p, s, reported);
      RearmShape(p, s, reported, r.0, r.1);
      SameThrifty(p, r.0);
    }
  }

  lemma {:induction false} SetEventThrifty<S, G>(p: Port<S, G>, s: S, events: bv32, data: nat)
    requires Thrifty(p) && s in p.socks
    ensures Thrifty(SetEvent(p, s, events, data))
  {
    SameThrifty(p, SetEvent(p, s, events, data));
  }

  // ----- what Settled and Thrifty give --------------------------------------------------------------

  lemma {:induction false} SettledGroup<S, G>(p: Port<S, G>, s: S)
    requires Settled(p) && s in p.socks
    ensures p.socks[s].group in p.pool.size && p.pool.size[p.socks[s].group] > 0
  {
    assert Unfold(0);
    CountedGroup(p, s);
  }

  lemma {:induction false} CountedGroup<S, G>(p: Port<S, G>, s: S)
    requires Counted(p) && s in p.socks
    ensures p.socks[s].group in p.pool.size && p.pool.size[p.socks[s].group] > 0
  {
    assert s in Users(p, p.socks[s].group);
  }

  lemma {:induction false} SettledTree<S, G>(p: Port<S, G>, key: nat)
    requires Settled(p) && key in p.tree
    ensures p.tree[key] in p.socks && !p.socks[p.tree[key]].deletePending && p.socks[p.tree[key]].key == key
  {
    assert Unfold(0);
  }

  lemma {:induction false} SettledOutstanding<S, G>(p: Port<S, G>, s: S)
    requires Settled(p) && s in p.outstanding
    ensures s in p.socks
  {
    assert Unfold(0);
  }

  lemma {:induction false} SettledQueue<S, G>(p: Port<S, G>)
    requires Settled(p) && p.update != []
    ensures p.update[0] in p.socks && !p.socks[p.update[0]].deletePending
    ensures |Without(p.update, p.update[0])| < |p.update|
  {
    assert Unfold(0);
    assert p.update[0] in p.update;
    WithoutFirst(p.update);
  }

  lemma {:induction false} ThriftySized<S, G>(p: Port<S, G>)
    requires Thrifty(p)
    ensures Sized(p.pool)
  {
    assert Unfold(0);
  }

  /** port__ctl_mod. */
  lemma {:induction false} ModKeeps<S, G>(p: Port<S, G>, s: S, events: bv32, data: nat)
    requires Settled(p) && Thrifty(p) && s in p.socks && !p.socks[s].deletePending
    ensures Settled(SetEvent(p, s, events, data)) && Thrifty(SetEvent(p, s, events, data))
  {
    assert Unfold(0);
    SetEventKeeps(p, s, events, data);
    SetEventThrifty(p, s, events, data);
  }

  /** port__ctl_del: the socket is freed now exactly if no poll of it is outstanding. */
  lemma {:induction false} DelKeeps<S, G>(p: Port<S, G>, s: S, cancelled: bool, p': Port<S, G>)
    requires Settled(p) && Thrifty(p) && s in p.socks && !p.socks[s].deletePending && p' == Delete(p, s, false, cancelled)
    ensures Settled(p') && Thrifty(p') && p'.tree == p.tree - {p.socks[s].key} && p'.outstanding == p.outstanding
    ensures if s in p.outstanding then s in p'.socks && s in p'.deleted && p'.freed == p.freed
            else s !in p'.socks && p'.freed == p.freed + {s}
    ensures p.socks[s].status == Pending && cancelled ==> s in p'.socks && p'.socks[s].status == Cancelled
  {
    assert Unfold(0);
    DeleteShape(p, p', s, false, cancelled);
    DeleteKeeps(p, p', s, false, cancelled, false);
    DeleteThrifty(p, p', s, false, cancelled);
  }

  /** A socket is never freed while a poll of it is outstanding. */
  lemma {:induction false} NeverFreedWhilePolled<S, G>(p: Port<S, G>)
    requires Settled(p)
    ensures p.outstanding !! p.freed
  {
    assert Unfold(0);
  }

  /** Once the update queue is empty, every registered socket is watched for all that its user wants, or
      has a cancelled poll whose completion will bring it back. */
  lemma {:induction false} AllWatched<S, G>(p: Port<S, G>, key: nat)
    requires Settled(p) && p.update == [] && key in p.tree && p.tree[key] in p.socks
    ensures var c := p.socks[p.tree[key]]; c.status == Cancelled || (c.status == Pending && Covered(c.user, c.pending))
    ensures p.tree[key] in p.outstanding
  {
    assert Unfold(0);
    assert Attended(p, p.tree[key]);
  }

  // ----- sequences of steps -------------------------------------------------------------------------

  /** One locked operation on one socket, with the answers it gets. */
  datatype PortStep<S, G> =
    | NewStep(s: S, key: nat, made: Option<G>, room: bool)
    | SetEventStep(s: S, events: bv32, data: nat)
    | UpdateStep(s: S, poll: PollResult, cancelled: bool)
    | FeedStep(s: S, done: Completion)
    | DeleteStep(s: S, force: bool, cancelled: bool)

  /** The port after a step; a step on a socket that is not there, or that makes one that is, does nothing. */
  function Take<S(==), G(==)>(p: Port<S, G>, step: PortStep<S, G>): Port<S, G> {
    if step.NewStep? then (if step.s in p.socks then p else New(p, step.s, step.key, step.made, step.room).0)
    else if step.s !in p.socks then p
    else
      match step
      case SetEventStep(s, events, data) => SetEvent(p, s, events, data)
      case UpdateStep(s, poll, cancelled) => Update(p, s, poll, cancelled).0
      case FeedStep(s, done) => Feed(p, s, done).0
      case DeleteStep(s, force, cancelled) => Delete(p, s, force, cancelled)
  }

  function TakeAll<S(==), G(==)>(p: Port<S, G>, steps: seq<PortStep<S, G>>): Port<S, G>
    decreases |steps|
  {
    if steps == [] then p else TakeAll(Take(p, steps[0]), steps[1..])
  }

  /** The socket is there only with no events asked for. */
  ghost predicate Mute<S, G>(p: Port<S, G>, s: S) {
    s in p.socks ==> p.socks[s].user == 0
  }

  lemma {:induction false} DeleteMute<S, G>(p: Port<S, G>, x: S, force: bool, cancelled: bool, s: S)
    requires Mute(p, s) && x in p.socks
    ensures Mute(Delete(p, x, force, cancelled), s)
  {}

  lemma {:induction false} NewMute<S, G>(p: Port<S, G>, x: S, key: nat, made: Option<G>, room: bool, s: S)
    requires Mute(p, s) && x !in p.socks
    ensures Mute(New(p, x, key, made, room).0, s)
  {}

  lemma {:induction false} SetEventMute<S, G>(p: Port<S, G>, x: S, events: bv32, data: nat, s: S)
    requires Mute(p, s) && x in p.socks && x != s
    ensures Mute(SetEvent(p, x, events, data), s)
  {}

  lemma {:induction false} UpdateMute<S, G>(p: Port<S, G>, x: S, poll: PollResult, cancelled: bool, s: S)
    requires Mute(p, s) && x in p.socks
    ensures Mute(Update(p, x, poll, cancelled).0, s)
  {
    DeleteMute(p, x, false, cancelled, s);
  }

  lemma {:induction false} FeedMute<S, G>(p: Port<S, G>, x: S, done: Completion, s: S)
    requires Mute(p, s) && x in p.socks
    ensures Mute(Feed(p, x, done).0, s)
    ensures x == s ==> Feed(p, x, done).1 == Silent
  {
    SettleMute(Completed(p, x), x, Closes(done), Reported(done), s);
  }

  lemma {:induction false} SettleMute<S, G>(p: Port<S, G>, x: S, closed: bool, reported: bv32, s: S)
    requires Mute(p, s) && x in p.socks
    ensures Mute(Settle(p, x, closed, reported).0, s)
    ensures x == s ==> Settle(p, x, closed, reported).1 == Silent
  {
    DeleteMute(p, x, false, false, s);
    NoneAsked(reported);
  }

  /** No step but the user's own request makes a muted socket ask for events. */
  lemma {:induction false} StepMute<S, G>(p: Port<S, G>, step: PortStep<S, G>, s: S)
    requires Mute(p, s) && !(step.SetEventStep? && step.s == s)
    ensures Mute(Take(p, step), s)
  {
    match step
    case NewStep(x, key, made, room) => if x !in p.socks { NewMute(p, x, key, made, room, s); }
    case SetEventStep(x, events, data) => if x in p.socks { SetEventMute(p, x, events, data, s); }
    case UpdateStep(x, poll, cancelled) => if x in p.socks { UpdateMute(p, x, poll, cancelled, s); }
    case FeedStep(x, done) => if x in p.socks { FeedMute(p, x, done, s); }
    case DeleteStep(x, force, cancelled) => if x in p.socks { DeleteMute(p, x, force, cancelled, s); }
  }

  lemma {:induction false} StepsMute<S, G>(p: Port<S, G>, steps: seq<PortStep<S, G>>, s: S)
    requires Mute(p, s) && forall step :: step in steps ==> !(step.SetEventStep? && step.s == s)
    ensures Mute(TakeAll(p, steps), s)
    decreases |steps|
  {
    if steps != [] {
      StepMute(p, steps[0], s);
      StepsMute(Take(p, steps[0]), steps[1..], s);
    }
  }

  /** EPOLLONESHOT: after a report, and whatever steps of whatever sockets follow, nothing more is reported
      of the socket, whatever its polls give, until its user asks again. */
  lemma {:induction false} OneShot<S, G>(p: Port<S, G>, s: S, done: Completion, steps: seq<PortStep<S, G>>, more: Completion)
    requires s in p.socks && Feed(p, s, done).1.Report? && p.socks[s].user & EPOLLONESHOT != 0
    requires forall step :: step in steps ==> !(step.SetEventStep? && step.s == s)
    ensures var q := TakeAll(Feed(p, s, done).0, steps); s in q.socks ==> Feed(q, s, more).1 == Silent
  {
    var q := TakeAll(Feed(p, s, done).0, steps);
    StepsMute(Feed(p, s, done).0, steps, s);
    if s in q.socks { FeedMute(q, s, more, s); }
  }

  lemma {:induction false} NoneAsked(reported: bv32)
    ensures reported & 0 == 0
  {}

  // ----- teardown -----------------------------------------------------------------------------------

  /** What still holds while a port is deleted: sockets may be freed with their polls outstanding. */
  ghost predicate Closing<S, G>(p: Port<S, G>) {
    forall k: nat :: Unfold(k) ==> Sound(p, true)
  }

  lemma {:induction false} SettledClosing<S, G>(p: Port<S, G>)
    requires Settled(p)
    ensures Closing(p)
  {
    assert Unfold(0);
  }

  /** sock_force_delete frees its socket, and only it. */
  lemma {:induction false} ForceKeeps<S, G>(p: Port<S, G>, s: S, cancelled: bool, p': Port<S, G>)
    requires Closing(p) && Thrifty(p) && s in p.socks && p' == Delete(p, s, true, cancelled)
    ensures Closing(p') && Thrifty(p') && p'.socks == p.socks - {s} && p'.freed == p.freed + {s} && s !in p.freed
    ensures p.tree == map[] ==> p'.tree == map[]
  {
    assert Unfold(0);
    DeleteShape(p, p', s, true, cancelled);
    DeleteKeeps(p, p', s, true, cancelled, true);
    DeleteThrifty(p, p', s, true, cancelled);
  }

  lemma {:induction false} ClosingGroup<S, G>(p: Port<S, G>, s: S)
    requires Closing(p) && s in p.socks
    ensures p.socks[s].group in p.pool.size && p.pool.size[p.socks[s].group] > 0
  {
    assert Unfold(0);
    CountedGroup(p, s);
  }

  lemma {:induction false} ClosingMembers<S, G>(p: Port<S, G>)
    requires Closing(p)
    ensures forall k :: k in p.tree ==> p.tree[k] in p.socks
    ensures forall s :: s in p.deleted ==> s in p.socks
  {
    assert Unfold(0);
  }

  /** With the tree and the deleted queue empty there is nothing left, and no group has a user. */
  lemma {:induction false} NothingLeft<S, G>(p: Port<S, G>)
    requires Closing(p) && Thrifty(p) && p.tree == map[] && p.deleted == []
    ensures p.socks == map[] && p.update == []
    ensures forall g :: g in p.pool.queue ==> g in p.pool.size && p.pool.size[g] == 0
  {
    assert Unfold(0);
    assert p.socks == map[];
    FirstIn(p.update);
    forall g | g in p.pool.size ensures p.pool.size[g] == 0 { assert Users(p, g) == {}; }
  }
}
