/** wepoll's port: the objects that the poll state machine updates in place. */
module PollPort {
  import opened Basics
  import opened Sequences
  import opened PollGroups
  import opened PollPortSteps
  import opened PollPortReports

  class PollGroup {
    var group_size: nat

    constructor ()
      ensures group_size == 0
    {
      group_size := 0;
    }
  }

  class SockState {
    var key: nat
    var poll_group: PollGroup
    var user_events: bv32
    var user_data: nat
    var pending_events: bv32
    var poll_status: Status
    var delete_pending: bool

    constructor (key: nat, poll_group: PollGroup)
      ensures this.key == key && this.poll_group == poll_group && user_events == 0 && user_data == 0
      ensures pending_events == 0 && poll_status == Idle && !delete_pending
    {
      this.key, this.poll_group, user_events, user_data, pending_events, poll_status, delete_pending :=
        key, poll_group, 0, 0, 0, Idle, false;
    }

    ghost function Value(): Sock<PollGroup>
      reads this
    {
      Sock(key, poll_group, user_events, user_data, pending_events, poll_status, delete_pending)
    }
  }

  ghost function Values(socks: seq<SockState>): (r: seq<Sock<PollGroup>>)
    reads socks
    ensures |r| == |socks|
  {
    seq(|socks|, i requires 0 <= i < |socks| reads socks => socks[i].Value())
  }

  /** The sockets from the i-th on are as they were. */
  ghost predicate Still(socks: seq<SockState>, cs: seq<Sock<PollGroup>>, i: nat)
    requires |socks| == |cs|
    reads socks
  {
    forall j :: i <= j < |socks| ==> socks[j].Value() == cs[j]
  }

  ghost function Made(made: Option<PollGroup>): set<PollGroup> {
    if made.None? then {} else {made.value}
  }

  class PortState {
    var iocp_open: bool
    var sock_tree: map<nat, SockState>
    var sock_update_queue: seq<SockState>
    var sock_deleted_queue: seq<SockState>
    var poll_group_queue: seq<PollGroup>
    ghost var live: set<SockState>
    ghost var groups: set<PollGroup>
    ghost var outstanding: set<SockState>
    ghost var freed: set<SockState>
    ghost var peak: nat

    ghost function Socks(): map<SockState, Sock<PollGroup>>
      reads this`live, live
    {
      map s | s in live :: s.Value()
    }

    ghost function Groups(): Pool<PollGroup>
      reads this`poll_group_queue, this`groups, groups
    {
      Pool(poll_group_queue, map g | g in groups :: g.group_size)
    }

    /** The port as a value. */
    ghost function View(): Port<SockState, PollGroup>
      reads this`sock_tree, this`sock_update_queue, this`sock_deleted_queue, this`poll_group_queue, this`live, this`groups,
            this`outstanding, this`freed, this`peak, live, groups
    {
      Port(sock_tree, sock_update_queue, sock_deleted_queue, Socks(), outstanding, freed, Groups(), peak)
    }

    /** What holds whenever the port lock is free. */
    ghost predicate Valid()
      reads this`sock_tree, this`sock_update_queue, this`sock_deleted_queue, this`poll_group_queue, this`live, this`groups,
            this`outstanding, this`freed, this`peak, live, groups
    {
      Settled(View()) && Thrifty(View())
    }

    /** port_new. */
    constructor ()
      ensures View() == Empty() && Valid() && iocp_open
    {
      iocp_open := true;
      sock_tree, sock_update_queue, sock_deleted_queue, poll_group_queue := map[], [], [], [];
      live, groups, outstanding, freed, peak := {}, {}, {}, {}, 0;
      new;
      assert Socks() == map[] && Groups() == Pool([], map[]);
      EmptySettled<SockState, PollGroup>();
    }

    // ----- poll groups -----------------------------------------------------------------------------

    /** poll_group_acquire; `can` says whether a device handle can be opened if one is needed. */
    method AcquireGroup(can: bool) returns (g: PollGroup?, ghost made: Option<PollGroup>)
      requires Sized(Groups())
      modifies this`poll_group_queue, this`groups, groups`group_size
      ensures made.Some? ==> fresh(made.value)
      ensures Groups() == Acquire(old(Groups()), made).0 && Socks() == old(Socks())
      ensures g == null <==> Acquire(old(Groups()), made).1.None?
      ensures g == null ==> Groups() == old(Groups()) && !can
      ensures g != null ==> Acquire(old(Groups()), made).1.value == g
      ensures g != null ==> g in groups && g.group_size > 0
      ensures groups == old(groups) + Made(made)
    {
      made := None;
      g := null;
      if |poll_group_queue| > 0 { g := poll_group_queue[|poll_group_queue| - 1]; }
      assert g != null ==> g in groups && Groups().size[g] == g.group_size;
      if g == null || g.group_size >= MaxGroupSize {
        if !can { g := null; return; }
        g := NewGroup();
        made := Some(g);
      }
      JoinGroup(g);
    }

    method NewGroup() returns (g: PollGroup)
      modifies this`poll_group_queue, this`groups
      ensures fresh(g) && groups == old(groups) + {g} && Groups() == Grown(old(Groups()), g) && Socks() == old(Socks())
    {
      g := new PollGroup();
      poll_group_queue := poll_group_queue + [g];
      groups := groups + {g};
    }

    method JoinGroup(g: PollGroup)
      requires g in groups
      modifies this`poll_group_queue, g`group_size
      ensures Groups() == Join(old(Groups()), g) && Socks() == old(Socks())
    {
      g.group_size := g.group_size + 1;
      if g.group_size == MaxGroupSize {
        poll_group_queue := [g] + Without(poll_group_queue, g);
      }
    }

    /** poll_group_release. */
    method ReleaseGroupOf(g: PollGroup)
      requires g in groups && g.group_size > 0
      modifies this`poll_group_queue, g`group_size
      ensures Groups() == Release(old(Groups()), g) && Socks() == old(Socks())
    {
      g.group_size := g.group_size - 1;
      poll_group_queue := Without(poll_group_queue, g) + [g];
    }

    // ----- the two queues ----------------------------------------------------------------------------

    method RequestSocketUpdate(s: SockState)
      modifies this`sock_update_queue
      ensures View() == RequestUpdate(old(View()), s)
    {
      if s in sock_update_queue || s in sock_deleted_queue { return; }
      sock_update_queue := sock_update_queue + [s];
    }

    method AddDeletedSocket(s: SockState)
      modifies this`sock_deleted_queue
      ensures View() == AddDeleted(old(View()), s)
    {
      if s in sock_update_queue || s in sock_deleted_queue { return; }
      sock_deleted_queue := sock_deleted_queue + [s];
    }

    method RemoveFromQueue(s: SockState)
      modifies this`sock_update_queue, this`sock_deleted_queue
      ensures View() == Unqueue(old(View()), s)
    {
      if !(s in sock_update_queue || s in sock_deleted_queue) { return; }
      sock_update_queue := Without(sock_update_queue, s);
      sock_deleted_queue := Without(sock_deleted_queue, s);
    }

    // ----- sockets -----------------------------------------------------------------------------------

    /** sock__cancel_poll; `accepted` is the kernel's answer. */
    method CancelPollOf(s: SockState, accepted: bool) returns (ok: bool)
      requires s in live && s.poll_status == Pending
      modifies s`poll_status, s`pending_events
      ensures ok == accepted
      ensures View() == if accepted then With(old(View()), s, CancelPoll(old(s.Value()))) else old(View())
    {
      if !accepted { return false; }
      s.poll_status := Cancelled;
      s.pending_events := 0;
      assert Socks() == old(Socks())[s := CancelPoll(old(s.Value()))];
      return true;
    }

    method MarkDeleted(s: SockState)
      requires s in live
      modifies this`sock_tree, s`delete_pending
      ensures View() == With(old(View()), s, old(s.Value()).(deletePending := true)).(tree := old(sock_tree) - {s.key})
    {
      sock_tree := sock_tree - {s.key};
      s.delete_pending := true;
      assert Socks() == old(Socks())[s := old(s.Value()).(deletePending := true)];
    }

    lemma {:induction false} SockValue(s: SockState)
      requires s in live
      ensures s in View().socks && View().socks[s] == s.Value()
    {}

    method UnregisterSock(s: SockState, accepted: bool)
      requires s in live
      modifies this`sock_tree, this`sock_update_queue, this`sock_deleted_queue, s`poll_status, s`pending_events, s`delete_pending
      ensures View() == Unregister(old(View()), s, accepted)
    {
      SockValue(s);
      ghost var p, c := View(), s.Value();
      if !s.delete_pending {
        if s.poll_status == Pending { var _ := CancelPollOf(s, accepted); }
        UnregisterOrder(p, s, if c.status == Pending && accepted then CancelPoll(c) else c);
        SockValue(s);
        RemoveFromQueue(s);
        MarkDeleted(s);
      }
    }

    method FreeSock(s: SockState)
      requires s in live && s.poll_group in groups && s.poll_group.group_size > 0
      modifies this`sock_update_queue, this`sock_deleted_queue, this`live, this`freed, this`poll_group_queue, s.poll_group`group_size
      ensures View() == Free(old(View()), s) && live == old(live) - {s}
    {
      assert Socks()[s] == s.Value();
      RemoveFromQueue(s);
      ReleaseGroupOf(s.poll_group);
      live := live - {s};
      freed := freed + {s};
      assert Socks() == old(Socks()) - {s};
    }

    /** sock__delete. */
    method SockDelete(s: SockState, force: bool, accepted: bool)
      requires s in live && s.poll_group in groups && s.poll_group.group_size > 0
      modifies this`sock_tree, this`sock_update_queue, this`sock_deleted_queue, this`poll_group_queue, this`live, this`freed,
               s`poll_status, s`pending_events, s`delete_pending, groups`group_size
      ensures View() == Delete(old(View()), s, force, accepted)
      ensures live == if force || old(s.poll_status) == Idle then old(live) - {s} else old(live)
    {
      SockValue(s);
      UnregisterSock(s, accepted);
      SockValue(s);
      if force || s.poll_status == Idle {
        FreeSock(s);
      } else {
        AddDeletedSocket(s);
      }
    }

    /** sock_new: `valid` is the verdict on the handle, `can` whether a new poll group can be made, `room`
        whether there is memory. */
    method SockNew(socket: nat, valid: bool, can: bool, room: bool) returns (s: SockState?, ghost made: Option<PollGroup>)
      requires Sized(Groups())
      modifies this`sock_tree, this`poll_group_queue, this`live, this`groups, this`peak, groups`group_size
      ensures made.Some? ==> fresh(made.value)
      ensures s == null ==> View() == (if valid then Refused(old(View()), made) else old(View())) && live == old(live)
      ensures s != null ==> fresh(s) && live == old(live) + {s} && (View(), true) == New(old(View()), s, socket, made, room)
      ensures s != null ==> s !in old(View()).socks && s !in old(freed)
      ensures made.Some? ==> made.value !in old(Groups()).size
      ensures valid && can && room && socket !in old(sock_tree) ==> s != null
      ensures groups == old(groups) + Made(made)
    {
      s, made := null, None;
      if !valid { return; }
      var g;
      g, made := TakeGroup(can);
      if g == null { return; }
      s := RegisterSock(socket, g, room);
    }

    method TakeGroup(can: bool) returns (g: PollGroup?, ghost made: Option<PollGroup>)
      requires Sized(Groups())
      modifies this`poll_group_queue, this`groups, this`peak, groups`group_size
      ensures made.Some? ==> fresh(made.value)
      ensures g == null ==> Acquire(old(Groups()), made).1.None? && View() == old(View()) && !can
      ensures g != null ==> Acquire(old(Groups()), made).1.Some? && Acquire(old(Groups()), made).1.value == g
      ensures g != null ==> View() == Acquired(old(View()), Acquire(old(Groups()), made).0)
      ensures g != null ==> g in groups && g.group_size > 0
      ensures groups == old(groups) + Made(made)
    {
      LiveCount();
      ghost var p := View();
      g, made := AcquireGroup(can);
      assert View() == p.(pool := Groups());
      if g != null { CountAcquired(p); }
    }

    ghost method CountAcquired(p: Port<SockState, PollGroup>)
      requires View() == p.(pool := Groups()) && |p.socks| == |live|
      modifies this`peak
      ensures View() == Acquired(p, Groups())
    {
      peak := if |live| < peak then peak else |live| + 1;
    }

    method RegisterSock(socket: nat, g: PollGroup, room: bool) returns (s: SockState?)
      requires g in groups && g.group_size > 0
      modifies this`sock_tree, this`poll_group_queue, this`live, g`group_size
      ensures s == null ==> View() == ReleaseGroup(old(View()), g) && live == old(live) && (!room || socket in old(sock_tree))
      ensures s != null ==> fresh(s) && live == old(live) + {s} && (View(), true) == Register(old(View()), s, socket, g, room)
    {
      s := null;
      if !room || socket in sock_tree {
        ReleaseGroupOf(g);
      } else {
        s := new SockState(socket, g);
        sock_tree := sock_tree[socket := s];
        live := live + {s};
        assert Socks() == old(Socks())[s := s.Value()];
      }
    }

    lemma {:induction false} LiveCount()
      ensures |View().socks| == |live|
    {
      assert Socks().Keys == live;
    }

    method SockSetEvent(s: SockState, events: bv32, data: nat)
      requires s in live
      modifies s`user_events, s`user_data, this`sock_update_queue
      ensures View() == SetEvent(old(View()), s, events, data)
    {
      SockValue(s);
      SetUser(s, events | EPOLLERR | EPOLLHUP, data);
      if !Covered(s.user_events, s.pending_events) {
        RequestSocketUpdate(s);
      }
    }

    method SetUser(s: SockState, events: bv32, data: nat)
      requires s in live
      modifies s`user_events, s`user_data
      ensures View() == With(old(View()), s, old(s.Value()).(user := events, data := data))
      ensures s.user_events == events && s.pending_events == old(s.pending_events)
    {
      s.user_events, s.user_data := events, data;
      assert Socks() == old(Socks())[s := old(s.Value()).(user := events, data := data)];
    }

    method SetPoll(s: SockState, status: Status, pending: bv32)
      requires s in live
      modifies s`poll_status, s`pending_events
      ensures View() == With(old(View()), s, old(s.Value()).(status := status, pending := pending))
    {
      s.poll_status, s.pending_events := status, pending;
      assert Socks() == old(Socks())[s := old(s.Value()).(status := status, pending := pending)];
    }

    method Submit(s: SockState)
      requires s in live
      modifies this`outstanding, s`poll_status, s`pending_events
      ensures View() == With(old(View()), s, old(s.Value()).(status := Pending, pending := s.user_events)).(outstanding := old(outstanding) + {s})
    {
      SetPoll(s, Pending, s.user_events);
      outstanding := outstanding + {s};
    }

    /** sock_update; `poll` and `accepted` are the kernel's answers. */
    method SockUpdate(s: SockState, poll: PollResult, accepted: bool) returns (ok: bool)
      requires s in live && !s.delete_pending && s.poll_group in groups && s.poll_group.group_size > 0
      modifies this`sock_tree, this`sock_update_queue, this`sock_deleted_queue, this`poll_group_queue, this`live, this`freed, this`outstanding,
               s`poll_status, s`pending_events, s`delete_pending, groups`group_size
      ensures (View(), ok) == Update(old(View()), s, poll, accepted) && live <= old(live)
    {
      SockValue(s);
      UpdateShape(View(), s, poll, accepted);
      if s.poll_status == Idle && poll == InvalidHandle {
        SockDelete(s, false, accepted);
        return true;
      }
      ok := Repoll(s, poll, accepted);
      if ok { RemoveFromQueue(s); }
    }

    /** sock_update on a socket that stays, up to taking it off the queue. */
    method Repoll(s: SockState, poll: PollResult, accepted: bool) returns (ok: bool)
      requires s in live && (s.poll_status == Idle ==> poll != InvalidHandle)
      modifies this`outstanding, s`poll_status, s`pending_events
      ensures ok <==> Goes(old(s.Value()), poll, accepted)
      ensures View() == if ok then Polling(old(View()), s, accepted) else old(View())
    {
      SockValue(s);
      if s.poll_status == Pending {
        if !Covered(s.user_events, s.pending_events) { ok := CancelPollOf(s, accepted); } else { ok := true; }
      } else if s.poll_status == Cancelled {
        ok := true;
      } else if poll == OtherError {
        ok := false;
      } else {
        Submit(s);
        ok := true;
      }
    }

    /** The completion of the socket's poll is taken. */
    method Complete(s: SockState)
      requires s in live
      modifies this`outstanding, s`poll_status, s`pending_events
      ensures View() == Completed(old(View()), s)
    {
      SockValue(s);
      SetPoll(s, Idle, 0);
      outstanding := outstanding - {s};
    }

    /** sock_feed_event. */
    method SockFeedEvent(s: SockState, done: Completion) returns (r: Report)
      requires s in live && s.poll_group in groups && s.poll_group.group_size > 0
      modifies this`sock_tree, this`sock_update_queue, this`sock_deleted_queue, this`poll_group_queue, this`live, this`freed, this`outstanding,
               s`user_events, s`user_data, s`poll_status, s`pending_events, s`delete_pending, groups`group_size
      ensures (View(), r) == Feed(old(View()), s, done) && live <= old(live)
      ensures r == Said(old(s.Value()), done)
    {
      SockValue(s);
      FeedSaid(View(), s, done);
      Complete(s);
      r := SettleSock(s, Closes(done), Reported(done));
    }

    method SettleSock(s: SockState, closed: bool, reported: bv32) returns (r: Report)
      requires s in live && s.poll_group in groups && s.poll_group.group_size > 0
      modifies this`sock_tree, this`sock_update_queue, this`sock_deleted_queue, this`poll_group_queue, this`live, this`freed,
               s`user_events, s`user_data, s`poll_status, s`pending_events, s`delete_pending, groups`group_size
      ensures (View(), r) == Settle(old(View()), s, closed, reported) && live <= old(live)
    {
      SockValue(s);
      if s.delete_pending || closed {
        SockDelete(s, false, false);
        r := Silent;
      } else {
        r := RearmSock(s, reported);
      }
    }

    method RearmSock(s: SockState, reported: bv32) returns (r: Report)
      requires s in live
      modifies this`sock_update_queue, s`user_events, s`user_data
      ensures (View(), r) == Rearm(old(View()), s, reported)
    {
      SockValue(s);
      r := RearmSockWith(s, reported & s.user_events, s.user_events & EPOLLONESHOT != 0);
    }

    method RearmSockWith(s: SockState, events: bv32, oneShot: bool) returns (r: Report)
      requires s in live
      modifies this`sock_update_queue, s`user_events, s`user_data
      ensures (View(), r) == RearmWith(old(View()), s, events, oneShot)
    {
      SockValue(s);
      RequestSocketUpdate(s);
      if events == 0 { return Silent; }
      r := Report(s.user_data, events);
      if oneShot { Silence(s); }
    }

    method Silence(s: SockState)
      requires s in live
      modifies s`user_events, s`user_data
      ensures View() == With(old(View()), s, old(s.Value()).(user := 0))
    {
      SetUser(s, 0, s.user_data);
    }

    // ----- the port -----------------------------------------------------------------------------------

    /** port__update_events: `poll` and `accepted` are the kernel's answers, call by call. */
    method UpdateEvents(poll: nat -> PollResult, accepted: nat -> bool) returns (ok: bool)
      requires Valid()
      modifies this`sock_tree, this`sock_update_queue, this`sock_deleted_queue, this`poll_group_queue, this`live, this`freed, this`outstanding,
               live`poll_status, live`pending_events, live`delete_pending, groups`group_size
      ensures Valid() && live <= old(live)
      ensures ok ==> sock_update_queue == []
    {
      var i := 0;
      while sock_update_queue != []
        invariant Valid() && live <= old(live)
        decreases |sock_update_queue|
      {
        ghost var p, s := View(), sock_update_queue[0];
        SettledQueue(p);
        GroupInUse(s);
        SockValue(s);
        ok := SockUpdate(sock_update_queue[0], poll(i), accepted(i));
        UpdateKeeps(p, s, poll(i), accepted(i), View(), ok);
        UpdateThrifty(p, s, poll(i), accepted(i));
        if !ok { return; }
        i := i + 1;
      }
      ok := true;
    }

    /** port__feed_events: each completed poll is fed to its socket, which is still there, and what they have
        to report is reported in their order. */
    method FeedEvents(socks: seq<SockState>, done: seq<Completion>) returns (events: seq<Report>)
      requires Valid() && |socks| == |done|
      requires NoDup(socks) && forall s :: s in socks ==> s in outstanding
      modifies this`sock_tree, this`sock_update_queue, this`sock_deleted_queue, this`poll_group_queue, this`live, this`freed, this`outstanding,
               live`user_events, live`user_data, live`poll_status, live`pending_events, live`delete_pending, groups`group_size
      ensures Valid() && live <= old(live)
      ensures outstanding == old(outstanding) - set s | s in socks
      ensures events == Spoken(AllSaid(old(Values(socks)), done))
    {
      events := [];
      ghost var cs := Values(socks);
      ghost var said := AllSaid(cs, done);
      for i := 0 to |socks|
        invariant Valid() && live <= old(live) && events == Spoken(said[..i])
        invariant Fed(socks[..i], socks[i..], old(outstanding), outstanding) && Still(socks, cs, i)
      {
        SpokenSnoc(said, i);
        var r := FeedNext(socks, i, done[i], cs, old(outstanding));
        if r.Report? { events := events + [r]; }
      }
      assert socks[..|socks|] == socks && said[..|socks|] == said;
    }

    method FeedNext(socks: seq<SockState>, i: nat, done: Completion, ghost cs: seq<Sock<PollGroup>>, ghost was: set<SockState>) returns (r: Report)
      requires Valid() && i < |socks| == |cs| && Fed(socks[..i], socks[i..], was, outstanding) && Still(socks, cs, i)
      modifies this`sock_tree, this`sock_update_queue, this`sock_deleted_queue, this`poll_group_queue, this`live, this`freed, this`outstanding,
               live`user_events, live`user_data, live`poll_status, live`pending_events, live`delete_pending, groups`group_size
      ensures Valid() && live <= old(live) && r == Said(cs[i], done)
      ensures Fed(socks[..i + 1], socks[i + 1..], was, outstanding) && Still(socks, cs, i + 1)
    {
      FedOne(socks, i, was, outstanding);
      SettledOutstanding(View(), socks[i]);
      r := FeedOne(socks[i], done);
    }

    method FeedOne(s: SockState, done: Completion) returns (r: Report)
      requires Valid() && s in live && s in outstanding
      modifies this`sock_tree, this`sock_update_queue, this`sock_deleted_queue, this`poll_group_queue, this`live, this`freed, this`outstanding,
               s`user_events, s`user_data, s`poll_status, s`pending_events, s`delete_pending, groups`group_size
      ensures Valid() && live <= old(live) && outstanding == old(outstanding) - {s}
      ensures r == Said(old(s.Value()), done)
    {
      ghost var p := View();
      GroupInUse(s);
      r := SockFeedEvent(s, done);
      FeedKeeps(p, s, done, View(), r);
      FeedThrifty(p, s, done);
    }

    /** port__ctl_add, up to the update of events; the handle's validity and the resources are the
        system's answers. A null result stands for the error return. */
    method CtlAdd(socket: nat, valid: bool, can: bool, room: bool, events: bv32, data: nat)
      returns (s: SockState?, ghost made: Option<PollGroup>)
      requires Valid()
      modifies this`sock_tree, this`sock_update_queue, this`poll_group_queue, this`live, this`groups, this`peak, groups`group_size
      ensures Valid() && groups == old(groups) + Made(made) && (made.Some? ==> fresh(made.value))
      ensures s == null ==> sock_tree == old(sock_tree) && live == old(live)
      ensures s != null ==> fresh(s) && live == old(live) + {s} && socket !in old(sock_tree) && sock_tree == old(sock_tree)[socket := s]
      ensures s != null ==> s.user_events == events | EPOLLERR | EPOLLHUP && s.user_data == data
      ensures valid && can && room && socket !in old(sock_tree) ==> s != null
    {
      ghost var p := View();
      s, made := NewOrRefuse(socket, valid, can, room);
      if s != null {
        AddKeeps(p, s, socket, made, room, events, data);
        FirstEvents(s, events, data);
      }
    }

    method NewOrRefuse(socket: nat, valid: bool, can: bool, room: bool) returns (s: SockState?, ghost made: Option<PollGroup>)
      requires Valid()
      modifies this`sock_tree, this`poll_group_queue, this`live, this`groups, this`peak, groups`group_size
      ensures made.Some? ==> fresh(made.value) && made.value !in old(Groups()).size
      ensures s == null ==> Valid() && sock_tree == old(sock_tree) && live == old(live)
      ensures s != null ==> fresh(s) && live == old(live) + {s} && (View(), true) == New(old(View()), s, socket, made, room)
      ensures s != null ==> s !in old(View()).socks && s !in old(freed)
      ensures valid && can && room && socket !in old(sock_tree) ==> s != null
      ensures groups == old(groups) + Made(made)
    {
      ghost var p := View();
      ThriftySized(p);
      s, made := SockNew(socket, valid, can, room);
      if s == null && valid { RefusedKeeps(p, made); }
    }

    method FirstEvents(s: SockState, events: bv32, data: nat)
      requires s in live && Settled(SetEvent(View(), s, events, data)) && Thrifty(SetEvent(View(), s, events, data))
      modifies this`sock_update_queue, s`user_events, s`user_data
      ensures Valid() && s.user_events == events | EPOLLERR | EPOLLHUP && s.user_data == data
    {
      SockValue(s);
      SockSetEvent(s, events, data);
      SockValue(s);
    }

    /** port__ctl_mod. */
    method CtlMod(socket: nat, events: bv32, data: nat) returns (ok: bool)
      requires Valid()
      modifies this`sock_update_queue, live`user_events, live`user_data
      ensures Valid() && (ok <==> socket in sock_tree)
      ensures ok ==> sock_tree[socket].user_events == events | EPOLLERR | EPOLLHUP && sock_tree[socket].user_data == data
      ensures !ok ==> View() == old(View())
    {
      if socket !in sock_tree { return false; }
      SettledTree(View(), socket);
      ModKeeps(View(), sock_tree[socket], events, data);
      FirstEvents(sock_tree[socket], events, data);
      return true;
    }

    /** port__ctl_del: the socket leaves the tree at once, and memory when its poll has completed. */
    method CtlDel(socket: nat, accepted: bool) returns (ok: bool)
      requires Valid()
      modifies this`sock_tree, this`sock_update_queue, this`sock_deleted_queue, this`poll_group_queue, this`live, this`freed,
               live`poll_status, live`pending_events, live`delete_pending, groups`group_size
      ensures Valid() && (ok <==> socket in old(sock_tree)) && sock_tree == old(sock_tree) - {socket} && live <= old(live)
      ensures ok ==> var s := old(sock_tree)[socket]; if s in outstanding then s in live && s in sock_deleted_queue else s in freed
      ensures ok ==> var s := old(sock_tree)[socket]; old(s.poll_status) == Pending && accepted ==> s.poll_status == Cancelled
      ensures !ok ==> View() == old(View())
    {
      if socket !in sock_tree { return false; }
      ghost var p, s := View(), sock_tree[socket];
      SettledTree(p, socket);
      GroupInUse(s);
      SockDelete(sock_tree[socket], false, accepted);
      DelKeeps(p, s, accepted, View());
      return true;
    }

    /** sock_force_delete. */
    method ForceDelete(s: SockState, accepted: bool)
      requires s in live && Closing(View()) && Thrifty(View())
      modifies this`sock_tree, this`sock_update_queue, this`sock_deleted_queue, this`poll_group_queue, this`live, this`freed,
               s`poll_status, s`pending_events, s`delete_pending, groups`group_size
      ensures Closing(View()) && Thrifty(View()) && live == old(live) - {s} && freed == old(freed) + {s} && s !in old(freed)
      ensures old(sock_tree) == map[] ==> sock_tree == map[]
    {
      ghost var p := View();
      SockValue(s);
      ClosingGroup(p, s);
      SockDelete(s, true, accepted);
      ForceKeeps(p, s, accepted, View());
    }

    /** port_delete, after the port was closed: every socket is freed, once, whatever its poll does;
        every group is empty when it is deleted, and the update queue is empty at the end. */
    method PortDelete(accepted: nat -> bool)
      requires Valid() && !iocp_open
      modifies this`sock_tree, this`sock_update_queue, this`sock_deleted_queue, this`poll_group_queue, this`live, this`freed, this`groups,
               live`poll_status, live`pending_events, live`delete_pending, groups`group_size
      ensures live == {} && freed == old(freed) + old(live) && old(freed) !! old(live)
      ensures sock_tree == map[] && sock_update_queue == [] && sock_deleted_queue == [] && poll_group_queue == [] && groups == {}
    {
      SettledClosing(View());
      FreeTree(accepted);
      FreeDeleted(accepted);
      NothingLeft(View());
      assert live == {} by { assert Socks().Keys == live; }
      assert sock_update_queue == [];
      DeleteGroups();
    }

    method FreeTree(accepted: nat -> bool)
      requires Closing(View()) && Thrifty(View())
      modifies this`sock_tree, this`sock_update_queue, this`sock_deleted_queue, this`poll_group_queue, this`live, this`freed,
               live`poll_status, live`pending_events, live`delete_pending, groups`group_size
      ensures Closing(View()) && Thrifty(View()) && sock_tree == map[]
      ensures Tally(old(live), old(freed), live, freed)
    {
      var i := 0;
      while sock_tree != map[]
        invariant Closing(View()) && Thrifty(View())
        invariant Tally(old(live), old(freed), live, freed)
        decreases |live|
      {
        ClosingMembers(View());
        var k :| k in sock_tree;
        TallyStep(old(live), old(freed), live, freed, sock_tree[k]);
        ForceDelete(sock_tree[k], accepted(i));
        i := i + 1;
      }
    }

    method FreeDeleted(accepted: nat -> bool)
      requires Closing(View()) && Thrifty(View()) && sock_tree == map[]
      modifies this`sock_tree, this`sock_update_queue, this`sock_deleted_queue, this`poll_group_queue, this`live, this`freed,
               live`poll_status, live`pending_events, live`delete_pending, groups`group_size
      ensures Closing(View()) && Thrifty(View()) && sock_tree == map[] && sock_deleted_queue == []
      ensures Tally(old(live), old(freed), live, freed)
    {
      var i := 0;
      while sock_deleted_queue != []
        invariant Closing(View()) && Thrifty(View()) && sock_tree == map[]
        invariant Tally(old(live), old(freed), live, freed)
        decreases |live|
      {
        ClosingMembers(View());
        FirstIn(sock_deleted_queue);
        TallyStep(old(live), old(freed), live, freed, sock_deleted_queue[0]);
        ForceDelete(sock_deleted_queue[0], accepted(i));
        i := i + 1;
      }
    }

    method DeleteGroups()
      requires forall g :: g in poll_group_queue ==> g in groups && g.group_size == 0
      modifies this`poll_group_queue, this`groups
      ensures poll_group_queue == [] && groups == {}
    {
      while poll_group_queue != []
        invariant forall g :: g in poll_group_queue ==> g.group_size == 0
        decreases |poll_group_queue|
      {
        assert poll_group_queue[0] in poll_group_queue;
        assert poll_group_queue[0].group_size == 0;
        poll_group_queue := poll_group_queue[1..];
      }
      groups := {};
    }

    lemma {:induction false} GroupInUse(s: SockState)
      requires s in live && Settled(View())
      ensures s.poll_group in groups && s.poll_group.group_size > 0
    {
      SettledGroup(View(), s);
    }
  }

  /** The order in which a socket is changed and unqueued does not matter. */
  lemma {:induction false} UnregisterOrder(p: Port<SockState, PollGroup>, s: SockState, c: Sock<PollGroup>)
    requires s in p.socks
    ensures var p1 := Unqueue(With(p, s, c), s);
            With(p1, s, c.(deletePending := true)) == With(Unqueue(p, s), s, c.(deletePending := true))
    ensures With(Unqueue(p, s), s, p.socks[s]) == Unqueue(p, s)
  {
    assert p.socks[s := p.socks[s]] == p.socks;
    assert p.socks[s := c][s := c.(deletePending := true)] == p.socks[s := c.(deletePending := true)];
  }

  ghost function AllSaid(cs: seq<Sock<PollGroup>>, done: seq<Completion>): (r: seq<Report>)
    requires |cs| == |done|
    ensures |r| == |cs|
  {
    seq(|cs|, i requires 0 <= i < |cs| => Said(cs[i], done[i]))
  }

  /** The completions of `past` are fed, those of `rest` are still to come. */
  ghost predicate Fed(past: seq<SockState>, rest: seq<SockState>, was: set<SockState>, now: set<SockState>) {
    NoDup(rest) && now == was - (set s | s in past) && forall s :: s in rest ==> s in now
  }

  lemma {:induction false} FedOne(socks: seq<SockState>, i: nat, was: set<SockState>, now: set<SockState>)
    requires i < |socks| && Fed(socks[..i], socks[i..], was, now)
    ensures socks[i] in now && Fed(socks[..i + 1], socks[i + 1..], was, now - {socks[i]})
    ensures forall j :: i < j < |socks| ==> socks[j] != socks[i]
  {
    var rest := socks[i..];
    assert rest[0] == socks[i] && rest[1..] == socks[i + 1..] && socks[..i + 1] == socks[..i] + [socks[i]];
  }

  /** Of the sockets `was` live, those no longer live are freed, each once. */
  ghost predicate Tally(was: set<SockState>, freedWas: set<SockState>, live: set<SockState>, freed: set<SockState>) {
    live <= was && freed == freedWas + (was - live) && freedWas !! (was - live)
  }

  lemma {:induction false} TallyStep(was: set<SockState>, freedWas: set<SockState>, live: set<SockState>, freed: set<SockState>, s: SockState)
    requires Tally(was, freedWas, live, freed) && s in live
    ensures s !in freed ==> Tally(was, freedWas, live - {s}, freed + {s})
  {}
}
