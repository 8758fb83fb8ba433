/** The epoll reactor's table of waiters: per descriptor a list of waiters and the cached OR of their
    masks, which the kernel's registration follows. */
module Reactor {
  import opened Basics
  import opened Sequences

  /** An event mask, as the set of its bits. */
  type Mask = set<nat>

  const EPOLLERR: Mask := {3}
  const EPOLLHUP: Mask := {4}
  const EPOLLET: Mask := {31}

  /** One registration of a waiter; `id` numbers registrations. */
  datatype Item = Item(id: nat, mask: Mask, deadline: Option<int>)

  datatype FdState = FdState(waiters: seq<Item>, interest: Mask)

  /** Where a registration is: in a descriptor's list, taken off it and about to be posted, or posted. */
  datatype Place = At(fd: nat) | Taken | Posted

  function Union(ws: seq<Item>): Mask {
    if ws == [] then {} else Union(ws[..|ws| - 1]) + ws[|ws| - 1].mask
  }

  ghost function IdSet(ws: seq<Item>): set<nat> {
    set w | w in ws :: w.id
  }

  /** What remove_if keeps and what it takes, each in order. */
  function Kept(ws: seq<Item>, p: Item -> bool): seq<Item> {
    if ws == [] then [] else Kept(ws[..|ws| - 1], p) + if p(ws[|ws| - 1]) then [] else [ws[|ws| - 1]]
  }

  function Gone(ws: seq<Item>, p: Item -> bool): seq<Item> {
    if ws == [] then [] else Gone(ws[..|ws| - 1], p) + if p(ws[|ws| - 1]) then [ws[|ws| - 1]] else []
  }

  /** The waiters that an event with these flags wakes. */
  function Wakes(flags: Mask): Item -> bool {
    (w: Item) => flags * w.mask != {} || flags * (EPOLLERR + EPOLLHUP) != {}
  }

  function Expired(now: int): Item -> bool {
    (w: Item) => w.deadline.Some? && w.deadline.value <= now
  }

  lemma {:induction false} KeptSnoc(ws: seq<Item>, w: Item, p: Item -> bool)
    ensures Kept(ws + [w], p) == Kept(ws, p) + if p(w) then [] else [w]
    ensures Gone(ws + [w], p) == Gone(ws, p) + if p(w) then [w] else []
  {
    assert (ws + [w])[..|ws|] == ws;
  }

  /** Keeping and taking divide a list: nothing is lost, nothing is doubled. */
  lemma {:induction false} Divided(ws: seq<Item>, p: Item -> bool)
    ensures forall w :: w in Kept(ws, p) <==> w in ws && !p(w)
    ensures forall w :: w in Gone(ws, p) <==> w in ws && p(w)
    ensures |Kept(ws, p)| + |Gone(ws, p)| == |ws|
  {
    if ws != [] { Divided(ws[..|ws| - 1], p); }
  }

  // ----- the invariant ----------------------------------------------------------------------------

  /** A list of registrations, each once, all of them at this place. */
  ghost predicate Placed(ws: seq<Item>, at: Place, places: seq<Place>) {
    && NoDup(ws)
    && (forall w :: w in ws ==> w.id < |places| && places[w.id] == at)
    && (forall v, w :: v in ws && w in ws && v.id == w.id ==> v == w)
  }

  /** The cached interest is the OR of the masks, and the kernel has it, or nothing if it is empty. */
  ghost predicate Agrees(st: FdState, kernel: Option<Mask>) {
    && st.interest == Union(st.waiters)
    && kernel == Wanted(st.interest)
  }

  /** The registration a cached interest calls for. */
  function Wanted(interest: Mask): Option<Mask> {
    if interest == {} then None else Some(interest + EPOLLERR + EPOLLHUP + EPOLLET)
  }

  function Lookup(kernel: map<nat, Mask>, fd: nat): Option<Mask> {
    if fd in kernel then Some(kernel[fd]) else None
  }

  ghost predicate FdOk(fd: nat, st: FdState, kernel: map<nat, Mask>, places: seq<Place>) {
    Placed(st.waiters, At(fd), places) && Agrees(st, Lookup(kernel, fd))
  }

  /** The table, the kernel's registrations and the places of all registrations fit together. */
  ghost predicate TableOk(fds: map<nat, FdState>, kernel: map<nat, Mask>, places: seq<Place>) {
    && (forall fd :: fd in fds ==> FdOk(fd, fds[fd], kernel, places))
    && (forall fd :: fd in kernel ==> fd in fds)
    && (forall id :: 0 <= id < |places| && places[id].At? ==> places[id].fd in fds && id in IdSet(fds[places[id].fd].waiters))
  }

  /** Every registration posted is posted once. */
  ghost predicate LogOk(posted: seq<nat>, places: seq<Place>) {
    && NoDup(posted)
    && (forall id :: id in posted ==> id < |places| && places[id] == Posted)
    && (forall id :: 0 <= id < |places| && places[id] == Posted ==> id in posted)
  }

  /** One descriptor's entry changes, and only registrations at it move. */
  lemma {:induction false} PutEntry(fds: map<nat, FdState>, kernel: map<nat, Mask>, places: seq<Place>, fd: nat, st: FdState,
                                    kernel': map<nat, Mask>, places': seq<Place>)
    requires TableOk(fds, kernel, places) && FdOk(fd, st, kernel', places')
    requires forall g :: g != fd ==> Lookup(kernel', g) == Lookup(kernel, g)
    requires |places| <= |places'| && forall id :: 0 <= id < |places| && places[id] != At(fd) ==> places'[id] == places[id]
    requires forall id :: 0 <= id < |places'| && places'[id] == At(fd) ==> id in IdSet(st.waiters)
    requires forall id :: 0 <= id < |places'| && places'[id].At? ==> places'[id].fd == fd || (id < |places| && places[id] == places'[id])
    ensures TableOk(fds[fd := st], kernel', places')
  {
    var fds' := fds[fd := st];
    forall g | g in fds' ensures FdOk(g, fds'[g], kernel', places') {
      if g != fd { assert FdOk(g, fds[g], kernel, places); }
    }
    forall g | g in kernel' ensures g in fds' {
      assert Lookup(kernel', g).Some?;
    }
  }

  /** The places after some registrations move. */
  ghost function Moved(places: seq<Place>, ids: set<nat>, to: Place): (r: seq<Place>)
    ensures |r| == |places|
  {
    seq(|places|, i requires 0 <= i < |places| => if i in ids then to else places[i])
  }

  lemma {:induction false} DividedOnce(ws: seq<Item>, p: Item -> bool)
    requires NoDup(ws)
    ensures NoDup(Kept(ws, p)) && NoDup(Gone(ws, p))
  {
    if ws != [] {
      var init, last := ws[..|ws| - 1], ws[|ws| - 1];
      assert ws == init + [last];
      NoDupAppend(init, [last]);
      assert last in [last];
      DividedOnce(init, p);
      Divided(init, p);
      if p(last) { NoDupSnoc(Gone(init, p), last); } else { NoDupSnoc(Kept(init, p), last); }
      assert Kept(init, p) + [] == Kept(init, p) && Gone(init, p) + [] == Gone(init, p);
    }
  }

  /** remove_if on a descriptor's list: what is kept stays at the descriptor, what is taken is taken. */
  lemma {:induction false} DividePlaces(ws: seq<Item>, fd: nat, places: seq<Place>, p: Item -> bool, places': seq<Place>)
    requires Placed(ws, At(fd), places) && (forall id :: 0 <= id < |places| && places[id] == At(fd) ==> id in IdSet(ws))
    requires places' == Moved(places, IdSet(Gone(ws, p)), Taken)
    ensures Placed(Kept(ws, p), At(fd), places') && Placed(Gone(ws, p), Taken, places')
    ensures forall id :: 0 <= id < |places'| && places'[id] == At(fd) ==> id in IdSet(Kept(ws, p))
    ensures forall id :: 0 <= id < |places| && places[id] != At(fd) ==> places'[id] == places[id]
  {
    Divided(ws, p);
    DividedOnce(ws, p);
    forall id | 0 <= id < |places'| && places'[id] == At(fd) ensures id in IdSet(Kept(ws, p)) {
      var w :| w in ws && w.id == id;
      assert w in Kept(ws, p) || w in Gone(ws, p);
    }
  }

  // ----- the reactor --------------------------------------------------------------------------------

  class EpollReactor {
    var fds: map<nat, FdState>
    /** What the kernel watches each descriptor for. */
    var kernel: map<nat, Mask>
    /** The registrations posted to the executor, in order. */
    var posted: seq<nat>
    /** The number of the next registration. */
    var next: nat
    ghost var places: seq<Place>

    ghost predicate Valid()
      reads this
    {
      TableOk(fds, kernel, places) && LogOk(posted, places) && next == |places|
    }

    constructor ()
      ensures Valid() && fds == map[] && kernel == map[] && posted == [] && places == []
    {
      fds, kernel, posted, next, places := map[], map[], [], 0, [];
    }

    method AddFd(fd: nat)
      requires Valid()
      modifies this`fds
      ensures Valid() && fds == if fd in old(fds) then old(fds) else old(fds)[fd := FdState([], {})]
    {
      if fd !in fds {
        PutEntry(fds, kernel, places, fd, FdState([], {}), kernel, places);
        fds := fds[fd := FdState([], {})];
      }
    }

    /** update_fd_interest_unlocked: the cache follows the list, and the kernel the cache. A change of a
        descriptor the kernel does not know (ENOENT) becomes an addition. */
    method UpdateInterest(fd: nat, st: FdState) returns (st': FdState)
      requires Lookup(kernel, fd) == Wanted(st.interest)
      modifies this`kernel
      ensures st' == FdState(st.waiters, Union(st.waiters)) && Agrees(st', Lookup(kernel, fd))
      ensures forall g :: g != fd ==> Lookup(kernel, g) == Lookup(old(kernel), g)
    {
      var interest := AllMasks(st.waiters);
      st' := FdState(st.waiters, interest);
      if interest == st.interest { return; }
      if interest == {} {
        kernel := kernel - {fd};
        return;
      }
      kernel := kernel[fd := interest + EPOLLERR + EPOLLHUP + EPOLLET];
    }

    method AllMasks(ws: seq<Item>) returns (interest: Mask)
      ensures interest == Union(ws)
    {
      interest := {};
      for i := 0 to |ws|
        invariant interest == Union(ws[..i])
      {
        assert ws[..i + 1][..i] == ws[..i];
        interest := interest + ws[i].mask;
      }
      assert ws[..|ws|] == ws;
    }

    /** register_waiter: the new registration is last at its descriptor. */
    method Register(fd: nat, mask: Mask, deadline: Option<int>) returns (id: nat)
      requires Valid()
      modifies this`fds, this`kernel, this`places, this`next
      ensures Valid() && id == |old(places)| && places == old(places) + [At(fd)] && fd in fds && fds == old(fds)[fd := fds[fd]]
      ensures fds[fd].waiters == (if fd in old(fds) then old(fds)[fd].waiters else []) + [Item(id, mask, deadline)]
    {
      id := next;
      var st := if fd in fds then fds[fd] else FdState([], {});
      ghost var places' := places + [At(fd)];
      AddPlace(fds, kernel, places, fd, st, Item(id, mask, deadline), places');
      AddLog(posted, places, fd);
      next := next + 1;
      PutWaiters(fd, st.(waiters := st.waiters + [Item(id, mask, deadline)]), places');
    }

    /** A descriptor gets another list of waiters. */
    method PutWaiters(fd: nat, st: FdState, ghost places': seq<Place>)
      requires TableOk(fds, kernel, places) && Placed(st.waiters, At(fd), places') && Lookup(kernel, fd) == Wanted(st.interest)
      requires |places| <= |places'| && forall id :: 0 <= id < |places| && places[id] != At(fd) ==> places'[id] == places[id]
      requires forall id :: 0 <= id < |places'| && places'[id] == At(fd) ==> id in IdSet(st.waiters)
      requires forall id :: 0 <= id < |places'| && places'[id].At? ==> places'[id].fd == fd || (id < |places| && places[id] == places'[id])
      modifies this`fds, this`kernel, this`places
      ensures TableOk(fds, kernel, places) && places == places'
      ensures fd in fds && fds == old(fds)[fd := fds[fd]] && fds[fd].waiters == st.waiters
    {
      ghost var kernelWas := kernel;
      var st' := UpdateInterest(fd, st);
      PutEntry(fds, kernelWas, places, fd, st', kernel, places');
      fds := fds[fd := st'];
      places := places';
    }

    /** remove_if, erase and the update of the interest: the waiters that `p` picks leave the list. */
    method TakeOff(fd: nat, p: Item -> bool) returns (gone: seq<Item>)
      requires Valid() && fd in fds
      modifies this`fds, this`kernel, this`places
      ensures Valid() && gone == Gone(old(fds)[fd].waiters, p) && Placed(gone, Taken, places)
      ensures fd in fds && fds == old(fds)[fd := fds[fd]] && fds[fd].waiters == Kept(old(fds)[fd].waiters, p)
      ensures places == Moved(old(places), IdSet(gone), Taken)
    {
      var st := fds[fd];
      assert FdOk(fd, st, kernel, places);
      var kept;
      kept, gone := RemoveIf(st.waiters, p);
      ghost var places' := Moved(places, IdSet(gone), Taken);
      DividePlaces(st.waiters, fd, places, p, places');
      GoneAt(st.waiters, p, fd, places);
      TakenLog(posted, places, IdSet(gone), places', fd);
      PutWaiters(fd, st.(waiters := kept), places');
    }

    method RemoveIf(ws: seq<Item>, p: Item -> bool) returns (kept: seq<Item>, gone: seq<Item>)
      ensures kept == Kept(ws, p) && gone == Gone(ws, p)
    {
      kept, gone := [], [];
      for i := 0 to |ws|
        invariant kept == Kept(ws[..i], p) && gone == Gone(ws[..i], p)
      {
        assert ws[..i + 1] == ws[..i] + [ws[i]];
        KeptSnoc(ws[..i], ws[i], p);
        if p(ws[i]) { gone := gone + [ws[i]]; } else { kept := kept + [ws[i]]; }
      }
      assert ws[..|ws|] == ws;
    }

    /** post_via_route for each of a list taken off. */
    method PostAll(items: seq<Item>)
      requires Valid() && Placed(items, Taken, places)
      modifies this`posted, this`places
      ensures Valid() && posted == old(posted) + Ids(items) && places == Moved(old(places), IdSet(items), Posted)
    {
      ghost var was := places;
      var log := posted;
      for i := 0 to |items|
        invariant log == posted + Ids(items[..i])
      {
        assert items[..i + 1][..i] == items[..i];
        log := log + [items[i].id];
      }
      assert items[..|items|] == items;
      PostedLog(posted, places, items, Moved(places, IdSet(items), Posted));
      PostedTable(fds, kernel, places, items, Moved(places, IdSet(items), Posted));
      posted := log;
      places := Moved(places, IdSet(items), Posted);
    }

    /** The reactor's loop for one event: exactly the waiters it wakes are posted, in order; the others
        stay, in order. */
    method Dispatch(fd: nat, flags: Mask)
      requires Valid()
      modifies this`fds, this`kernel, this`places, this`posted
      ensures Valid()
      ensures fd !in old(fds) ==> fds == old(fds) && posted == old(posted)
      ensures fd in old(fds) ==>
                && fd in fds && fds == old(fds)[fd := fds[fd]] && fds[fd].waiters == Kept(old(fds)[fd].waiters, Wakes(flags))
                && posted == old(posted) + Ids(Gone(old(fds)[fd].waiters, Wakes(flags)))
      ensures fd in old(fds) ==> Woken(old(fds)[fd].waiters, flags, fds[fd].waiters, posted[|old(posted)|..])
    {
      if fd in fds {
        WokenOnes(fds[fd].waiters, flags);
        var gone := TakeOff(fd, Wakes(flags));
        PostAll(gone);
      }
    }

    /** collect_timeouts: exactly the registrations whose deadline has come leave their lists. */
    method CollectTimeouts(now: int) returns (timedOut: seq<Item>)
      requires Valid()
      modifies this`fds, this`kernel, this`places
      ensures Valid() && Collected(fds, places, old(fds), {}, timedOut, now)
      ensures fds.Keys == old(fds).Keys && forall fd :: fd in fds ==> Lapsed(old(fds)[fd].waiters, now, fds[fd].waiters, timedOut)
      ensures forall w :: w in timedOut ==> w.deadline.Some? && w.deadline.value <= now
    {
      timedOut := [];
      var keys := fds.Keys;
      while keys != {}
        invariant Valid() && Collected(fds, places, old(fds), keys, timedOut, now)
        decreases keys
      {
        var fd :| fd in keys;
        timedOut := CollectAt(fd, now, timedOut, old(fds), keys);
        keys := keys - {fd};
      }
      LapsedOnes(fds, places, old(fds), timedOut, now);
    }

    method CollectAt(fd: nat, now: int, timedOut: seq<Item>, ghost was: map<nat, FdState>, ghost todo: set<nat>) returns (timedOut': seq<Item>)
      requires Valid() && fd in todo && Collected(fds, places, was, todo, timedOut, now)
      modifies this`fds, this`kernel, this`places
      ensures Valid() && Collected(fds, places, was, todo - {fd}, timedOut', now)
    {
      ghost var fdsWas, placesWas := fds, places;
      ExpiredAt(fds, kernel, places, fd, now);
      var gone := TakeOff(fd, Expired(now));
      timedOut' := timedOut + gone;
      CollectedStep(fdsWas, placesWas, fds, places, was, todo, fd, timedOut, gone, now);
    }

    /** remove_fd: all of the descriptor's waiters are posted, in order. */
    method RemoveFd(fd: nat)
      requires Valid()
      modifies this`fds, this`kernel, this`places, this`posted
      ensures Valid() && fds == old(fds) - {fd} && kernel == old(kernel) - {fd}
      ensures posted == old(posted) + if fd in old(fds) then Ids(old(fds)[fd].waiters) else []
    {
      assert fd in kernel ==> fd in fds;
      if fd in fds {
        var gone := DropFd(fd);
        PostAll(gone);
      } else {
        assert kernel - {fd} == kernel && fds - {fd} == fds && posted + [] == posted;
      }
    }

    method DropFd(fd: nat) returns (gone: seq<Item>)
      requires Valid() && fd in fds
      modifies this`fds, this`kernel, this`places
      ensures Valid() && fds == old(fds) - {fd} && kernel == old(kernel) - {fd}
      ensures gone == old(fds)[fd].waiters && Placed(gone, Taken, places)
    {
      gone := fds[fd].waiters;
      ghost var places' := Moved(places, IdSet(gone), Taken);
      DropEntry(fds, kernel, places, fd, places');
      TakenLog(posted, places, IdSet(gone), places', fd);
      fds := fds - {fd};
      kernel := kernel - {fd};
      places := places';
    }
  }

  /** Of these waiters exactly those whose mask the event meets are posted and leave, or all of them if it
      carries EPOLLERR or EPOLLHUP. */
  ghost predicate Woken(ws: seq<Item>, flags: Mask, left: seq<Item>, ids: seq<nat>) {
    forall w :: w in ws ==> if flags * w.mask != {} || 3 in flags || 4 in flags then w !in left && w.id in ids else w in left
  }

  lemma {:induction false} WokenOnes(ws: seq<Item>, flags: Mask)
    ensures Woken(ws, flags, Kept(ws, Wakes(flags)), Ids(Gone(ws, Wakes(flags))))
  {
    Divided(ws, Wakes(flags));
    IdsIn(Gone(ws, Wakes(flags)));
  }

  /** Of these waiters exactly those whose deadline has come leave. */
  ghost predicate Lapsed(ws: seq<Item>, now: int, left: seq<Item>, timedOut: seq<Item>) {
    forall w :: w in ws ==> if w.deadline.Some? && w.deadline.value <= now then w !in left && w in timedOut else w in left
  }

  lemma {:induction false} LapsedOnes(fds: map<nat, FdState>, places: seq<Place>, was: map<nat, FdState>, timedOut: seq<Item>, now: int)
    requires Collected(fds, places, was, {}, timedOut, now)
    ensures forall fd :: fd in was ==> fd in fds && Lapsed(was[fd].waiters, now, fds[fd].waiters, timedOut)
  {
    forall fd | fd in was ensures Lapsed(was[fd].waiters, now, fds[fd].waiters, timedOut) {
      Divided(was[fd].waiters, Expired(now));
      forall w | w in was[fd].waiters && Expired(now)(w) ensures w in timedOut {}
    }
  }

  /** The OR of the masks: a bit is in it exactly if some waiter asks for it. */
  lemma {:induction false} UnionIn(ws: seq<Item>, bit: nat)
    ensures bit in Union(ws) <==> exists w :: w in ws && bit in w.mask
  {
    if ws != [] {
      UnionIn(ws[..|ws| - 1], bit);
      assert ws == ws[..|ws| - 1] + [ws[|ws| - 1]];
    }
  }

  /** Of every descriptor but those in `todo`, the expired waiters are gone and the others stay, in order. */
  ghost predicate Swept(was: map<nat, FdState>, fds: map<nat, FdState>, todo: set<nat>, now: int) {
    fds.Keys == was.Keys
    && forall fd :: fd in was ==> fds[fd].waiters == if fd in todo then was[fd].waiters else Kept(was[fd].waiters, Expired(now))
  }

  ghost predicate Caught(was: map<nat, FdState>, todo: set<nat>, timedOut: seq<Item>, now: int) {
    forall fd, w :: fd in was && fd !in todo && w in was[fd].waiters && Expired(now)(w) ==> w in timedOut
  }

  /** Of the lists `was`, all but those of `todo` have lost their expired waiters to `timedOut`. */
  ghost predicate Collected(fds: map<nat, FdState>, places: seq<Place>, was: map<nat, FdState>, todo: set<nat>, timedOut: seq<Item>, now: int) {
    && todo <= fds.Keys && Placed(timedOut, Taken, places)
    && Swept(was, fds, todo, now) && Caught(was, todo, timedOut, now) && forall w :: w in timedOut ==> Expired(now)(w)
  }

  lemma {:induction false} ExpiredAt(fds: map<nat, FdState>, kernel: map<nat, Mask>, places: seq<Place>, fd: nat, now: int)
    requires TableOk(fds, kernel, places) && fd in fds
    ensures forall id :: id in IdSet(Gone(fds[fd].waiters, Expired(now))) ==> id < |places| && places[id] == At(fd)
  {
    assert FdOk(fd, fds[fd], kernel, places);
    GoneAt(fds[fd].waiters, Expired(now), fd, places);
  }

  lemma {:induction false} CollectedStep(fds: map<nat, FdState>, places: seq<Place>, fds': map<nat, FdState>, places': seq<Place>,
                                         was: map<nat, FdState>, todo: set<nat>, fd: nat, timedOut: seq<Item>, gone: seq<Item>, now: int)
    requires Collected(fds, places, was, todo, timedOut, now) && fd in todo && fd in fds && fd in fds' && fds' == fds[fd := fds'[fd]]
    requires gone == Gone(fds[fd].waiters, Expired(now)) && fds'[fd].waiters == Kept(fds[fd].waiters, Expired(now))
    requires Placed(gone, Taken, places') && places' == Moved(places, IdSet(gone), Taken)
    requires forall id :: id in IdSet(gone) ==> id < |places| && places[id] == At(fd)
    ensures Collected(fds', places', was, todo - {fd}, timedOut + gone, now)
  {
    PlacedAppend(timedOut, gone, places, places', fd);
    SweptOne(was, fds', todo, fd, timedOut, gone, now);
  }

  lemma {:induction false} SweptOne(was: map<nat, FdState>, fds': map<nat, FdState>, todo: set<nat>, fd: nat, timedOut: seq<Item>, gone: seq<Item>, now: int)
    requires fd in todo && fd in was && fd in fds' && Caught(was, todo, timedOut, now)
    requires gone == Gone(was[fd].waiters, Expired(now)) && fds'[fd].waiters == Kept(was[fd].waiters, Expired(now))
    requires fds'.Keys == was.Keys
    requires forall g :: g in was && g != fd ==> fds'[g].waiters == if g in todo then was[g].waiters else Kept(was[g].waiters, Expired(now))
    ensures Swept(was, fds', todo - {fd}, now) && Caught(was, todo - {fd}, timedOut + gone, now)
    ensures forall w :: w in gone ==> Expired(now)(w)
  {
    Divided(was[fd].waiters, Expired(now));
  }

  lemma {:induction false} PlacedAppend(a: seq<Item>, b: seq<Item>, was: seq<Place>, places: seq<Place>, fd: nat)
    requires Placed(a, Taken, was) && Placed(b, Taken, places) && places == Moved(was, IdSet(b), Taken)
    requires forall id :: id in IdSet(b) ==> id < |was| && was[id] == At(fd)
    ensures Placed(a + b, Taken, places)
  {
    forall v, w | v in a && w in b ensures v.id != w.id {
      assert w.id in IdSet(b);
    }
    assert forall v :: v in a ==> v !in b;
    NoDupAppend(a, b);
  }

  /** A registration in some list is in no other, and has not been posted. */
  lemma {:induction false} OncePlaced(fds: map<nat, FdState>, kernel: map<nat, Mask>, posted: seq<nat>, places: seq<Place>, fd: nat, w: Item, g: nat, v: Item)
    requires TableOk(fds, kernel, places) && LogOk(posted, places) && fd in fds && w in fds[fd].waiters
    ensures w.id !in posted
    ensures g in fds && v in fds[g].waiters && v.id == w.id ==> g == fd && v == w
  {
    assert FdOk(fd, fds[fd], kernel, places);
    assert g in fds ==> FdOk(g, fds[g], kernel, places);
  }

  function Ids(ws: seq<Item>): seq<nat> {
    if ws == [] then [] else Ids(ws[..|ws| - 1]) + [ws[|ws| - 1].id]
  }

  lemma {:induction false} IdsIn(ws: seq<Item>)
    ensures forall id :: id in Ids(ws) <==> id in IdSet(ws)
  {
    if ws != [] {
      IdsIn(ws[..|ws| - 1]);
      assert ws == ws[..|ws| - 1] + [ws[|ws| - 1]];
      assert IdSet(ws) == IdSet(ws[..|ws| - 1]) + {ws[|ws| - 1].id};
    }
  }

  lemma {:induction false} IdsOnce(ws: seq<Item>)
    requires NoDup(ws) && forall v, w :: v in ws && w in ws && v.id == w.id ==> v == w
    ensures NoDup(Ids(ws))
  {
    if ws != [] {
      var init, last := ws[..|ws| - 1], ws[|ws| - 1];
      assert ws == init + [last];
      NoDupAppend(init, [last]);
      assert last in [last] && last in ws && forall v :: v in init ==> v in ws;
      IdsOnce(init);
      IdsIn(init);
      NoDupSnoc(Ids(init), last.id);
    }
  }

  lemma {:induction false} AddPlace(fds: map<nat, FdState>, kernel: map<nat, Mask>, places: seq<Place>, fd: nat, st: FdState, w: Item, places': seq<Place>)
    requires TableOk(fds, kernel, places) && w.id == |places| && places' == places + [At(fd)]
    requires st == if fd in fds then fds[fd] else FdState([], {})
    ensures Placed(st.waiters + [w], At(fd), places') && Lookup(kernel, fd) == Wanted(st.interest)
    ensures forall id :: 0 <= id < |places'| && places'[id] == At(fd) ==> id in IdSet(st.waiters + [w])
    ensures forall id :: 0 <= id < |places'| && places'[id].At? ==> places'[id].fd == fd || (id < |places| && places[id] == places'[id])
    ensures forall id :: 0 <= id < |places| ==> places'[id] == places[id]
  {
    assert fd in fds ==> FdOk(fd, fds[fd], kernel, places);
    NoDupSnoc(st.waiters, w);
    assert w in st.waiters + [w];
    forall id | 0 <= id < |places| && places[id] == At(fd) ensures id in IdSet(st.waiters + [w]) {
      var v :| v in st.waiters && v.id == id;
      assert v in st.waiters + [w];
    }
  }

  lemma {:induction false} AddLog(posted: seq<nat>, places: seq<Place>, fd: nat)
    requires LogOk(posted, places)
    ensures LogOk(posted, places + [At(fd)])
  {}

  lemma {:induction false} GoneAt(ws: seq<Item>, p: Item -> bool, fd: nat, places: seq<Place>)
    requires Placed(ws, At(fd), places)
    ensures forall id :: id in IdSet(Gone(ws, p)) ==> id < |places| && places[id] == At(fd)
  {
    Divided(ws, p);
  }

  /** Taking registrations off a descriptor's list posts none. */
  lemma {:induction false} TakenLog(posted: seq<nat>, places: seq<Place>, ids: set<nat>, places': seq<Place>, fd: nat)
    requires LogOk(posted, places) && places' == Moved(places, ids, Taken)
    requires forall id :: id in ids ==> id < |places| && places[id] == At(fd)
    ensures LogOk(posted, places')
  {}

  lemma {:induction false} PostedLog(posted: seq<nat>, places: seq<Place>, items: seq<Item>, places': seq<Place>)
    requires LogOk(posted, places) && Placed(items, Taken, places) && places' == Moved(places, IdSet(items), Posted)
    ensures LogOk(posted + Ids(items), places')
  {
    IdsIn(items);
    IdsOnce(items);
    NoDupAppend(posted, Ids(items));
  }

  lemma {:induction false} PostedTable(fds: map<nat, FdState>, kernel: map<nat, Mask>, places: seq<Place>, items: seq<Item>, places': seq<Place>)
    requires TableOk(fds, kernel, places) && Placed(items, Taken, places) && places' == Moved(places, IdSet(items), Posted)
    ensures TableOk(fds, kernel, places')
  {
    forall fd | fd in fds ensures FdOk(fd, fds[fd], kernel, places') {
      assert FdOk(fd, fds[fd], kernel, places);
    }
  }

  lemma {:induction false} DropEntry(fds: map<nat, FdState>, kernel: map<nat, Mask>, places: seq<Place>, fd: nat, places': seq<Place>)
    requires TableOk(fds, kernel, places) && fd in fds && places' == Moved(places, IdSet(fds[fd].waiters), Taken)
    ensures TableOk(fds - {fd}, kernel - {fd}, places') && Placed(fds[fd].waiters, Taken, places')
    ensures forall id :: id in IdSet(fds[fd].waiters) ==> id < |places| && places[id] == At(fd)
  {
    assert FdOk(fd, fds[fd], kernel, places);
    forall g | g in fds - {fd} ensures FdOk(g, fds[g], kernel - {fd}, places') {
      assert FdOk(g, fds[g], kernel, places);
    }
  }
}
