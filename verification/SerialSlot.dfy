/** The serial slot of a socket's send direction, with any number of concurrent sends, as a transition
    system. Each section under the serial lock, each executor or reactor call and each kernel call is
    one step. Up to close: serial_collect_waiters, which gives up the slot under its holder, is not a
    step here. */
module SerialSlot {
  import opened Basics
  import opened Sequences
  import opened SendAwaiter

  /** Where a send is: in the waiters list; taken off it by another send's release, which is about to post
      it; posted; in its callback's loop; waiting for the socket; finished with the slot still held; over. */
  datatype Phase = Waiting | Handed | Posted | Driving | Blocked | Finishing | Over

  datatype Send = Send(data: seq<byte>, full: bool, sent: nat, phase: Phase)

  /** The slot and the sends. `wire` is the byte stream the kernel accepted. `arrivals` records the order
      in which sends asked for the slot, `past` those that released it, and `holder` the one it was last
      granted to. */
  datatype State = State(locked: bool, waiters: seq<nat>, sends: map<nat, Send>, wire: seq<byte>,
                         arrivals: seq<nat>, past: seq<nat>, holder: Option<nat>)

  function Init(): State {
    State(false, [], map[], [], [], [], None)
  }

  datatype Act =
    | Arrive(id: nat, data: seq<byte>, full: bool)
    | PostNext(id: nat)
    | Drive(id: nat)
    | Push(id: nat, answer: Answer)
    | Ready(id: nat)
    | Release(id: nat)

  predicate In(s: State, id: nat, p: Phase) {
    id in s.sends && s.sends[id].phase == p
  }

  predicate Enabled(s: State, a: Act) {
    match a
    case Arrive(id, _, _) => id !in s.sends
    case PostNext(id) => In(s, id, Handed)
    case Drive(id) => In(s, id, Posted)
    case Push(id, _) => In(s, id, Driving)
    case Ready(id) => In(s, id, Blocked)
    case Release(id) => In(s, id, Finishing)
  }

  /** How much of the message one kernel call takes, and where the send is then. */
  function Offered(d: Send): nat {
    if d.sent <= |d.data| then |d.data| - d.sent else 0
  }

  function Taken(d: Send, a: Answer): nat {
    var c := Call(a, Offered(d));
    if c.Wrote? then c.n else 0
  }

  function After(d: Send, a: Answer): Phase {
    match Call(a, Offered(d))
    case Wrote(n) => if 0 < n < Offered(d) then Driving else Finishing
    case WouldBlock => if d.full then Blocked else Finishing
    case _ => Finishing
  }

  function Put(s: State, id: nat, d: Send): State {
    s.(sends := s.sends[id := d])
  }

  function Move(s: State, id: nat, p: Phase): State {
    if id in s.sends then Put(s, id, s.sends[id].(phase := p)) else s
  }

  function Do(s: State, a: Act): State
    requires Enabled(s, a)
  {
    match a
    case Arrive(id, data, full) => Ask(s, id, Send(data, full, 0, Waiting))
    case PostNext(id) => Move(s, id, Posted)
    case Drive(id) => Move(s, id, Driving)
    case Push(id, answer) => PushOne(s, id, s.sends[id], answer)
    case Ready(id) => Move(s, id, Posted)
    case Release(id) => GiveUp(s, id)
  }

  /** serial_acquire_or_enqueue. */
  function Ask(s: State, id: nat, d: Send): State {
    if !s.locked && s.waiters == [] then
      Put(s, id, d.(phase := Posted)).(arrivals := s.arrivals + [id], locked := true, holder := Some(id))
    else
      Put(s, id, d).(arrivals := s.arrivals + [id], waiters := s.waiters + [id])
  }

  /** One kernel call inside attempt_once. */
  function PushOne(s: State, id: nat, d: Send, a: Answer): State {
    var n := Taken(d, a);
    Put(s, id, d.(sent := d.sent + n, phase := After(d, a))).(wire := s.wire + if d.sent + n <= |d.data| then d.data[d.sent..d.sent + n] else [])
  }

  /** serial_release, under the lock. */
  function GiveUp(s: State, id: nat): State {
    var s' := Move(s, id, Over).(past := s.past + [id]);
    if s.waiters != [] then Move(s', s.waiters[0], Handed).(waiters := s.waiters[1..], holder := Some(s.waiters[0]))
    else s'.(locked := false, holder := None)
  }

  // ----- the invariant ----------------------------------------------------------------------------

  predicate Holds(p: Phase) {
    p.Handed? || p.Posted? || p.Driving? || p.Blocked? || p.Finishing?
  }

  /** The concatenation, in order, of what was sent of each of `ids`. */
  ghost function Stream(sends: map<nat, Send>, ids: seq<nat>): seq<byte> {
    if ids == [] then [] else Stream(sends, ids[..|ids| - 1]) + Prefix(sends, ids[|ids| - 1])
  }

  ghost function Prefix(sends: map<nat, Send>, id: nat): seq<byte> {
    if id in sends && sends[id].sent <= |sends[id].data| then sends[id].data[..sends[id].sent] else []
  }

  ghost function Held(holder: Option<nat>): seq<nat> {
    if holder.Some? then [holder.value] else []
  }

  /** A send's phase says whether it waits, has the slot, or had it. */
  ghost predicate Role(s: State, id: nat) {
    && id in s.sends
    && s.sends[id].sent <= |s.sends[id].data|
    && (s.sends[id].phase.Waiting? ==> id in s.waiters && s.sends[id].sent == 0)
    && (s.sends[id].phase.Over? ==> id in s.past)
    && (Holds(s.sends[id].phase) ==> s.holder == Some(id))
  }

  ghost predicate Roles(s: State) {
    && (forall id :: id in s.sends ==> Role(s, id))
    && (forall id :: id in s.waiters ==> In(s, id, Waiting))
    && (forall id :: id in s.past ==> In(s, id, Over))
    && (s.holder.Some? ==> s.holder.value in s.sends && Holds(s.sends[s.holder.value].phase))
  }

  ghost predicate Inv(s: State) {
    && s.locked == s.holder.Some? && (s.waiters != [] ==> s.locked)
    && s.arrivals == s.past + Held(s.holder) + s.waiters
    && NoDup(s.past) && NoDup(s.waiters)
    && Roles(s)
    && s.wire == Stream(s.sends, s.past) + (if s.holder.Some? then Prefix(s.sends, s.holder.value) else [])
  }

  lemma {:induction false} StreamSame(m: map<nat, Send>, m': map<nat, Send>, ids: seq<nat>)
    requires forall id :: id in ids ==> Prefix(m', id) == Prefix(m, id)
    ensures Stream(m', ids) == Stream(m, ids)
  {
    if ids != [] { StreamSame(m, m', ids[..|ids| - 1]); }
  }

  lemma {:induction false} StreamSnoc(m: map<nat, Send>, ids: seq<nat>, id: nat)
    ensures Stream(m, ids + [id]) == Stream(m, ids) + Prefix(m, id)
  {
    assert (ids + [id])[..|ids|] == ids;
  }

  // ----- what the steps keep ------------------------------------------------------------------------

  /** What was sent of all but `id` is as it was. */
  lemma {:induction false} PastStream(s: State, s': State)
    requires Roles(s) && forall x :: x in s.past ==> x in s'.sends && s'.sends[x] == s.sends[x]
    ensures Stream(s'.sends, s.past) == Stream(s.sends, s.past)
  {
    StreamSame(s.sends, s'.sends, s.past);
  }

  lemma {:induction false} AskRoles(s: State, id: nat, d: Send)
    requires Roles(s) && id !in s.sends && d.phase == Waiting && d.sent == 0 && s.locked == s.holder.Some? && (s.waiters != [] ==> s.locked)
    ensures Roles(Ask(s, id, d))
  {
    var s' := Ask(s, id, d);
    forall x | x in s'.sends ensures Role(s', x) {
      if x != id { assert Role(s, x); }
    }
  }

  lemma {:induction false} AskKeeps(s: State, id: nat, d: Send)
    requires Inv(s) && id !in s.sends && d.phase == Waiting && d.sent == 0
    ensures Inv(Ask(s, id, d))
  {
    var s' := Ask(s, id, d);
    AskRoles(s, id, d);
    PastStream(s, s');
    assert Prefix(s'.sends, id) == [];
    if s.locked {
      NoDupSnoc(s.waiters, id);
    } else {
      assert s.past + [] + [] == s.past;
    }
    assert s'.arrivals == s'.past + Held(s'.holder) + s'.waiters;
  }

  lemma {:induction false} HolderRoles(s: State, s': State, id: nat)
    requires Roles(s) && id in s.sends && Holds(s.sends[id].phase) && id in s'.sends && Holds(s'.sends[id].phase)
    requires s'.sends == s.sends[id := s'.sends[id]] && s'.sends[id].sent <= |s'.sends[id].data|
    requires s'.past == s.past && s'.waiters == s.waiters && s'.holder == s.holder
    ensures Roles(s') && s.holder == Some(id)
  {
    assert Role(s, id);
    forall x | x in s'.sends ensures Role(s', x) { assert Role(s, x); }
  }

  /** The holder changes, and stays the holder. */
  lemma {:induction false} HolderKeeps(s: State, s': State, id: nat)
    requires Inv(s) && id in s.sends && Holds(s.sends[id].phase) && id in s'.sends && Holds(s'.sends[id].phase)
    requires s' == Put(s, id, s'.sends[id]).(wire := s'.wire) && s'.sends[id].data == s.sends[id].data
    requires s.sends[id].sent <= s'.sends[id].sent <= |s.sends[id].data|
    requires s'.wire == s.wire + s.sends[id].data[s.sends[id].sent..s'.sends[id].sent]
    ensures Inv(s')
  {
    HolderRoles(s, s', id);
    PastStream(s, s');
    HolderWire(Stream(s.sends, s.past), s.sends[id].data, s.sends[id].sent, s'.sends[id].sent);
  }

  lemma {:induction false} HolderWire(past: seq<byte>, data: seq<byte>, n: nat, n': nat)
    requires n <= n' <= |data|
    ensures (past + data[..n]) + data[n..n'] == past + data[..n']
  {
    assert data[..n] + data[n..n'] == data[..n'];
  }

  lemma {:induction false} GiveUpRoles(s: State, id: nat)
    requires Roles(s) && In(s, id, Finishing) && NoDup(s.waiters)
    ensures Roles(GiveUp(s, id)) && s.holder == Some(id) && id !in s.past
  {
    var s' := GiveUp(s, id);
    assert Role(s, id);
    FirstIn(s.waiters);
    forall x | x in s'.sends ensures Role(s', x) {
      assert Role(s, x);
      assert x in s.waiters ==> x == s.waiters[0] || x in s.waiters[1..];
    }
    forall x | x in s'.waiters ensures In(s', x, Waiting) {
      assert x in s.waiters && In(s, x, Waiting);
    }
  }

  lemma {:induction false} GiveUpKeeps(s: State, id: nat)
    requires Inv(s) && In(s, id, Finishing)
    ensures Inv(GiveUp(s, id))
  {
    GiveUpRoles(s, id);
    GiveUpWire(s, GiveUp(s, id), id);
    GiveUpOrder(s, GiveUp(s, id), id);
  }

  lemma {:induction false} GiveUpOrder(s: State, s': State, id: nat)
    requires s.arrivals == s.past + Held(s.holder) + s.waiters && NoDup(s.past) && NoDup(s.waiters)
    requires s.holder == Some(id) && s.locked && id !in s.past && s' == GiveUp(s, id)
    ensures s'.arrivals == s'.past + Held(s'.holder) + s'.waiters && NoDup(s'.past) && NoDup(s'.waiters)
    ensures s'.locked == s'.holder.Some? && (s'.waiters != [] ==> s'.locked) && s'.wire == s.wire
  {
    NoDupSnoc(s.past, id);
    HandOver(s.past + [id], s.waiters);
  }

  /** The first of the waiters, if there is one, moves up. */
  lemma {:induction false} HandOver(past: seq<nat>, waiters: seq<nat>)
    ensures waiters != [] ==> past + [waiters[0]] + waiters[1..] == past + waiters
    ensures waiters == [] ==> past + [] + [] == past + waiters
  {}

  lemma {:induction false} GiveUpWire(s: State, s': State, id: nat)
    requires Roles(s) && In(s, id, Finishing) && s.holder == Some(id) && s' == GiveUp(s, id)
    ensures Stream(s'.sends, s'.past) == Stream(s.sends, s.past) + Prefix(s.sends, id)
    ensures s'.holder.Some? ==> Prefix(s'.sends, s'.holder.value) == []
  {
    FirstIn(s.waiters);
    if s.waiters != [] { assert Role(s, s.waiters[0]); }
    PastStream(s, s');
    StreamSnoc(s'.sends, s.past, id);
  }

  lemma {:induction false} StepKeeps(s: State, a: Act)
    requires Inv(s) && Enabled(s, a)
    ensures Inv(Do(s, a))
  {
    if a.Arrive? {
      AskKeeps(s, a.id, Send(a.data, a.full, 0, Waiting));
    } else if a.Release? {
      GiveUpKeeps(s, a.id);
    } else {
      assert Role(s, a.id);
      HolderKeeps(s, Do(s, a), a.id);
    }
  }

  // ----- one drive, and attempt_once ------------------------------------------------------------------

  /** A send after pushing until it leaves its callback's loop. */
  ghost function Driven(d: Send, kernel: nat -> Answer, k: nat): Send
    requires d.sent <= |d.data|
    decreases |d.data| - d.sent
  {
    var d' := d.(sent := d.sent + Taken(d, kernel(k)), phase := After(d, kernel(k)));
    if d'.phase.Driving? then Driven(d', kernel, k + 1) else d'
  }

  /** The kernel calls of one drive, taken as separate steps, add up to one attempt_once. */
  lemma {:induction false} DriveIsAttempt(d: Send, kernel: nat -> Answer, k: nat)
    requires d.sent <= |d.data|
    ensures var o := Attempt(|d.data|, d.sent, d.full, kernel, k);
            Driven(d, kernel, k) == d.(sent := o.sent, phase := if o.r == -1 then Blocked else Finishing)
    decreases |d.data| - d.sent
  {
    if After(d, kernel(k)).Driving? {
      DriveIsAttempt(d.(sent := d.sent + Taken(d, kernel(k)), phase := Driving), kernel, k + 1);
    }
  }

  // ----- runs -------------------------------------------------------------------------------------

  ghost predicate Run(ss: seq<State>, acts: seq<Act>) {
    && |ss| == |acts| + 1 && ss[0] == Init()
    && forall i :: 0 <= i < |acts| ==> Enabled(ss[i], acts[i]) && ss[i + 1] == Do(ss[i], acts[i])
  }

  lemma {:induction false} RunInv(ss: seq<State>, acts: seq<Act>, i: nat)
    requires Run(ss, acts) && i <= |acts|
    ensures Inv(ss[i])
  {
    if i > 0 {
      RunInv(ss, acts, i - 1);
      StepKeeps(ss[i - 1], acts[i - 1]);
    }
  }

  /** The sends that asked for the slot, and those that gave it up, in the order of the run's steps. */
  function Arrivals(acts: seq<Act>): seq<nat> {
    if acts == [] then [] else Arrivals(acts[..|acts| - 1]) + if acts[|acts| - 1].Arrive? then [acts[|acts| - 1].id] else []
  }

  function Releases(acts: seq<Act>): seq<nat> {
    if acts == [] then [] else Releases(acts[..|acts| - 1]) + if acts[|acts| - 1].Release? then [acts[|acts| - 1].id] else []
  }

  lemma {:induction false} ActsOfRun(ss: seq<State>, acts: seq<Act>, i: nat)
    requires Run(ss, acts) && i <= |acts|
    ensures ss[i].arrivals == Arrivals(acts[..i]) && ss[i].past == Releases(acts[..i])
  {
    if i > 0 {
      ActsOfRun(ss, acts, i - 1);
      assert acts[..i][..i - 1] == acts[..i - 1];
      assert Enabled(ss[i - 1], acts[i - 1]) && ss[i] == Do(ss[i - 1], acts[i - 1]);
    }
  }

  /** What a send was asked to send stays what it sends. */
  lemma {:induction false} MessageOfRun(ss: seq<State>, acts: seq<Act>, k: nat, i: nat)
    requires Run(ss, acts) && k < i <= |acts| && acts[k].Arrive?
    ensures var id := acts[k].id; id in ss[i].sends && ss[i].sends[id].data == acts[k].data && ss[i].sends[id].full == acts[k].full
    decreases i
  {
    assert Enabled(ss[i - 1], acts[i - 1]) && ss[i] == Do(ss[i - 1], acts[i - 1]);
    if k < i - 1 {
      MessageOfRun(ss, acts, k, i - 1);
      MessageKept(ss[i - 1], acts[i - 1], acts[k].id);
    }
  }

  lemma {:induction false} MessageKept(s: State, a: Act, id: nat)
    requires Enabled(s, a) && id in s.sends
    ensures id in Do(s, a).sends && Do(s, a).sends[id].data == s.sends[id].data && Do(s, a).sends[id].full == s.sends[id].full
  {}

  /** In every interleaving and for every schedule of kernel answers, the stream is the concatenation, in
      order of arrival, of one prefix of each message: nothing interleaved, skipped or repeated. */
  lemma {:induction false} StreamInArrivalOrder(ss: seq<State>, acts: seq<Act>, i: nat)
    requires Run(ss, acts) && i <= |acts|
    ensures ss[i].wire == Stream(ss[i].sends, Arrivals(acts[..i]))
    ensures forall id :: id in ss[i].sends ==> ss[i].sends[id].sent <= |ss[i].sends[id].data|
    ensures forall k :: 0 <= k < i && acts[k].Arrive? ==> acts[k].id in ss[i].sends && ss[i].sends[acts[k].id].data == acts[k].data
  {
    var s := ss[i];
    RunInv(ss, acts, i);
    ActsOfRun(ss, acts, i);
    WholeStream(s);
    assert forall id :: id in s.sends ==> Role(s, id);
    forall k | 0 <= k < i && acts[k].Arrive? ensures acts[k].id in s.sends && s.sends[acts[k].id].data == acts[k].data {
      MessageOfRun(ss, acts, k, i);
    }
  }

  /** The stream gains what the kernel accepts of the message that is being driven, and only that: the next
      bytes of it, as many as the kernel takes. Then the send goes on if a part is left, waits if the kernel
      would block it and it is to be sent in full, and is finished otherwise. */
  lemma {:induction false} PushSends(ss: seq<State>, acts: seq<Act>, i: nat, id: nat, answer: Answer)
    requires Run(ss, acts) && i < |acts| && acts[i] == Push(id, answer)
    ensures id in ss[i].sends && id in ss[i + 1].sends && ss[i].sends[id].sent <= |ss[i].sends[id].data|
    ensures var d, d' := ss[i].sends[id], ss[i + 1].sends[id];
            var left := |d.data| - d.sent;
            var n := if !answer.Wrote? then 0 else if answer.n < left then answer.n else left;
            && d'.sent == d.sent + n && ss[i + 1].wire == ss[i].wire + d.data[d.sent..d.sent + n]
            && (d'.phase == Driving <==> 0 < n < left)
            && (d'.phase == Blocked <==> left > 0 && answer == WouldBlock && d.full)
            && (d'.phase == Finishing <==> !(0 < n < left) && !(left > 0 && answer == WouldBlock && d.full))
  {
    RunInv(ss, acts, i);
    assert Enabled(ss[i], acts[i]) && ss[i + 1] == Do(ss[i], acts[i]);
    assert Role(ss[i], id);
  }

  /** No other step puts anything on the wire. */
  lemma {:induction false} OnlyPushSends(ss: seq<State>, acts: seq<Act>, i: nat)
    requires Run(ss, acts) && i < |acts| && !acts[i].Push?
    ensures ss[i + 1].wire == ss[i].wire
  {
    assert Enabled(ss[i], acts[i]) && ss[i + 1] == Do(ss[i], acts[i]);
  }

  /** The kernel only accepts bytes of this send or would block it. */
  ghost predicate Willing(acts: seq<Act>, id: nat) {
    forall k :: 0 <= k < |acts| && acts[k].Push? && acts[k].id == id ==> acts[k].answer.WouldBlock? || (acts[k].answer.Wrote? && acts[k].answer.n > 0)
  }

  /** Then a full send that is finished has sent its whole message, however often it was blocked. */
  lemma {:induction false} FullSendsWhole(ss: seq<State>, acts: seq<Act>, i: nat, id: nat)
    requires Run(ss, acts) && i <= |acts| && Willing(acts[..i], id) && id in ss[i].sends && ss[i].sends[id].full
    ensures ss[i].sends[id].phase == Finishing || ss[i].sends[id].phase == Over ==> ss[i].sends[id].sent == |ss[i].sends[id].data|
  {
    assert ss[0].sends == map[];
    var s, a := ss[i - 1], acts[i - 1];
    assert Enabled(s, a) && ss[i] == Do(s, a);
    RunInv(ss, acts, i - 1);
    if id in s.sends {
      assert acts[..i - 1] == acts[..i][..i - 1];
      MessageKept(s, a, id);
      FullSendsWhole(ss, acts, i - 1, id);
      assert acts[..i][i - 1] == a;
      WholeStep(s, a, id);
    }
  }

  lemma {:induction false} WholeStep(s: State, a: Act, id: nat)
    requires Inv(s) && Enabled(s, a) && id in s.sends && s.sends[id].full
    requires a.Push? && a.id == id ==> a.answer.WouldBlock? || (a.answer.Wrote? && a.answer.n > 0)
    requires s.sends[id].phase == Finishing || s.sends[id].phase == Over ==> s.sends[id].sent == |s.sends[id].data|
    ensures id in Do(s, a).sends
    ensures var d := Do(s, a).sends[id]; d.phase == Finishing || d.phase == Over ==> d.sent == |d.data|
  {
    assert Role(s, id);
    if a.Release? && s.waiters != [] { assert In(s, s.waiters[0], Waiting); }
  }

  lemma {:induction false} WholeStream(s: State)
    requires Inv(s)
    ensures s.wire == Stream(s.sends, s.arrivals)
  {
    var done := s.past + Held(s.holder);
    if s.holder.Some? { StreamSnoc(s.sends, s.past, s.holder.value); } else { assert done == s.past; }
    forall id | id in s.waiters ensures Prefix(s.sends, id) == [] { assert Role(s, id); }
    WaitersSilent(s.sends, done, s.waiters);
  }

  lemma {:induction false} WaitersSilent(m: map<nat, Send>, ids: seq<nat>, waiters: seq<nat>)
    requires forall id :: id in waiters ==> Prefix(m, id) == []
    ensures Stream(m, ids + waiters) == Stream(m, ids)
  {
    if waiters == [] {
      assert ids + waiters == ids;
    } else {
      var w := waiters[..|waiters| - 1];
      assert ids + waiters == (ids + w) + [waiters[|waiters| - 1]];
      WaitersSilent(m, ids, w);
      StreamSnoc(m, ids + w, waiters[|waiters| - 1]);
    }
  }

  /** At most one send has the slot, it is marked as locked exactly while one has it, and whoever waits,
      waits for a holder. */
  lemma {:induction false} OneHolder(ss: seq<State>, acts: seq<Act>, i: nat, a: nat, b: nat)
    requires Run(ss, acts) && i <= |acts|
    requires a in ss[i].sends && Holds(ss[i].sends[a].phase)
    ensures b in ss[i].sends && Holds(ss[i].sends[b].phase) ==> a == b
    ensures ss[i].locked
  {
    RunInv(ss, acts, i);
    assert Role(ss[i], a);
    assert b in ss[i].sends ==> Role(ss[i], b);
  }

  lemma {:induction false} WaitersHaveHolder(ss: seq<State>, acts: seq<Act>, i: nat) returns (id: nat)
    requires Run(ss, acts) && i <= |acts| && (ss[i].waiters != [] || ss[i].locked)
    ensures id in ss[i].sends && Holds(ss[i].sends[id].phase) && ss[i].locked
  {
    RunInv(ss, acts, i);
    id := ss[i].holder.value;
  }

  /** The slot is released once by each send that is over, and the sends release it in the order in which
      they asked for it. */
  lemma {:induction false} ReleasedOnceInOrder(ss: seq<State>, acts: seq<Act>, i: nat)
    requires Run(ss, acts) && i <= |acts|
    ensures Releases(acts[..i]) <= Arrivals(acts[..i]) && NoDup(Releases(acts[..i]))
    ensures forall id :: id in Releases(acts[..i]) <==> In(ss[i], id, Over)
  {
    RunInv(ss, acts, i);
    ActsOfRun(ss, acts, i);
    PastFirst(ss[i]);
  }

  lemma {:induction false} PastFirst(s: State)
    requires Inv(s)
    ensures s.past <= s.arrivals && NoDup(s.past) && forall id :: id in s.past <==> In(s, id, Over)
  {
    assert forall id :: id in s.sends ==> Role(s, id);
    assert s.arrivals == s.past + (Held(s.holder) + s.waiters);
  }

  /** While any send is not over, some send can take a step; the kernel's answer is free. */
  lemma {:induction false} NeverStuck(ss: seq<State>, acts: seq<Act>, i: nat, id: nat) returns (a: Act)
    requires Run(ss, acts) && i <= |acts| && id in ss[i].sends && ss[i].sends[id].phase != Over
    ensures Enabled(ss[i], a) && !a.Arrive?
  {
    var s := ss[i];
    RunInv(ss, acts, i);
    assert Role(s, id);
    var h := s.holder.value;
    match s.sends[h].phase
    case Handed => a := PostNext(h);
    case Posted => a := Drive(h);
    case Driving => a := Push(h, WouldBlock);
    case Blocked => a := Ready(h);
    case Finishing => a := Release(h);
  }
}
