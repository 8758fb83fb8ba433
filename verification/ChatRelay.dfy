/** The chat server's relay: sessions paired by room, data frames passed on or kept for the peer, and
    each session's queue to its client with its one summary and one stop sentinel. Handlers are atomic. */
module ChatRelay {
  import opened Basics

  // ----- the queue to the client --------------------------------------------------------------------

  /** A frame queued for a client: passed on from the peer, made by the server, or a control frame. The
      empty frame tells the writer to stop. */
  datatype Out = Relay(raw: nat) | Push(n: nat) | Json | Summary | Stop

  /** Everything ever queued for the client, and the two flags that guard the summary and the stop. */
  datatype Mailbox = Mailbox(out: seq<Out>, summarySent: bool, stopEnqueued: bool)

  function Post(b: Mailbox, f: Out): Mailbox {
    b.(out := b.out + [f])
  }

  /** request_writer_stop. */
  function StopWriter(b: Mailbox): Mailbox {
    if b.stopEnqueued then b else Post(b, Stop).(stopEnqueued := true)
  }

  function SendSummary(b: Mailbox): Mailbox {
    if b.summarySent then b else Post(b, Summary).(summarySent := true)
  }

  /** schedule_summary_if_ready, given whether the plans are complete and whether to stop then. */
  function SummaryIf(b: Mailbox, complete: bool, stop: bool): Mailbox {
    if b.summarySent || !complete then b else if stop then StopWriter(SendSummary(b)) else SendSummary(b)
  }

  /** fail_session. */
  function Failed(b: Mailbox): Mailbox {
    StopWriter(SendSummary(Post(b, Json)))
  }

  function PostAll(b: Mailbox, raws: seq<nat>): Mailbox {
    if raws == [] then b else Post(PostAll(b, raws[..|raws| - 1]), Relay(raws[|raws| - 1]))
  }

  function PushAll(b: Mailbox, n: nat): Mailbox {
    if n == 0 then b else Post(PushAll(b, n - 1), Push(n - 1))
  }

  function Count(out: seq<Out>, f: Out): nat {
    if out == [] then 0 else Count(out[..|out| - 1], f) + if out[|out| - 1] == f then 1 else 0
  }

  /** The frames from the peer, in order. */
  function Relays(out: seq<Out>): seq<nat> {
    if out == [] then [] else Relays(out[..|out| - 1]) + if out[|out| - 1].Relay? then [out[|out| - 1].raw] else []
  }

  /** No stop sentinel before the summary. */
  ghost predicate SummaryFirst(out: seq<Out>) {
    out == [] || (SummaryFirst(out[..|out| - 1]) && (out[|out| - 1] == Stop ==> Count(out[..|out| - 1], Summary) > 0))
  }

  function Bit(b: bool): nat {
    if b then 1 else 0
  }

  /** At most one summary and one stop sentinel, the summary first. */
  ghost predicate BoxOk(b: Mailbox) {
    && Count(b.out, Summary) == Bit(b.summarySent) && Count(b.out, Stop) == Bit(b.stopEnqueued) && SummaryFirst(b.out)
    && (b.stopEnqueued ==> b.summarySent)
  }

  lemma {:induction false} Snoc(out: seq<Out>, f: Out)
    ensures Count(out + [f], Summary) == Count(out, Summary) + Bit(f == Summary)
    ensures Count(out + [f], Stop) == Count(out, Stop) + Bit(f == Stop)
    ensures Relays(out + [f]) == Relays(out) + if f.Relay? then [f.raw] else []
    ensures SummaryFirst(out + [f]) <==> SummaryFirst(out) && (f == Stop ==> Count(out, Summary) > 0)
  {
    assert (out + [f])[..|out|] == out;
  }

  lemma {:induction false} PostOk(b: Mailbox, f: Out)
    requires BoxOk(b) && f != Summary && f != Stop
    ensures BoxOk(Post(b, f)) && Relays(Post(b, f).out) == Relays(b.out) + if f.Relay? then [f.raw] else []
  {
    Snoc(b.out, f);
  }

  lemma {:induction false} SendSummaryOk(b: Mailbox)
    requires BoxOk(b)
    ensures BoxOk(SendSummary(b)) && SendSummary(b).summarySent && Relays(SendSummary(b).out) == Relays(b.out)
  {
    Snoc(b.out, Summary);
  }

  lemma {:induction false} StopOk(b: Mailbox)
    requires BoxOk(b) && b.summarySent
    ensures BoxOk(StopWriter(b)) && Relays(StopWriter(b).out) == Relays(b.out)
  {
    Snoc(b.out, Stop);
  }

  /** Summary and stop, as at the end of a session. */
  lemma {:induction false} FinishOk(b: Mailbox)
    requires BoxOk(b)
    ensures BoxOk(StopWriter(SendSummary(b))) && Relays(StopWriter(SendSummary(b)).out) == Relays(b.out)
  {
    SendSummaryOk(b);
    StopOk(SendSummary(b));
  }

  lemma {:induction false} SummaryIfOk(b: Mailbox, complete: bool, stop: bool)
    requires BoxOk(b)
    ensures BoxOk(SummaryIf(b, complete, stop)) && Relays(SummaryIf(b, complete, stop).out) == Relays(b.out)
  {
    SendSummaryOk(b);
    FinishOk(b);
  }

  lemma {:induction false} FailedOk(b: Mailbox)
    requires BoxOk(b)
    ensures BoxOk(Failed(b)) && Relays(Failed(b).out) == Relays(b.out)
  {
    PostOk(b, Json);
    FinishOk(Post(b, Json));
  }

  lemma {:induction false} AppendLast(a: seq<nat>, b: seq<nat>, x: nat)
    ensures (a + b) + [x] == a + (b + [x])
  {}

  lemma {:induction false} PostAllOk(b: Mailbox, raws: seq<nat>)
    requires BoxOk(b)
    ensures BoxOk(PostAll(b, raws)) && Relays(PostAll(b, raws).out) == Relays(b.out) + raws
  {
    if raws != [] {
      var init, last := raws[..|raws| - 1], raws[|raws| - 1];
      PostAllOk(b, init);
      PostOk(PostAll(b, init), Relay(last));
      AppendLast(Relays(b.out), init, last);
      assert raws == init + [last];
    } else {
      assert Relays(b.out) + raws == Relays(b.out);
    }
  }

  lemma {:induction false} PushAllOk(b: Mailbox, n: nat)
    requires BoxOk(b)
    ensures BoxOk(PushAll(b, n)) && Relays(PushAll(b, n).out) == Relays(b.out)
  {
    if n > 0 {
      PushAllOk(b, n - 1);
      PostOk(PushAll(b, n - 1), Push(n - 1));
    }
  }

  /** What a handler queued: a control frame, then the summary and the stop sentinel, each unless it was
      queued before. */
  ghost predicate Queued(b: Mailbox, b': Mailbox, json: bool, summary: bool, stop: bool) {
    && b'.out == b.out + (if json then [Json] else []) + (if summary && !b.summarySent then [Summary] else [])
                 + (if stop && !b.stopEnqueued then [Stop] else [])
    && b'.summarySent == (b.summarySent || summary) && b'.stopEnqueued == (b.stopEnqueued || stop)
  }

  lemma {:induction false} FailedOut(b: Mailbox)
    ensures Queued(b, Failed(b), true, true, true)
  {}

  lemma {:induction false} SummaryIfOut(b: Mailbox, complete: bool, stop: bool)
    ensures Queued(b, SummaryIf(b, complete, stop), false, complete, complete && stop && !b.summarySent)
  {}

  /** The server's frames, and frames from the peer, as they are queued. */
  ghost function Pushes(n: nat): seq<Out> {
    seq(n, i requires 0 <= i < n => Push(i))
  }

  ghost function AsRelays(raws: seq<nat>): seq<Out> {
    seq(|raws|, i requires 0 <= i < |raws| => Relay(raws[i]))
  }

  /** A mailbox to which these were queued. */
  ghost function Gaining(b: Mailbox, out: seq<Out>): Mailbox {
    b.(out := b.out + out)
  }

  lemma {:induction false} PushAllOut(b: Mailbox, n: nat)
    ensures PushAll(b, n) == Gaining(b, Pushes(n))
  {
    if n == 0 {
      assert b.out + Pushes(0) == b.out;
    } else {
      PushAllOut(b, n - 1);
      assert Pushes(n) == Pushes(n - 1) + [Push(n - 1)];
      assert (b.out + Pushes(n - 1)) + [Push(n - 1)] == b.out + (Pushes(n - 1) + [Push(n - 1)]);
    }
  }

  lemma {:induction false} PostAllOut(b: Mailbox, raws: seq<nat>)
    ensures PostAll(b, raws) == Gaining(b, AsRelays(raws))
  {
    if raws == [] {
      assert b.out + AsRelays([]) == b.out;
    } else {
      var init, last := raws[..|raws| - 1], Relay(raws[|raws| - 1]);
      PostAllOut(b, init);
      assert AsRelays(raws) == AsRelays(init) + [last];
      assert (b.out + AsRelays(init)) + [last] == b.out + (AsRelays(init) + [last]);
    }
  }

  // ----- one session --------------------------------------------------------------------------------

  /** What the client announced. */
  datatype Info = Info(room: nat, sendPlan: nat, expectReceive: nat, serverPush: nat, payloadBytes: nat, shutdownAfterSend: bool, waitTimeout: nat, solo: bool)

  /** The session's data frames: how many it counted, those it accepted, those passed to its peer, those
      kept for it, and whether one was refused as over plan. */
  datatype Flow = Flow(forwarded: nat, accepted: seq<nat>, delivered: seq<nat>, pending: seq<nat>, overPlan: bool)

  /** A session. `leaving` says that its reader is out of its loop; `partner` is the session it was paired
      with, also after that has gone. */
  datatype Session = Session(info: Info, handshakeDone: bool, closing: bool, leaving: bool, ended: bool, waitArmed: bool,
                             peer: Option<nat>, partner: Option<nat>, received: nat, generated: nat, flow: Flow, box: Mailbox)

  function Opened(): Session {
    Session(Info(0, 0, 0, 0, 0, true, 30000, false), false, false, false, false, false, None, None, 0, 0, Flow(0, [], [], [], false), Mailbox([], false, false))
  }

  function PlansComplete(s: Session): bool {
    && s.flow.forwarded >= s.info.sendPlan && s.generated >= s.info.serverPush
    && (s.info.solo || s.received >= s.info.expectReceive)
  }

  /** Each data frame is counted, plus one if a frame was refused as over plan; each is passed on or kept,
      in order; what came from the peer is counted. */
  ghost predicate Fine(s: Session) {
    && BoxOk(s.box) && s.received == |Relays(s.box.out)|
    && s.flow.forwarded == |s.flow.accepted| + Bit(s.flow.overPlan) && (s.flow.overPlan ==> s.leaving)
    && (!s.info.solo ==> s.flow.accepted == s.flow.delivered + s.flow.pending)
    && (!s.handshakeDone ==> s.flow == Flow(0, [], [], [], false))
  }

  /** schedule_summary_if_ready. */
  function SummaryIfReady(s: Session): Session {
    s.(box := SummaryIf(s.box, PlansComplete(s), s.info.shutdownAfterSend && !s.info.solo))
  }

  /** The session's queue is `b`, followed by the summary if its plans are complete and it was not queued
      before, and then by the stop if the session ends with its plans. */
  ghost predicate Summarised(b: Mailbox, s: Session) {
    Queued(b, s.box, false, PlansComplete(s), PlansComplete(s) && s.info.shutdownAfterSend && !s.info.solo && !b.summarySent)
  }

  lemma {:induction false} ReadySummarised(s: Session)
    ensures Summarised(s.box, SummaryIfReady(s)) && SummaryIfReady(s) == s.(box := SummaryIfReady(s).box)
    ensures SummaryIfReady(SummaryIfReady(s)) == SummaryIfReady(s)
  {
    SummaryIfOut(s.box, PlansComplete(s), s.info.shutdownAfterSend && !s.info.solo);
  }

  /** A frame of the session is accepted: counted, recorded, and passed on or kept. */
  ghost predicate Accepts(s: Session, s': Session, raw: nat, delivered: seq<nat>, pending: seq<nat>) {
    s' == s.(flow := Flow(s.flow.forwarded + 1, s.flow.accepted + [raw], delivered, pending, s.flow.overPlan), box := s'.box)
  }

  /** The peer gets a frame: counted, queued, and perhaps the last of its plan. */
  ghost predicate Gets(p: Session, p': Session, raw: nat) {
    p' == p.(received := p.received + 1, box := p'.box) && Summarised(Gaining(p.box, [Relay(raw)]), p')
  }

  /** The session is ended by a frame it should not have sent: error, summary and stop, the latter two unless
      queued before; a frame over plan is counted. */
  ghost predicate TurnedAway(s: Session, s': Session, overPlan: bool) {
    && s' == s.(box := s'.box, waitArmed := false, closing := true, leaving := true,
                flow := if overPlan then s.flow.(forwarded := s.flow.forwarded + 1, overPlan := true) else s.flow)
    && Queued(s.box, s'.box, true, true, true)
  }

  /** A solo session is acknowledged, told that it is ready, and sent the server's frames, if it is to have
      any; those may complete its plans. */
  ghost predicate Welcomed(s: Session, s': Session) {
    && s' == s.(generated := s.generated + s.info.serverPush, box := s'.box)
    && var b := Gaining(s.box, [Json, Json] + Pushes(s.info.serverPush));
       if s.info.serverPush > 0 then Summarised(b, s') else s'.box == b
  }

  /** A session that finds nobody in its room is told so and waits, with its timer armed if it has a time
      limit. */
  ghost predicate LeftWaiting(s: Session, s': Session) {
    s' == s.(box := Gaining(s.box, [Json]), waitArmed := s.info.waitTimeout != 0 && !s.closing)
  }

  /** A session is paired with `q`: after `told` it gets what `q` kept for it and the server's frames; what it
      kept itself is passed on; and those may complete its plans. */
  ghost predicate PairedWith(s: Session, s': Session, q: nat, told: seq<Out>, theirs: seq<nat>) {
    && s' == s.(peer := Some(q), partner := Some(q), waitArmed := false,
                flow := s.flow.(delivered := s.flow.delivered + s.flow.pending, pending := []),
                received := s.received + |theirs|, generated := s.generated + s.info.serverPush, box := s'.box)
    && Summarised(Gaining(s.box, told + AsRelays(theirs) + Pushes(s.info.serverPush)), s')
  }

  /** The session loses its peer: it is told, and gets its summary unless it was queued before; with its plans
      complete a stop follows if it ends with its plans, and otherwise in any case. */
  ghost predicate Left(s: Session, s': Session) {
    && s' == s.(peer := None, waitArmed := false, box := s'.box)
    && Queued(s.box, s'.box, true, true, PlansComplete(s) ==> EndsWithPlan(s))
  }

  /** The session's reader has ended: summary and stop, each unless queued before. */
  ghost predicate Ended(s: Session, s': Session) {
    && s' == s.(box := s'.box, ended := true, leaving := true, closing := true, waitArmed := false)
    && Queued(s.box, s'.box, false, true, true)
  }

  /** Whether the summary that completes the plans comes with a stop. */
  predicate EndsWithPlan(s: Session) {
    PlansComplete(s) && s.info.shutdownAfterSend && !s.info.solo && !s.box.summarySent
  }

  /** fail_session, and the end of the reader's loop. */
  function Rejected(s: Session): Session {
    s.(box := Failed(s.box), waitArmed := false, closing := true, leaving := true)
  }

  function OverPlan(s: Session): Session {
    Rejected(s.(flow := s.flow.(forwarded := s.flow.forwarded + 1, overPlan := true)))
  }

  function Counted(s: Session, raw: nat): Session {
    s.(flow := s.flow.(forwarded := s.flow.forwarded + 1, accepted := s.flow.accepted + [raw]))
  }

  function Kept(s: Session, raw: nat): Session {
    s.(flow := s.flow.(forwarded := s.flow.forwarded + 1, accepted := s.flow.accepted + [raw], pending := s.flow.pending + [raw]))
  }

  function Passed(s: Session, raw: nat): Session {
    s.(flow := s.flow.(forwarded := s.flow.forwarded + 1, accepted := s.flow.accepted + [raw], delivered := s.flow.delivered + [raw]))
  }

  function Received(s: Session, raw: nat): Session {
    s.(received := s.received + 1, box := Post(s.box, Relay(raw)))
  }

  /** schedule_server_push, up to the summary. */
  function Pushed(s: Session): Session {
    s.(generated := s.generated + s.info.serverPush, box := PushAll(s.box, s.info.serverPush))
  }

  /** Pairing, for one of the two: what it kept goes to the peer, what the peer kept comes in. */
  function Linked(s: Session, q: nat, theirs: seq<nat>): Session {
    s.(peer := Some(q), partner := Some(q), waitArmed := false,
       flow := s.flow.(delivered := s.flow.delivered + s.flow.pending, pending := []),
       received := s.received + |theirs|, box := PostAll(Post(s.box, Json), theirs))
  }

  /** notify_peer_of_departure, for the peer that stays. */
  function PeerLeft(s: Session): Session {
    var s1 := s.(peer := None, waitArmed := false, box := Post(s.box, Json));
    if PlansComplete(s1) then SummaryIfReady(s1) else s1.(box := StopWriter(SendSummary(s1.box)))
  }

  /** The end of reader_loop. */
  function End(s: Session): Session {
    s.(box := StopWriter(SendSummary(s.box)), ended := true, leaving := true, closing := true, waitArmed := false)
  }

  lemma {:induction false} ReadyFine(s: Session)
    requires Fine(s)
    ensures Fine(SummaryIfReady(s)) && Relays(SummaryIfReady(s).box.out) == Relays(s.box.out)
  {
    SummaryIfOk(s.box, PlansComplete(s), s.info.shutdownAfterSend && !s.info.solo);
  }

  lemma {:induction false} RejectedFine(s: Session)
    requires Fine(s)
    ensures Fine(Rejected(s)) && Relays(Rejected(s).box.out) == Relays(s.box.out)
  {
    FailedOk(s.box);
  }

  lemma {:induction false} OverPlanFine(s: Session)
    requires Fine(s) && !s.leaving && s.handshakeDone
    ensures Fine(OverPlan(s)) && Relays(OverPlan(s).box.out) == Relays(s.box.out)
  {
    FailedOk(s.box);
  }

  lemma {:induction false} FlowFine(s: Session, raw: nat)
    requires Fine(s) && s.handshakeDone
    ensures s.info.solo ==> Fine(Counted(s, raw))
    ensures Fine(Kept(s, raw))
    ensures s.flow.pending == [] ==> Fine(Passed(s, raw))
  {
    var f := s.flow;
    assert f.delivered + (f.pending + [raw]) == (f.delivered + f.pending) + [raw];
    if f.pending == [] { assert (f.delivered + [raw]) + f.pending == (f.delivered + f.pending) + [raw]; }
  }

  lemma {:induction false} ReceivedFine(s: Session, raw: nat)
    requires Fine(s)
    ensures Fine(Received(s, raw)) && Relays(Received(s, raw).box.out) == Relays(s.box.out) + [raw]
  {
    PostOk(s.box, Relay(raw));
  }

  lemma {:induction false} PushedFine(s: Session)
    requires Fine(s)
    ensures Fine(Pushed(s)) && Relays(Pushed(s).box.out) == Relays(s.box.out)
  {
    PushAllOk(s.box, s.info.serverPush);
  }

  lemma {:induction false} LinkedFine(s: Session, q: nat, theirs: seq<nat>)
    requires Fine(s) && s.handshakeDone
    ensures Fine(Linked(s, q, theirs)) && Relays(Linked(s, q, theirs).box.out) == Relays(s.box.out) + theirs
  {
    PostOk(s.box, Json);
    PostAllOk(Post(s.box, Json), theirs);
    assert (s.flow.delivered + s.flow.pending) + [] == s.flow.delivered + s.flow.pending;
  }

  lemma {:induction false} PeerLeftFine(s: Session)
    requires Fine(s)
    ensures Fine(PeerLeft(s)) && Relays(PeerLeft(s).box.out) == Relays(s.box.out)
  {
    PostOk(s.box, Json);
    FinishOk(Post(s.box, Json));
    ReadyFine(s.(peer := None, waitArmed := false, box := Post(s.box, Json)));
  }

  lemma {:induction false} PeerLeftOut(s: Session)
    ensures Left(s, PeerLeft(s))
  {}

  lemma {:induction false} EndFine(s: Session)
    requires Fine(s)
    ensures Fine(End(s)) && Relays(End(s).box.out) == Relays(s.box.out)
    ensures Ended(s, End(s))
  {
    FinishOk(s.box);
  }

  // ----- all sessions -------------------------------------------------------------------------------

  ghost function Got(s: Session): seq<nat> {
    Relays(s.box.out)
  }

  /** Whether a data frame of the session goes straight to its peer. */
  ghost predicate Live(ss: map<nat, Session>, s: Session) {
    s.peer.Some? && s.peer.value in ss && !ss[s.peer.value].closing
  }

  /** Pairs are mutual and last; what one passed on is what the other got; nothing is kept back from a live
      peer. */
  ghost predicate LinkOk(ss: map<nat, Session>, id: nat, s: Session) {
    && (s.peer.Some? ==> s.partner == s.peer)
    && (Live(ss, s) ==> s.flow.pending == [])
    && (if s.partner.None? then s.flow.delivered == [] && Got(s) == [] else PartnerOk(ss, id, s))
  }

  ghost predicate PartnerOk(ss: map<nat, Session>, id: nat, s: Session)
    requires s.partner.Some?
  {
    var q := s.partner.value;
    q in ss && q != id && ss[q].partner == Some(id) && Got(ss[q]) == s.flow.delivered && !s.info.solo && s.handshakeDone
  }

  ghost predicate Links(ss: map<nat, Session>) {
    forall id :: id in ss ==> LinkOk(ss, id, ss[id])
  }

  ghost predicate AllFine(ss: map<nat, Session>) {
    forall id :: id in ss ==> Fine(ss[id])
  }

  /** Who waits in a room asked for that room and is not paired. */
  ghost predicate WaitingOk(ss: map<nat, Session>, waiting: map<nat, nat>) {
    forall r :: r in waiting ==>
      waiting[r] in ss && ss[waiting[r]].info.room == r && ss[waiting[r]].partner.None? && !ss[waiting[r]].info.solo && ss[waiting[r]].handshakeDone
  }

  ghost predicate NotWaiting(waiting: map<nat, nat>, id: nat) {
    forall r :: r in waiting ==> waiting[r] != id
  }

  /** Nothing about the relay changes but that the session may lose its peer or close, or that frames are
      kept while its peer is not live. */
  ghost predicate Quiet(ss: map<nat, Session>, s: Session, s': Session) {
    && s'.partner == s.partner && s'.flow.delivered == s.flow.delivered && Got(s') == Got(s)
    && (s'.flow.pending == s.flow.pending || !Live(ss, s))
    && (s'.peer == s.peer || s'.peer.None?) && (s.closing ==> s'.closing)
    && s'.info == s.info && s'.handshakeDone == s.handshakeDone
  }

  lemma {:induction false} QuietLinks(ss: map<nat, Session>, id: nat, s': Session)
    requires Links(ss) && id in ss && Quiet(ss, ss[id], s')
    ensures Links(ss[id := s'])
  {
    var ss' := ss[id := s'];
    forall x | x in ss' ensures LinkOk(ss', x, ss'[x]) {
      assert LinkOk(ss, x, ss[x]);
    }
  }

  /** A pair changes; everyone else is linked as before. */
  lemma {:induction false} OtherLink(ss: map<nat, Session>, ss': map<nat, Session>, id: nat, q: nat, x: nat)
    requires Links(ss) && x in ss && x != id && x != q && id in ss && q in ss && id in ss' && q in ss' && ss' == ss[id := ss'[id]][q := ss'[q]]
    requires ss[id].partner != Some(x) && ss[q].partner != Some(x)
    ensures LinkOk(ss', x, ss'[x])
  {
    assert LinkOk(ss, x, ss[x]);
  }

  /** A frame more from `id` to its live peer `q`. */
  lemma {:induction false} PassLinks(ss: map<nat, Session>, id: nat, q: nat, s': Session, p': Session, raw: nat)
    requires Links(ss) && id in ss && q in ss && Live(ss, ss[id]) && ss[id].peer == Some(q)
    requires Quiet(ss, ss[id], s'.(flow := ss[id].flow)) && s'.flow.delivered == ss[id].flow.delivered + [raw] && s'.flow.pending == ss[id].flow.pending
    requires Quiet(ss, ss[q], p'.(box := ss[q].box)) && Got(p') == Got(ss[q]) + [raw]
    ensures q != id && Links(ss[id := s'][q := p'])
  {
    var ss' := ss[id := s'][q := p'];
    assert LinkOk(ss, id, ss[id]) && LinkOk(ss, q, ss[q]);
    forall x | x in ss' ensures LinkOk(ss', x, ss'[x]) {
      if x != id && x != q { OtherLink(ss, ss', id, q, x); }
    }
  }

  /** Two sessions are paired, and each gets what the other kept for it. */
  lemma {:induction false} PairLinks(ss: map<nat, Session>, id: nat, q: nat, s': Session, p': Session)
    requires Links(ss) && id in ss && q in ss && id != q && ss[id].partner.None? && ss[q].partner.None?
    requires s'.peer == s'.partner == Some(q) && p'.peer == p'.partner == Some(id) && s'.flow.pending == [] && p'.flow.pending == []
    requires s'.flow.delivered == Got(p') && p'.flow.delivered == Got(s')
    requires !s'.info.solo && !p'.info.solo && s'.handshakeDone && p'.handshakeDone
    ensures Links(ss[id := s'][q := p'])
  {
    var ss' := ss[id := s'][q := p'];
    forall x | x in ss' ensures LinkOk(ss', x, ss'[x]) {
      if x != id && x != q { OtherLink(ss, ss', id, q, x); }
    }
  }

  // ----- the server -----------------------------------------------------------------------------------

  class ChatServer {
    var sessions: map<nat, Session>
    /** The session that waits in each room. */
    var waiting: map<nat, nat>

    ghost predicate Valid()
      reads this
    {
      AllFine(sessions) && Links(sessions) && WaitingOk(sessions, waiting)
    }

    constructor ()
      ensures Valid() && sessions == map[] && waiting == map[]
    {
      sessions, waiting := map[], map[];
    }

    method OpenSession(id: nat)
      requires Valid() && id !in sessions
      modifies this`sessions
      ensures Valid() && sessions == old(sessions)[id := Opened()] && id in sessions
      ensures var s := sessions[id];
              s.peer.None? && s.partner.None? && s.flow == Flow(0, [], [], [], false) && s.box.out == [] && !s.handshakeDone && !s.closing
    {
      OpenLinks(sessions, id);
      sessions := sessions[id := Opened()];
    }

    /** A session changes in what does not concern its peer. */
    method Put(id: nat, s: Session)
      requires Valid() && id in sessions && Quiet(sessions, sessions[id], s) && Fine(s)
      modifies this`sessions
      ensures Valid() && sessions == old(sessions)[id := s] && sessions.Keys == old(sessions).Keys && sessions[id] == s
    {
      QuietLinks(sessions, id, s);
      sessions := sessions[id := s];
    }

    /** A frame that breaks the protocol. */
    method Reject(id: nat)
      requires Valid() && id in sessions
      modifies this`sessions
      ensures Valid() && id in sessions && sessions == old(sessions)[id := sessions[id]] && sessions.Keys == old(sessions).Keys
      ensures TurnedAway(old(sessions)[id], sessions[id], false)
    {
      FailedOut(sessions[id].box);
      RejectedFine(sessions[id]);
      Put(id, Rejected(sessions[id]));
    }

    /** The data path of reader_loop, for a frame with a payload of `size` bytes. */
    method DataFrame(id: nat, raw: nat, size: nat)
      requires Valid() && id in sessions && sessions[id].handshakeDone && !sessions[id].leaving
      modifies this`sessions
      ensures Valid() && sessions.Keys == old(sessions).Keys
      ensures Handled(old(sessions), sessions, id, raw, size)
    {
      var s := sessions[id];
      if size < 8 || (s.info.payloadBytes != 0 && size - 8 != s.info.payloadBytes) {
        Reject(id);
      } else if s.flow.forwarded + 1 > s.info.sendPlan && s.info.sendPlan > 0 {
        RefuseOverPlan(id);
      } else if s.info.solo {
        TakeSolo(id, raw);
      } else if s.peer.None? || s.peer.value !in sessions || sessions[s.peer.value].closing {
        Keep(id, raw);
      } else {
        Pass(id, s.peer.value, raw);
      }
    }

    method RefuseOverPlan(id: nat)
      requires Valid() && id in sessions && sessions[id].handshakeDone && !sessions[id].leaving
      modifies this`sessions
      ensures Valid() && id in sessions && sessions == old(sessions)[id := sessions[id]] && sessions.Keys == old(sessions).Keys
      ensures TurnedAway(old(sessions)[id], sessions[id], true)
    {
      FailedOut(sessions[id].box);
      OverPlanFine(sessions[id]);
      Put(id, OverPlan(sessions[id]));
    }

    method TakeSolo(id: nat, raw: nat)
      requires Valid() && id in sessions && sessions[id].handshakeDone && sessions[id].info.solo
      modifies this`sessions
      ensures Valid() && id in sessions && sessions == old(sessions)[id := sessions[id]] && sessions.Keys == old(sessions).Keys
      ensures var s := old(sessions)[id];
              Accepts(s, sessions[id], raw, s.flow.delivered, s.flow.pending) && Summarised(s.box, sessions[id])
    {
      FlowFine(sessions[id], raw);
      ReadyFine(Counted(sessions[id], raw));
      ReadySummarised(Counted(sessions[id], raw));
      Put(id, SummaryIfReady(Counted(sessions[id], raw)));
    }

    /** append_pending: nothing is queued for anybody. */
    method Keep(id: nat, raw: nat)
      requires Valid() && id in sessions && sessions[id].handshakeDone && !Live(sessions, sessions[id])
      modifies this`sessions
      ensures Valid() && id in sessions && sessions == old(sessions)[id := sessions[id]] && sessions.Keys == old(sessions).Keys
      ensures var s := old(sessions)[id];
              Accepts(s, sessions[id], raw, s.flow.delivered, s.flow.pending + [raw]) && sessions[id].box == s.box
    {
      FlowFine(sessions[id], raw);
      Put(id, Kept(sessions[id], raw));
    }

    /** A frame goes straight to the peer; then each of the two gets its summary if this completed its plans. */
    method Pass(id: nat, q: nat, raw: nat)
      requires Valid() && id in sessions && q in sessions && Live(sessions, sessions[id]) && sessions[id].peer == Some(q)
      requires sessions[id].handshakeDone
      modifies this`sessions
      ensures Valid() && id in sessions && q in sessions && sessions == old(sessions)[id := sessions[id]][q := sessions[q]]
      ensures sessions.Keys == old(sessions).Keys && q != id
      ensures var s := old(sessions)[id];
              Accepts(s, sessions[id], raw, s.flow.delivered + [raw], s.flow.pending) && Summarised(s.box, sessions[id])
      ensures Gets(old(sessions)[q], sessions[q], raw)
    {
      var s', p' := SummaryIfReady(Passed(sessions[id], raw)), SummaryIfReady(Received(sessions[q], raw));
      PassFine(sessions, id, q, s', p', raw);
      PassLinks(sessions, id, q, s', p', raw);
      PassOut(sessions[id], sessions[q], raw);
      PutTwo(id, s', q, p');
    }

    method PutTwo(id: nat, s: Session, q: nat, p: Session)
      requires Valid() && id in sessions && q in sessions && id != q && Links(sessions[id := s][q := p]) && Fine(s) && Fine(p)
      requires WaitingOk(sessions[id := s][q := p], waiting)
      modifies this`sessions
      ensures Valid() && sessions == old(sessions)[id := s][q := p] && sessions.Keys == old(sessions).Keys
      ensures sessions[id] == s && sessions[q] == p
    {
      sessions := sessions[id := s][q := p];
    }

    /** The hello frame: solo, or into the room, where a session that waits becomes the peer. */
    method Hello(id: nat, info: Info, emptyRoom: bool, tooBig: bool)
      requires Valid() && id in sessions && !sessions[id].handshakeDone && !sessions[id].leaving
      modifies this`sessions, this`waiting
      ensures Valid() && sessions.Keys == old(sessions).Keys
      ensures Admitted(old(sessions)[id := old(sessions)[id].(info := info, handshakeDone := true)], old(waiting), sessions, waiting, id,
                       (!info.solo && emptyRoom) || tooBig)
    {
      var s := sessions[id].(info := info, handshakeDone := true);
      HelloLinks(sessions, id, s);
      HelloWaiting(sessions, waiting, id, s);
      sessions := sessions[id := s];
      Admit(id, (!info.solo && emptyRoom) || tooBig);
    }

    method Admit(id: nat, refuse: bool)
      requires Valid() && id in sessions && sessions[id].partner.None? && sessions[id].handshakeDone && NotWaiting(waiting, id)
      modifies this`sessions, this`waiting
      ensures Valid() && sessions.Keys == old(sessions).Keys && Admitted(old(sessions), old(waiting), sessions, waiting, id, refuse)
    {
      if refuse {
        Reject(id);
      } else if sessions[id].info.solo {
        Greet(id);
      } else {
        EnterRoom(id);
      }
    }

    method EnterRoom(id: nat)
      requires Valid() && id in sessions && sessions[id].partner.None? && !sessions[id].info.solo && sessions[id].handshakeDone && NotWaiting(waiting, id)
      modifies this`sessions, this`waiting
      ensures Valid() && sessions.Keys == old(sessions).Keys && Entered(old(sessions), old(waiting), sessions, waiting, id)
    {
      var q := Attach(id);
      if q.None? { Await(id); } else { Pair(id, q.value); }
    }

    /** A solo session: acknowledged, ready, and pushed to. */
    method Greet(id: nat)
      requires Valid() && id in sessions
      modifies this`sessions
      ensures Valid() && id in sessions && sessions == old(sessions)[id := sessions[id]] && sessions.Keys == old(sessions).Keys
      ensures Welcomed(old(sessions)[id], sessions[id])
    {
      var s := sessions[id];
      GreetFine(s);
      WelcomeOut(s);
      s := s.(box := Post(Post(s.box, Json), Json));
      if s.info.serverPush > 0 {
        PushedFine(s);
        ReadyFine(Pushed(s));
        s := PushLoop(s);
        s := SummaryIfReady(s);
      }
      Put(id, s);
    }

    /** schedule_server_push's loop. */
    method PushLoop(s: Session) returns (s': Session)
      ensures s' == Pushed(s)
    {
      s' := s;
      for i := 0 to s.info.serverPush
        invariant s' == s.(generated := s.generated + i, box := PushAll(s.box, i))
      {
        s' := s'.(generated := s'.generated + 1, box := Post(s'.box, Push(i)));
      }
    }

    /** flush_pending_to_peer's loop. */
    method FlushLoop(pending: seq<nat>, p: Session) returns (p': Session)
      ensures p' == p.(received := p.received + |pending|, box := PostAll(p.box, pending))
    {
      p' := p;
      for i := 0 to |pending|
        invariant p' == p.(received := p.received + i, box := PostAll(p.box, pending[..i]))
      {
        assert pending[..i + 1][..i] == pending[..i];
        p' := p'.(received := p'.received + 1, box := Post(p'.box, Relay(pending[i])));
      }
      assert pending[..|pending|] == pending;
    }

    /** RoomRegistry::attach: a session that waits and is not closing is taken; else this one waits. */
    method Attach(id: nat) returns (q: Option<nat>)
      requires Valid() && id in sessions && sessions[id].partner.None? && !sessions[id].info.solo && sessions[id].handshakeDone
      requires NotWaiting(waiting, id)
      modifies this`waiting
      ensures Valid()
      ensures q.Some? ==> q.value in sessions && q.value != id && !sessions[q.value].closing && sessions[q.value].partner.None?
                          && !sessions[q.value].info.solo && sessions[q.value].handshakeDone
      ensures waiting == if q.Some? then old(waiting) - {sessions[id].info.room} else old(waiting)[sessions[id].info.room := id]
      ensures q.Some? <==> Open(sessions, old(waiting), sessions[id].info.room)
      ensures q.Some? ==> q.value == old(waiting)[sessions[id].info.room]
      ensures q.Some? ==> NotWaiting(waiting, id) && NotWaiting(waiting, q.value)
    {
      var room := sessions[id].info.room;
      if room !in waiting || waiting[room] !in sessions || sessions[waiting[room]].closing {
        waiting := waiting[room := id];
        q := None;
      } else {
        q := Some(waiting[room]);
        waiting := waiting - {room};
      }
    }

    /** Pairing: both are told, each gets what the other kept for it, then pushes and summaries follow. */
    method Pair(id: nat, q: nat)
      requires Valid() && id in sessions && q in sessions && id != q && sessions[id].partner.None? && sessions[q].partner.None?
      requires !sessions[id].info.solo && !sessions[q].info.solo && sessions[id].handshakeDone && sessions[q].handshakeDone
      requires NotWaiting(waiting, id) && NotWaiting(waiting, q)
      modifies this`sessions
      ensures Valid() && id in sessions && q in sessions && sessions == old(sessions)[id := sessions[id]][q := sessions[q]]
      ensures sessions.Keys == old(sessions).Keys
      ensures PairedWith(old(sessions)[id], sessions[id], q, [Json, Json], old(sessions)[q].flow.pending)
      ensures PairedWith(old(sessions)[q], sessions[q], id, [Json], old(sessions)[id].flow.pending)
    {
      var s, p := sessions[id], sessions[q];
      PairStart(sessions, id, q);
      var s', p' := PairUp(id, s, q, p);
      PairDone(sessions, waiting, id, q, s', p');
      PutTwo(id, s', q, p');
    }

    method PairUp(id: nat, s: Session, q: nat, p: Session) returns (s': Session, p': Session)
      requires Fine(s.(box := Post(s.box, Json))) && Fine(p) && s.handshakeDone && p.handshakeDone
      requires Got(s.(box := Post(s.box, Json))) == [] && Got(p) == []
      ensures s' == Linked(s, q, p.flow.pending).(generated := s'.generated, box := s'.box) && Fine(s') && Got(s') == p.flow.pending
      ensures p' == Linked(p, id, s.flow.pending).(generated := p'.generated, box := p'.box) && Fine(p') && Got(p') == s.flow.pending
      ensures PairedWith(s, s', q, [Json, Json], p.flow.pending) && PairedWith(p, p', id, [Json], s.flow.pending)
    {
      s', p' := Exchange(id, s.(box := Post(s.box, Json)), q, p);
      assert [] + p.flow.pending == p.flow.pending && [] + s.flow.pending == s.flow.pending;
      LinkedOut(s, q, p.flow.pending);
      LinkedOut(p, id, s.flow.pending);
      s' := Greeted(s');
      p' := Greeted(p');
    }

    method Exchange(id: nat, s: Session, q: nat, p: Session) returns (s': Session, p': Session)
      requires Fine(s) && Fine(p) && s.handshakeDone && p.handshakeDone
      ensures s' == Linked(s, q, p.flow.pending) && p' == Linked(p, id, s.flow.pending)
      ensures Fine(s') && Fine(p') && Got(s') == Got(s) + p.flow.pending && Got(p') == Got(p) + s.flow.pending
    {
      LinkedFine(s, q, p.flow.pending);
      LinkedFine(p, id, s.flow.pending);
      s' := s.(peer := Some(q), partner := Some(q), waitArmed := false, flow := s.flow.(delivered := s.flow.delivered + s.flow.pending, pending := []), box := Post(s.box, Json));
      p' := p.(peer := Some(id), partner := Some(id), waitArmed := false, flow := p.flow.(delivered := p.flow.delivered + p.flow.pending, pending := []), box := Post(p.box, Json));
      p' := FlushLoop(s.flow.pending, p');
      s' := FlushLoop(p.flow.pending, s');
    }

    /** The pushes and the summary that follow a pairing. */
    method Greeted(s: Session) returns (s': Session)
      requires Fine(s)
      ensures Fine(s') && Got(s') == Got(s) && s' == SummaryIfReady(Pushed(s))
    {
      s' := s;
      PushedFine(s);
      ReadySummarised(Pushed(s));
      if s.info.serverPush > 0 {
        s' := PushLoop(s);
        ReadyFine(s');
        s' := SummaryIfReady(s');
      }
      ReadyFine(s');
      s' := SummaryIfReady(s');
    }

    /** A done control frame. */
    method Done(id: nat)
      requires Valid() && id in sessions
      modifies this`sessions
      ensures Valid() && id in sessions && sessions == old(sessions)[id := sessions[id]] && sessions.Keys == old(sessions).Keys
      ensures sessions[id] == old(sessions)[id].(box := sessions[id].box)
      ensures Queued(old(sessions)[id].box, sessions[id].box, false, PlansComplete(old(sessions)[id]), EndsWithPlan(old(sessions)[id]))
    {
      SummaryIfOut(sessions[id].box, PlansComplete(sessions[id]), sessions[id].info.shutdownAfterSend && !sessions[id].info.solo);
      ReadyFine(sessions[id]);
      Put(id, SummaryIfReady(sessions[id]));
    }

    /** A ping control frame: a pong control frame goes back. */
    method PingControl(id: nat)
      requires Valid() && id in sessions
      modifies this`sessions
      ensures Valid() && id in sessions && sessions == old(sessions)[id := sessions[id]] && sessions.Keys == old(sessions).Keys
      ensures sessions[id] == old(sessions)[id].(box := sessions[id].box)
      ensures Queued(old(sessions)[id].box, sessions[id].box, true, false, false)
    {
      PostOk(sessions[id].box, Json);
      Put(id, sessions[id].(box := Post(sessions[id].box, Json)));
    }

    /** wait_timeout_callback. */
    method WaitTimeout(id: nat)
      requires Valid() && id in sessions
      modifies this`sessions, this`waiting
      ensures Valid() && id in sessions && sessions == old(sessions)[id := sessions[id]] && sessions.Keys == old(sessions).Keys
      ensures var s := old(sessions)[id];
              if !s.waitArmed || s.closing || s.peer.Some? then waiting == old(waiting) && sessions[id] == s.(waitArmed := false)
              else
                && waiting == OutOfRoom(old(waiting), s.info.room, id)
                && sessions[id] == s.(waitArmed := false, closing := true, box := sessions[id].box) && Queued(s.box, sessions[id].box, true, true, true)
    {
      var s := sessions[id];
      if !s.waitArmed { return; }
      s := s.(waitArmed := false);
      if s.closing || s.peer.Some? {
        Put(id, s);
        return;
      }
      RemoveIfWaiting(id);
      FailedOk(s.box);
      FailedOut(s.box);
      Put(id, s.(closing := true, box := Failed(s.box)));
    }

    /** RoomRegistry::remove_if_waiting. */
    method RemoveIfWaiting(id: nat)
      requires Valid() && id in sessions
      modifies this`waiting
      ensures Valid() && waiting == OutOfRoom(old(waiting), sessions[id].info.room, id)
    {
      var room := sessions[id].info.room;
      if room in waiting && (waiting[room] !in sessions || waiting[room] == id) {
        waiting := waiting - {room};
      }
    }

    /** The end of reader_loop: the session leaves its room and its peer, and ends with a summary and a stop. */
    method ReaderEnd(id: nat)
      requires Valid() && id in sessions && !sessions[id].ended
      modifies this`sessions, this`waiting
      ensures Valid() && id in sessions && sessions.Keys == old(sessions).Keys && waiting == OutOfRoom(old(waiting), sessions[id].info.room, id)
      ensures Ended(old(sessions)[id], sessions[id])
      ensures var q := old(sessions)[id].peer;
              if q.None? then sessions == old(sessions)[id := sessions[id]]
              else
                && q.value in sessions && q.value != id && sessions == old(sessions)[q.value := sessions[q.value]][id := sessions[id]]
                && Left(old(sessions)[q.value], sessions[q.value])
    {
      RemoveIfWaiting(id);
      var q := sessions[id].peer;
      assert LinkOk(sessions, id, sessions[id]);
      if q.Some? && q.value in sessions { NotifyPeer(q.value); }
      Depart(id);
    }

    /** notify_peer_of_departure. */
    method NotifyPeer(q: nat)
      requires Valid() && q in sessions
      modifies this`sessions
      ensures Valid() && q in sessions && sessions == old(sessions)[q := sessions[q]] && sessions.Keys == old(sessions).Keys
      ensures Left(old(sessions)[q], sessions[q])
    {
      PeerLeftOut(sessions[q]);
      PeerLeftFine(sessions[q]);
      Put(q, PeerLeft(sessions[q]));
    }

    method Depart(id: nat)
      requires Valid() && id in sessions
      modifies this`sessions
      ensures Valid() && id in sessions && sessions == old(sessions)[id := sessions[id]] && sessions.Keys == old(sessions).Keys
      ensures Ended(old(sessions)[id], sessions[id])
    {
      EndFine(sessions[id]);
      Put(id, End(sessions[id]));
    }

    method Await(id: nat)
      requires Valid() && id in sessions
      modifies this`sessions
      ensures Valid() && id in sessions && sessions == old(sessions)[id := sessions[id]] && sessions.Keys == old(sessions).Keys
      ensures LeftWaiting(old(sessions)[id], sessions[id])
    {
      var s := sessions[id];
      PostOk(s.box, Json);
      Put(id, s.(box := Post(s.box, Json), waitArmed := s.info.waitTimeout != 0 && !s.closing));
    }
  }

  /** The rooms after a session has left its own, if it waited there. */
  ghost function OutOfRoom(waiting: map<nat, nat>, room: nat, id: nat): map<nat, nat> {
    if room in waiting && waiting[room] == id then waiting - {room} else waiting
  }

  /** Somebody waits in the room and is not closing. */
  ghost predicate Open(ss: map<nat, Session>, waiting: map<nat, nat>, room: nat) {
    room in waiting && waiting[room] in ss && !ss[waiting[room]].closing
  }

  /** What becomes of a data frame: a frame of the wrong size, or over plan, ends the session; any other is
      accepted, and is taken from a solo session, kept without a live peer, or passed on. */
  ghost predicate Handled(ss: map<nat, Session>, ss': map<nat, Session>, id: nat, raw: nat, size: nat)
    requires id in ss
  {
    var s := ss[id];
    id in ss' &&
    if size < 8 || (s.info.payloadBytes != 0 && size != s.info.payloadBytes + 8) then
      ss' == ss[id := ss'[id]] && TurnedAway(s, ss'[id], false)
    else if s.info.sendPlan > 0 && s.flow.forwarded >= s.info.sendPlan then
      ss' == ss[id := ss'[id]] && TurnedAway(s, ss'[id], true)
    else if s.info.solo then
      ss' == ss[id := ss'[id]] && Accepts(s, ss'[id], raw, s.flow.delivered, s.flow.pending) && Summarised(s.box, ss'[id])
    else if !Live(ss, s) then
      ss' == ss[id := ss'[id]] && Accepts(s, ss'[id], raw, s.flow.delivered, s.flow.pending + [raw]) && ss'[id].box == s.box
    else
      var q := s.peer.value;
      && q != id && q in ss' && ss' == ss[id := ss'[id]][q := ss'[q]]
      && Accepts(s, ss'[id], raw, s.flow.delivered + [raw], s.flow.pending) && Summarised(s.box, ss'[id])
      && Gets(ss[q], ss'[q], raw)
  }

  lemma {:induction false} PassOut(s: Session, p: Session, raw: nat)
    ensures var s', p' := SummaryIfReady(Passed(s, raw)), SummaryIfReady(Received(p, raw));
            Accepts(s, s', raw, s.flow.delivered + [raw], s.flow.pending) && Summarised(s.box, s') && Gets(p, p', raw)
  {
    ReadySummarised(Passed(s, raw));
    ReadySummarised(Received(p, raw));
  }

  lemma {:induction false} OpenLinks(ss: map<nat, Session>, id: nat)
    requires Links(ss) && AllFine(ss) && id !in ss
    ensures Links(ss[id := Opened()]) && AllFine(ss[id := Opened()])
  {
    var ss' := ss[id := Opened()];
    forall x | x in ss' ensures LinkOk(ss', x, ss'[x]) {
      if x != id { assert LinkOk(ss, x, ss[x]); }
    }
  }

  /** Both ends of a pass, each by itself. */
  lemma {:induction false} PassFine(ss: map<nat, Session>, id: nat, q: nat, s': Session, p': Session, raw: nat)
    requires AllFine(ss) && Links(ss) && id in ss && q in ss && Live(ss, ss[id]) && ss[id].handshakeDone
    requires s' == SummaryIfReady(Passed(ss[id], raw)) && p' == SummaryIfReady(Received(ss[q], raw))
    ensures Fine(s') && Fine(p') && Got(s') == Got(ss[id]) && Got(p') == Got(ss[q]) + [raw]
  {
    assert LinkOk(ss, id, ss[id]);
    FlowFine(ss[id], raw);
    ReceivedFine(ss[q], raw);
    ReadyFine(Passed(ss[id], raw));
    ReadyFine(Received(ss[q], raw));
  }

  /** What becomes of a session that enters its room: it is paired with the open session that waits there, or
      waits there itself. */
  ghost predicate Entered(ss: map<nat, Session>, waiting: map<nat, nat>, ss': map<nat, Session>, waiting': map<nat, nat>, id: nat)
    requires id in ss
  {
    var s := ss[id];
    var r := s.info.room;
    id in ss' &&
    if Open(ss, waiting, r) then
      var q := waiting[r];
      && waiting' == waiting - {r} && q != id && q in ss' && ss' == ss[id := ss'[id]][q := ss'[q]]
      && PairedWith(s, ss'[id], q, [Json, Json], ss[q].flow.pending) && PairedWith(ss[q], ss'[q], id, [Json], s.flow.pending)
    else
      waiting' == waiting[r := id] && ss' == ss[id := ss'[id]] && LeftWaiting(s, ss'[id])
  }

  /** What becomes of a session that says hello: refused, welcomed by itself, or into its room. */
  ghost predicate Admitted(ss: map<nat, Session>, waiting: map<nat, nat>, ss': map<nat, Session>, waiting': map<nat, nat>, id: nat, refuse: bool)
    requires id in ss
  {
    if !refuse && !ss[id].info.solo then Entered(ss, waiting, ss', waiting', id)
    else
      && waiting' == waiting && id in ss' && ss' == ss[id := ss'[id]]
      && if refuse then TurnedAway(ss[id], ss'[id], false) else Welcomed(ss[id], ss'[id])
  }

  lemma {:induction false} WelcomeOut(s: Session)
    ensures var s1 := s.(box := Post(Post(s.box, Json), Json));
            if s.info.serverPush > 0 then Welcomed(s, SummaryIfReady(Pushed(s1))) else Welcomed(s, s1)
  {
    var n := s.info.serverPush;
    WelcomeBox(s.box, n);
    if n > 0 { ReadySummarised(Pushed(s.(box := Post(Post(s.box, Json), Json)))); }
  }

  lemma {:induction false} WelcomeBox(b: Mailbox, n: nat)
    ensures PushAll(Post(Post(b, Json), Json), n) == Gaining(b, [Json, Json] + Pushes(n))
    ensures n == 0 ==> Post(Post(b, Json), Json) == Gaining(b, [Json, Json] + Pushes(n))
  {
    PushAllOut(Post(Post(b, Json), Json), n);
    assert (b.out + [Json] + [Json]) + Pushes(n) == b.out + ([Json, Json] + Pushes(n));
  }

  /** What a session is sent when it is paired, up to the server's frames. */
  lemma {:induction false} LinkedOut(s: Session, q: nat, theirs: seq<nat>)
    ensures PairedWith(s, SummaryIfReady(Pushed(Linked(s, q, theirs))), q, [Json], theirs)
    ensures PairedWith(s, SummaryIfReady(Pushed(Linked(s.(box := Post(s.box, Json)), q, theirs))), q, [Json, Json], theirs)
  {
    LinkedSends(s, q, [Json], Linked(s, q, theirs), theirs);
    assert s.box.out + [Json, Json] == (s.box.out + [Json]) + [Json];
    LinkedSends(s, q, [Json, Json], Linked(s.(box := Post(s.box, Json)), q, theirs), theirs);
  }

  lemma {:induction false} LinkedSends(s: Session, q: nat, told: seq<Out>, l: Session, theirs: seq<nat>)
    requires l == Linked(s, q, theirs).(box := PostAll(Gaining(s.box, told), theirs))
    ensures PairedWith(s, SummaryIfReady(Pushed(l)), q, told, theirs)
  {
    PostAllOut(Gaining(s.box, told), theirs);
    PushAllOut(l.box, s.info.serverPush);
    assert ((s.box.out + told) + AsRelays(theirs)) + Pushes(s.info.serverPush) == s.box.out + (told + AsRelays(theirs) + Pushes(s.info.serverPush));
    ReadySummarised(Pushed(l));
  }

  lemma {:induction false} GreetFine(s: Session)
    requires Fine(s)
    ensures Fine(s.(box := Post(Post(s.box, Json), Json))) && Relays(Post(Post(s.box, Json), Json).out) == Relays(s.box.out)
  {
    PostOk(s.box, Json);
    PostOk(Post(s.box, Json), Json);
  }

  /** Two sessions without partners have passed and got nothing yet. */
  lemma {:induction false} PairStart(ss: map<nat, Session>, id: nat, q: nat)
    requires AllFine(ss) && Links(ss) && id in ss && q in ss && ss[id].partner.None? && ss[q].partner.None?
    ensures var s := ss[id].(box := Post(ss[id].box, Json));
            Fine(s) && Fine(ss[q]) && Got(s) == [] && Got(ss[q]) == [] && s.flow.delivered == [] && ss[q].flow.delivered == []
    ensures [] + ss[id].flow.pending == ss[id].flow.pending && [] + ss[q].flow.pending == ss[q].flow.pending
  {
    assert LinkOk(ss, id, ss[id]) && LinkOk(ss, q, ss[q]);
    PostOk(ss[id].box, Json);
  }

  lemma {:induction false} PairDone(ss: map<nat, Session>, waiting: map<nat, nat>, id: nat, q: nat, s': Session, p': Session)
    requires Links(ss) && WaitingOk(ss, waiting) && id in ss && q in ss && id != q && ss[id].partner.None? && ss[q].partner.None?
    requires NotWaiting(waiting, id) && NotWaiting(waiting, q)
    requires !ss[id].info.solo && !ss[q].info.solo && ss[id].handshakeDone && ss[q].handshakeDone
    requires s' == Linked(ss[id], q, ss[q].flow.pending).(generated := s'.generated, box := s'.box)
    requires p' == Linked(ss[q], id, ss[id].flow.pending).(generated := p'.generated, box := p'.box)
    requires Got(s') == ss[q].flow.pending && Got(p') == ss[id].flow.pending
    ensures Links(ss[id := s'][q := p']) && WaitingOk(ss[id := s'][q := p'], waiting)
  {
    assert LinkOk(ss, id, ss[id]) && LinkOk(ss, q, ss[q]);
    assert [] + ss[id].flow.pending == ss[id].flow.pending && [] + ss[q].flow.pending == ss[q].flow.pending;
    PairLinks(ss, id, q, s', p');
  }

  /** Before its hello a session has no peer and no frames. */
  lemma {:induction false} HelloLinks(ss: map<nat, Session>, id: nat, s': Session)
    requires Links(ss) && AllFine(ss) && id in ss && !ss[id].handshakeDone && s' == ss[id].(info := s'.info, handshakeDone := true)
    ensures Links(ss[id := s']) && AllFine(ss[id := s']) && s'.partner.None? && s'.peer.None?
  {
    var ss' := ss[id := s'];
    assert LinkOk(ss, id, ss[id]) && Fine(ss[id]);
    assert s'.flow.delivered + s'.flow.pending == [];
    forall x | x in ss' ensures LinkOk(ss', x, ss'[x]) {
      assert LinkOk(ss, x, ss[x]);
    }
  }

  lemma {:induction false} HelloWaiting(ss: map<nat, Session>, waiting: map<nat, nat>, id: nat, s': Session)
    requires WaitingOk(ss, waiting) && id in ss && !ss[id].handshakeDone
    ensures WaitingOk(ss[id := s'], waiting) && NotWaiting(waiting, id)
  {}

  // ----- what this comes to ---------------------------------------------------------------------------

  /** For every paired session: what its peer got, followed by what is kept for it, are the data frames
      accepted from its client, in order; and both sides' counters say how many. */
  lemma {:induction false} RelayConserved(ss: map<nat, Session>, id: nat, q: nat)
    requires AllFine(ss) && Links(ss) && id in ss && ss[id].partner == Some(q)
    ensures q in ss && Got(ss[q]) + ss[id].flow.pending == ss[id].flow.accepted
    ensures ss[q].received == |Got(ss[q])| && ss[id].flow.forwarded == ss[q].received + |ss[id].flow.pending| + Bit(ss[id].flow.overPlan)
  {
    assert LinkOk(ss, id, ss[id]) && Fine(ss[id]);
    assert Fine(ss[q]);
  }

  lemma {:induction false} CountAt(out: seq<Out>, f: Out, i: nat)
    requires i < |out| && out[i] == f
    ensures Count(out, f) > 0
  {
    if i < |out| - 1 { CountAt(out[..|out| - 1], f, i); }
  }

  lemma {:induction false} CountTwo(out: seq<Out>, f: Out, i: nat, j: nat)
    requires i < j < |out| && out[i] == f && out[j] == f
    ensures Count(out, f) > 1
  {
    if j < |out| - 1 { CountTwo(out[..|out| - 1], f, i, j); } else { CountAt(out[..|out| - 1], f, i); }
  }

  lemma {:induction false} FoundAt(out: seq<Out>, f: Out) returns (i: nat)
    requires Count(out, f) > 0
    ensures i < |out| && out[i] == f
  {
    if out[|out| - 1] == f { i := |out| - 1; } else { i := FoundAt(out[..|out| - 1], f); }
  }

  /** No session is ever sent two summaries or two stops, and before its stop it was sent its summary. */
  lemma {:induction false} OneSummaryOneStop(ss: map<nat, Session>, id: nat, i: nat, j: nat)
    requires AllFine(ss) && id in ss && i < j < |ss[id].box.out|
    ensures !(ss[id].box.out[i] == Summary && ss[id].box.out[j] == Summary)
    ensures !(ss[id].box.out[i] == Stop && ss[id].box.out[j] == Stop)
  {
    assert Fine(ss[id]);
    var out := ss[id].box.out;
    if out[i] == Summary && out[j] == Summary { CountTwo(out, Summary, i, j); }
    if out[i] == Stop && out[j] == Stop { CountTwo(out, Stop, i, j); }
  }

  lemma {:induction false} SummaryBeforeStop(ss: map<nat, Session>, id: nat, j: nat) returns (i: nat)
    requires AllFine(ss) && id in ss && j < |ss[id].box.out| && ss[id].box.out[j] == Stop
    ensures i < j && ss[id].box.out[i] == Summary
  {
    assert Fine(ss[id]);
    i := StopAfter(ss[id].box.out, j);
  }

  lemma {:induction false} StopAfter(out: seq<Out>, j: nat) returns (i: nat)
    requires SummaryFirst(out) && j < |out| && out[j] == Stop
    ensures i < j && out[i] == Summary
    decreases |out|
  {
    if j == |out| - 1 { i := FoundAt(out[..|out| - 1], Summary); } else { i := StopAfter(out[..|out| - 1], j); }
  }
}
