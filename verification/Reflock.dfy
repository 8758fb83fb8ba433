/** wepoll's reflock and the thread-safe tree of epoll handles, as a transition system over any number
    of threads. Each atomic operation on a reflock's state word, each keyed-event call and each section
    under the tree's lock is one step. */
module Reflock {

  const Ref: int := 0x0000_0001
  const Destroy: int := 0x1000_0000
  const Poison: int := 0x300d_ead0

  /** The low 28 bits of a state word, and the high four. */
  function RefCount(state: int): int {
    state % 0x1000_0000
  }

  function Flags(state: int): int {
    state / 0x1000_0000
  }

  /** How far the one thread that destroys the lock has got. `waits` is what it read: whether there
      were other references. */
  datatype Phase =
    | Shared
    | Removed(t: nat)
    | Decided(t: nat, waits: bool)
    | Cleared(t: nat, waits: bool)
    | Destroyed(waits: bool)

  /** A tree node's reflock: its word, the threads that hold a reference, those about to signal its
      keyed event, signals sent and not yet received, and all signals ever sent. */
  datatype Lock = Lock(state: int, holders: set<nat>, signallers: set<nat>, phase: Phase, signals: nat, sent: nat)

  /** The handle tree, from keys to nodes, and every node's lock. */
  datatype World = World(tree: map<nat, nat>, locks: map<nat, Lock>)

  datatype Act =
    | Add(key: nat, node: nat)
    | FindAndRef(key: nat, t: nat)
    | DelAndRef(key: nat, t: nat)
    | Unref(node: nat, t: nat)
    | Signal(node: nat, t: nat)
    | AddDestroy(node: nat)
    | Await(node: nat)
    | PutPoison(node: nat)

  /** The threads a lock knows. */
  ghost function Busy(l: Lock): set<nat> {
    l.holders + l.signallers + (if l.phase.Shared? || l.phase.Destroyed? then {} else {l.phase.t})
  }

  /** When a step may happen. A thread that takes a reference has none yet; references stay below
      2^28; NtWaitForKeyedEvent returns only when there is a signal. */
  ghost predicate Enabled(w: World, a: Act) {
    match a
    case Add(key, node) => node !in w.locks
    case FindAndRef(key, t) => key in w.tree ==> w.tree[key] in w.locks && CanRef(w.locks[w.tree[key]], t)
    case DelAndRef(key, t) => key in w.tree ==> w.tree[key] in w.locks && CanRef(w.locks[w.tree[key]], t)
    case Unref(node, t) => node in w.locks && t in w.locks[node].holders
    case Signal(node, t) => node in w.locks && t in w.locks[node].signallers
    case AddDestroy(node) => node in w.locks && w.locks[node].phase.Removed?
    case Await(node) => node in w.locks && w.locks[node].phase.Decided? && (w.locks[node].phase.waits ==> w.locks[node].signals > 0)
    case PutPoison(node) => node in w.locks && w.locks[node].phase.Cleared?
  }

  ghost predicate CanRef(l: Lock, t: nat) {
    t !in Busy(l) && |l.holders| + 1 < 0x0fff_ffff
  }

  // ----- the steps on one lock -----------------------------------------------------------------------

  ghost function NewLock(): Lock {
    Lock(0, {}, {}, Shared, 0, 0)
  }

  ghost function TakeRef(l: Lock, t: nat): Lock {
    l.(state := l.state + Ref, holders := l.holders + {t})
  }

  ghost function TakeOut(l: Lock, t: nat): Lock {
    l.(state := l.state + Ref, phase := Removed(t))
  }

  ghost function DropRef(l: Lock, t: nat): Lock {
    var state := l.state - Ref;
    l.(state := state, holders := l.holders - {t}, signallers := if state == Destroy then l.signallers + {t} else l.signallers)
  }

  ghost function SendSignal(l: Lock, t: nat): Lock {
    l.(signallers := l.signallers - {t}, signals := l.signals + 1, sent := l.sent + 1)
  }

  ghost function DropAndDestroy(l: Lock): Lock
    requires l.phase.Removed?
  {
    var state := l.state + (Destroy - Ref);
    l.(state := state, phase := Decided(l.phase.t, RefCount(state) != 0))
  }

  ghost function Proceed(l: Lock): Lock
    requires l.phase.Decided? && (l.phase.waits ==> l.signals > 0)
  {
    l.(signals := if l.phase.waits then l.signals - 1 else l.signals, phase := Cleared(l.phase.t, l.phase.waits))
  }

  ghost function Finish(l: Lock): Lock
    requires l.phase.Cleared?
  {
    l.(state := Poison, phase := Destroyed(l.phase.waits))
  }

  // ----- the steps of the whole -------------------------------------------------------------------

  ghost function Put(w: World, node: nat, l: Lock): World {
    w.(locks := w.locks[node := l])
  }

  ghost function Do(w: World, a: Act): World
    requires Enabled(w, a)
  {
    match a
    case Add(key, node) => if key in w.tree then w else Put(w, node, NewLock()).(tree := w.tree[key := node])
    case FindAndRef(key, t) => if key !in w.tree then w else Put(w, w.tree[key], TakeRef(w.locks[w.tree[key]], t))
    case DelAndRef(key, t) =>
      if key !in w.tree then w
      else Put(w, w.tree[key], TakeOut(w.locks[w.tree[key]], t)).(tree := w.tree - {key})
    case Unref(node, t) => Put(w, node, DropRef(w.locks[node], t))
    case Signal(node, t) => Put(w, node, SendSignal(w.locks[node], t))
    case AddDestroy(node) => Put(w, node, DropAndDestroy(w.locks[node]))
    case Await(node) => Put(w, node, Proceed(w.locks[node]))
    case PutPoison(node) => Put(w, node, Finish(w.locks[node]))
  }

  /** The assertions in the code of the step. */
  ghost predicate Asserts(w: World, a: Act)
    requires Enabled(w, a)
  {
    match a
    case FindAndRef(key, t) => key in w.tree ==> Flags(w.locks[w.tree[key]].state + Ref) == 0
    case DelAndRef(key, t) => key in w.tree ==> Flags(w.locks[w.tree[key]].state + Ref) == 0
    case Unref(node, t) => Flags(w.locks[node].state - Ref) == 0 || Flags(w.locks[node].state - Ref) == 1
    case AddDestroy(node) => Flags(w.locks[node].state + (Destroy - Ref)) == 1
    case PutPoison(node) => w.locks[node].state == Destroy
    case _ => true
  }

  // ----- the invariant ----------------------------------------------------------------------------

  /** Signals sent or about to be sent for a destroyer that waits: one, once the last other reference
      is gone. */
  ghost predicate LockOk(l: Lock) {
    && |l.holders| < 0x0fff_ffff
    && match l.phase
       case Shared => l.state == |l.holders| && Quiet(l) && l.sent == 0
       case Removed(t) => l.state == |l.holders| + 1 && t !in l.holders && Quiet(l) && l.sent == 0
       case Decided(t, waits) =>
         && l.state == Destroy + |l.holders| && t !in l.holders && t !in l.signallers
         && l.sent == l.signals && l.holders !! l.signallers
         && (if waits && l.holders == {} then |l.signallers| + l.signals == 1 else Quiet(l) && (l.holders == {} <==> !waits))
       case Cleared(t, waits) => l.state == Destroy && l.holders == {} && Quiet(l) && l.sent == if waits then 1 else 0
       case Destroyed(waits) => l.state == Poison && l.holders == {} && Quiet(l) && l.sent == if waits then 1 else 0
  }

  ghost predicate Quiet(l: Lock) {
    l.signallers == {} && l.signals == 0
  }

  ghost predicate Ok(w: World) {
    && (forall n :: n in w.locks ==> LockOk(w.locks[n]))
    && (forall k :: k in w.tree ==> w.tree[k] in w.locks && w.locks[w.tree[k]].phase.Shared?)
    && (forall j, k :: j in w.tree && k in w.tree && w.tree[j] == w.tree[k] ==> j == k)
  }

  lemma {:induction false} DropRefOk(l: Lock, t: nat)
    requires LockOk(l) && t in l.holders
    ensures LockOk(DropRef(l, t))
    ensures Flags(l.state - Ref) == 0 || Flags(l.state - Ref) == 1
  {
    assert |l.holders - {t}| == |l.holders| - 1;
    if l.phase.Decided? && l.holders - {t} == {} {
      assert l.signallers + {t} == {t};
    }
  }

  lemma {:induction false} SendSignalOk(l: Lock, t: nat)
    requires LockOk(l) && t in l.signallers
    ensures LockOk(SendSignal(l, t))
  {
    assert |l.signallers - {t}| == |l.signallers| - 1;
  }

  lemma {:induction false} TakeRefOk(l: Lock, t: nat)
    requires LockOk(l) && l.phase.Shared? && CanRef(l, t)
    ensures LockOk(TakeRef(l, t)) && LockOk(TakeOut(l, t))
    ensures Flags(l.state + Ref) == 0
  {
    assert |l.holders + {t}| == |l.holders| + 1;
  }

  lemma {:induction false} DropAndDestroyOk(l: Lock)
    requires LockOk(l) && l.phase.Removed?
    ensures LockOk(DropAndDestroy(l))
    ensures Flags(l.state + (Destroy - Ref)) == 1
  {}

  lemma {:induction false} ProceedOk(l: Lock)
    requires LockOk(l) && l.phase.Decided? && (l.phase.waits ==> l.signals > 0)
    ensures LockOk(Proceed(l))
  {}

  lemma {:induction false} FinishOk(l: Lock)
    requires LockOk(l) && l.phase.Cleared?
    ensures LockOk(Finish(l)) && l.state == Destroy
  {}

  lemma {:induction false} PutKeeps(w: World, node: nat, l: Lock)
    requires Ok(w) && node in w.locks && LockOk(l) && (w.locks[node].phase.Shared? ==> l.phase.Shared?)
    ensures Ok(Put(w, node, l))
  {}

  lemma {:induction false} AddKeeps(w: World, key: nat, node: nat)
    requires Ok(w) && node !in w.locks && key !in w.tree
    ensures Ok(Put(w, node, NewLock()).(tree := w.tree[key := node]))
  {}

  lemma {:induction false} RemoveKeeps(w: World, key: nat, l: Lock)
    requires Ok(w) && key in w.tree && LockOk(l)
    ensures Ok(Put(w, w.tree[key], l).(tree := w.tree - {key}))
  {}

  /** Every step keeps the invariant, and no assertion fails. */
  lemma {:induction false} StepKeeps(w: World, a: Act)
    requires Ok(w) && Enabled(w, a)
    ensures Ok(Do(w, a)) && Asserts(w, a)
  {
    if a.Add? || a.FindAndRef? || a.DelAndRef? { TreeStepKeeps(w, a); } else { LockStepKeeps(w, a); }
  }

  lemma {:induction false} TreeStepKeeps(w: World, a: Act)
    requires Ok(w) && Enabled(w, a) && (a.Add? || a.FindAndRef? || a.DelAndRef?)
    ensures Ok(Do(w, a)) && Asserts(w, a)
  {
    if a.Add? {
      if a.key !in w.tree { AddKeeps(w, a.key, a.node); }
    } else if a.key in w.tree {
      var node := w.tree[a.key];
      TakeRefOk(w.locks[node], a.t);
      if a.FindAndRef? { PutKeeps(w, node, TakeRef(w.locks[node], a.t)); }
      else { RemoveKeeps(w, a.key, TakeOut(w.locks[node], a.t)); }
    }
  }

  lemma {:induction false} LockStepKeeps(w: World, a: Act)
    requires Ok(w) && Enabled(w, a) && !(a.Add? || a.FindAndRef? || a.DelAndRef?)
    ensures Ok(Do(w, a)) && Asserts(w, a)
  {
    var l := w.locks[a.node];
    var l' := match a
      case Unref(_, t) => DropRef(l, t)
      case Signal(_, t) => SendSignal(l, t)
      case AddDestroy(_) => DropAndDestroy(l)
      case Await(_) => Proceed(l)
      case PutPoison(_) => Finish(l);
    assert LockOk(l);
    match a {
      case Unref(_, t) => DropRefOk(l, t);
      case Signal(_, t) => SendSignalOk(l, t);
      case AddDestroy(_) => DropAndDestroyOk(l);
      case Await(_) => ProceedOk(l);
      case PutPoison(_) => FinishOk(l);
    }
    PutKeeps(w, a.node, l');
  }

  // ----- runs -------------------------------------------------------------------------------------

  /** `ws` are the states of a run that takes the steps `acts` from the empty world. */
  ghost predicate Run(ws: seq<World>, acts: seq<Act>) {
    && |ws| == |acts| + 1 && ws[0] == World(map[], map[])
    && forall i :: 0 <= i < |acts| ==> Enabled(ws[i], acts[i]) && ws[i + 1] == Do(ws[i], acts[i])
  }

  lemma {:induction false} RunOk(ws: seq<World>, acts: seq<Act>, i: nat)
    requires Run(ws, acts) && i <= |acts|
    ensures Ok(ws[i])
    ensures i < |acts| ==> Asserts(ws[i], acts[i])
  {
    if i > 0 {
      RunOk(ws, acts, i - 1);
      StepKeeps(ws[i - 1], acts[i - 1]);
    }
    if i < |acts| { StepKeeps(ws[i], acts[i]); }
  }

  /** reflock_unref_and_destroy returns only after every other reference is dropped and every signaller
      is done; the keyed event was signalled once if the destroyer waited for it and never otherwise. */
  lemma {:induction false} DestroyedAlone(ws: seq<World>, acts: seq<Act>, i: nat, node: nat)
    requires Run(ws, acts) && i <= |acts| && node in ws[i].locks && ws[i].locks[node].phase.Destroyed?
    ensures var l := ws[i].locks[node]; l.holders == {} && l.signallers == {} && l.signals == 0 && l.sent == if l.phase.waits then 1 else 0
    ensures forall t :: !Enabled(ws[i], Unref(node, t)) && !Enabled(ws[i], Signal(node, t))
  {
    RunOk(ws, acts, i);
  }

  /** A node once taken out of the tree is never in it again, and the threads that refer to it only
      become fewer: no new reference can be had through the tree. */
  lemma {:induction false} OnceRemoved(ws: seq<World>, acts: seq<Act>, i: nat, j: nat, node: nat)
    requires Run(ws, acts) && i <= j <= |acts| && node in ws[i].locks && !ws[i].locks[node].phase.Shared?
    ensures node in ws[j].locks && !ws[j].locks[node].phase.Shared? && ws[j].locks[node].holders <= ws[i].locks[node].holders
    ensures forall k :: k in ws[j].tree ==> ws[j].tree[k] != node
    decreases j
  {
    RunOk(ws, acts, j);
    if i < j {
      OnceRemoved(ws, acts, i, j - 1, node);
      RunOk(ws, acts, j - 1);
      RemovedStays(ws[j - 1], acts[j - 1], node);
    }
  }

  lemma {:induction false} RemovedStays(w: World, a: Act, node: nat)
    requires Ok(w) && Enabled(w, a) && node in w.locks && !w.locks[node].phase.Shared?
    ensures var w' := Do(w, a); node in w'.locks && !w'.locks[node].phase.Shared? && w'.locks[node].holders <= w.locks[node].holders
  {}

  // ----- references and the acts that take and drop them ---------------------------------------------

  /** Thread `t` found the node in step `i` and has not dropped its reference in the steps up to `j`. */
  ghost predicate FoundAt(ws: seq<World>, acts: seq<Act>, i: nat, j: nat, node: nat, t: nat)
    requires |ws| == |acts| + 1
  {
    && i < j <= |acts| && acts[i].FindAndRef? && acts[i].t == t
    && acts[i].key in ws[i].tree && ws[i].tree[acts[i].key] == node
    && Unref(node, t) !in acts[i + 1..j]
  }

  lemma {:induction false} HolderStep(w: World, a: Act, node: nat, t: nat)
    requires Ok(w) && Enabled(w, a) && node in w.locks && t in w.locks[node].holders && a != Unref(node, t)
    ensures node in Do(w, a).locks && t in Do(w, a).locks[node].holders
  {}

  /** Whoever finds a node in the tree has a reference until it drops it, and until then the node is not
      destroyed, whoever removes it meanwhile. */
  lemma {:induction false} HeldSinceFound(ws: seq<World>, acts: seq<Act>, i: nat, j: nat, node: nat, t: nat)
    requires Run(ws, acts) && FoundAt(ws, acts, i, j, node, t)
    ensures node in ws[j].locks && t in ws[j].locks[node].holders && !ws[j].locks[node].phase.Destroyed? && !ws[j].locks[node].phase.Cleared?
    decreases j
  {
    assert Enabled(ws[j - 1], acts[j - 1]) && ws[j] == Do(ws[j - 1], acts[j - 1]);
    RunOk(ws, acts, j);
    if i < j - 1 {
      assert acts[i + 1..j] == acts[i + 1..j - 1] + [acts[j - 1]];
      HeldSinceFound(ws, acts, i, j - 1, node, t);
      RunOk(ws, acts, j - 1);
      HolderStep(ws[j - 1], acts[j - 1], node, t);
    }
    assert LockOk(ws[j].locks[node]);
  }

  /** And nobody else has one: each reference was taken by a find and not dropped since. */
  lemma {:induction false} HolderFound(ws: seq<World>, acts: seq<Act>, j: nat, node: nat, t: nat) returns (i: nat)
    requires Run(ws, acts) && j <= |acts| && node in ws[j].locks && t in ws[j].locks[node].holders
    ensures FoundAt(ws, acts, i, j, node, t)
  {
    assert ws[0].locks == map[];
    i := j - 1;
    var w, a := ws[i], acts[i];
    assert Enabled(w, a) && ws[j] == Do(w, a);
    if node in w.locks && t in w.locks[node].holders {
      RunOk(ws, acts, j - 1);
      NotDropped(w, a, node, t);
      i := HolderFound(ws, acts, j - 1, node, t);
      FoundLater(ws, acts, i, j - 1, node, t);
    } else {
      NewHolder(w, a, node, t);
    }
  }

  lemma {:induction false} FoundLater(ws: seq<World>, acts: seq<Act>, i: nat, j: nat, node: nat, t: nat)
    requires |ws| == |acts| + 1 && FoundAt(ws, acts, i, j, node, t) && j < |acts| && acts[j] != Unref(node, t)
    ensures FoundAt(ws, acts, i, j + 1, node, t)
  {
    assert acts[i + 1..j + 1] == acts[i + 1..j] + [acts[j]];
  }

  lemma {:induction false} NewHolder(w: World, a: Act, node: nat, t: nat)
    requires Enabled(w, a) && node in Do(w, a).locks && t in Do(w, a).locks[node].holders
    requires node in w.locks ==> t !in w.locks[node].holders
    ensures a.FindAndRef? && a.t == t && a.key in w.tree && w.tree[a.key] == node
  {}

  lemma {:induction false} NotDropped(w: World, a: Act, node: nat, t: nat)
    requires Ok(w) && Enabled(w, a) && node in Do(w, a).locks && t in Do(w, a).locks[node].holders
    ensures a != Unref(node, t)
  {}

  /** What the sections under the tree's lock do: an addition under a free key binds it to the new node,
      which nobody refers to; a removal takes the key out of the tree, and its thread is the node's
      destroyer; nothing else touches the tree. */
  lemma {:induction false} TreeSteps(ws: seq<World>, acts: seq<Act>, i: nat)
    requires Run(ws, acts) && i < |acts|
    ensures var w, w' := ws[i], ws[i + 1];
            match acts[i]
            case Add(key, node) =>
              if key in w.tree then w' == w
              else w'.tree == w.tree[key := node] && node in w'.locks && w'.locks[node].phase == Shared && w'.locks[node].holders == {}
            case DelAndRef(key, t) =>
              && w'.tree == w.tree - {key}
              && (key in w.tree ==> w.tree[key] in w'.locks && w'.locks[w.tree[key]].phase == Removed(t))
            case _ => w'.tree == w.tree
  {
    assert Enabled(ws[i], acts[i]) && ws[i + 1] == Do(ws[i], acts[i]);
    if acts[i].DelAndRef? && acts[i].key !in ws[i].tree { assert ws[i].tree - {acts[i].key} == ws[i].tree; }
  }

  /** The destroyer waits exactly if there are other references when it drops its own. */
  lemma {:induction false} WaitsForOthers(ws: seq<World>, acts: seq<Act>, i: nat, node: nat)
    requires Run(ws, acts) && i < |acts| && acts[i] == AddDestroy(node)
    ensures node in ws[i].locks && node in ws[i + 1].locks && ws[i + 1].locks[node].phase.Decided?
    ensures ws[i + 1].locks[node].phase.waits <==> ws[i].locks[node].holders != {}
  {
    assert Enabled(ws[i], acts[i]) && ws[i + 1] == Do(ws[i], acts[i]);
    RunOk(ws, acts, i + 1);
    assert LockOk(ws[i + 1].locks[node]);
  }

  /** How many steps on a removed node's lock are left at most. */
  ghost function Rank(l: Lock): nat {
    3 * |l.holders| + 2 * |l.signallers| + match l.phase
      case Shared => 5
      case Removed(_) => 4
      case Decided(_, _) => 3 + l.signals
      case Cleared(_, _) => 1
      case Destroyed(_) => 0
  }

  /** Once a node is removed, each step on its lock brings its destruction closer, and none elsewhere puts
      it off. */
  lemma {:induction false} StepsRunOut(w: World, a: Act, node: nat)
    requires Ok(w) && Enabled(w, a) && node in w.locks && !w.locks[node].phase.Shared?
    ensures node in Do(w, a).locks
    ensures if !(a.Add? || a.FindAndRef? || a.DelAndRef?) && a.node == node then Rank(Do(w, a).locks[node]) < Rank(w.locks[node])
            else Do(w, a).locks[node] == w.locks[node]
  {
    assert LockOk(w.locks[node]);
    if !(a.Add? || a.FindAndRef? || a.DelAndRef?) && a.node == node {
      LockRank(w.locks[node], a, Do(w, a).locks[node]);
    }
  }

  lemma {:induction false} LockRank(l: Lock, a: Act, l': Lock)
    requires LockOk(l) && !l.phase.Shared?
    requires match a
      case Unref(_, t) => t in l.holders && l' == DropRef(l, t)
      case Signal(_, t) => t in l.signallers && l' == SendSignal(l, t)
      case AddDestroy(_) => l.phase.Removed? && l' == DropAndDestroy(l)
      case Await(_) => l.phase.Decided? && (l.phase.waits ==> l.signals > 0) && l' == Proceed(l)
      case PutPoison(_) => l.phase.Cleared? && l' == Finish(l)
      case _ => false
    ensures Rank(l') < Rank(l)
  {
    match a
    case Unref(_, t) => RankUnref(l, t);
    case Signal(_, t) => assert |l.signallers - {t}| == |l.signallers| - 1;
    case _ =>
  }

  lemma {:induction false} RankUnref(l: Lock, t: nat)
    requires LockOk(l) && t in l.holders && !l.phase.Shared?
    ensures Rank(DropRef(l, t)) < Rank(l)
  {
    assert |l.holders - {t}| == |l.holders| - 1;
    assert |l.signallers + {t}| <= |l.signallers| + 1;
  }

  /** The destroyer is never stuck: it can go on, or a thread with a reference or a pending signal can. */
  lemma {:induction false} DestroyerNotStuck(ws: seq<World>, acts: seq<Act>, i: nat, node: nat) returns (a: Act)
    requires Run(ws, acts) && i <= |acts| && node in ws[i].locks
    requires !ws[i].locks[node].phase.Shared? && !ws[i].locks[node].phase.Destroyed?
    ensures Enabled(ws[i], a) && (a.AddDestroy? || a.Await? || a.PutPoison? || a.Unref? || a.Signal?) && a.node == node
  {
    RunOk(ws, acts, i);
    var l := ws[i].locks[node];
    match l.phase
    case Removed(t) => a := AddDestroy(node);
    case Cleared(t, waits) => a := PutPoison(node);
    case Decided(t, waits) =>
      if l.holders != {} {
        var h :| h in l.holders;
        a := Unref(node, h);
      } else if l.signallers != {} {
        var h :| h in l.signallers;
        a := Signal(node, h);
      } else {
        a := Await(node);
      }
  }
}
