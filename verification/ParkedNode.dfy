/**
 * The retry of parked messages on one node: the triggers of `ParkedRetry` over
 * the store and send pipeline they act on (main/mesh_task.c, main/mesh_beacon.c).
 * What the sweep may turn to, and what a flush finds, is what the store holds.
 */
module ParkedNode {
  import opened MsgStore
  import P = Pipeline
  import R = ParkedRetry

  datatype Node = Node(r: R.St, p: P.State)

  datatype Event =
    | Park(uid: nat, t: nat, nowS: nat)
    | Beacon(peer: nat, isNew: bool, t: nat, nowS: nat, envs: seq<P.Env>)
    | Leave(peer: nat, t: nat)
    | Tick(t: nat, nowS: nat, envs: seq<P.Env>)
    | Own(step: P.Step)

  /** The store once the sweep has given up on overdue rows. */
  function Pruned(p: P.State, nowS: nat): (p': P.State)
    requires P.Shape(p)
    ensures P.Shape(p')
  {
    P.Do(p, P.ExpireStep(nowS))
  }

  function PeerOf(p: P.State, uid: nat): nat {
    var i := FindUid(p.store, uid);
    if i >= 0 then p.store[i].peer else 0
  }

  /** The retry event a node event amounts to, if any. */
  function Trigger(n: Node, e: Event): (r: seq<R.Event>)
    requires P.Shape(n.p)
    ensures |r| <= 1
  {
    match e
    case Park(uid, t, nowS) => if WindowOpen(n.p.store, uid, nowS) then [R.Park(PeerOf(n.p, uid), t)] else []
    case Beacon(peer, isNew, t, nowS, _) => [R.Beacon(peer, isNew, |ParkedUids(n.p.store, peer, nowS)|, t)]
    case Leave(peer, t) => [R.Leave(peer, t)]
    case Tick(t, nowS, _) => [R.Tick(ParkedPeers(Pruned(n.p, nowS).store, nowS), t)]
    case Own(_) => []
  }

  /** Parking a message in its window arms its neighbor: a beacon a millisecond
      later is answered by a flush unless a sweep's hold stands. */
  lemma ParkArms(m: R.Mode, n: Node, uid: nat, t: nat, nowS: nat)
    requires P.Shape(n.p) && WindowOpen(n.p.store, uid, nowS) && PeerOf(n.p, uid) in n.r.table
    ensures var peer, n' := PeerOf(n.p, uid), Do(m, n, Park(uid, t, nowS));
      R.Armed(n'.r, peer) && (R.Flushes(m, n'.r, peer, false, t + 1) <==> !R.Held(m, n'.r, peer, t + 1))
  {
    hide P.Do;
    var peer, e := PeerOf(n.p, uid), R.Park(PeerOf(n.p, uid), t);
    assert R.Run(m, n.r, []) == n.r && [e][..0] == [];
    assert R.Run(m, n.r, [e]) == R.Arm(m, n.r, peer, t);
    StampSoon(m, t);
  }

  lemma StampSoon(m: R.Mode, t: nat)
    ensures R.Stamp(m, t) != 0 && R.Elapsed(m, t + 1, R.Stamp(m, t))
  {
  }

  /** Before a sweep looks for a peer, exactly the parked rows more than two hours old have failed. */
  lemma SweepGivesUp(p: P.State, nowS: nat, k: nat)
    requires P.Shape(p) && k < |p.store|
    ensures var p', x := Pruned(p, nowS), p.store[k];
      && |p'.store| == |p.store|
      && p'.store[k] == if x.outgoing && x.dm && x.uid != 0 && x.status == Queued && nowS > x.stamp + 7200 then x.(status := Failed) else x
  {
  }

  /** What the event does to the pipeline. */
  ghost function Act(m: R.Mode, n: Node, e: Event): (p: P.State)
    requires P.Shape(n.p)
    ensures P.Shape(p)
  {
    match e
    case Park(uid, _, nowS) => P.Do(n.p, P.ParkStep(uid, nowS))
    case Beacon(peer, isNew, t, nowS, envs) =>
      if R.Flushes(m, R.Admit(n.r, peer, isNew), peer, isNew, t) then P.Do(n.p, P.FlushParkedStep(peer, nowS, envs)) else n.p
    case Leave(_, _) => n.p
    case Tick(t, nowS, envs) =>
      if !R.Due(m, n.r, t) then n.p
      else
        var p := Pruned(n.p, nowS);
        var parked := ParkedPeers(p.store, nowS);
        if parked == {} || R.Armed(n.r, R.Next(n.r.last, parked)) then p
        else P.Do(p, P.FlushParkedStep(R.Next(n.r.last, parked), nowS, envs))
    case Own(step) => P.Do(n.p, step)
  }

  ghost function Do(m: R.Mode, n: Node, e: Event): (n': Node)
    requires P.Shape(n.p)
    ensures P.Shape(n'.p)
  {
    Node(R.Run(m, n.r, Trigger(n, e)), Act(m, n, e))
  }

  ghost function Run(m: R.Mode, n: Node, es: seq<Event>): (n': Node)
    requires P.Shape(n.p)
    ensures P.Shape(n'.p)
    decreases |es|
  {
    if es == [] then n else Do(m, Run(m, n, es[..|es| - 1]), es[|es| - 1])
  }

  /** The retry events of a run. */
  ghost function Trace(m: R.Mode, n: Node, es: seq<Event>): seq<R.Event>
    requires P.Shape(n.p)
    decreases |es|
  {
    if es == [] then [] else Trace(m, n, es[..|es| - 1]) + Trigger(Run(m, n, es[..|es| - 1]), es[|es| - 1])
  }

  lemma {:induction false} RunAppend(m: R.Mode, s: R.St, es: seq<R.Event>, more: seq<R.Event>)
    requires |more| <= 1
    ensures R.Run(m, s, es + more) == R.Run(m, R.Run(m, s, es), more)
  {
    hide R.Do;
    if more == [] {
      assert es + more == es;
    } else {
      assert (es + more)[..|es|] == es && more[..0] == [];
    }
  }

  /** The retry state of a node is that of a run of the retry machine. */
  lemma {:induction false} RunIsTrace(m: R.Mode, n: Node, es: seq<Event>)
    requires P.Shape(n.p)
    ensures Run(m, n, es).r == R.Run(m, n.r, Trace(m, n, es))
    decreases |es|
  {
    hide Trigger, Act, R.Run;
    if es == [] {
      RunNone(m, n.r);
    } else {
      var before := es[..|es| - 1];
      RunIsTrace(m, n, before);
      RunAppend(m, n.r, Trace(m, n, before), Trigger(Run(m, n, before), es[|es| - 1]));
    }
  }

  lemma RunNone(m: R.Mode, s: R.St)
    ensures R.Run(m, s, []) == s
  {
  }

  lemma RunOne(m: R.Mode, s: R.St, e: R.Event)
    ensures R.Run(m, s, [e]) == R.Do(m, s, e)
  {
    assert [e][..0] == [];
  }

  // ------------------------------------------ parked rows reach the pipeline

  /** The sweep at event k turned to `peer`: its beacon is due to flush it, or
      every one of its parked rows was handed to the parked flush then and there. */
  ghost predicate Handed(m: R.Mode, n: Node, es: seq<Event>, k: nat, peer: nat)
    requires P.Shape(n.p) && k < |es|
  {
    var before, e := Run(m, n, es[..k]), es[k];
    && e.Tick? && R.Due(m, before.r, e.t)
    && var p := Pruned(before.p, e.nowS);
      && ParkedUids(p.store, peer, e.nowS) != []
      && (R.Armed(before.r, peer) || Run(m, n, es[..k + 1]).p == P.FlushParked(p, peer, e.nowS, e.envs))
  }

  lemma {:induction false} PeerHasUids(rows: seq<Row>, peer: nat, nowS: nat)
    ensures peer in ParkedPeers(rows, nowS) <==> ParkedUids(rows, peer, nowS) != []
  {
    if rows != [] { PeerHasUids(rows[..|rows| - 1], peer, nowS); }
  }

  /** The parked flush is given every row of the peer that is queued and in time. */
  lemma {:induction false} NoRowMissed(rows: seq<Row>, peer: nat, nowS: nat, m: Row)
    requires m in rows && Selected(m, nowS) && m.peer == peer
    ensures m.uid in ParkedUids(rows, peer, nowS)
  {
    if rows != [] && m != rows[|rows| - 1] { NoRowMissed(rows[..|rows| - 1], peer, nowS, m); }
  }

  lemma SweepHands(m: R.Mode, n: Node, e: Event, peer: nat)
    requires P.Shape(n.p) && e.Tick?
    requires var parked := ParkedPeers(Pruned(n.p, e.nowS).store, e.nowS);
      R.Due(m, n.r, e.t) && parked != {} && R.Next(n.r.last, parked) == peer
    ensures var p := Pruned(n.p, e.nowS);
      && ParkedUids(p.store, peer, e.nowS) != []
      && (R.Armed(n.r, peer) || Do(m, n, e).p == P.FlushParked(p, peer, e.nowS, e.envs))
  {
    hide P.FlushParked, R.Run, Pruned;
    PeerHasUids(Pruned(n.p, e.nowS).store, peer, e.nowS);
  }

  lemma LastHands(m: R.Mode, n: Node, es: seq<Event>, peer: nat)
    requires P.Shape(n.p) && es != [] && es[|es| - 1].Tick?
    requires var s, e := Run(m, n, es[..|es| - 1]), es[|es| - 1];
      var parked := ParkedPeers(Pruned(s.p, e.nowS).store, e.nowS);
      R.Due(m, s.r, e.t) && parked != {} && R.Next(s.r.last, parked) == peer
    ensures Handed(m, n, es, |es| - 1, peer)
  {
    hide P.Do, R.Run, Act, Do;
    SweepHands(m, Run(m, n, es[..|es| - 1]), es[|es| - 1], peer);
    assert es[..|es| - 1 + 1] == es;
  }

  lemma HandedEarlier(m: R.Mode, n: Node, es: seq<Event>, j: nat, peer: nat)
    requires P.Shape(n.p) && es != [] && j < |es| - 1 && Handed(m, n, es[..|es| - 1], j, peer)
    ensures Handed(m, n, es, j, peer)
  {
    hide P.Do, R.Run, Act, Do, Run, ParkedUids, Pruned;
    assert es[..|es| - 1][..j] == es[..j] && es[..|es| - 1][..j + 1] == es[..j + 1];
  }

  /** The last event of the run is the sweep that reaches the peer. */
  lemma ReachedLast(m: R.Mode, n: Node, es: seq<Event>, peer: nat)
    requires P.Shape(n.p) && es != [] && Trigger(Run(m, n, es[..|es| - 1]), es[|es| - 1]) != []
    requires R.Reaches(m, n.r, Trace(m, n, es), |Trace(m, n, es[..|es| - 1])|, peer)
    ensures Handed(m, n, es, |es| - 1, peer)
  {
    hide P.Do, R.Run, Act, Do, R.Do, Handed, Pruned, ParkedUids, R.Due;
    var before, e := es[..|es| - 1], es[|es| - 1];
    var k := |Trace(m, n, before)|;
    assert Trace(m, n, es)[..k] == Trace(m, n, before);
    RunIsTrace(m, n, before);
    R.StepLast(m, Run(m, n, before).r, Trace(m, n, es)[k]);
    LastHands(m, n, es, peer);
  }

  lemma ReachedBefore(m: R.Mode, s: R.St, tr: seq<R.Event>, more: seq<R.Event>, k: nat, peer: nat)
    requires k < |tr| && R.Reaches(m, s, tr + more, k, peer)
    ensures R.Reaches(m, s, tr, k, peer)
  {
    hide R.Run, R.Do;
    assert (tr + more)[..k] == tr[..k];
  }

  lemma {:induction false} ReachedIsHanded(m: R.Mode, n: Node, es: seq<Event>, k: nat, peer: nat)
    requires P.Shape(n.p) && k < |Trace(m, n, es)| && R.Reaches(m, n.r, Trace(m, n, es), k, peer)
    ensures exists j :: 0 <= j < |es| && Handed(m, n, es, j, peer)
    decreases |es|
  {
    hide Run, Handed, R.Reaches, Trigger;
    var before := es[..|es| - 1];
    var more := Trigger(Run(m, n, before), es[|es| - 1]);
    if k < |Trace(m, n, before)| {
      ReachedBefore(m, n.r, Trace(m, n, before), more, k, peer);
      ReachedIsHanded(m, n, before, k, peer);
      var j :| 0 <= j < |before| && Handed(m, n, before, j, peer);
      HandedEarlier(m, n, es, j, peer);
    } else {
      ReachedLast(m, n, es, peer);
    }
  }

  /** No parked message is stranded: in any run of the node, on either clock, in
      which the peer has a parked message in time at every sweep that runs, and
      these number at least as many as the peers ever parked, some sweep hands
      all its parked rows to the flush or finds the peer armed for its beacon. */
  lemma ParkedRowsAreHanded(m: R.Mode, n: Node, es: seq<Event>, peer: nat, u: set<nat>)
    requires P.Shape(n.p) && peer in u
    requires var qs := R.SweptSets(m, n.r, Trace(m, n, es));
      |qs| >= |u| && forall k :: 0 <= k < |qs| ==> peer in qs[k] && qs[k] <= u
    ensures exists j :: 0 <= j < |es| && Handed(m, n, es, j, peer)
  {
    hide Trace, R.Reaches, Handed;
    var tr := Trace(m, n, es);
    R.ParkedPeerIsReached(m, n.r, tr, peer, u);
    var k :| 0 <= k < |tr| && R.Reaches(m, n.r, tr, k, peer);
    ReachedIsHanded(m, n, es, k, peer);
  }

  /** A beacon that flushes hands them over too, and the peer stays armed exactly
      while it has parked rows. */
  lemma BeaconHands(m: R.Mode, n: Node, e: Event)
    requires P.Shape(n.p) && e.Beacon? && e.peer in R.Admit(n.r, e.peer, e.isNew).table
    requires R.Flushes(m, R.Admit(n.r, e.peer, e.isNew), e.peer, e.isNew, e.t)
    ensures Do(m, n, e).p == P.Do(n.p, P.FlushParkedStep(e.peer, e.nowS, e.envs))
    ensures R.Armed(Do(m, n, e).r, e.peer) <==> e.peer in ParkedPeers(n.p.store, e.nowS)
  {
    hide P.FlushParked, R.Flushes, R.Stamp, P.Do;
    PeerHasUids(n.p.store, e.peer, e.nowS);
    RunOne(m, n.r, Trigger(n, e)[0]);
    assert Trigger(n, e) == [Trigger(n, e)[0]];
    R.StampIsNotZero(m, e.t + R.COOLDOWN_MS);
  }

  // ------------------------------------ handed over by a sweep or a beacon

  /** Event k, a sweep that runs or a beacon that flushes, hands the peer's parked rows to the flush. */
  ghost predicate HandsOver(m: R.Mode, n: Node, es: seq<Event>, k: nat, peer: nat)
    requires P.Shape(n.p) && k < |es|
  {
    var before, e, after := Run(m, n, es[..k]), es[k], Run(m, n, es[..k + 1]);
    || (e.Tick? && R.Due(m, before.r, e.t) && ParkedUids(Pruned(before.p, e.nowS).store, peer, e.nowS) != []
        && after.p == P.FlushParked(Pruned(before.p, e.nowS), peer, e.nowS, e.envs))
    || (e.Beacon? && e.peer == peer && R.Flushes(m, R.Admit(before.r, peer, e.isNew), peer, e.isNew, e.t)
        && after.p == P.FlushParked(before.p, peer, e.nowS, e.envs))
  }

  ghost predicate HandedOver(m: R.Mode, n: Node, es: seq<Event>, peer: nat)
    requires P.Shape(n.p)
  {
    exists k :: 0 <= k < |es| && HandsOver(m, n, es, k, peer)
  }

  lemma HandedOverStays(m: R.Mode, n: Node, es: seq<Event>, peer: nat)
    requires P.Shape(n.p) && es != [] && HandedOver(m, n, es[..|es| - 1], peer)
    ensures HandedOver(m, n, es, peer)
  {
    hide Run, P.FlushParked, Pruned;
    var before := es[..|es| - 1];
    var k :| 0 <= k < |before| && HandsOver(m, n, before, k, peer);
    assert before[..k] == es[..k] && before[..k + 1] == es[..k + 1];
    assert HandsOver(m, n, es, k, peer);
  }

  lemma LastBeaconHands(m: R.Mode, n: Node, es: seq<Event>, peer: nat)
    requires P.Shape(n.p) && es != [] && es[|es| - 1].Beacon? && es[|es| - 1].peer == peer
    requires var e, r := es[|es| - 1], Run(m, n, es[..|es| - 1]).r; R.Flushes(m, R.Admit(r, peer, e.isNew), peer, e.isNew, e.t)
    ensures HandedOver(m, n, es, peer)
  {
    hide R.Flushes, P.FlushParked, R.Run, Trigger;
    assert es[..|es| - 1 + 1] == es;
    assert HandsOver(m, n, es, |es| - 1, peer);
  }

  /** The retry state on true time. */
  ghost function WideAt(n: Node, i: R.St, es: seq<Event>): R.St
    requires P.Shape(n.p)
  {
    R.Run(R.Wide, i, Trace(R.Wrapped, n, es))
  }

  /** Every comparison of the run is between times less than half a wrap apart. */
  ghost predicate CloseRun(n: Node, i: R.St, es: seq<Event>)
    requires P.Shape(n.p)
  {
    R.CloseRun(i, Trace(R.Wrapped, n, es))
  }

  lemma ClosePrefix(i: R.St, tr: seq<R.Event>, more: seq<R.Event>)
    requires |more| <= 1 && R.CloseRun(i, tr + more)
    ensures R.CloseRun(i, tr) && (more != [] ==> R.Close(R.Run(R.Wide, i, tr), more[0]))
  {
    hide R.Close, R.Run;
    if more == [] { assert tr + more == tr; } else { assert (tr + more)[..|tr|] == tr; }
  }

  /** One event on both clocks. */
  lemma StepClose(n: Node, i: R.St, es: seq<Event>)
    requires P.Shape(n.p) && es != [] && R.Rel(n.r, i) && CloseRun(n, i, es)
    ensures var before := es[..|es| - 1];
      var more := Trigger(Run(R.Wrapped, n, before), es[|es| - 1]);
      && CloseRun(n, i, before) && R.Rel(Run(R.Wrapped, n, before).r, WideAt(n, i, before))
      && WideAt(n, i, es) == (if more == [] then WideAt(n, i, before) else R.Do(R.Wide, WideAt(n, i, before), more[0]))
      && (more != [] ==> R.Close(WideAt(n, i, before), more[0]))
  {
    hide R.Rel, R.Close, R.CloseRun, Run, Trigger, R.Do, R.Run;
    var before := es[..|es| - 1];
    var tr, more := Trace(R.Wrapped, n, before), Trigger(Run(R.Wrapped, n, before), es[|es| - 1]);
    ClosePrefix(i, tr, more);
    R.Simulates(n.r, i, tr);
    RunIsTrace(R.Wrapped, n, before);
    RunAppend(R.Wide, i, tr, more);
    if more == [] { RunNone(R.Wide, R.Run(R.Wide, i, tr)); } else { RunOne(R.Wide, R.Run(R.Wide, i, tr), more[0]); assert more == [more[0]]; }
  }

  /** The event comes before `lim` and neither removes the peer's entry nor makes it anew. */
  predicate Calm(e: Event, peer: nat, lim: nat) {
    match e
    case Own(_) => true
    case Park(_, t, _) => t < lim
    case Tick(t, _, _) => t < lim
    case Leave(p, t) => t < lim && p != peer
    case Beacon(p, isNew, t, _, _) => t < lim && !(p == peer && isNew)
  }

  /** An armed peer stays due to fire until some event hands its rows over. */
  lemma {:induction false} FiresOrHanded(n: Node, i: R.St, es: seq<Event>, j: nat, peer: nat, lim: nat)
    requires P.Shape(n.p) && R.Rel(n.r, i) && CloseRun(n, i, es) && j <= |es|
    requires R.WillFire(WideAt(n, i, es[..j]), peer, lim) && forall k :: j <= k < |es| ==> Calm(es[k], peer, lim)
    ensures HandedOver(R.Wrapped, n, es, peer) || R.WillFire(WideAt(n, i, es), peer, lim)
    decreases |es|
  {
    hide R.Rel, R.WillFire, CloseRun, WideAt, HandedOver, Run;
    if j == |es| {
      assert es[..j] == es;
    } else {
      var before := es[..|es| - 1];
      assert before[..j] == es[..j];
      StepClose(n, i, es);
      FiresOrHanded(n, i, before, j, peer, lim);
      if HandedOver(R.Wrapped, n, before, peer) {
        HandedOverStays(R.Wrapped, n, es, peer);
      } else {
        FiresStep(n, i, es, peer, lim);
      }
    }
  }

  lemma FiresStep(n: Node, i: R.St, es: seq<Event>, peer: nat, lim: nat)
    requires P.Shape(n.p) && es != [] && R.Rel(n.r, i) && CloseRun(n, i, es) && Calm(es[|es| - 1], peer, lim)
    requires R.WillFire(WideAt(n, i, es[..|es| - 1]), peer, lim)
    ensures HandedOver(R.Wrapped, n, es, peer) || R.WillFire(WideAt(n, i, es), peer, lim)
  {
    hide R.Rel, R.WillFire, CloseRun, WideAt, HandedOver, Run, R.Do, R.Close, R.Flushes, R.Admit;
    var before, e := es[..|es| - 1], es[|es| - 1];
    var more := Trigger(Run(R.Wrapped, n, before), e);
    StepClose(n, i, es);
    if more != [] {
      var c, w := Run(R.Wrapped, n, before).r, WideAt(n, i, before);
      R.StepSimulates(c, w, more[0]);
      if R.FlushIn(R.Wrapped, c, more[0], peer) {
        LastBeaconHands(R.Wrapped, n, es, peer);
      } else {
        R.WillFireStep(w, peer, lim, more[0]);
      }
    }
  }

  lemma {:induction false} TracePrefix(m: R.Mode, n: Node, es: seq<Event>, k: nat)
    requires P.Shape(n.p) && k <= |es|
    ensures Trace(m, n, es[..k]) <= Trace(m, n, es)
    decreases |es|
  {
    hide Run, Trigger;
    if k == |es| {
      assert es[..k] == es;
    } else {
      TracePrefix(m, n, es[..|es| - 1], k);
      assert es[..|es| - 1][..k] == es[..k];
    }
  }

  lemma {:induction false} CloseBefore(n: Node, i: R.St, es: seq<Event>, k: nat)
    requires P.Shape(n.p) && k <= |es| && CloseRun(n, i, es)
    ensures CloseRun(n, i, es[..k])
    decreases |es|
  {
    hide Run, Trigger, R.CloseRun;
    if k == |es| {
      assert es[..k] == es;
    } else {
      var before := es[..|es| - 1];
      ClosePrefix(i, Trace(R.Wrapped, n, before), Trigger(Run(R.Wrapped, n, before), es[|es| - 1]));
      CloseBefore(n, i, before, k);
      assert before[..k] == es[..k];
    }
  }

  /** A peer found armed by the sweep at event j is due to fire a cooldown later. */
  lemma ArmedWillFire(n: Node, i: R.St, es: seq<Event>, j: nat, peer: nat, lim: nat)
    requires P.Shape(n.p) && R.Rel(n.r, i) && R.Bounded(i, 0) && CloseRun(n, i, es) && R.Nondecreasing(Trace(R.Wrapped, n, es))
    requires j < |es| && es[j].Tick? && es[j].t + R.COOLDOWN_MS + 1 <= lim && R.Armed(Run(R.Wrapped, n, es[..j]).r, peer)
    ensures R.WillFire(WideAt(n, i, es[..j]), peer, lim)
  {
    hide R.Rel, R.CloseRun, Run, R.Run, R.Bounded;
    var before := es[..j];
    CloseBefore(n, i, es, j);
    R.Simulates(n.r, i, Trace(R.Wrapped, n, before));
    RunIsTrace(R.Wrapped, n, before);
    R.RelArmed(Run(R.Wrapped, n, before).r, WideAt(n, i, before), peer);
    TracePrefix(R.Wrapped, n, es, j);
    TracePrefix(R.Wrapped, n, es, j + 1);
    assert es[..j + 1][..j] == before;
    var tr := Trace(R.Wrapped, n, before);
    assert Trace(R.Wrapped, n, es[..j + 1])[|tr|].t == es[j].t;
    R.AlwaysBounded(i, tr);
    BoundedFires(WideAt(n, i, before), if tr == [] then 0 else tr[|tr| - 1].t, peer, lim);
  }

  lemma BoundedFires(s: R.St, t: nat, peer: nat, lim: nat)
    requires R.Bounded(s, t) && R.Armed(s, peer) && t + R.COOLDOWN_MS + 1 <= lim
    ensures R.WillFire(s, peer, lim)
  {
  }

  /** Due to fire by then, the beacon flushes. */
  lemma FiresAtBeacon(n: Node, i: R.St, es: seq<Event>, peer: nat)
    requires P.Shape(n.p) && es != [] && R.Rel(n.r, i) && CloseRun(n, i, es)
    requires var e := es[|es| - 1]; e.Beacon? && e.peer == peer && !e.isNew && R.WillFire(WideAt(n, i, es[..|es| - 1]), peer, e.t)
    ensures HandedOver(R.Wrapped, n, es, peer)
  {
    hide R.Rel, CloseRun, WideAt, HandedOver, Run, R.Do, R.Close;
    var before := es[..|es| - 1];
    StepClose(n, i, es);
    var c, w, y := Run(R.Wrapped, n, before).r, WideAt(n, i, before), Trigger(Run(R.Wrapped, n, before), es[|es| - 1])[0];
    assert R.Flushes(R.Wide, R.Admit(w, peer, false), peer, false, y.t);
    hide R.WillFire, R.Flushes;
    R.StepSimulates(c, w, y);
    LastBeaconHands(R.Wrapped, n, es, peer);
  }

  /** A parked message goes out: on the firmware's clock, while its comparisons
      are close ones, a peer that has a message parked at every sweep, and whose
      entry stays, has all its parked rows handed to the flush by one of as many
      sweeps as there are parked peers, or else by a beacon, at the latest the
      first heard a cooldown after those sweeps. */
  lemma ParkedRowsAreSent(n: Node, i: R.St, es: seq<Event>, e: Event, peer: nat, u: set<nat>)
    requires P.Shape(n.p) && R.Rel(n.r, i) && R.Bounded(i, 0) && CloseRun(n, i, es + [e])
    requires R.Nondecreasing(Trace(R.Wrapped, n, es + [e])) && e.Beacon? && e.peer == peer && !e.isNew
    requires forall k :: 0 <= k < |es| ==> Calm(es[k], peer, e.t) && (es[k].Tick? ==> es[k].t + R.COOLDOWN_MS + 1 <= e.t)
    requires peer in u
    requires var qs := R.SweptSets(R.Wrapped, n.r, Trace(R.Wrapped, n, es));
      |qs| >= |u| && forall k :: 0 <= k < |qs| ==> peer in qs[k] && qs[k] <= u
    ensures HandedOver(R.Wrapped, n, es + [e], peer)
  {
    hide R.Rel, R.Bounded, CloseRun, WideAt, HandedOver, Run, R.WillFire, R.SweptSets, Handed, Trace;
    var all := es + [e];
    assert all[..|es|] == es && all[|es|] == e;
    ParkedRowsAreHanded(R.Wrapped, n, es, peer, u);
    var j :| 0 <= j < |es| && Handed(R.Wrapped, n, es, j, peer);
    assert all[..j] == es[..j] && all[..j + 1] == es[..j + 1] && all[j] == es[j];
    HandedMeans(R.Wrapped, n, all, j, peer, es);
    if !HandedOver(R.Wrapped, n, all, peer) {
      ArmedWillFire(n, i, all, j, peer, e.t);
      CloseBefore(n, i, all, |es|);
      FiresOrHanded(n, i, es, j, peer, e.t);
      if HandedOver(R.Wrapped, n, es, peer) { HandedOverStays(R.Wrapped, n, all, peer); }
      FiresAtBeacon(n, i, all, peer);
    }
  }

  lemma HandedMeans(m: R.Mode, n: Node, all: seq<Event>, j: nat, peer: nat, es: seq<Event>)
    requires P.Shape(n.p) && j < |es| <= |all| && es == all[..|es|] && Handed(m, n, es, j, peer)
    ensures all[j].Tick? && (R.Armed(Run(m, n, all[..j]).r, peer) || HandedOver(m, n, all, peer))
  {
    hide Run, P.FlushParked, ParkedUids, Pruned;
    assert es[..j] == all[..j] && es[..j + 1] == all[..j + 1];
    if !R.Armed(Run(m, n, all[..j]).r, peer) { assert HandsOver(m, n, all, j, peer); }
  }
}
