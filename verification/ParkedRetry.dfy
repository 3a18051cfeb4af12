/**
 * When a parked peer is tried again (main/parked_retry.c, with its two callers:
 * the sweep in main/mesh_task.c and the beacon handler in main/mesh_beacon.c).
 *
 * The firmware keeps deadlines as wrapping 32-bit milliseconds in which 0 means
 * disarmed. The same machine is run here on two clocks: `Wrapped`, which is the
 * code, and `Wide`, whose deadlines are true times. `Simulates` proves that the
 * two make the same decisions while the times compared are less than 2^31 ms
 * apart; the run theorems hold on the code's clock, some outright and some
 * while its comparisons are such.
 */
module ParkedRetry {
  import opened Basics

  const COOLDOWN_MS: nat := 300_000
  const SWEEP_MS: nat := 300_000

  datatype Mode = Wide | Wrapped

  /** parked_sweep_t, and the neighbor entries' parked_retry_after_ms. */
  datatype St = St(next: nat, last: nat, hold: nat, table: map<nat, nat>)

  /** The low 32 bits of a time. */
  function Low(t: nat): (r: nat)
    ensures t == 0 ==> r == 0
  {
    t % WRAP
  }

  /** A deadline that would read 0 is moved one millisecond on. */
  function Nudge(t: nat): nat { if t % WRAP == 0 then t + 1 else t }

  /** deadline_at. */
  function Stamp(m: Mode, t: nat): nat { if m.Wide? then Nudge(t) else Low(Nudge(t)) }

  /** elapsed: the sign of a 32-bit difference. */
  predicate Elapsed(m: Mode, t: nat, d: nat) { if m.Wide? then t >= d else (t - d) % WRAP < HALF }

  /** parked_retry_sweep_due. */
  predicate Due(m: Mode, s: St, t: nat) { Elapsed(m, t, s.next) }

  function Rescheduled(m: Mode, s: St, t: nat): St { s.(next := Stamp(m, t + SWEEP_MS)) }

  /** parked_retry_swept. */
  function Swept(m: Mode, s: St, peer: nat, t: nat): St { s.(last := peer, hold := Stamp(m, t + COOLDOWN_MS)) }

  /** parked_retry_sweep_skipped. */
  function Skipped(s: St, peer: nat): St { s.(last := peer, hold := 0) }

  predicate Armed(s: St, peer: nat) { peer in s.table && s.table[peer] != 0 }

  /** parked_retry_arm. */
  function Arm(m: Mode, s: St, peer: nat, t: nat): St {
    if peer in s.table then s.(table := s.table[peer := Stamp(m, t)]) else s
  }

  /** The sweep tried this peer and its hold on the beacon trigger stands. */
  predicate Held(m: Mode, s: St, peer: nat, t: nat) { peer != 0 && s.last == peer && !Elapsed(m, t, s.hold) }

  /** parked_retry_beacon_decide_flush: the decision. */
  predicate Flushes(m: Mode, s: St, peer: nat, isNew: bool, t: nat) {
    !Held(m, s, peer, t) && (isNew || (Armed(s, peer) && Elapsed(m, t, s.table[peer])))
  }

  /** ... and what it writes: a held beacon is deferred to the end of the hold. */
  function Deferred(m: Mode, s: St, peer: nat, t: nat): St {
    if Held(m, s, peer, t) && peer in s.table && (s.table[peer] == 0 || Elapsed(m, s.hold, s.table[peer])) then
      s.(table := s.table[peer := s.hold])
    else s
  }

  /** parked_retry_flushed. */
  function Flushed(m: Mode, s: St, peer: nat, found: nat, t: nat): St {
    if peer in s.table then s.(table := s.table[peer := if found > 0 then Stamp(m, t + COOLDOWN_MS) else 0]) else s
  }

  // ------------------------------------------------------------- the events

  /** `parked` is the set of peers the store reports; `found` the rows a flush picked up. */
  datatype Event =
    | Park(peer: nat, t: nat)
    | Beacon(peer: nat, isNew: bool, found: nat, t: nat)
    | Leave(peer: nat, t: nat)
    | Tick(parked: set<nat>, t: nat)

  /** The next parked peer in cyclic address order. */
  ghost predicate IsNext(peer: nat, after: nat, q: set<nat>) {
    && peer in q
    && (forall x :: x in q && x > after ==> after < peer <= x)
    && (peer <= after ==> forall x :: x in q ==> peer <= x <= after)
  }

  lemma {:induction false} Lowest(q: set<nat>) returns (m: nat)
    requires q != {}
    ensures m in q && forall x :: x in q ==> m <= x
    decreases |q|
  {
    m :| m in q;
    if q != {m} {
      var rest := q - {m};
      assert q == rest + {m};
      var k := Lowest(rest);
      if k < m { m := k; }
      assert forall x :: x in q ==> x == m || x in rest || m <= x;
    }
  }

  lemma NextExists(after: nat, q: set<nat>)
    requires q != {}
    ensures exists p :: IsNext(p, after, q)
  {
    var above := set x | x in q && x > after;
    if above != {} {
      var m := Lowest(above);
      assert forall x :: x in q && x > after ==> x in above;
      assert IsNext(m, after, q);
    } else {
      var m := Lowest(q);
      assert forall x :: x in q && x > after ==> x in above;
      assert IsNext(m, after, q);
    }
  }

  lemma NextUnique(a: nat, b: nat, after: nat, q: set<nat>)
    requires IsNext(a, after, q) && IsNext(b, after, q)
    ensures a == b
  {
  }

  /** The peer a sweep with something parked turns to. */
  ghost function Next(after: nat, q: set<nat>): (p: nat)
    requires q != {}
    ensures IsNext(p, after, q)
  {
    NextExists(after, q);
    var p :| IsNext(p, after, q); p
  }

  /** One sweep that is due. */
  ghost function Sweep(m: Mode, s: St, parked: set<nat>, t: nat): St {
    var s1 := Rescheduled(m, s, t);
    if parked == {} then s1
    else
      var p := Next(s.last, parked);
      if Armed(s1, p) then Skipped(s1, p) else Swept(m, s1, p, t)
  }

  /** A beacon admits an unknown peer with a zeroed entry before it is judged. */
  function Admit(s: St, peer: nat, isNew: bool): St { if isNew then s.(table := s.table[peer := 0]) else s }

  function Hear(m: Mode, s: St, peer: nat, isNew: bool, found: nat, t: nat): St {
    var s1 := Admit(s, peer, isNew);
    if Flushes(m, s1, peer, isNew, t) then Flushed(m, s1, peer, found, t) else Deferred(m, s1, peer, t)
  }

  ghost function Do(m: Mode, s: St, e: Event): St {
    match e
    case Park(peer, t) => Arm(m, s, peer, t)
    case Beacon(peer, isNew, found, t) => Hear(m, s, peer, isNew, found, t)
    case Leave(peer, t) => s.(table := s.table - {peer})
    case Tick(parked, t) => if Due(m, s, t) then Sweep(m, s, parked, t) else s
  }

  ghost function Run(m: Mode, s: St, es: seq<Event>): St
    decreases |es|
  {
    if es == [] then s else Do(m, Run(m, s, es[..|es| - 1]), es[|es| - 1])
  }

  /** A neighbor that left is forgotten: it is armed no longer and a beacon of it
      flushes only as a new one; every other neighbor is as it was. */
  lemma LeftIsForgotten(m: Mode, s: St, peer: nat, t: nat, other: nat, later: nat)
    ensures var s' := Do(m, s, Leave(peer, t));
      && !Armed(s', peer) && !Flushes(m, s', peer, false, later)
      && (other != peer ==> Armed(s', other) == Armed(s, other) && Flushes(m, s', other, false, later) == Flushes(m, s, other, false, later))
  {
  }

  predicate Nondecreasing(es: seq<Event>) { forall i, j :: 0 <= i < j < |es| ==> es[i].t <= es[j].t }

  // -------------------------------------------------------- wrapping is sound

  /** True times less than half a wrap apart compare by the sign of the 32-bit difference. */
  lemma ElapsedIsOrder(t: nat, d: nat)
    requires t < d + HALF && d <= t + HALF
    ensures Elapsed(Wrapped, t, Low(d)) <==> t >= d
    ensures Elapsed(Wrapped, Low(t), Low(d)) <==> t >= d
  {
    ModDiff(t, d);
  }

  lemma ModDiff(t: nat, d: nat)
    ensures (t % WRAP - d % WRAP) % WRAP == (t - d) % WRAP == (t - d % WRAP) % WRAP
  {
    assert t % WRAP == t - WRAP * (t / WRAP);
    assert d % WRAP == d - WRAP * (d / WRAP);
    ModShift(t - d, d / WRAP - t / WRAP);
    ModShift(t - d, d / WRAP);
  }

  lemma {:induction false} ModShift(x: int, k: int)
    ensures (x + WRAP * k) % WRAP == x % WRAP
    decreases if k >= 0 then k else -k
  {
    if k > 0 { ModShift(x, k - 1); } else if k < 0 { ModShift(x, k + 1); }
  }

  /** A stored deadline is never 0, in either mode. */
  lemma StampIsNotZero(m: Mode, t: nat)
    ensures Stamp(m, t) != 0
    ensures Stamp(Wrapped, t) == Low(Stamp(Wide, t)) != 0
    ensures t <= Stamp(Wide, t) <= t + 1
  {
  }

  /** The wrapped machine holds the low 32 bits of the wide one's deadlines. */
  predicate Rel(c: St, i: St) {
    && c.next == Low(i.next) && c.last == i.last && c.hold == Low(i.hold)
    && c.table.Keys == i.table.Keys
    && (forall p :: p in i.table ==> c.table[p] == Low(i.table[p]))
    && Proper(i)
  }

  /** No wide deadline but the marker itself reads as the marker 0. */
  predicate Proper(i: St) {
    && (i.hold != 0 ==> Low(i.hold) != 0)
    && (forall p :: p in i.table && i.table[p] != 0 ==> Low(i.table[p]) != 0)
  }

  /** A deadline close enough to compare; the marker 0 stands for time 0. */
  predicate Near(t: nat, d: nat) {
    if d == 0 then t % WRAP < HALF else t < d + HALF && d <= t + HALF
  }

  /** Every comparison the event makes is between times half a wrap apart at
      most. A beacon looks at the hold only if the sweep last turned to its peer,
      and at the peer's deadline only if the peer is known and armed. */
  predicate Close(s: St, e: Event) {
    match e
    case Park(peer, t) => true
    case Leave(peer, t) => true
    case Beacon(peer, isNew, found, t) =>
      && (peer != 0 && s.last == peer ==> Near(t, s.hold))
      && (Armed(s, peer) && !isNew ==> Near(if Held(Wide, s, peer, t) then s.hold else t, s.table[peer]))
    case Tick(parked, t) => Near(t, s.next)
  }

  lemma NearElapsed(t: nat, d: nat)
    requires Near(t, d)
    ensures Elapsed(Wrapped, t, Low(d)) == Elapsed(Wide, t, d)
  {
    if d != 0 { ElapsedIsOrder(t, d); }
  }

  lemma TickSimulates(c: St, i: St, parked: set<nat>, t: nat)
    requires Rel(c, i) && Near(t, i.next)
    ensures Rel(Do(Wrapped, c, Tick(parked, t)), Do(Wide, i, Tick(parked, t)))
    ensures Due(Wrapped, c, t) <==> Due(Wide, i, t)
  {
    hide Stamp, Elapsed, Low, Near;
    NearElapsed(t, i.next);
    StampIsNotZero(Wrapped, t + SWEEP_MS);
    StampIsNotZero(Wrapped, t + COOLDOWN_MS);
  }

  /** The hold is judged the same. */
  lemma HeldSame(c: St, i: St, peer: nat, t: nat)
    requires Rel(c, i) && (peer != 0 && i.last == peer ==> Near(t, i.hold))
    ensures Held(Wrapped, c, peer, t) == Held(Wide, i, peer, t)
  {
    if peer != 0 && i.last == peer { NearElapsed(t, i.hold); }
  }

  /** ... and so is the peer's deadline. */
  lemma ArmedSame(c: St, i: St, peer: nat, t: nat)
    requires Rel(c, i) && (Armed(i, peer) ==> Near(t, i.table[peer]))
    ensures Armed(c, peer) == Armed(i, peer)
    ensures Armed(i, peer) ==> Elapsed(Wrapped, t, c.table[peer]) == Elapsed(Wide, t, i.table[peer])
    ensures Armed(i, peer) ==> Elapsed(Wrapped, Low(t), c.table[peer]) == Elapsed(Wide, t, i.table[peer])
  {
    if Armed(i, peer) {
      NearElapsed(t, i.table[peer]);
      ElapsedIsOrder(t, i.table[peer]);
    }
  }

  lemma AdmitRel(c: St, i: St, peer: nat, isNew: bool)
    requires Rel(c, i)
    ensures Rel(Admit(c, peer, isNew), Admit(i, peer, isNew))
  {
    hide Low;
  }

  lemma FlushedRel(c: St, i: St, peer: nat, found: nat, t: nat)
    requires Rel(c, i)
    ensures Rel(Flushed(Wrapped, c, peer, found, t), Flushed(Wide, i, peer, found, t))
  {
    hide Low, Stamp;
    StampIsNotZero(Wrapped, t + COOLDOWN_MS);
  }

  lemma DeferredRel(c: St, i: St, peer: nat, t: nat)
    requires Rel(c, i) && Held(Wrapped, c, peer, t) == Held(Wide, i, peer, t)
    requires Held(Wide, i, peer, t) && Armed(i, peer) ==> Near(i.hold, i.table[peer])
    ensures Rel(Deferred(Wrapped, c, peer, t), Deferred(Wide, i, peer, t))
  {
    if Held(Wide, i, peer, t) && peer in i.table {
      assert i.hold != 0;
      hide Elapsed, Near, Low;
      if Armed(i, peer) { ArmedSame(c, i, peer, i.hold); }
    }
  }

  lemma BeaconSimulates(c: St, i: St, peer: nat, isNew: bool, found: nat, t: nat)
    requires Rel(c, i) && Close(i, Beacon(peer, isNew, found, t))
    ensures Rel(Hear(Wrapped, c, peer, isNew, found, t), Hear(Wide, i, peer, isNew, found, t))
    ensures Flushes(Wrapped, Admit(c, peer, isNew), peer, isNew, t) <==> Flushes(Wide, Admit(i, peer, isNew), peer, isNew, t)
  {
    AdmitRel(c, i, peer, isNew);
    var c1, i1 := Admit(c, peer, isNew), Admit(i, peer, isNew);
    assert i1.hold == i.hold && i1.last == i.last && (Armed(i1, peer) ==> !isNew && i1.table[peer] == i.table[peer] && Armed(i, peer));
    assert Held(Wide, i1, peer, t) == Held(Wide, i, peer, t);
    hide Admit, Stamp, Elapsed, Low, Near, Flushed, Deferred;
    HeldSame(c1, i1, peer, t);
    if Held(Wide, i1, peer, t) {
      DeferredRel(c1, i1, peer, t);
    } else {
      ArmedSame(c1, i1, peer, t);
      FlushedRel(c1, i1, peer, found, t);
      DeferredRel(c1, i1, peer, t);
    }
    hide Rel;
  }

  /** One event on the two clocks: the same decision, and related states. */
  lemma StepSimulates(c: St, i: St, e: Event)
    requires Rel(c, i) && Close(i, e)
    ensures Rel(Do(Wrapped, c, e), Do(Wide, i, e))
    ensures e.Beacon? ==> (Flushes(Wrapped, Admit(c, e.peer, e.isNew), e.peer, e.isNew, e.t)
                       <==> Flushes(Wide, Admit(i, e.peer, e.isNew), e.peer, e.isNew, e.t))
    ensures e.Tick? ==> (Due(Wrapped, c, e.t) <==> Due(Wide, i, e.t))
  {
    match e
    case Park(peer, t) => StampIsNotZero(Wrapped, t);
    case Leave(peer, t) =>
    case Tick(parked, t) => TickSimulates(c, i, parked, t);
    case Beacon(peer, isNew, found, t) =>
      BeaconSimulates(c, i, peer, isNew, found, t);
  }

  /** Every comparison of the run is a close one. */
  ghost predicate CloseRun(i: St, es: seq<Event>)
    decreases |es|
  {
    es != [] ==> CloseRun(i, es[..|es| - 1]) && Close(Run(Wide, i, es[..|es| - 1]), es[|es| - 1])
  }

  /** Over any run of close comparisons the firmware's clock and true time agree. */
  lemma {:induction false} Simulates(c: St, i: St, es: seq<Event>)
    requires Rel(c, i) && CloseRun(i, es)
    ensures Rel(Run(Wrapped, c, es), Run(Wide, i, es))
    decreases |es|
  {
    if es != [] {
      Simulates(c, i, es[..|es| - 1]);
      StepSimulates(Run(Wrapped, c, es[..|es| - 1]), Run(Wide, i, es[..|es| - 1]), es[|es| - 1]);
    }
  }

  // -------------------------------------------------- what the deadlines keep

  /** Nothing is scheduled further ahead than one interval (and the nudge). */
  predicate Bounded(s: St, t: nat) {
    && s.next <= t + SWEEP_MS + 1 && s.hold <= t + COOLDOWN_MS + 1
    && (forall p :: p in s.table ==> s.table[p] <= t + COOLDOWN_MS + 1)
  }

  lemma StepBounded(s: St, e: Event, t: nat)
    requires Bounded(s, t) && t <= e.t
    ensures Bounded(Do(Wide, s, e), e.t)
  {
  }

  /** In every run every armed deadline is at most one cooldown ahead. */
  lemma {:induction false} AlwaysBounded(s: St, es: seq<Event>)
    requires Bounded(s, 0) && Nondecreasing(es)
    ensures Bounded(Run(Wide, s, es), if es == [] then 0 else es[|es| - 1].t)
    decreases |es|
  {
    if es != [] {
      AlwaysBounded(s, es[..|es| - 1]);
      StepBounded(Run(Wide, s, es[..|es| - 1]), es[|es| - 1], if |es| == 1 then 0 else es[|es| - 2].t);
    }
  }

  /** On the firmware's clock: a deadline within half a wrap that has not elapsed
      is at most one cooldown ahead. */
  lemma AlwaysBoundedOnWrappedClock(c: St, i: St, es: seq<Event>, p: nat)
    requires Rel(c, i) && CloseRun(i, es) && Bounded(i, 0) && Nondecreasing(es) && es != []
    requires p in Run(Wide, i, es).table && Near(es[|es| - 1].t, Run(Wide, i, es).table[p])
    ensures p in Run(Wrapped, c, es).table
    ensures var t, d := es[|es| - 1].t, Run(Wrapped, c, es).table[p]; Elapsed(Wrapped, t, d) || (d - t) % WRAP <= COOLDOWN_MS + 1
  {
    hide Run, Near;
    Simulates(c, i, es);
    AlwaysBounded(i, es);
    NearElapsed(es[|es| - 1].t, Run(Wide, i, es).table[p]);
    AheadBy(Run(Wide, i, es).table[p], es[|es| - 1].t);
  }

  lemma AheadBy(d: nat, t: nat)
    requires t < d < t + WRAP || d <= t
    ensures t < d ==> (Low(d) - t) % WRAP == d - t
  {
    ModDiff(d, t);
    ModDiff(Low(d), t);
  }

  /** Deferring to the end of a hold never brings a deadline forward, on either clock. */
  lemma DeferNeverEarlier(m: Mode, s: St, peer: nat, t: nat)
    requires Armed(s, peer)
    ensures var s' := Deferred(m, s, peer, t); peer in s'.table && Elapsed(m, s'.table[peer], s.table[peer])
  {
  }

  predicate FlushIn(m: Mode, s: St, e: Event, peer: nat) {
    e.Beacon? && e.peer == peer && Flushes(m, Admit(s, peer, e.isNew), peer, e.isNew, e.t)
  }

  predicate FlushAt(s: St, e: Event, peer: nat) { FlushIn(Wide, s, e, peer) }

  /** No park and no admission of this peer. */
  predicate Undisturbed(e: Event, peer: nat) {
    !(e.Park? && e.peer == peer) && !(e.Beacon? && e.peer == peer && e.isNew)
  }

  /** The peer will not be flushed before `lim`. */
  predicate Resting(s: St, peer: nat, t: nat, lim: nat) {
    && (peer in s.table ==> s.table[peer] == 0 || s.table[peer] >= lim)
    && (s.last == peer ==> s.hold <= t || s.hold >= lim)
  }

  lemma RestingStep(s: St, peer: nat, t: nat, lim: nat, e: Event)
    requires Resting(s, peer, t, lim) && Undisturbed(e, peer) && t <= e.t && lim <= e.t + COOLDOWN_MS && peer != 0
    ensures e.t < lim ==> !FlushAt(s, e, peer)
    ensures e.t < lim ==> Resting(Do(Wide, s, e), peer, e.t, lim)
  {
  }

  lemma {:induction false} RestingRun(s: St, peer: nat, t: nat, es: seq<Event>)
    requires Resting(s, peer, t, t + COOLDOWN_MS) && Nondecreasing(es) && peer != 0
    requires forall i :: 0 <= i < |es| ==> t <= es[i].t < t + COOLDOWN_MS && Undisturbed(es[i], peer)
    ensures Resting(Run(Wide, s, es), peer, if es == [] then t else es[|es| - 1].t, t + COOLDOWN_MS)
    decreases |es|
  {
    if es != [] {
      RestingRun(s, peer, t, es[..|es| - 1]);
      RestingStep(Run(Wide, s, es[..|es| - 1]), peer, if |es| == 1 then t else es[|es| - 2].t, t + COOLDOWN_MS, es[|es| - 1]);
    }
  }

  lemma FlushRests(s: St, first: Event, peer: nat)
    requires peer != 0 && FlushAt(s, first, peer)
    ensures Resting(Do(Wide, s, first), peer, first.t, first.t + COOLDOWN_MS)
  {
  }

  /** `between` happens from `first` to `second`. */
  predicate InOrder(first: nat, between: seq<Event>, second: nat) {
    Nondecreasing(between) && first <= second && forall i :: 0 <= i < |between| ==> first <= between[i].t <= second
  }

  /** Two beacon flushes of one peer, with no park for it and no admission of it
      in between, are at least a cooldown apart. */
  lemma FlushesApart(s: St, first: Event, between: seq<Event>, second: Event, peer: nat)
    requires peer != 0 && FlushAt(s, first, peer) && InOrder(first.t, between, second.t)
    requires forall i :: 0 <= i < |between| ==> Undisturbed(between[i], peer)
    requires Undisturbed(second, peer) && FlushAt(Run(Wide, Do(Wide, s, first), between), second, peer)
    ensures second.t >= first.t + COOLDOWN_MS
  {
    hide Do, Run, FlushAt, Resting, Undisturbed;
    var t, s1 := first.t, Do(Wide, s, first);
    FlushRests(s, first, peer);
    if second.t < t + COOLDOWN_MS {
      RestingRun(s1, peer, t, between);
      RestingStep(Run(Wide, s1, between), peer, if between == [] then t else between[|between| - 1].t, t + COOLDOWN_MS, second);
      assert false;
    }
  }

  /** So it is on the firmware's own clock, while its comparisons are close ones. */
  lemma FlushesApartOnWrappedClock(c: St, i: St, first: Event, between: seq<Event>, second: Event, peer: nat)
    requires Rel(c, i) && Close(i, first) && CloseRun(Do(Wide, i, first), between)
    requires Close(Run(Wide, Do(Wide, i, first), between), second)
    requires peer != 0 && FlushIn(Wrapped, c, first, peer) && InOrder(first.t, between, second.t)
    requires forall k :: 0 <= k < |between| ==> Undisturbed(between[k], peer)
    requires Undisturbed(second, peer) && FlushIn(Wrapped, Run(Wrapped, Do(Wrapped, c, first), between), second, peer)
    ensures second.t >= first.t + COOLDOWN_MS
  {
    hide Do, Run, Flushes, Rel, Close, Undisturbed, Admit;
    StepSimulates(c, i, first);
    var c1, i1 := Do(Wrapped, c, first), Do(Wide, i, first);
    Simulates(c1, i1, between);
    StepSimulates(Run(Wrapped, c1, between), Run(Wide, i1, between), second);
    FlushesApart(i, first, between, second, peer);
  }

  /** Two sweeps that run are at least one sweep interval apart, whatever happens in between. */
  lemma SweepsApart(s: St, first: Event, between: seq<Event>, second: Event)
    requires first.Tick? && Due(Wide, s, first.t) && second.Tick? && InOrder(first.t, between, second.t)
    requires Due(Wide, Run(Wide, Do(Wide, s, first), between), second.t)
    ensures second.t >= first.t + SWEEP_MS
  {
    NextOnlyGrows(Do(Wide, s, first), between, first.t);
  }

  /** So it is on the firmware's own clock. */
  lemma SweepsApartOnWrappedClock(c: St, i: St, first: Event, between: seq<Event>, second: Event)
    requires Rel(c, i) && Close(i, first) && CloseRun(Do(Wide, i, first), between)
    requires Close(Run(Wide, Do(Wide, i, first), between), second)
    requires first.Tick? && Due(Wrapped, c, first.t) && second.Tick? && InOrder(first.t, between, second.t)
    requires Due(Wrapped, Run(Wrapped, Do(Wrapped, c, first), between), second.t)
    ensures second.t >= first.t + SWEEP_MS
  {
    hide Do, Run, Rel, Close, Due;
    StepSimulates(c, i, first);
    var c1, i1 := Do(Wrapped, c, first), Do(Wide, i, first);
    Simulates(c1, i1, between);
    StepSimulates(Run(Wrapped, c1, between), Run(Wide, i1, between), second);
    SweepsApart(i, first, between, second);
  }

  lemma {:induction false} NextOnlyGrows(s: St, es: seq<Event>, t: nat)
    requires s.next >= t + SWEEP_MS && forall i :: 0 <= i < |es| ==> es[i].t >= t
    ensures Run(Wide, s, es).next >= t + SWEEP_MS
    decreases |es|
  {
    if es != [] { NextOnlyGrows(s, es[..|es| - 1], t); }
  }

  // ------------------------------------------------ an armed peer is not lost

  /** Armed to fire by `lim`, and no hold outlasts it. */
  predicate WillFire(s: St, peer: nat, lim: nat) {
    && peer in s.table && 0 < s.table[peer] <= lim
    && (s.last == peer ==> s.hold <= lim)
  }

  /** The peer's entry neither leaves the table nor is made anew. */
  predicate Stays(e: Event, peer: nat) { !(e.Leave? && e.peer == peer) && !(e.Beacon? && e.peer == peer && e.isNew) }

  lemma WillFireStep(s: St, peer: nat, lim: nat, e: Event)
    requires WillFire(s, peer, lim) && Stays(e, peer) && e.t < lim && !FlushAt(s, e, peer)
    ensures WillFire(Do(Wide, s, e), peer, lim)
  {
  }

  lemma {:induction false} WillFireRun(s: St, peer: nat, lim: nat, es: seq<Event>)
    requires WillFire(s, peer, lim) && NeverFlushed(Wide, s, es, peer)
    requires forall i :: 0 <= i < |es| ==> Stays(es[i], peer) && es[i].t < lim
    ensures WillFire(Run(Wide, s, es), peer, lim)
    decreases |es|
  {
    if es != [] {
      WillFireRun(s, peer, lim, es[..|es| - 1]);
      WillFireStep(Run(Wide, s, es[..|es| - 1]), peer, lim, es[|es| - 1]);
    }
  }

  ghost predicate NeverFlushed(m: Mode, s: St, es: seq<Event>, peer: nat)
    decreases |es|
  {
    es != [] ==> NeverFlushed(m, s, es[..|es| - 1], peer) && !FlushIn(m, Run(m, s, es[..|es| - 1]), es[|es| - 1], peer)
  }

  /** A peer that is armed and stays in the table is flushed by any beacon heard
      one cooldown (and the nudge) later, unless one flushed it before: a
      deferred rejoin edge is never lost. */
  lemma ArmedIsFlushed(s: St, peer: nat, t0: nat, es: seq<Event>, t: nat)
    requires Armed(s, peer) && Bounded(s, t0) && t >= t0 + COOLDOWN_MS + 1
    requires forall i :: 0 <= i < |es| ==> Stays(es[i], peer) && es[i].t < t
    requires NeverFlushed(Wide, s, es, peer)
    ensures Flushes(Wide, Run(Wide, s, es), peer, false, t)
  {
    WillFireRun(s, peer, t, es);
  }

  lemma {:induction false} NeverFlushedSame(c: St, i: St, es: seq<Event>, peer: nat)
    requires Rel(c, i) && CloseRun(i, es) && NeverFlushed(Wrapped, c, es, peer)
    ensures NeverFlushed(Wide, i, es, peer)
    decreases |es|
  {
    hide Do, Rel, Close, Flushes;
    if es != [] {
      var before := es[..|es| - 1];
      NeverFlushedSame(c, i, before, peer);
      Simulates(c, i, before);
      StepSimulates(Run(Wrapped, c, before), Run(Wide, i, before), es[|es| - 1]);
    }
  }

  lemma RelArmed(c: St, i: St, peer: nat)
    requires Rel(c, i)
    ensures Armed(c, peer) <==> Armed(i, peer)
  {
  }

  /** So it is on the firmware's own clock. */
  lemma ArmedIsFlushedOnWrappedClock(c: St, i: St, peer: nat, t0: nat, es: seq<Event>, t: nat)
    requires Rel(c, i) && CloseRun(i, es) && Close(Run(Wide, i, es), Beacon(peer, false, 0, t))
    requires Armed(c, peer) && Bounded(i, t0) && t >= t0 + COOLDOWN_MS + 1
    requires forall k :: 0 <= k < |es| ==> Stays(es[k], peer) && es[k].t < t
    requires NeverFlushed(Wrapped, c, es, peer)
    ensures Flushes(Wrapped, Run(Wrapped, c, es), peer, false, t)
  {
    hide Do, Run, Rel, Close, Flushes, Armed, Bounded;
    RelArmed(c, i, peer);
    NeverFlushedSame(c, i, es, peer);
    ArmedIsFlushed(i, peer, t0, es, t);
    Simulates(c, i, es);
    StepSimulates(Run(Wrapped, c, es), Run(Wide, i, es), Beacon(peer, false, 0, t));
  }

  /** The beacon that readmits a peer while the sweep holds it puts its deadline
      at the end of the hold, which arms it exactly if the hold is not the
      cleared one. */
  lemma HeldRejoinIsArmed(m: Mode, s: St, peer: nat, found: nat, t: nat)
    requires Held(m, s, peer, t)
    ensures var s' := Do(m, s, Beacon(peer, true, found, t));
      peer in s'.table && s'.table[peer] == s.hold && (Armed(s', peer) <==> s.hold != 0)
    ensures m.Wide? ==> s.hold != 0
  {
  }

  // -------------------------------------------------------- the rotation

  /** Peers the rotation meets before `p` when the cursor stands at `c`. */
  function Before(c: nat, p: nat, u: set<nat>): set<nat> {
    set x | x in u && x != p && (if c < p then c < x < p else x > c || x < p)
  }

  /** Where the cursor stands after the sweeps over these parked sets. */
  ghost function Cursor(c: nat, qs: seq<set<nat>>): nat
    requires forall k :: 0 <= k < |qs| ==> qs[k] != {}
    decreases |qs|
  {
    if qs == [] then c else Next(Cursor(c, qs[..|qs| - 1]), qs[|qs| - 1])
  }

  /** Each sweep that does not reach p leaves strictly fewer peers before it. */
  lemma RotationStep(c: nat, p: nat, q: set<nat>, u: set<nat>)
    requires p in q && q <= u && Next(c, q) != p
    ensures Before(Next(c, q), p, u) < Before(c, p, u)
  {
    var n := Next(c, q);
    assert n in Before(c, p, u) && n !in Before(n, p, u);
  }

  lemma SmallerSet(a: set<nat>, b: set<nat>)
    requires a < b
    ensures |a| < |b|
  {
    var x :| x in b && x !in a;
    assert a <= b - {x};
    SubsetCard(a, b - {x});
  }

  lemma {:induction false} RotationRun(c: nat, p: nat, qs: seq<set<nat>>, u: set<nat>)
    requires forall k :: 0 <= k < |qs| ==> p in qs[k] && qs[k] <= u
    requires forall k :: 0 < k <= |qs| ==> Cursor(c, qs[..k]) != p
    ensures |Before(Cursor(c, qs), p, u)| + |qs| <= |Before(c, p, u)|
    decreases |qs|
  {
    if qs != [] {
      var shorter := qs[..|qs| - 1];
      assert forall k :: 0 < k <= |shorter| ==> shorter[..k] == qs[..k];
      RotationRun(c, p, shorter, u);
      assert qs[..|qs|] == qs;
      RotationStep(Cursor(c, shorter), p, qs[|qs| - 1], u);
      SmallerSet(Before(Cursor(c, qs), p, u), Before(Cursor(c, shorter), p, u));
    }
  }

  /** However the set of parked peers changes from sweep to sweep, a peer parked
      throughout is reached within as many sweeps as there are peers in all. */
  lemma NobodyStranded(c: nat, p: nat, qs: seq<set<nat>>, u: set<nat>)
    requires forall k :: 0 <= k < |qs| ==> p in qs[k] && qs[k] <= u
    requires p in u && |qs| >= |u|
    ensures exists k :: 0 < k <= |u| && Cursor(c, qs[..k]) == p
  {
    if forall k :: 0 < k <= |u| ==> Cursor(c, qs[..k]) != p {
      var first := qs[..|u|];
      assert forall k :: 0 < k <= |u| ==> first[..k] == qs[..k];
      RotationRun(c, p, first, u);
      assert Before(c, p, u) <= u - {p};
      SubsetCard(Before(c, p, u), u - {p});
      assert false;
    }
  }

  /** A sweep that runs and finds something parked. */
  predicate Sweeps(m: Mode, s: St, e: Event) { e.Tick? && Due(m, s, e.t) && e.parked != {} }

  /** The parked sets of the sweeps of a run. */
  ghost function SweptSets(m: Mode, s: St, es: seq<Event>): (qs: seq<set<nat>>)
    ensures forall k :: 0 <= k < |qs| ==> qs[k] != {}
    decreases |es|
  {
    if es == [] then []
    else
      var e := es[|es| - 1];
      SweptSets(m, s, es[..|es| - 1]) + (if Sweeps(m, Run(m, s, es[..|es| - 1]), e) then [e.parked] else [])
  }

  lemma StepLast(m: Mode, s: St, e: Event)
    ensures Do(m, s, e).last == if Sweeps(m, s, e) then Next(s.last, e.parked) else s.last
  {
  }

  /** Only sweeps move the cursor. */
  lemma {:induction false} LastIsCursor(m: Mode, s: St, es: seq<Event>)
    ensures Run(m, s, es).last == Cursor(s.last, SweptSets(m, s, es))
    decreases |es|
  {
    hide Do, Due;
    if es != [] {
      var shorter := es[..|es| - 1];
      LastIsCursor(m, s, shorter);
      StepLast(m, Run(m, s, shorter), es[|es| - 1]);
      var qs := SweptSets(m, s, es);
      if Sweeps(m, Run(m, s, shorter), es[|es| - 1]) {
        assert qs[..|qs| - 1] == SweptSets(m, s, shorter);
      } else {
        assert qs == SweptSets(m, s, shorter);
      }
    }
  }

  /** The k-th event is a sweep that turns to p: it attempts p or finds p armed. */
  ghost predicate Reaches(m: Mode, s: St, es: seq<Event>, k: nat, p: nat)
    requires k < |es|
  {
    var before := Run(m, s, es[..k]);
    var after := Do(m, before, es[k]);
    && Sweeps(m, before, es[k]) && after.last == p
    && (if Armed(before, p) then after.hold == 0 && after.table == before.table
        else after.hold == Stamp(m, es[k].t + COOLDOWN_MS))
  }

  lemma LastReached(m: Mode, s: St, es: seq<Event>, p: nat)
    requires es != [] && Sweeps(m, Run(m, s, es[..|es| - 1]), es[|es| - 1])
    requires Do(m, Run(m, s, es[..|es| - 1]), es[|es| - 1]).last == p
    ensures Reaches(m, s, es, |es| - 1, p)
  {
    hide Run, Stamp, Elapsed;
  }

  lemma ReachedEarlier(m: Mode, s: St, es: seq<Event>, k: nat, p: nat)
    requires es != [] && k < |es| - 1 && Reaches(m, s, es[..|es| - 1], k, p)
    ensures Reaches(m, s, es, k, p)
  {
    hide Run, Do;
    assert es[..|es| - 1][..k] == es[..k];
  }

  lemma {:induction false} CursorWasReached(m: Mode, s: St, es: seq<Event>, n: nat, p: nat)
    requires 0 < n <= |SweptSets(m, s, es)| && Cursor(s.last, SweptSets(m, s, es)[..n]) == p
    ensures exists k :: 0 <= k < |es| && Reaches(m, s, es, k, p)
    decreases |es|
  {
    hide Do, Reaches, Due, Run;
    if es != [] {
      var shorter, e := es[..|es| - 1], es[|es| - 1];
      var qs, q0 := SweptSets(m, s, es), SweptSets(m, s, shorter);
      if n <= |q0| {
        assert qs[..n] == q0[..n];
        CursorWasReached(m, s, shorter, n, p);
        var k :| 0 <= k < |shorter| && Reaches(m, s, shorter, k, p);
        ReachedEarlier(m, s, es, k, p);
      } else {
        assert qs[..n] == qs && qs[..|qs| - 1] == q0;
        LastIsCursor(m, s, shorter);
        StepLast(m, Run(m, s, shorter), e);
        LastReached(m, s, es, p);
      }
    }
  }

  /** No parked peer is stranded: in any run in which p stays parked while the
      sweeps that run number at least as many as the peers ever parked, some
      sweep attempts p or finds it armed for the beacon trigger. On either clock. */
  lemma ParkedPeerIsReached(m: Mode, s: St, es: seq<Event>, p: nat, u: set<nat>)
    requires forall k :: 0 <= k < |SweptSets(m, s, es)| ==> p in SweptSets(m, s, es)[k] && SweptSets(m, s, es)[k] <= u
    requires p in u && |SweptSets(m, s, es)| >= |u|
    ensures exists k :: 0 <= k < |es| && Reaches(m, s, es, k, p)
  {
    hide Reaches;
    var qs := SweptSets(m, s, es);
    NobodyStranded(s.last, p, qs, u);
    var n :| 0 < n <= |u| && Cursor(s.last, qs[..n]) == p;
    CursorWasReached(m, s, es, n, p);
  }

  // ----------------------------------------- where the marker and time 0 meet

  /** The sweep passes over an armed peer precisely so that its beacon may flush
      it. With the hold cleared to 0 that is so exactly while the uptime's 32-bit
      reading is below 2^31; from then on the cleared hold reads as standing. */
  lemma SkippedPeerFlushIff(s: St, peer: nat, t: nat)
    requires peer != 0 && Armed(s, peer) && Elapsed(Wrapped, t, s.table[peer])
    ensures Flushes(Wrapped, Skipped(s, peer), peer, false, t) <==> t % WRAP < HALF
  {
  }

  /** A passed-over peer that rejoins is likewise neither flushed nor armed from then on. */
  lemma SkippedRejoinLostIff(s: St, peer: nat, t: nat)
    requires peer != 0
    ensures var s1 := Skipped(s, peer);
      !Flushes(Wrapped, Admit(s1, peer, true), peer, true, t) && !Armed(Hear(Wrapped, s1, peer, true, 1, t), peer) <==> t % WRAP >= HALF
  {
  }

  function Off(): St { St(0, 0, 0, map[]) }

  /** Sweeps while nothing is parked anywhere. */
  predicate Quiet(qs: seq<Event>) { forall i :: 0 <= i < |qs| ==> qs[i].Tick? && qs[i].parked == {} }

  /** However many there are and whenever they come, they only set the next one. */
  lemma {:induction false} QuietRun(m: Mode, qs: seq<Event>)
    requires Quiet(qs)
    ensures Run(m, Off(), qs) == Off().(next := Run(m, Off(), qs).next)
    decreases |qs|
  {
    hide Stamp;
    if qs != [] { QuietRun(m, qs[..|qs| - 1]); }
  }

  /** Quiet sweeps, a peer that joins and has a message parked, the sweep at t
      that passes over it, and the beacon it was left to. */
  function Lifetime(qs: seq<Event>, t: nat): seq<Event>
    requires t >= 20
  {
    qs + [Beacon(7, true, 0, t - 20), Park(7, t - 10), Tick({7}, t), Beacon(7, false, 1, t)]
  }

  /** It does happen: from power-on, after any quiet sweeps whatever, at any time
      past 2^31 ms at which a sweep is due, the beacon is turned away and the
      peer disarmed, where the true clock flushes it. */
  lemma SkippedPeerDisarmed(qs: seq<Event>, t: nat)
    requires Quiet(qs) && HALF + 10 < t < WRAP
    requires Due(Wrapped, Run(Wrapped, Off(), qs), t) && Due(Wide, Run(Wide, Off(), qs), t)
    ensures var es, n := Lifetime(qs, t), |qs| + 3;
      && Armed(Run(Wrapped, Off(), es[..n]), 7)
      && !FlushIn(Wrapped, Run(Wrapped, Off(), es[..n]), es[n], 7) && FlushIn(Wide, Run(Wide, Off(), es[..n]), es[n], 7)
      && Run(Wrapped, Off(), es).table == map[7 := 0]
  {
    hide Run, Do, FlushIn, Due, Stamp;
    var es, n := Lifetime(qs, t), |qs| + 3;
    Life(Wrapped, qs, t);
    Life(Wide, qs, t);
    assert es[..|es| - 1] == es[..n] && es[n] == Beacon(7, false, 1, t);
    RunSnoc(Wrapped, Off(), es);
    TurnedAway(Run(Wrapped, Off(), es[..n]), t);
    Welcome(Run(Wide, Off(), es[..n]), t);
  }

  lemma TurnedAway(s: St, t: nat)
    requires HALF + 10 < t < WRAP && s == St(s.next, 7, 0, map[7 := t - 10])
    ensures !FlushIn(Wrapped, s, Beacon(7, false, 1, t), 7) && Do(Wrapped, s, Beacon(7, false, 1, t)).table == map[7 := 0]
  {
  }

  lemma Welcome(s: St, t: nat)
    requires HALF + 10 < t < WRAP && s == St(s.next, 7, 0, map[7 := t - 10])
    ensures FlushIn(Wide, s, Beacon(7, false, 1, t), 7)
  {
  }

  lemma RunSnoc(m: Mode, s: St, es: seq<Event>)
    requires es != []
    ensures Run(m, s, es) == Do(m, Run(m, s, es[..|es| - 1]), es[|es| - 1])
  {
  }

  /** Up to the sweep: the peer is armed and passed over. */
  lemma Life(m: Mode, qs: seq<Event>, t: nat)
    requires Quiet(qs) && HALF + 10 < t < WRAP && Due(m, Run(m, Off(), qs), t)
    ensures Run(m, Off(), Lifetime(qs, t)[..|qs| + 3]) == St(Stamp(m, t + SWEEP_MS), 7, 0, map[7 := t - 10])
  {
    var es, n := Lifetime(qs, t), |qs|;
    QuietRun(m, qs);
    assert es[..n] == qs && es[..n + 1][..n] == es[..n] && es[..n + 2][..n + 1] == es[..n + 1] && es[..n + 3][..n + 2] == es[..n + 2];
    RunSnoc(m, Off(), es[..n + 1]);
    RunSnoc(m, Off(), es[..n + 2]);
    RunSnoc(m, Off(), es[..n + 3]);
    hide Run;
    LifeSteps(m, Run(m, Off(), qs), t);
  }

  lemma LifeSteps(m: Mode, s: St, t: nat)
    requires s == Off().(next := s.next) && HALF + 10 < t < WRAP && Due(m, s, t)
    ensures Do(m, Do(m, Do(m, s, Beacon(7, true, 0, t - 20)), Park(7, t - 10)), Tick({7}, t))
         == St(Stamp(m, t + SWEEP_MS), 7, 0, map[7 := t - 10])
  {
    var s1 := Do(m, s, Beacon(7, true, 0, t - 20));
    assert s1 == s.(table := map[7 := 0]);
    var s2 := Do(m, s1, Park(7, t - 10));
    assert s2 == s.(table := map[7 := t - 10]);
    NextUnique(Next(0, {7}), 7, 0, {7});
  }

  /** n sweeps, one every five minutes. */
  function Regular(n: nat): seq<Event> { seq(n, i requires 0 <= i => Tick({}, (SWEEP_MS + 1) * (i + 1))) }

  lemma {:induction false} RegularNext(m: Mode, n: nat)
    requires 0 < n && (SWEEP_MS + 1) * (n + 1) < WRAP
    ensures Run(m, Off(), Regular(n)) == Off().(next := (SWEEP_MS + 1) * n + SWEEP_MS)
  {
    hide Do;
    var before := Regular(n - 1);
    assert Regular(n)[..n - 1] == before && Regular(n)[n - 1] == Tick({}, (SWEEP_MS + 1) * n);
    if n == 1 {
      assert before == [] && Run(m, Off(), before) == Off();
    } else {
      RegularNext(m, n - 1);
    }
    QuietTick(m, Run(m, Off(), before), (SWEEP_MS + 1) * n);
  }

  lemma QuietTick(m: Mode, s: St, t: nat)
    requires s == Off().(next := s.next) && s.next <= t < s.next + HALF && t + SWEEP_MS < WRAP
    ensures Do(m, s, Tick({}, t)) == s.(next := t + SWEEP_MS)
  {
  }

  /** A node that has swept every five minutes since power-on comes to it after 25 days. */
  lemma RegularSweepsComeToIt(n: nat)
    requires 0 < n && HALF + 10 < (SWEEP_MS + 1) * (n + 1) < WRAP
    ensures Run(Wrapped, Off(), Lifetime(Regular(n), (SWEEP_MS + 1) * (n + 1))).table == map[7 := 0]
  {
    hide Run;
    RegularNext(Wrapped, n);
    RegularNext(Wide, n);
    SkippedPeerDisarmed(Regular(n), (SWEEP_MS + 1) * (n + 1));
  }

  // -------------------------------------------------------- in place

  /** s_parked_sweep and the armed field of the neighbor entries. */
  class Retry {
    var next: nat
    var last: nat
    var hold: nat
    var table: map<nat, nat>

    ghost function Abs(): St
      reads this
    {
      St(next, last, hold, table)
    }

    constructor ()
      ensures Abs() == St(0, 0, 0, map[])
    {
      next, last, hold, table := 0, 0, 0, map[];
    }

    static method HasElapsed(now: nat, deadline: nat) returns (r: bool)
      requires now < WRAP && deadline < WRAP
      ensures forall t: nat :: Low(t) == now ==> r == Elapsed(Wrapped, t, deadline)
    {
      var diff := if now >= deadline then now - deadline else now + WRAP - deadline;
      r := diff < HALF;
      forall t: nat | Low(t) == now ensures r == Elapsed(Wrapped, t, deadline) {
        ModDiff(t, deadline);
      }
    }

    static method DeadlineAt(now: nat, delay: nat) returns (d: nat)
      requires now < WRAP
      ensures forall t: nat :: Low(t) == now ==> d == Stamp(Wrapped, t + delay)
      ensures 0 < d < WRAP
    {
      d := (now + delay) % WRAP;
      if d == 0 {
        d := 1;
      }
      forall t: nat | Low(t) == now ensures d == Stamp(Wrapped, t + delay) {
        ModShift(now + delay, t / WRAP);
        ModShift(1, (t + delay) / WRAP);
      }
    }

    ghost predicate Valid()
      reads this
    {
      next < WRAP && hold < WRAP && forall p :: p in table ==> table[p] < WRAP
    }

    /** parked_retry_sweep_due; `t` is the true time behind the 32-bit reading. */
    method SweepDue(now: nat, ghost t: nat) returns (due: bool)
      requires Valid() && now == Low(t)
      modifies this`next
      ensures Valid() && due == Due(Wrapped, old(Abs()), t)
      ensures Abs() == if due then Rescheduled(Wrapped, old(Abs()), t) else old(Abs())
    {
      due := HasElapsed(now, next);
      if due {
        next := DeadlineAt(now, SWEEP_MS);
      }
    }

    /** The rest of the sweep, once the store has named the next parked peer. */
    method SweepPeer(peer: nat, now: nat, ghost t: nat) returns (attempt: bool)
      requires Valid() && now == Low(t)
      modifies this`last, this`hold
      ensures Valid() && attempt == !Armed(old(Abs()), peer)
      ensures Abs() == if attempt then Swept(Wrapped, old(Abs()), peer, t) else Skipped(old(Abs()), peer)
    {
      attempt := !(peer in table && table[peer] != 0);
      last := peer;
      if attempt {
        hold := DeadlineAt(now, COOLDOWN_MS);
      } else {
        hold := 0;
      }
    }

    /** parked_retry_arm. */
    method ArmPeer(peer: nat, now: nat, ghost t: nat) returns (found: bool)
      requires Valid() && now == Low(t)
      modifies this`table
      ensures Valid() && found == (peer in old(table)) && Abs() == Arm(Wrapped, old(Abs()), peer, t)
    {
      found := peer in table;
      if found {
        var d := DeadlineAt(now, 0);
        table := table[peer := d];
      }
    }

    /** parked_retry_beacon_decide_flush. */
    method DecideFlush(peer: nat, isNew: bool, now: nat, ghost t: nat) returns (flush: bool)
      requires Valid() && now == Low(t)
      modifies this`table
      ensures Valid() && flush == Flushes(Wrapped, old(Abs()), peer, isNew, t)
      ensures Abs() == Deferred(Wrapped, old(Abs()), peer, t)
    {
      var free := HasElapsed(now, hold);
      if peer != 0 && last == peer && !free {
        if peer in table {
          var later := HasElapsed(hold, table[peer]);
          HoldReads(hold);
          if table[peer] == 0 || later {
            table := table[peer := hold];
          }
        }
        return false;
      }
      if isNew {
        return true;
      }
      if peer !in table || table[peer] == 0 {
        return false;
      }
      flush := HasElapsed(now, table[peer]);
    }

    static lemma HoldReads(hold: nat)
      requires hold < WRAP
      ensures Low(hold) == hold
    {
    }

    /** parked_retry_flushed. */
    method RecordFlush(peer: nat, found: nat, now: nat, ghost t: nat)
      requires Valid() && now == Low(t)
      modifies this`table
      ensures Valid() && Abs() == Flushed(Wrapped, old(Abs()), peer, found, t)
    {
      if peer in table {
        var d := 0;
        if found > 0 {
          d := DeadlineAt(now, COOLDOWN_MS);
        }
        table := table[peer := d];
      }
    }

    /** The parked part of handle_beacon: admit, decide, flush, record. */
    method HearBeacon(peer: nat, isNew: bool, found: nat, now: nat, ghost t: nat) returns (flush: bool)
      requires Valid() && now == Low(t)
      modifies this`table
      ensures Valid() && flush == Flushes(Wrapped, Admit(old(Abs()), peer, isNew), peer, isNew, t)
      ensures Abs() == Hear(Wrapped, old(Abs()), peer, isNew, found, t)
    {
      if isNew {
        table := table[peer := 0];
      }
      flush := DecideFlush(peer, isNew, now, t);
      if flush {
        RecordFlush(peer, found, now, t);
      }
    }
  }
}
