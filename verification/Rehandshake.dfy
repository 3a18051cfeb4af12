/**
 * The re-handshake limiter (main/mesh_dm.c): eight slots remember when a peer
 * was last granted a handshake. A peer met again within 15 s is refused while
 * its slot lasts; a full table gives its least recently granted slot away.
 */
module Rehandshake {
  import opened Basics

  const TRACK: nat := 8
  const MIN_INTERVAL_MS: nat := 15_000

  datatype Slot = Slot(addr: nat, last: nat)

  datatype Grant = Grant(peer: nat, now: nat)

  /** First slot of this peer, or |t|. */
  function Find(t: seq<Slot>, peer: nat, i: nat): (r: nat)
    requires i <= |t|
    ensures i <= r <= |t| && (r < |t| ==> t[r].addr == peer)
    ensures forall k :: i <= k < r ==> t[k].addr != peer
    decreases |t| - i
  {
    if i == |t| || t[i].addr == peer then i else Find(t, peer, i + 1)
  }

  /** The scan's `oldest` after n slots. */
  function Oldest(t: seq<Slot>, n: nat): (r: nat)
    requires n <= |t| && |t| > 0
    ensures r < |t|
    ensures forall k :: 0 <= k < n ==> t[r].last <= t[k].last
  {
    if n == 0 then 0
    else
      var o := Oldest(t, n - 1);
      if t[n - 1].last < t[o].last then n - 1 else o
  }

  /** The slot a new peer takes: a free one (address 0), else the oldest. */
  function Victim(t: seq<Slot>): (r: nat)
    requires |t| == TRACK
    ensures r < TRACK
  {
    var free := Find(t, 0, 0);
    if free < TRACK then free else Oldest(t, TRACK)
  }

  /** dm_rehandshake_rate_ok. */
  function RateOk(t: seq<Slot>, peer: nat, now: nat): (r: (bool, seq<Slot>))
    requires |t| == TRACK
    ensures |r.1| == TRACK
  {
    var i := Find(t, peer, 0);
    if i < TRACK then
      if (now - t[i].last) % WRAP < MIN_INTERVAL_MS then (false, t) else (true, t[i := Slot(peer, now)])
    else (true, t[Victim(t) := Slot(peer, now)])
  }

  // ------------------------------------------------------------ what it keeps

  /** Peers other than `peer` granted at or after `since`. */
  function Others(hist: seq<Grant>, peer: nat, since: nat): (r: set<nat>)
    ensures forall q :: q in r <==> q != peer && exists k :: 0 <= k < |hist| && hist[k].peer == q && hist[k].now >= since
  {
    set k | 0 <= k < |hist| && hist[k].peer != peer && hist[k].now >= since :: hist[k].peer
  }

  predicate InTable(t: seq<Slot>, g: Grant) { exists i :: 0 <= i < |t| && t[i] == Slot(g.peer, g.now) }

  predicate LastGrant(hist: seq<Grant>, k: nat)
    requires k < |hist|
  {
    forall j :: k < j < |hist| ==> hist[j].peer != hist[k].peer
  }

  predicate DistinctPeers(t: seq<Slot>) {
    forall i, j :: 0 <= i < j < |t| && t[i].addr != 0 ==> t[i].addr != t[j].addr
  }

  /** The table against the history of grants. */
  predicate Ok(t: seq<Slot>, hist: seq<Grant>) {
    && |t| == TRACK && DistinctPeers(t)
    && (forall i, j :: 0 <= i < j < |hist| ==> hist[i].now <= hist[j].now)
    && (forall i :: 0 <= i < |hist| ==> hist[i].peer != 0)
    // a slot in use is of a grant
    && (forall i :: 0 <= i < TRACK && t[i].addr != 0 ==> Grant(t[i].addr, t[i].last) in hist)
    // a peer's last grant is in the table, or eight others came since
    && (forall k :: 0 <= k < |hist| && LastGrant(hist, k) ==>
          InTable(t, hist[k]) || |Others(hist, hist[k].peer, hist[k].now)| >= TRACK)
  }

  /** The addresses of the slots. */
  function Addrs(t: seq<Slot>): (r: seq<nat>)
    ensures |r| == |t| && forall i :: 0 <= i < |t| ==> r[i] == t[i].addr
  {
    seq(|t|, i requires 0 <= i < |t| => t[i].addr)
  }

  function Elems(s: seq<nat>): set<nat> { set x | x in s }

  lemma {:induction false} DistinctCard(s: seq<nat>)
    requires forall i, j :: 0 <= i < j < |s| ==> s[i] != s[j]
    ensures |Elems(s)| == |s|
  {
    if s != [] {
      var n := |s| - 1;
      DistinctCard(s[..n]);
      assert Elems(s) == Elems(s[..n]) + {s[n]};
      assert s[n] !in Elems(s[..n]);
    }
  }

  lemma OthersGrow(hist: seq<Grant>, g: Grant, peer: nat, since: nat, earlier: nat)
    requires earlier <= since
    ensures |Others(hist, peer, since)| <= |Others(hist + [g], peer, earlier)|
  {
    forall q | q in Others(hist, peer, since) ensures q in Others(hist + [g], peer, earlier) {
      var k :| 0 <= k < |hist| && hist[k].peer == q && hist[k].now >= since;
      assert (hist + [g])[k] == hist[k];
    }
    SubsetCard(Others(hist, peer, since), Others(hist + [g], peer, earlier));
  }

  /** A slot given away although its grant is recent leaves eight others behind it. */
  lemma EvictionCrowd(t: seq<Slot>, hist: seq<Grant>, g: Grant)
    requires Ok(t, hist) && g.peer != 0 && Find(t, g.peer, 0) == TRACK && Find(t, 0, 0) == TRACK
    requires forall i :: 0 <= i < |hist| ==> hist[i].now <= g.now
    ensures var old_ := t[Oldest(t, TRACK)]; |Others(hist + [g], old_.addr, old_.last)| >= TRACK
  {
    var o := Oldest(t, TRACK);
    var t', h' := t[o := Slot(g.peer, g.now)], hist + [g];
    var a := Addrs(t');
    forall i, j | 0 <= i < j < |a| ensures a[i] != a[j] {
      assert t[i].addr != 0 && t[j].addr != 0;
    }
    DistinctCard(a);
    assert Grant(t[o].addr, t[o].last) in hist;
    forall q | q in Elems(a) ensures q in Others(h', t[o].addr, t[o].last) {
      var i :| 0 <= i < |a| && a[i] == q;
      if i == o {
        assert h'[|hist|] == g;
      } else {
        assert Grant(t[i].addr, t[i].last) in hist;
        var k :| 0 <= k < |hist| && hist[k] == Grant(t[i].addr, t[i].last);
        assert h'[k] == hist[k];
      }
    }
    SubsetCard(Elems(a), Others(h', t[o].addr, t[o].last));
  }

  /** A granted call keeps the table true to the history. */
  lemma GrantKeepsOk(t: seq<Slot>, hist: seq<Grant>, g: Grant)
    requires Ok(t, hist) && g.peer != 0 && RateOk(t, g.peer, g.now).0
    requires forall i :: 0 <= i < |hist| ==> hist[i].now <= g.now
    ensures Ok(RateOk(t, g.peer, g.now).1, hist + [g])
  {
    var f := Find(t, g.peer, 0);
    var v := if f < TRACK then f else Victim(t);
    var t', h' := t[v := Slot(g.peer, g.now)], hist + [g];
    forall i | 0 <= i < TRACK && t'[i].addr != 0 ensures Grant(t'[i].addr, t'[i].last) in h' {
      if i == v { assert h'[|hist|] == g; } else { assert Grant(t[i].addr, t[i].last) in hist; }
    }
    forall k | 0 <= k < |h'| && LastGrant(h', k)
      ensures InTable(t', h'[k]) || |Others(h', h'[k].peer, h'[k].now)| >= TRACK
    {
      if k == |hist| {
        assert t'[v] == Slot(g.peer, g.now);
      } else {
        assert h'[|hist|] == g && h'[k] == hist[k];
        LastGrantBefore(hist, g, k);
        OthersGrow(hist, g, hist[k].peer, hist[k].now, hist[k].now);
        if InTable(t, hist[k]) {
          var i :| 0 <= i < TRACK && t[i] == Slot(hist[k].peer, hist[k].now);
          if i == v {
            assert t[v].addr != g.peer && t[v].addr != 0;
            EvictionCrowd(t, hist, g);
          } else {
            assert t'[i] == t[i];
          }
        }
      }
    }
  }

  lemma LastGrantBefore(hist: seq<Grant>, g: Grant, k: nat)
    requires k < |hist| && LastGrant(hist + [g], k)
    ensures LastGrant(hist, k)
  {
    forall j | k < j < |hist| ensures hist[j].peer != hist[k].peer {
      assert (hist + [g])[j] == hist[j];
    }
  }

  lemma {:induction false} LastOf(hist: seq<Grant>, k: nat) returns (m: nat)
    requires k < |hist|
    ensures k <= m < |hist| && hist[m].peer == hist[k].peer && LastGrant(hist, m)
    decreases |hist| - k
  {
    if LastGrant(hist, k) {
      m := k;
    } else {
      var j :| k < j < |hist| && hist[j].peer == hist[k].peer;
      m := LastOf(hist, j);
    }
  }

  /** The step of the theorem: a grant within 15 s of an earlier one to the same
      peer means eight other peers were granted at or after that one. */
  lemma GrantAgain(t: seq<Slot>, hist: seq<Grant>, g: Grant, k: nat)
    requires Ok(t, hist) && g.peer != 0 && RateOk(t, g.peer, g.now).0
    requires forall i :: 0 <= i < |hist| ==> hist[i].now <= g.now
    requires k < |hist| && hist[k].peer == g.peer && g.now - hist[k].now < MIN_INTERVAL_MS && g.now < WRAP
    ensures |Others(hist, g.peer, hist[k].now)| >= TRACK
  {
    var m := LastOf(hist, k);
    assert hist[k].now <= hist[m].now;
    assert !InTable(t, hist[m]);
    var later, all := Others(hist, g.peer, hist[m].now), Others(hist, g.peer, hist[k].now);
    forall q | q in later ensures q in all {
      var j :| 0 <= j < |hist| && hist[j].peer == q && hist[j].now >= hist[m].now;
    }
    SubsetCard(later, all);
  }

  // ------------------------------------------------------------ over every run

  datatype State = State(t: seq<Slot>, hist: seq<Grant>)

  function Do(s: State, c: Grant): (r: State)
    requires |s.t| == TRACK
    ensures |r.t| == TRACK
  {
    var r := RateOk(s.t, c.peer, c.now);
    State(r.1, if r.0 then s.hist + [c] else s.hist)
  }

  function Run(s: State, calls: seq<Grant>): (r: State)
    requires |s.t| == TRACK
    ensures |r.t| == TRACK
    decreases |calls|
  {
    if calls == [] then s else Do(Run(s, calls[..|calls| - 1]), calls[|calls| - 1])
  }

  /** Calls for real peers on a clock that neither runs backwards nor wraps. */
  predicate Proper(calls: seq<Grant>) {
    && (forall i :: 0 <= i < |calls| ==> calls[i].peer != 0 && calls[i].now < WRAP)
    && (forall i, j :: 0 <= i < j < |calls| ==> calls[i].now <= calls[j].now)
  }

  function Empty(): State { State(seq(TRACK, i => Slot(0, 0)), []) }

  lemma {:induction false} OkEveryRun(calls: seq<Grant>)
    requires Proper(calls)
    ensures var s := Run(Empty(), calls);
      && Ok(s.t, s.hist)
      && (forall i :: 0 <= i < |s.hist| ==> s.hist[i].now <= if calls == [] then 0 else calls[|calls| - 1].now)
    decreases |calls|
  {
    hide RateOk;
    if calls != [] {
      var shorter, c := calls[..|calls| - 1], calls[|calls| - 1];
      OkEveryRun(shorter);
      var s := Run(Empty(), shorter);
      RefusedKeeps(s.t, c.peer, c.now);
      if RateOk(s.t, c.peer, c.now).0 { GrantKeepsOk(s.t, s.hist, c); }
    }
  }

  lemma RefusedKeeps(t: seq<Slot>, peer: nat, now: nat)
    requires |t| == TRACK
    ensures !RateOk(t, peer, now).0 ==> RateOk(t, peer, now).1 == t
  {
  }

  /** Over every run: two grants to one peer less than 15 s apart mean that at
      least eight other peers were granted from the first to the second. */
  lemma EightOthers(calls: seq<Grant>, c: Grant, k: nat)
    requires Proper(calls + [c])
    requires var s := Run(Empty(), calls);
      k < |s.hist| && s.hist[k].peer == c.peer && RateOk(s.t, c.peer, c.now).0 && c.now - s.hist[k].now < MIN_INTERVAL_MS
    ensures var s := Run(Empty(), calls); |Others(s.hist, c.peer, s.hist[k].now)| >= TRACK
  {
    hide RateOk, Run;
    var all := calls + [c];
    assert all[|calls|] == c && forall i :: 0 <= i < |calls| ==> all[i] == calls[i];
    OkEveryRun(calls);
    GrantAgain(Run(Empty(), calls).t, Run(Empty(), calls).hist, c, k);
  }

  /** Over every run: a call is refused only if the same peer was granted less
      than 15 s before. */
  lemma RefusedRecently(calls: seq<Grant>, c: Grant)
    requires Proper(calls + [c])
    ensures var s := Run(Empty(), calls);
      !RateOk(s.t, c.peer, c.now).0 ==>
        exists k :: 0 <= k < |s.hist| && s.hist[k].peer == c.peer && s.hist[k].now <= c.now < s.hist[k].now + 15_000
  {
    hide RateOk, Run, Ok;
    var all := calls + [c];
    assert all[|calls|] == c && forall i :: 0 <= i < |calls| ==> all[i] == calls[i];
    OkEveryRun(calls);
    var s := Run(Empty(), calls);
    OkHeld(s.t, s.hist);
    if !RateOk(s.t, c.peer, c.now).0 { RefusedIsRecent(s.t, s.hist, c); }
  }

  lemma OkHeld(t: seq<Slot>, hist: seq<Grant>)
    requires Ok(t, hist)
    ensures forall i :: 0 <= i < |t| && t[i].addr != 0 ==> Grant(t[i].addr, t[i].last) in hist
  {
  }

  lemma RefusedIsRecent(t: seq<Slot>, hist: seq<Grant>, c: Grant)
    requires |t| == TRACK && c.peer != 0 && c.now < WRAP && !RateOk(t, c.peer, c.now).0
    requires (forall i :: 0 <= i < |t| && t[i].addr != 0 ==> Grant(t[i].addr, t[i].last) in hist)
    requires forall i :: 0 <= i < |hist| ==> hist[i].now <= c.now
    ensures exists k :: 0 <= k < |hist| && hist[k].peer == c.peer && hist[k].now <= c.now < hist[k].now + 15_000
  {
    var i := Find(t, c.peer, 0);
    var k :| 0 <= k < |hist| && hist[k] == Grant(c.peer, t[i].last);
    assert (c.now - t[i].last) % WRAP == c.now - t[i].last;
  }

  // ------------------------------------- on a strict clock, exactly eight

  /** The table holds last grants, no peer is missing that was granted after one
      it holds, and while a slot is free nobody is missing. */
  predicate Lru(t: seq<Slot>, hist: seq<Grant>) {
    && |t| == TRACK
    && (forall i, j :: 0 <= i < j < |hist| ==> hist[i].now < hist[j].now)
    && (forall i :: 0 <= i < TRACK && t[i].addr != 0 ==> IsLast(hist, t[i]))
    && (forall i, k :: 0 <= i < TRACK && 0 <= k < |hist| && LastGrant(hist, k) && (t[i].addr == 0 || t[i].last < hist[k].now) ==>
          InTable(t, hist[k]))
  }

  predicate IsLast(hist: seq<Grant>, x: Slot) {
    exists k :: 0 <= k < |hist| && LastGrant(hist, k) && x == Slot(hist[k].peer, hist[k].now)
  }

  lemma LastStays(hist: seq<Grant>, g: Grant, x: Slot)
    requires IsLast(hist, x) && x.addr != g.peer
    ensures IsLast(hist + [g], x)
  {
    var k :| 0 <= k < |hist| && LastGrant(hist, k) && x == Slot(hist[k].peer, hist[k].now);
    assert (hist + [g])[k] == hist[k];
    assert LastGrant(hist + [g], k);
  }

  /** What a granted call leaves in its own slot. */
  lemma NewestIsLast(hist: seq<Grant>, g: Grant)
    ensures IsLast(hist + [g], Slot(g.peer, g.now))
  {
    assert (hist + [g])[|hist|] == g && LastGrant(hist + [g], |hist|);
  }

  /** The slot a granted call writes: the peer's own, a free one, or one as old as any. */
  lemma Written(t: seq<Slot>, peer: nat, now: nat) returns (v: nat)
    requires |t| == TRACK && RateOk(t, peer, now).0
    ensures v < TRACK && RateOk(t, peer, now).1 == t[v := Slot(peer, now)]
    ensures forall i :: 0 <= i < TRACK && i != v && t[i].addr == peer ==> t[v].addr == peer
    ensures t[v].addr == peer || t[v].addr == 0 || forall i :: 0 <= i < TRACK ==> t[i].addr != 0 && t[v].last <= t[i].last
  {
    var f := Find(t, peer, 0);
    v := if f < TRACK then f else Victim(t);
  }

  lemma GrantKeepsLru(t: seq<Slot>, hist: seq<Grant>, g: Grant)
    requires Lru(t, hist) && DistinctPeers(t) && g.peer != 0 && RateOk(t, g.peer, g.now).0
    requires forall i :: 0 <= i < |hist| ==> hist[i].now < g.now && hist[i].peer != 0
    ensures Lru(RateOk(t, g.peer, g.now).1, hist + [g])
  {
    hide RateOk, IsLast;
    var v := Written(t, g.peer, g.now);
    var t', h' := t[v := Slot(g.peer, g.now)], hist + [g];
    NewestIsLast(hist, g);
    forall i | 0 <= i < TRACK && t'[i].addr != 0 ensures IsLast(h', t'[i]) {
      if i != v { LastStays(hist, g, t[i]); }
    }
    forall i, k | 0 <= i < TRACK && 0 <= k < |h'| && LastGrant(h', k) && (t'[i].addr == 0 || t'[i].last < h'[k].now)
      ensures InTable(t', h'[k])
    {
      KeptNewer(t, hist, g, v, i, k);
    }
  }

  lemma KeptNewer(t: seq<Slot>, hist: seq<Grant>, g: Grant, v: nat, i: nat, k: nat)
    requires Lru(t, hist) && v < TRACK && i < TRACK && k <= |hist|
    requires forall j :: 0 <= j < |hist| ==> hist[j].now < g.now && hist[j].peer != 0
    requires t[v].addr == g.peer || t[v].addr == 0 || forall j :: 0 <= j < TRACK ==> t[j].addr != 0 && t[v].last <= t[j].last
    requires var t', h' := t[v := Slot(g.peer, g.now)], hist + [g];
      LastGrant(h', k) && (t'[i].addr == 0 || t'[i].last < h'[k].now) && g.peer != 0
    ensures InTable(t[v := Slot(g.peer, g.now)], (hist + [g])[k])
  {
    hide IsLast;
    var t', h' := t[v := Slot(g.peer, g.now)], hist + [g];
    if k == |hist| {
      assert t'[v] == Slot(g.peer, g.now);
    } else {
      assert h'[|hist|] == g && h'[k] == hist[k];
      LastGrantBefore(hist, g, k);
      assert i != v && InTable(t, hist[k]);
      var j :| 0 <= j < TRACK && t[j] == Slot(hist[k].peer, hist[k].now);
      assert j != v;
      assert t'[j] == t[j];
    }
  }

  /** Strictly increasing times. */
  predicate Strict(calls: seq<Grant>) {
    Proper(calls) && forall i, j :: 0 <= i < j < |calls| ==> calls[i].now < calls[j].now
  }

  lemma {:induction false} LruEveryRun(calls: seq<Grant>)
    requires Strict(calls)
    ensures var s := Run(Empty(), calls);
      && Lru(s.t, s.hist)
      && (forall i :: 0 <= i < |s.hist| ==> calls != [] && s.hist[i].now <= calls[|calls| - 1].now)
    decreases |calls|
  {
    hide RateOk, Lru, Ok;
    if calls == [] {
      EmptyLru();
    } else {
      var shorter, c := calls[..|calls| - 1], calls[|calls| - 1];
      LruEveryRun(shorter);
      OkEveryRun(shorter);
      var s := Run(Empty(), shorter);
      RefusedKeeps(s.t, c.peer, c.now);
      OkPeers(s.t, s.hist);
      if RateOk(s.t, c.peer, c.now).0 { GrantKeepsLru(s.t, s.hist, c); }
    }
  }

  lemma EmptyLru()
    ensures Lru(Empty().t, [])
  {
  }

  lemma OkPeers(t: seq<Slot>, hist: seq<Grant>)
    requires Ok(t, hist)
    ensures DistinctPeers(t) && forall i :: 0 <= i < |hist| ==> hist[i].peer != 0
  {
  }

  /** A peer granted after one the table holds is in the table too. */
  lemma LaterIsHeld(t: seq<Slot>, hist: seq<Grant>, k: nat, q: nat)
    requires Lru(t, hist) && k < |hist| && LastGrant(hist, k) && InTable(t, hist[k])
    requires q in Others(hist, hist[k].peer, hist[k].now) && hist[k].peer != 0
    ensures q in Elems(Addrs(t)) && q != hist[k].peer
  {
    hide IsLast;
    var i :| 0 <= i < TRACK && t[i] == Slot(hist[k].peer, hist[k].now);
    var j :| 0 <= j < |hist| && hist[j].peer == q && hist[j].now >= hist[k].now;
    var m := LastOf(hist, j);
    assert m > k;
    assert t[i].last < hist[m].now;
    assert InTable(t, hist[m]);
    var x :| 0 <= x < TRACK && t[x] == Slot(hist[m].peer, hist[m].now);
    assert Addrs(t)[x] == q;
  }

  /** A peer whose last grant the table holds has seen fewer than eight others since. */
  lemma HeldMeansFew(t: seq<Slot>, hist: seq<Grant>, k: nat)
    requires Lru(t, hist) && k < |hist| && LastGrant(hist, k) && InTable(t, hist[k])
    requires forall i :: 0 <= i < |hist| ==> hist[i].peer != 0
    ensures |Others(hist, hist[k].peer, hist[k].now)| < TRACK
  {
    hide Lru, LastGrant;
    var i :| 0 <= i < |t| && t[i] == Slot(hist[k].peer, hist[k].now);
    var since, addrs := Others(hist, hist[k].peer, hist[k].now), Elems(Addrs(t));
    forall q | q in since ensures q in addrs - {hist[k].peer} { LaterIsHeld(t, hist, k, q); }
    assert Addrs(t)[i] == hist[k].peer && hist[k].peer in addrs;
    hide Others, Elems;
    SubsetCard(since, addrs - {hist[k].peer});
    ElemsCard(Addrs(t));
    LruSize(t, hist);
  }

  lemma LruSize(t: seq<Slot>, hist: seq<Grant>)
    requires Lru(t, hist)
    ensures |t| == TRACK
  {
  }

  lemma {:induction false} ElemsCard(s: seq<nat>)
    ensures |Elems(s)| <= |s|
  {
    if s != [] {
      ElemsCard(s[..|s| - 1]);
      assert Elems(s) == Elems(s[..|s| - 1]) + {s[|s| - 1]};
    }
  }

  /** Exactly when a peer is granted again within 15 s of its last grant, on a
      clock no two calls share a reading of: when eight other peers have been
      granted since. */
  lemma GrantedAgainIff(calls: seq<Grant>, c: Grant, k: nat)
    requires Strict(calls + [c])
    requires var hist := Run(Empty(), calls).hist;
      k < |hist| && LastGrant(hist, k) && hist[k].peer == c.peer && c.now - hist[k].now < MIN_INTERVAL_MS
    ensures var s := Run(Empty(), calls);
      RateOk(s.t, c.peer, c.now).0 <==> |Others(s.hist, c.peer, s.hist[k].now)| >= TRACK
  {
    hide RateOk, Run, Lru, Ok;
    var all := calls + [c];
    assert all[|calls|] == c && forall i :: 0 <= i < |calls| ==> all[i] == calls[i];
    var s := Run(Empty(), calls);
    if RateOk(s.t, c.peer, c.now).0 {
      EightOthers(calls, c, k);
    } else {
      LruEveryRun(calls);
      OkEveryRun(calls);
      OkPeers(s.t, s.hist);
      RefusedIsHeld(s.t, s.hist, c, k);
      HeldMeansFew(s.t, s.hist, k);
    }
  }

  /** A refused peer's slot holds its last grant. */
  lemma RefusedIsHeld(t: seq<Slot>, hist: seq<Grant>, c: Grant, k: nat)
    requires Lru(t, hist) && !RateOk(t, c.peer, c.now).0 && c.peer != 0
    requires k < |hist| && LastGrant(hist, k) && hist[k].peer == c.peer
    ensures InTable(t, hist[k])
  {
    var f := Find(t, c.peer, 0);
    var m :| 0 <= m < |hist| && LastGrant(hist, m) && t[f] == Slot(hist[m].peer, hist[m].now);
    assert m == k;
  }

  // ---------------------------------------------- eight others are enough

  /** Peers 1 to n, all at the same moment. */
  function Crowd(n: nat): seq<Grant> { seq(n, (i: nat) => Grant(i + 1, 100)) }

  function Filled(n: nat): seq<Slot>
    requires n <= TRACK
  {
    seq(TRACK, (i: nat) => if i < n then Slot(i + 1, 100) else Slot(0, 0))
  }

  lemma FindIs(t: seq<Slot>, peer: nat, r: nat)
    requires r <= |t| && (forall k :: 0 <= k < r ==> t[k].addr != peer) && (r < |t| ==> t[r].addr == peer)
    ensures Find(t, peer, 0) == r
  {
  }

  lemma CrowdStep(n: nat)
    requires 0 < n <= TRACK
    ensures RateOk(Filled(n - 1), n, 100) == (true, Filled(n))
  {
    var t := Filled(n - 1);
    FindIs(t, n, TRACK);
    FindIs(t, 0, n - 1);
    assert t[n - 1 := Slot(n, 100)] == Filled(n);
  }

  lemma {:induction false} CrowdFills(n: nat)
    requires n <= TRACK
    ensures Run(Empty(), Crowd(n)).t == Filled(n)
  {
    hide RateOk;
    if n > 0 {
      CrowdFills(n - 1);
      assert Crowd(n)[..n - 1] == Crowd(n - 1);
      CrowdStep(n);
    } else {
      assert Filled(0) == Empty().t;
    }
  }

  lemma {:induction false} NoneOlder(t: seq<Slot>, n: nat)
    requires 0 < n <= |t| && forall i :: 0 <= i < |t| ==> t[i].last == 100
    ensures Oldest(t, n) == 0
  {
    if n > 1 { NoneOlder(t, n - 1); }
  }

  lemma NinthEvictsFirst()
    ensures RateOk(Filled(8), 9, 100).1 == Filled(8)[0 := Slot(9, 100)]
  {
    FindIs(Filled(8), 9, TRACK);
    FindIs(Filled(8), 0, TRACK);
    NoneOlder(Filled(8), 8);
  }

  /** One handshake per peer and interval is what is wanted; a ninth peer makes
      room for a second one to the first, at once. */
  lemma GrantedTwice()
    ensures RateOk(Run(Empty(), Crowd(9)).t, 1, 100).0
  {
    hide RateOk;
    CrowdFills(8);
    assert Crowd(9)[..8] == Crowd(8);
    NinthEvictsFirst();
    FirstIsUnknown(Filled(8)[0 := Slot(9, 100)]);
  }

  lemma FirstIsUnknown(t: seq<Slot>)
    requires |t| == TRACK && forall k :: 0 <= k < TRACK ==> t[k].addr != 1
    ensures RateOk(t, 1, 100).0
  {
    FindIs(t, 1, TRACK);
  }

  /** s_dm_rehs. */
  class Limiter {
    const slots: array<Slot>

    ghost predicate Valid()
      reads this
    {
      slots.Length == TRACK
    }

    constructor ()
      ensures Valid() && fresh(slots) && slots[..] == Empty().t
    {
      slots := new Slot[TRACK](i => Slot(0, 0));
    }

    /** The scan: the peer's slot, or the one a new peer takes. */
    method Scan(peer: nat) returns (at: nat, slot: nat)
      requires Valid()
      ensures at == Find(slots[..], peer, 0) && (at == TRACK ==> slot == Victim(slots[..]))
    {
      var free, oldest := TRACK, 0;
      at := 0;
      while at < TRACK && slots[at].addr != peer
        invariant at <= TRACK
        invariant Find(slots[..], peer, 0) == Find(slots[..], peer, at)
        invariant Find(slots[..], 0, 0) == if free == TRACK then Find(slots[..], 0, at) else free
        invariant oldest == Oldest(slots[..], at)
      {
        if slots[at].addr == 0 && free == TRACK {
          free := at;
        }
        if slots[at].last < slots[oldest].last {
          oldest := at;
        }
        at := at + 1;
      }
      slot := if free < TRACK then free else oldest;
    }

    method Allow(peer: nat, now: nat) returns (ok: bool)
      requires Valid()
      modifies slots
      ensures (ok, slots[..]) == RateOk(old(slots[..]), peer, now)
    {
      var at, slot := Scan(peer);
      if at < TRACK {
        if (now - slots[at].last) % WRAP < MIN_INTERVAL_MS {
          return false;
        }
        slot := at;
      }
      slots[slot] := Slot(peer, now);
      ok := true;
    }
  }
}
