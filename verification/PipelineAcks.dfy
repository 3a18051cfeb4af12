/**
 * The pending-ACK table: what a retry tick, a route error and an ACK do to it
 * and to the rows, entry by entry, and what it keeps over every run: one entry
 * per packet id, none for a delivered row, and no frame given up by the tick
 * before its tries are spent.
 */
module PipelineAcks {
  import opened Basics
  import opened Bits
  import opened MsgStore
  import opened Pipeline
  import I = PipelineInvariant

  // ------------------------------------------------------- the retry tick

  predicate DueNow(a: Ack, now: nat) { a.active && a.retryAt <= now }

  predicate OutOfTries(a: Ack, now: nat) { DueNow(a, now) && a.attempt >= a.limit && a.pkt != 0 }

  predicate GoesAgain(a: Ack, now: nat, k: Tick) { DueNow(a, now) && a.attempt < a.limit && k.txOk }

  /** The packets of the entries from n on that are due and out of tries. */
  function Spent(acks: seq<Ack>, now: nat, n: nat): set<nat> {
    set i | n <= i < |acks| && OutOfTries(acks[i], now) :: acks[i].pkt
  }

  /** ... that are due, have tries left, and whose frame the radio takes. */
  function Resent(acks: seq<Ack>, now: nat, n: nat, ticks: seq<Tick>): set<nat> {
    set i | n <= i < |acks| && GoesAgain(acks[i], now, TickAt(ticks, i)) :: acks[i].pkt
  }

  /** What a tick makes of one entry. */
  predicate Ticked(a: Ack, a': Ack, now: nat, rnd: nat) {
    if !DueNow(a, now) then a' == a
    else if a.attempt < a.limit then
      a' == a.(attempt := a.attempt + 1, retryAt := (now + Backoff(a.limit, a.attempt + 1, rnd)) % WRAP)
    else a' == a.(active := false)
  }

  /** What failing packets does to the rows: only theirs may change, to FAILED,
      parked ones excepted, and the newest of each does. */
  predicate FailsRows(rows: seq<Row>, rows': seq<Row>, pkts: set<nat>) {
    && |rows'| == |rows|
    && (forall k :: 0 <= k < |rows| ==>
          rows'[k] == rows[k] || (rows[k].pkt in pkts && rows[k].status != Queued && rows'[k] == rows[k].(status := Failed)))
    && (forall k :: 0 <= k < |rows| && rows[k].pkt in pkts && FindPkt(rows, rows[k].pkt) == k ==>
          rows'[k].status == Failed || rows'[k].status == Queued)
  }

  lemma GiveUpRows(s: State, i: nat)
    requires Shape(s) && i < SLOTS
    ensures var s' := GiveUpFrame(s, i);
      && FailsRows(s.store, s'.store, if s.acks[i].pkt != 0 then {s.acks[i].pkt} else {})
      && s'.acks == s.acks[i := s.acks[i].(active := false)] && s'.log == s.log && s'.nextPkt == s.nextPkt
  {
  }

  lemma {:induction false} FindPktIs(rows: seq<Row>, p: nat, i: int)
    requires -1 <= i < |rows| && (i >= 0 ==> rows[i].pkt == p) && forall k :: i < k < |rows| ==> rows[k].pkt != p
    ensures FindPkt(rows, p) == i
  {
  }

  lemma SamePkts(rows: seq<Row>, rows': seq<Row>, p: nat)
    requires |rows| == |rows'| && forall k :: 0 <= k < |rows| ==> rows[k].pkt == rows'[k].pkt
    ensures FindPkt(rows, p) == FindPkt(rows', p)
  {
    FindPktIs(rows', p, FindPkt(rows, p));
  }

  lemma FailsMore(a: seq<Row>, b: seq<Row>, c: seq<Row>, f: set<nat>, g: set<nat>)
    requires FailsRows(a, b, f) && FailsRows(b, c, g)
    ensures FailsRows(a, c, f + g)
  {
    forall k | 0 <= k < |a| && a[k].pkt in f + g && FindPkt(a, a[k].pkt) == k ensures c[k].status == Failed || c[k].status == Queued {
      SamePkts(a, b, a[k].pkt);
    }
  }

  lemma TickSlotLaw(s: State, now: nat, i: nat, k: Tick)
    requires Shape(s) && i < SLOTS
    ensures var s', a := TickSlot(s, now, i, k), s.acks[i];
      && s'.acks == s.acks[i := s'.acks[i]] && Ticked(a, s'.acks[i], now, k.rnd) && s'.nextPkt == s.nextPkt
      && FailsRows(s.store, s'.store, if OutOfTries(a, now) then {a.pkt} else {})
      && s'.log == s.log + (if GoesAgain(a, now, k) then [Retransmitted(a.pkt)] else [])
  {
    GiveUpRows(s, i);
  }

  lemma SpentSplits(acks: seq<Ack>, acks': seq<Ack>, now: nat, i: nat)
    requires i < |acks| == |acks'| && acks' == acks[i := acks'[i]]
    ensures Spent(acks, now, i) == (if OutOfTries(acks[i], now) then {acks[i].pkt} else {}) + Spent(acks', now, i + 1)
  {
    hide OutOfTries;
    assert forall k :: i < k < |acks| ==> acks'[k] == acks[k];
  }

  lemma ResentSplits(acks: seq<Ack>, acks': seq<Ack>, now: nat, i: nat, ticks: seq<Tick>)
    requires i < |acks| == |acks'| && acks' == acks[i := acks'[i]]
    ensures Resent(acks, now, i, ticks) ==
      (if GoesAgain(acks[i], now, TickAt(ticks, i)) then {acks[i].pkt} else {}) + Resent(acks', now, i + 1, ticks)
  {
    hide GoesAgain;
    assert forall k :: i < k < |acks| ==> acks'[k] == acks[k];
  }

  /** What is new in the log since then. */
  function Since(old_: seq<Event>, log: seq<Event>): seq<Event>
    requires old_ <= log
  {
    log[|old_|..]
  }

  /** The tick from entry i on. */
  ghost predicate TickedFrom(s: State, s': State, now: nat, i: nat, ticks: seq<Tick>) {
    && |s'.acks| == |s.acks| && s'.nextPkt == s.nextPkt && s.log <= s'.log
    && (forall k :: 0 <= k < |s.acks| ==> if k < i then s'.acks[k] == s.acks[k] else Ticked(s.acks[k], s'.acks[k], now, TickAt(ticks, k).rnd))
    && FailsRows(s.store, s'.store, Spent(s.acks, now, i))
    && (forall e :: e in Since(s.log, s'.log) <==> e.Retransmitted? && e.pkt in Resent(s.acks, now, i, ticks))
  }

  lemma {:induction false} TickFromLaw(s: State, now: nat, i: nat, ticks: seq<Tick>)
    requires Shape(s) && i <= SLOTS
    ensures TickedFrom(s, AckTick(s, now, i, ticks), now, i, ticks)
    decreases SLOTS - i
  {
    hide TickSlot;
    if i < SLOTS {
      TickSlotLaw(s, now, i, TickAt(ticks, i));
      var t := TickSlot(s, now, i, TickAt(ticks, i));
      TickFromLaw(t, now, i + 1, ticks);
      TickFromStep(s, t, AckTick(s, now, i, ticks), now, i, ticks);
    }
  }

  lemma TickFromStep(s: State, t: State, u: State, now: nat, i: nat, ticks: seq<Tick>)
    requires Shape(s) && i < SLOTS && Shape(t) && TickedFrom(t, u, now, i + 1, ticks)
    requires var a := s.acks[i];
      && t.acks == s.acks[i := t.acks[i]] && Ticked(a, t.acks[i], now, TickAt(ticks, i).rnd) && t.nextPkt == s.nextPkt
      && FailsRows(s.store, t.store, if OutOfTries(a, now) then {a.pkt} else {})
      && t.log == s.log + (if GoesAgain(a, now, TickAt(ticks, i)) then [Retransmitted(a.pkt)] else [])
    ensures TickedFrom(s, u, now, i, ticks)
  {
    hide FailsRows, Spent, Resent, OutOfTries, GoesAgain;
    var a := s.acks[i];
    SpentSplits(s.acks, t.acks, now, i);
    FailsMore(s.store, t.store, u.store, if OutOfTries(a, now) then {a.pkt} else {}, Spent(t.acks, now, i + 1));
    ResentSplits(s.acks, t.acks, now, i, ticks);
    assert Since(s.log, u.log) == Since(s.log, t.log) + Since(t.log, u.log);
  }

  /** The deadline is the tier's delay, doubled with each try, give or take a quarter, away. */
  ghost predicate Waits(limit: nat, attempt: nat, now: nat, retryAt: nat) {
    exists d: nat :: retryAt == (now + d) % WRAP && LongEnough(limit, attempt, d)
  }

  predicate LongEnough(limit: nat, attempt: nat, d: nat) {
    var base := if limit == KE_TRIES then KE_DELAY_MS else DM_DELAY_MS;
    3 * base * Pow2(attempt) <= 4 * d && 4 * d <= 5 * base * Pow2(attempt)
  }

  lemma BackoffWaits(limit: nat, attempt: nat, rnd: nat, now: nat)
    ensures Waits(limit, attempt, now, (now + Backoff(limit, attempt, rnd)) % WRAP)
  {
    assert LongEnough(limit, attempt, Backoff(limit, attempt, rnd));
  }

  /** A retry tick, whatever the table holds: an entry that is not due is left
      alone; a due one with tries left stays, one try further, and its frame
      goes out again exactly if the radio takes it; a due one without is given
      up and its row failed. Nothing else changes. */
  lemma TickLaw(s: State, now: nat, ticks: seq<Tick>)
    requires Shape(s)
    ensures var s' := Do(s, AckTickStep(now, ticks));
      && s.log <= s'.log && |s'.acks| == SLOTS && s'.nextPkt == s.nextPkt
      && (forall i :: 0 <= i < SLOTS && !DueNow(s.acks[i], now) ==> s'.acks[i] == s.acks[i])
      && (forall i :: 0 <= i < SLOTS && DueNow(s.acks[i], now) && s.acks[i].attempt < s.acks[i].limit ==>
            && s'.acks[i] == s.acks[i].(attempt := s.acks[i].attempt + 1, retryAt := s'.acks[i].retryAt)
            && Waits(s.acks[i].limit, s.acks[i].attempt + 1, now, s'.acks[i].retryAt))
      && (forall i :: 0 <= i < SLOTS && DueNow(s.acks[i], now) && s.acks[i].attempt >= s.acks[i].limit ==> !s'.acks[i].active)
      && (forall e :: e in Since(s.log, s'.log) <==> e.Retransmitted? && e.pkt in Resent(s.acks, now, 0, ticks))
      && FailsRows(s.store, s'.store, Spent(s.acks, now, 0))
  {
    hide FailsRows, AckTick, Waits;
    TickFromLaw(s, now, 0, ticks);
    forall i | 0 <= i < SLOTS ensures Waits(s.acks[i].limit, s.acks[i].attempt + 1, now, (now + Backoff(s.acks[i].limit, s.acks[i].attempt + 1, TickAt(ticks, i).rnd)) % WRAP) {
      BackoffWaits(s.acks[i].limit, s.acks[i].attempt + 1, TickAt(ticks, i).rnd, now);
    }
  }

  // ------------------------------------------------------ the route error

  predicate BoundFor(a: Ack, dest: nat) { a.active && a.dest == dest }

  /** The packets of the entries from n on that wait for the destination's ACK. */
  function Towards(acks: seq<Ack>, n: nat, dest: nat): set<nat> {
    set i | n <= i < |acks| && BoundFor(acks[i], dest) && acks[i].pkt != 0 :: acks[i].pkt
  }

  predicate FailedFrom(s: State, s': State, dest: nat, i: nat) {
    && |s'.acks| == |s.acks| && s'.nextPkt == s.nextPkt && s'.log == s.log
    && (forall k :: 0 <= k < |s.acks| ==>
          s'.acks[k] == if k >= i && BoundFor(s.acks[k], dest) then s.acks[k].(active := false) else s.acks[k])
    && FailsRows(s.store, s'.store, Towards(s.acks, i, dest))
  }

  lemma {:induction false} FailFromLaw(s: State, dest: nat, i: nat)
    requires Shape(s) && i <= SLOTS
    ensures FailedFrom(s, FailFast(s, dest, i), dest, i)
    decreases SLOTS - i
  {
    hide GiveUpFrame, FailsRows;
    if i == SLOTS {
      FailsNone(s.store);
      assert Towards(s.acks, i, dest) == {};
    } else {
      var t := if BoundFor(s.acks[i], dest) then GiveUpFrame(s, i) else s;
      GiveUpRows(s, i);
      FailsNone(s.store);
      FailFromLaw(t, dest, i + 1);
      TowardsSplits(s.acks, t.acks, i, dest);
      FailsMore(s.store, t.store, FailFast(s, dest, i).store,
                if BoundFor(s.acks[i], dest) && s.acks[i].pkt != 0 then {s.acks[i].pkt} else {}, Towards(t.acks, i + 1, dest));
    }
  }

  lemma FailsNone(rows: seq<Row>)
    ensures FailsRows(rows, rows, {})
  {
  }

  lemma TowardsSplits(acks: seq<Ack>, acks': seq<Ack>, i: nat, dest: nat)
    requires i < |acks| == |acks'| && acks' == acks[i := acks'[i]]
    ensures Towards(acks, i, dest) ==
      (if BoundFor(acks[i], dest) && acks[i].pkt != 0 then {acks[i].pkt} else {}) + Towards(acks', i + 1, dest)
  {
    hide BoundFor;
    assert forall k :: i < k < |acks| ==> acks'[k] == acks[k];
  }

  /** Every wait between three quarters and five quarters of the doubled delay is drawn, and no other. */
  lemma BackoffSpread(limit: nat, attempt: nat, wait: nat)
    ensures var d := (if limit == 8 then 3000 else 2000) * Pow2(attempt);
      d - d / 4 <= wait <= d + d / 4 <==> exists rnd :: Backoff(limit, attempt, rnd) == wait
  {
    var d := (if limit == 8 then 3000 else 2000) * Pow2(attempt);
    if d - d / 4 <= wait <= d + d / 4 {
      BackoffDraws(limit, attempt, d, wait);
      hide Backoff;
      assert Backoff(limit, attempt, wait - (d - d / 4)) == wait;
    }
  }

  lemma BackoffDraws(limit: nat, attempt: nat, d: nat, wait: nat)
    requires d == (if limit == KE_TRIES then KE_DELAY_MS else DM_DELAY_MS) * Pow2(attempt) && d - d / 4 <= wait <= d + d / 4
    ensures Backoff(limit, attempt, wait - (d - d / 4)) == wait
  {
    hide Pow2;
    Remainder(wait - (d - d / 4), 2 * (d / 4) + 1);
  }

  lemma Remainder(x: nat, n: nat)
    requires x < n
    ensures x % n == x
  {
  }

  /** A route error: afterwards no frame for the destination is pending, every
      other entry is as it was, and the rows of those frames are failed. */
  lemma RouteErrorLaw(s: State, dest: nat)
    requires Shape(s)
    ensures var s' := Do(s, RouteErrorStep(dest));
      && |s'.acks| == SLOTS && s'.log == s.log && s'.nextPkt == s.nextPkt
      && (forall i :: 0 <= i < SLOTS && s.acks[i].active && s.acks[i].dest == dest ==> s'.acks[i] == s.acks[i].(active := false))
      && (forall i :: 0 <= i < SLOTS && !(s.acks[i].active && s.acks[i].dest == dest) ==> s'.acks[i] == s.acks[i])
      && FailsRows(s.store, s'.store, Towards(s.acks, 0, dest))
  {
    hide FailsRows, FailFast;
    FailFromLaw(s, dest, 0);
  }

  // --------------------------------- what every other step does to the table

  predicate PktsBelow(s: State) {
    0 < s.nextPkt && forall i :: 0 <= i < |s.acks| && s.acks[i].active ==> 0 < s.acks[i].pkt < s.nextPkt
  }

  /** The frame the entry tracks was put on the air, a DM with its three tries. */
  ghost predicate FrameOf(log: seq<Event>, a: Ack) {
    || (a.limit == DM_TRIES && a.uid != 0 && exists x :: Transmitted(a.uid, a.pkt, a.dest, x) in log)
    || (a.uid == 0 && OtherSent(a.pkt, a.dest) in log)
  }

  /** An entry made on the way from s to s'. */
  ghost predicate New(s: State, s': State, a: Ack) {
    s.nextPkt <= a.pkt < s'.nextPkt && a.attempt == 0 && FrameOf(s'.log, a)
  }

  /** Entries are kept, dropped or new, new ones under new and different packet
      ids, and no row becomes DELIVERED. */
  ghost predicate Grown(s: State, s': State) {
    && |s'.acks| == |s.acks| && s.nextPkt <= s'.nextPkt && s.log <= s'.log
    && (forall i :: 0 <= i < |s.acks| && s'.acks[i].active ==> s'.acks[i] == s.acks[i] || New(s, s', s'.acks[i]))
    && (forall i, j :: 0 <= i < j < |s.acks| && s'.acks[i].active && s'.acks[j].active && s.nextPkt <= s'.acks[i].pkt ==>
          s'.acks[i].pkt != s'.acks[j].pkt)
    && NoneDelivered(s.store, s'.store)
  }

  predicate NoneDelivered(rows: seq<Row>, rows': seq<Row>) {
    forall m' :: m' in rows' && m'.status == Delivered ==> m' in rows
  }

  lemma GrownBelow(s: State, s': State)
    requires PktsBelow(s) && Grown(s, s')
    ensures PktsBelow(s')
  {
  }

  lemma GrownTrans(s: State, t: State, u: State)
    requires PktsBelow(s) && Grown(s, t) && Grown(t, u)
    ensures Grown(s, u)
  {
    GrownBelow(s, t);
    forall i | 0 <= i < |s.acks| && u.acks[i].active ensures u.acks[i] == s.acks[i] || New(s, u, u.acks[i]) {
      if u.acks[i] == t.acks[i] && t.acks[i] != s.acks[i] { FrameStays(t.log, u.log, t.acks[i]); }
    }
    forall i, j | 0 <= i < j < |s.acks| && u.acks[i].active && u.acks[j].active && s.nextPkt <= u.acks[i].pkt ensures u.acks[i].pkt != u.acks[j].pkt {
    }
  }

  lemma FrameStays(log: seq<Event>, log': seq<Event>, a: Ack)
    requires log <= log' && FrameOf(log, a)
    ensures FrameOf(log', a)
  {
    if a.uid == 0 && OtherSent(a.pkt, a.dest) in log {
      assert OtherSent(a.pkt, a.dest) in log';
    } else {
      var x :| Transmitted(a.uid, a.pkt, a.dest, x) in log;
      assert Transmitted(a.uid, a.pkt, a.dest, x) in log';
    }
  }

  /** Nothing happens to the table or the ids. */
  predicate Aside(s: State, s': State) {
    s'.acks == s.acks && s.nextPkt <= s'.nextPkt && s.log <= s'.log && NoneDelivered(s.store, s'.store)
  }

  lemma AsideGrown(s: State, s': State)
    requires PktsBelow(s) && Aside(s, s')
    ensures Grown(s, s')
  {
  }

  lemma AsideTrans(s: State, t: State, u: State)
    requires Aside(s, t) && Aside(t, u)
    ensures Aside(s, u)
  {
  }

  lemma ByUidNone(rows: seq<Row>, uid: nat, pkt: nat, st: Status)
    requires st != Delivered
    ensures NoneDelivered(rows, UpdateByUid(rows, uid, pkt, st).0)
  {
    var i := FindUid(rows, uid);
    if uid != 0 && i >= 0 {
      var rows' := UpdateByUid(rows, uid, pkt, st).0;
      forall m | m in rows' && m.status == Delivered ensures m in rows {
        var k :| 0 <= k < |rows'| && rows'[k] == m;
        assert k != i && rows[k] == m;
      }
    }
  }

  lemma FailReportAside(s: State, uid: nat)
    ensures Aside(s, FailReport(s, uid))
  {
    hide UpdateByUid;
    ByUidNone(s.store, uid, 0, Failed);
  }

  lemma AddRowAside(s: State, row: Row)
    requires Shape(s) && row.status != Delivered
    ensures Aside(s, AddRow(s, row))
  {
  }

  lemma StampSentAside(s: State, uid: nat, pkt: nat, dest: nat, data: seq<char>, nowS: nat)
    requires Shape(s)
    ensures Aside(s, StampSent(s, uid, pkt, dest, data, nowS))
  {
    hide UpdateByUid;
    ByUidNone(s.store, uid, pkt, Sent);
  }

  lemma AckAddNew(s: State, dest: nat, uid: nat, limit: nat, retryAt: nat, i: nat)
    requires PktsBelow(s) && i < |s.acks|
    ensures var acks := AckAdd(s.acks, s.nextPkt, dest, uid, limit, retryAt);
      acks[i] == s.acks[i] || acks[i] == Ack(true, s.nextPkt, dest, uid, 0, limit, retryAt)
    ensures var acks := AckAdd(s.acks, s.nextPkt, dest, uid, limit, retryAt);
      acks[i].active && acks[i].pkt == s.nextPkt ==> i == FreeAck(s.acks, 0)
  {
  }

  lemma TransmitGrown(s: State, uid: nat, dest: nat, data: seq<char>, now: nat)
    requires PktsBelow(s) && uid != 0
    ensures Grown(s, Transmit(s, uid, dest, data, now))
  {
    hide AckAdd;
    var s', e := Transmit(s, uid, dest, data, now), Transmitted(uid, s.nextPkt, dest, data);
    assert s'.log[|s.log|] == e;
    forall i | 0 <= i < |s.acks| ensures s'.acks[i].active ==> s'.acks[i] == s.acks[i] || New(s, s', s'.acks[i]) {
      AckAddNew(s, dest, uid, DM_TRIES, (now + DM_DELAY_MS) % WRAP, i);
    }
    forall i, j | 0 <= i < j < |s.acks| && s'.acks[i].active && s'.acks[j].active && s.nextPkt <= s'.acks[i].pkt ensures s'.acks[i].pkt != s'.acks[j].pkt {
      AckAddNew(s, dest, uid, DM_TRIES, (now + DM_DELAY_MS) % WRAP, i);
      AckAddNew(s, dest, uid, DM_TRIES, (now + DM_DELAY_MS) % WRAP, j);
    }
  }

  lemma TransmitOtherGrown(s: State, dest: nat, limit: nat, retryAt: nat)
    requires PktsBelow(s)
    ensures Grown(s, TransmitOther(s, dest, limit, retryAt))
  {
    hide AckAdd;
    var s' := TransmitOther(s, dest, limit, retryAt);
    assert s'.log[|s.log|] == OtherSent(s.nextPkt, dest);
    forall i | 0 <= i < |s.acks| ensures s'.acks[i].active ==> s'.acks[i] == s.acks[i] || New(s, s', s'.acks[i]) {
      AckAddNew(s, dest, 0, limit, retryAt, i);
    }
    forall i, j | 0 <= i < j < |s.acks| && s'.acks[i].active && s'.acks[j].active && s.nextPkt <= s'.acks[i].pkt ensures s'.acks[i].pkt != s'.acks[j].pkt {
      AckAddNew(s, dest, 0, limit, retryAt, i);
      AckAddNew(s, dest, 0, limit, retryAt, j);
    }
  }

  /** A DM frame sent, and its row stamped. */
  lemma LaunchGrown(s: State, uid: nat, dest: nat, data: seq<char>, now: nat, pkt: nat, nowS: nat)
    requires PktsBelow(s) && Shape(s) && uid != 0
    ensures Grown(s, StampSent(Transmit(s, uid, dest, data, now), uid, pkt, dest, data, nowS))
  {
    hide Transmit, StampSent, Grown, Aside;
    TransmitGrown(s, uid, dest, data, now);
    var t := Transmit(s, uid, dest, data, now);
    GrownBelow(s, t);
    TransmitShape(s, uid, dest, data, now);
    StampSentAside(t, uid, pkt, dest, data, nowS);
    AsideGrown(t, StampSent(t, uid, pkt, dest, data, nowS));
    GrownTrans(s, t, StampSent(t, uid, pkt, dest, data, nowS));
  }

  lemma TransmitShape(s: State, uid: nat, dest: nat, data: seq<char>, now: nat)
    requires Shape(s)
    ensures Shape(Transmit(s, uid, dest, data, now))
  {
  }

  lemma LaunchShape(s: State, uid: nat, dest: nat, data: seq<char>, now: nat, pkt: nat, nowS: nat)
    requires Shape(s)
    ensures Shape(Transmit(s, uid, dest, data, now)) && Shape(StampSent(Transmit(s, uid, dest, data, now), uid, pkt, dest, data, nowS))
  {
  }

  lemma FailShape(s: State, uid: nat)
    requires Shape(s)
    ensures Shape(FailReport(s, uid))
  {
  }

  lemma MakeRoomAside(s: State)
    requires Shape(s)
    ensures Aside(s, MakeRoom(s).0)
  {
    hide FailReport;
    var o := OldestSession(s.queue, SLOTS);
    if o < SLOTS { FailReportAside(s, s.queue[o].uid); }
  }

  lemma QueueSessionAside(s: State, dest: nat, data: seq<char>, uid: nat, now: nat)
    requires Shape(s)
    ensures Aside(s, QueueSession(s, dest, data, uid, now).0)
  {
    hide MakeRoom;
    MakeRoomAside(s);
  }

  lemma SendActiveGrown(s: State, dest: nat, data: seq<char>, uid: nat, env: Env)
    requires Shape(s) && PktsBelow(s)
    ensures Grown(s, SendActive(s, dest, data, uid, env).0)
  {
    hide FailReport, StampSent, Transmit, Grown;
    if !env.txOk {
      FailReportAside(s.(nextPkt := s.nextPkt + 1), uid);
      AsideGrown(s, SendActive(s, dest, data, uid, env).0);
    } else {
      var u := if uid != 0 then uid else s.nextUid;
      var s1 := if uid != 0 then s else Register(s, dest, data);
      AsideGrown(s, s1);
      LaunchGrown(s1, u, dest, data, env.now, s.nextPkt, env.nowS);
      GrownTrans(s, s1, SendActive(s, dest, data, uid, env).0);
    }
  }

  lemma SendWaitingGrown(s: State, dest: nat, data: seq<char>, uid: nat, env: Env)
    requires Shape(s) && PktsBelow(s)
    ensures Grown(s, SendWaiting(s, dest, data, uid, env).0)
  {
    hide FailReport, QueueSession, TransmitOther, Grown, AddRow;
    var u := if uid != 0 then uid else s.nextUid;
    var s1 := if uid != 0 then s else Register(s, dest, data);
    var q := QueueSession(s1, dest, data, u, env.now);
    QueueSessionAside(s1, dest, data, u, env.now);
    AsideTrans(s, s1, q.0);
    AsideGrown(s, q.0);
    GrownBelow(s, q.0);
    FailReportAside(q.0, uid);
    AsideTrans(s, q.0, FailReport(q.0, uid));
    AsideGrown(s, FailReport(q.0, uid));
    var t := if env.initTx then TransmitOther(q.0, dest, KE_TRIES, (env.now + KE_DELAY_MS) % WRAP) else q.0;
    if env.initTx {
      TransmitOtherGrown(q.0, dest, KE_TRIES, (env.now + KE_DELAY_MS) % WRAP);
      GrownTrans(s, q.0, t);
    }
    OtherShape(q.0, dest, KE_TRIES, (env.now + KE_DELAY_MS) % WRAP);
    GrownBelow(s, t);
    var row := Row(dest, u, true, true, NoStatus, 0, env.nowS, Clip(data));
    AddRowAside(t, row);
    AsideGrown(t, AddRow(t, row));
    GrownTrans(s, t, AddRow(t, row));
  }

  lemma OtherShape(s: State, dest: nat, limit: nat, retryAt: nat)
    requires Shape(s)
    ensures Shape(TransmitOther(s, dest, limit, retryAt))
  {
  }

  lemma SendUnroutedGrown(s: State, dest: nat, data: seq<char>, uid: nat, env: Env)
    requires Shape(s) && PktsBelow(s)
    ensures Grown(s, SendUnrouted(s, dest, data, uid, env).0)
  {
    hide FailReport, AddRow, Grown;
    var u := if uid != 0 then uid else s.nextUid;
    var s1 := if uid != 0 then s else Register(s, dest, data);
    var q := QueueMessage(s1, dest, data, u, env.now);
    assert Aside(s, q.0);
    FailReportAside(q.0, uid);
    AddRowAside(q.0, Row(dest, u, true, true, NoStatus, 0, env.nowS, Clip(data)));
    AsideTrans(s, q.0, SendUnrouted(s, dest, data, uid, env).0);
    AsideGrown(s, SendUnrouted(s, dest, data, uid, env).0);
  }

  lemma SendGrown(s: State, dest: nat, data: seq<char>, uid: nat, env: Env)
    requires Shape(s) && PktsBelow(s)
    ensures Grown(s, Send(s, dest, data, uid, env).0)
  {
    hide FailReport, SendActive, SendWaiting, SendUnrouted, Grown, PktsBelow;
    FailReportAside(s, uid);
    AsideGrown(s, FailReport(s, uid));
    SendActiveGrown(s, dest, data, uid, env);
    SendWaitingGrown(s, dest, data, uid, env);
    SendUnroutedGrown(s, dest, data, uid, env);
  }

  lemma DrainSlotGrown(s: State, dest: nat, i: nat, env: Env)
    requires Shape(s) && PktsBelow(s) && i < SLOTS
    ensures Grown(s, DrainSlot(s, dest, i, env))
  {
    hide Send, Grown;
    var b, e := Blank(s, i), s.queue[i];
    AsideGrown(s, s);
    AsideGrown(s, b);
    SendGrown(b, dest, e.data, e.uid, env);
    var t := Send(b, dest, e.data, e.uid, env).0;
    GrownTrans(s, b, t);
    GrownBelow(s, t);
    AsideGrown(t, Release(t, i));
    GrownTrans(s, t, Release(t, i));
  }

  lemma {:induction false} DrainGrown(s: State, dest: nat, i: nat, envs: seq<Env>)
    requires Shape(s) && PktsBelow(s) && i <= SLOTS
    ensures Grown(s, Drain(s, dest, i, envs))
    decreases SLOTS - i
  {
    hide DrainSlot, Grown;
    AsideGrown(s, s);
    if i < SLOTS {
      var t := DrainSlot(s, dest, i, At(envs, i));
      DrainSlotGrown(s, dest, i, At(envs, i));
      GrownBelow(s, t);
      DrainGrown(t, dest, i + 1, envs);
      GrownTrans(s, t, Drain(s, dest, i, envs));
    }
  }

  lemma SessionSlotGrown(s: State, dest: nat, i: nat, env: Env)
    requires Shape(s) && PktsBelow(s) && i < SLOTS && (s.queue[i].used ==> s.queue[i].uid != 0)
    ensures Grown(s, SessionSlot(s, dest, i, env))
  {
    hide StampSent, Transmit, FailReport, Grown;
    AsideGrown(s, s);
    var e := s.queue[i];
    if e.used && e.reason == Session && e.dest == dest {
      var fail := FailReport(if env.session == Active then s.(nextPkt := s.nextPkt + 1) else s, e.uid);
      FailReportAside(if env.session == Active then s.(nextPkt := s.nextPkt + 1) else s, e.uid);
      AsideGrown(s, fail);
      LaunchGrown(s, e.uid, dest, e.data, env.now, s.nextPkt, env.nowS);
      LaunchShape(s, e.uid, dest, e.data, env.now, s.nextPkt, env.nowS);
      FailShape(if env.session == Active then s.(nextPkt := s.nextPkt + 1) else s, e.uid);
      var sent := StampSent(Transmit(s, e.uid, dest, e.data, env.now), e.uid, s.nextPkt, dest, e.data, env.nowS);
      var t := if env.session == Active && env.txOk then sent else fail;
      GrownBelow(s, t);
      AsideGrown(t, Release(t, i));
      GrownTrans(s, t, Release(t, i));
    }
  }

  lemma {:induction false} SessionFlushGrown(w: I.Since, s: State, dest: nat, i: nat, envs: seq<Env>)
    requires I.Inv(w, s) && PktsBelow(s) && i <= SLOTS
    ensures Grown(s, SessionFlush(s, dest, i, envs))
    decreases SLOTS - i
  {
    hide SessionSlot, Grown, I.Inv;
    I.ShapeOf(w, s);
    AsideGrown(s, s);
    if i < SLOTS {
      var t := SessionSlot(s, dest, i, At(envs, i));
      UidsOf(w, s);
      SessionSlotGrown(s, dest, i, At(envs, i));
      I.SessionSlotKeeps(w, s, dest, i, At(envs, i));
      GrownBelow(s, t);
      SessionFlushGrown(w, t, dest, i + 1, envs);
      GrownTrans(s, t, SessionFlush(s, dest, i, envs));
    }
  }

  lemma UidsOf(w: I.Since, s: State)
    requires I.Inv(w, s)
    ensures forall i :: 0 <= i < |s.queue| && s.queue[i].used ==> s.queue[i].uid != 0
  {
  }

  lemma DropAside(s: State, i: nat)
    requires Shape(s) && i < SLOTS
    ensures Aside(s, Drop(s, i))
  {
    hide FailReport;
    FailReportAside(s, s.queue[i].uid);
  }

  lemma {:induction false} ReapAside(s: State, now: nat, i: nat)
    requires Shape(s) && i <= SLOTS
    ensures Aside(s, Reap(s, now, i))
    decreases SLOTS - i
  {
    hide Drop;
    if i < SLOTS {
      var t := if Overdue(s.queue[i], now) then Drop(s, i) else s;
      DropAside(s, i);
      ReapAside(t, now, i + 1);
      AsideTrans(s, t, Reap(s, now, i));
    }
  }

  lemma {:induction false} GiveUpAside(s: State, dest: nat, i: nat)
    requires Shape(s) && i <= SLOTS
    ensures Aside(s, GiveUp(s, dest, i))
    decreases SLOTS - i
  {
    hide Drop;
    if i < SLOTS {
      var e := s.queue[i];
      var t := if e.used && e.reason == Route && e.dest == dest then Drop(s, i) else s;
      DropAside(s, i);
      GiveUpAside(t, dest, i + 1);
      AsideTrans(s, t, GiveUp(s, dest, i));
    }
  }

  lemma FlushRowGrown(s: State, uid: nat, env: Env)
    requires Shape(s) && PktsBelow(s)
    ensures Grown(s, FlushRow(s, uid, env))
  {
    hide Send, Grown;
    AsideGrown(s, s);
    var i := FindUid(s.store, uid);
    if i >= 0 { SendGrown(s, s.store[i].peer, s.store[i].text, uid, env); }
  }

  lemma {:induction false} FlushRowsGrown(s: State, uids: seq<nat>, envs: seq<Env>)
    requires Shape(s) && PktsBelow(s)
    ensures Grown(s, FlushRows(s, uids, envs))
    decreases |uids|
  {
    hide FlushRow, Grown;
    AsideGrown(s, s);
    if uids != [] {
      var t := FlushRow(s, uids[0], At(envs, 0));
      FlushRowGrown(s, uids[0], At(envs, 0));
      GrownBelow(s, t);
      FlushRowsGrown(t, uids[1..], if envs == [] then [] else envs[1..]);
      GrownTrans(s, t, FlushRows(s, uids, envs));
    }
  }

  lemma RetryGrown(s: State, uid: nat, env: Env)
    requires Shape(s) && PktsBelow(s)
    ensures Grown(s, Retry(s, uid, env))
  {
    hide Send, Grown;
    AsideGrown(s, s);
    var i := FindUid(s.store, uid);
    if i >= 0 { SendGrown(s, s.store[i].peer, s.store[i].text, uid, env); }
  }

  lemma RestatusAside(s: State, rows: seq<Row>)
    requires NoneDelivered(s.store, rows)
    ensures Aside(s, s.(store := rows))
  {
  }

  lemma UnparkNone(rows: seq<Row>, uid: nat)
    ensures NoneDelivered(rows, Unpark(rows, uid).0)
  {
    var rows' := Unpark(rows, uid).0;
    forall m | m in rows' && m.status == Delivered ensures m in rows {
      var k :| 0 <= k < |rows'| && rows'[k] == m;
      assert rows[k] == m;
    }
  }

  lemma ReceiveAside(s: State, peer: nat, text: seq<char>, nowS: nat)
    requires Shape(s)
    ensures Aside(s, Receive(s, peer, text, nowS))
  {
  }

  predicate Settles(step: Step) { step.AckTickStep? || step.RouteErrorStep? || step.AckStep? }

  lemma DoGrown(w: I.Since, s: State, step: Step)
    requires I.Inv(w, s) && Shape(s) && PktsBelow(s) && !Settles(step)
    ensures Grown(s, Do(s, step))
  {
    hide I.Inv, Grown, PktsBelow, Send, Retry, Drain, SessionFlush, Reap, GiveUp, FlushRows, Receive, TransmitOther, UpdateByUid, Unpark, Expire;
    AsideGrown(s, s);
    match step
    case SubmitStep(dest, data, env) => SendGrown(s, dest, data, 0, env);
    case RetryStep(uid, env) => RetryGrown(s, uid, env);
    case RouteFoundStep(dest, envs) => DrainGrown(s, dest, 0, envs);
    case SessionUpStep(dest, envs) => SessionFlushGrown(w, s, dest, 0, envs);
    case ReapStep(now) => ReapAside(s, now, 0); AsideGrown(s, Do(s, step));
    case GiveUpStep(dest) => GiveUpAside(s, dest, 0); AsideGrown(s, Do(s, step));
    case ParkStep(uid, nowS) => ByUidNone(s.store, uid, 0, Queued); RestatusAside(s, UpdateByUid(s.store, uid, 0, Queued).0); AsideGrown(s, s.(store := UpdateByUid(s.store, uid, 0, Queued).0));
    case CancelStep(uid) => UnparkNone(s.store, uid); RestatusAside(s, Unpark(s.store, uid).0); AsideGrown(s, Do(s, step));
    case ExpireStep(nowS) => ExpireNone(s.store, nowS); RestatusAside(s, Expire(s.store, nowS)); AsideGrown(s, Do(s, step));
    case FlushParkedStep(peer, nowS, envs) => FlushRowsGrown(s, ParkedUids(s.store, peer, nowS), envs);
    case ReceiveStep(peer, text, nowS) => ReceiveAside(s, peer, text, nowS); AsideGrown(s, Do(s, step));
    case OtherFrameStep(dest, limit, retryAt) => TransmitOtherGrown(s, dest, limit, retryAt);
    case FloodStep => AsideGrown(s, Do(s, step));
    case OtherIdStep => AsideGrown(s, Do(s, step));
  }

  lemma ExpireNone(rows: seq<Row>, nowS: nat)
    ensures NoneDelivered(rows, Expire(rows, nowS))
  {
    var rows' := Expire(rows, nowS);
    forall m | m in rows' && m.status == Delivered ensures m in rows {
      var k :| 0 <= k < |rows'| && rows'[k] == m;
      assert rows[k] == m;
    }
  }

  // ------------------------------------------------------ over every run

  /** One entry per packet id, each of a frame that was sent and within its
      tries, and none for a delivered row. */
  ghost predicate Tracked(s: State) {
    && PktsBelow(s)
    && (forall i, j :: 0 <= i < j < |s.acks| && s.acks[i].active && s.acks[j].active ==> s.acks[i].pkt != s.acks[j].pkt)
    && (forall i :: 0 <= i < |s.acks| && s.acks[i].active ==> s.acks[i].attempt <= s.acks[i].limit && FrameOf(s.log, s.acks[i]))
    && (forall m :: m in s.store && m.status == Delivered ==> m.pkt < s.nextPkt && !Outstanding(s.acks, m.pkt))
  }

  lemma GrownTracked(s: State, s': State)
    requires Tracked(s) && Grown(s, s')
    ensures Tracked(s')
  {
    GrownBelow(s, s');
    forall i | 0 <= i < |s'.acks| && s'.acks[i].active ensures FrameOf(s'.log, s'.acks[i]) {
      if s'.acks[i] == s.acks[i] { FrameStays(s.log, s'.log, s.acks[i]); }
    }
  }

  /** Entries lost, or one try further: no packet becomes outstanding. */
  predicate Fewer(acks: seq<Ack>, acks': seq<Ack>) {
    && |acks'| == |acks|
    && forall i :: 0 <= i < |acks| && acks'[i].active ==>
         acks[i].active && acks'[i] == acks[i].(attempt := acks'[i].attempt, retryAt := acks'[i].retryAt) && acks'[i].attempt <= acks[i].limit
  }

  lemma FewerTracked(s: State, s': State)
    requires Tracked(s) && Fewer(s.acks, s'.acks) && s'.log == s.log && s'.nextPkt == s.nextPkt
    requires forall m :: m in s'.store && m.status == Delivered ==> m.pkt < s.nextPkt && !Outstanding(s'.acks, m.pkt)
    ensures Tracked(s')
  {
    forall i | 0 <= i < |s'.acks| && s'.acks[i].active ensures FrameOf(s'.log, s'.acks[i]) { assert FrameOf(s.log, s.acks[i]); }
  }

  lemma FewerOutstanding(acks: seq<Ack>, acks': seq<Ack>, p: nat)
    requires Fewer(acks, acks')
    ensures Outstanding(acks', p) ==> Outstanding(acks, p)
  {
  }

  /** Rows that failing packets leave DELIVERED were so before. */
  lemma FailedNone(rows: seq<Row>, rows': seq<Row>, pkts: set<nat>)
    requires FailsRows(rows, rows', pkts)
    ensures NoneDelivered(rows, rows')
  {
    forall m | m in rows' && m.status == Delivered ensures m in rows {
      var k :| 0 <= k < |rows'| && rows'[k] == m;
      assert rows[k] == m;
    }
  }

  lemma TickTracked(s: State, now: nat, ticks: seq<Tick>)
    requires Shape(s) && Tracked(s)
    ensures Tracked(Do(s, AckTickStep(now, ticks)))
  {
    hide AckTick;
    var s' := AckTick(s, now, 0, ticks);
    TickFromLaw(s, now, 0, ticks);
    assert Fewer(s.acks, s'.acks);
    FailedNone(s.store, s'.store, Spent(s.acks, now, 0));
    forall m | m in s'.store && m.status == Delivered ensures !Outstanding(s'.acks, m.pkt) { FewerOutstanding(s.acks, s'.acks, m.pkt); }
    var t := s'.(log := s.log);
    FewerTracked(s, t);
    assert Tracked(s') by {
      forall i | 0 <= i < |s'.acks| && s'.acks[i].active ensures FrameOf(s'.log, s'.acks[i]) { FrameStays(s.log, s'.log, s'.acks[i]); }
    }
  }

  lemma RouteErrorTracked(s: State, dest: nat)
    requires Shape(s) && Tracked(s)
    ensures Tracked(Do(s, RouteErrorStep(dest)))
  {
    hide FailFast;
    var s' := FailFast(s, dest, 0);
    FailFromLaw(s, dest, 0);
    assert Fewer(s.acks, s'.acks);
    FailedNone(s.store, s'.store, Towards(s.acks, 0, dest));
    forall m | m in s'.store && m.status == Delivered ensures !Outstanding(s'.acks, m.pkt) { FewerOutstanding(s.acks, s'.acks, m.pkt); }
    FewerTracked(s, s');
  }

  /** What an ACK does: its packet is pending no longer, every other entry is as
      it was, and only a row that records the packet becomes DELIVERED. */
  lemma AckLaw(s: State, pkt: nat)
    requires Shape(s) && Tracked(s)
    ensures var s' := Do(s, AckStep(pkt));
      && |s'.acks| == SLOTS && !Outstanding(s'.acks, pkt) && s'.log == s.log && s'.nextPkt == s.nextPkt
      && (forall i :: 0 <= i < SLOTS && !(s.acks[i].active && s.acks[i].pkt == pkt) ==> s'.acks[i] == s.acks[i])
      && Fewer(s.acks, s'.acks)
      && |s'.store| == |s.store|
      && (forall k :: 0 <= k < |s.store| ==>
            s'.store[k] == if pkt != 0 && k == FindPkt(s.store, pkt) then s.store[k].(status := Delivered) else s.store[k])
  {
  }

  lemma AckTracked(s: State, pkt: nat)
    requires Shape(s) && Tracked(s) && (forall m :: m in s.store ==> m.pkt < s.nextPkt)
    ensures Tracked(Do(s, AckStep(pkt)))
  {
    hide AckArrives;
    var s' := Do(s, AckStep(pkt));
    AckLaw(s, pkt);
    forall m | m in s'.store && m.status == Delivered ensures m.pkt < s.nextPkt && !Outstanding(s'.acks, m.pkt) {
      var k :| 0 <= k < |s'.store| && s'.store[k] == m;
      assert s.store[k] in s.store;
      FewerOutstanding(s.acks, s'.acks, m.pkt);
    }
    FewerTracked(s, s');
  }

  lemma RowsBelow(w: I.Since, s: State)
    requires I.Inv(w, s)
    ensures forall m :: m in s.store ==> m.pkt < s.nextPkt
  {
    forall m | m in s.store ensures m.pkt < s.nextPkt {
      assert I.RowTrue(s, m);
      if m.pkt != 0 { assert I.EventTrue(s, Transmitted(m.uid, m.pkt, m.peer, s.book[m.uid].data)); }
    }
  }

  lemma DoTracked(w: I.Since, s: State, step: Step)
    requires I.Inv(w, s) && Tracked(s) && Shape(s)
    ensures Tracked(Do(s, step))
  {
    hide I.Inv, Do;
    if step.AckTickStep? {
      TickTracked(s, step.now, step.ticks);
    } else if step.RouteErrorStep? {
      RouteErrorTracked(s, step.dest);
    } else if step.AckStep? {
      RowsBelow(w, s);
      AckTracked(s, step.pkt);
    } else {
      DoGrown(w, s, step);
      GrownTracked(s, Do(s, step));
    }
  }

  lemma {:induction false} TrackedEveryRun(cap: nat, firstPkt: nat, steps: seq<Step>)
    requires 0 < cap && 0 < firstPkt
    ensures Tracked(Run(Init(cap, firstPkt), steps))
    decreases |steps|
  {
    hide Do, Tracked;
    if steps == [] {
      InitTracked(cap, firstPkt);
    } else {
      TrackedEveryRun(cap, firstPkt, steps[..|steps| - 1]);
      I.InvEveryRun(cap, firstPkt, steps[..|steps| - 1]);
      DoTracked(I.Boot(), Run(Init(cap, firstPkt), steps[..|steps| - 1]), steps[|steps| - 1]);
    }
  }

  lemma InitTracked(cap: nat, firstPkt: nat)
    requires 0 < firstPkt
    ensures Tracked(Init(cap, firstPkt))
  {
  }

  /** In every reachable state no two pending entries share a packet id, the
      packet of a DELIVERED row is not pending, and so neither a retry tick nor
      a route error changes a DELIVERED row. */
  lemma DeliveredStays(cap: nat, firstPkt: nat, steps: seq<Step>, step: Step, k: nat)
    requires 0 < cap && 0 < firstPkt
    requires k < |Run(Init(cap, firstPkt), steps).store| && Run(Init(cap, firstPkt), steps).store[k].status == Delivered
    ensures var s := Run(Init(cap, firstPkt), steps);
      && (forall i, j :: 0 <= i < j < SLOTS && s.acks[i].active && s.acks[j].active ==> s.acks[i].pkt != s.acks[j].pkt)
      && !Outstanding(s.acks, s.store[k].pkt)
      && (step.AckTickStep? || step.RouteErrorStep? ==> k < |Do(s, step).store| && Do(s, step).store[k] == s.store[k])
  {
    hide Run, Do;
    TrackedEveryRun(cap, firstPkt, steps);
    var s := Run(Init(cap, firstPkt), steps);
    assert s.store[k] in s.store;
    if step.AckTickStep? { TickLaw(s, step.now, step.ticks); }
    if step.RouteErrorStep? { RouteErrorLaw(s, step.dest); }
  }

  /** In every reachable state an ACK settles its frame for good: the packet is
      pending no longer, no other entry is touched, and the row that records it
      is DELIVERED. */
  lemma AckSettles(cap: nat, firstPkt: nat, steps: seq<Step>, pkt: nat)
    requires 0 < cap && 0 < firstPkt
    ensures var s := Run(Init(cap, firstPkt), steps);
      var s' := Do(s, AckStep(pkt));
      && !Outstanding(s'.acks, pkt)
      && (forall i :: 0 <= i < SLOTS && !(s.acks[i].active && s.acks[i].pkt == pkt) ==> s'.acks[i] == s.acks[i])
      && (forall m :: m in s.store && m.pkt == pkt != 0 ==> m.(status := Delivered) in s'.store)
  {
    hide Run, Do;
    TrackedEveryRun(cap, firstPkt, steps);
    I.InvEveryRun(cap, firstPkt, steps);
    var s := Run(Init(cap, firstPkt), steps);
    AckLaw(s, pkt);
    var s' := Do(s, AckStep(pkt));
    forall m | m in s.store && m.pkt == pkt != 0 ensures m.(status := Delivered) in s'.store {
      var k :| 0 <= k < |s.store| && s.store[k] == m;
      OneRowPerPkt(I.Boot(), s, k, FindPkt(s.store, pkt));
      assert s'.store[k] == m.(status := Delivered);
    }
  }

  /** One row per packet id. */
  lemma OneRowPerPkt(w: I.Since, s: State, k: nat, j: int)
    requires I.Inv(w, s) && k < |s.store| && 0 <= j < |s.store| && s.store[k].pkt == s.store[j].pkt != 0
    ensures j == k
  {
    hide I.Conserved, I.EntryTrue, I.AckTrue, I.Ahead;
    var a, b := s.store[k], s.store[j];
    assert a in s.store && b in s.store && I.RowTrue(s, a) && I.RowTrue(s, b);
    var d, e := Transmitted(a.uid, a.pkt, a.peer, s.book[a.uid].data), Transmitted(b.uid, b.pkt, b.peer, s.book[b.uid].data);
    var x :| 0 <= x < |s.log| && s.log[x] == d;
    var y :| 0 <= y < |s.log| && s.log[y] == e;
    assert x == y;
  }

  // ----------------------------------------------------- spent tries

  /** The step was a retry tick that burned a try of the packet's entry. */
  predicate Burns(s: State, step: Step, pkt: nat)
    requires Shape(s)
  {
    step.AckTickStep? && exists i :: 0 <= i < SLOTS && DueNow(s.acks[i], step.now) && s.acks[i].pkt == pkt && Do(s, step).acks[i].active
  }

  /** How many steps of the run did. */
  function Burned(s: State, steps: seq<Step>, pkt: nat): nat
    requires Shape(s)
    decreases |steps|
  {
    if steps == [] then 0
    else Burned(s, steps[..|steps| - 1], pkt) + (if Burns(Run(s, steps[..|steps| - 1]), steps[|steps| - 1], pkt) then 1 else 0)
  }

  lemma {:induction false} CountedEveryRun(cap: nat, firstPkt: nat, steps: seq<Step>, pkt: nat)
    requires 0 < cap && 0 < firstPkt
    ensures var s := Run(Init(cap, firstPkt), steps);
      && (forall i :: 0 <= i < SLOTS && s.acks[i].active && s.acks[i].pkt == pkt ==> s.acks[i].attempt == Burned(Init(cap, firstPkt), steps, pkt))
      && (s.nextPkt <= pkt ==> Burned(Init(cap, firstPkt), steps, pkt) == 0)
    decreases |steps|
  {
    hide Do, Burns;
    if steps != [] {
      var before, step := steps[..|steps| - 1], steps[|steps| - 1];
      CountedEveryRun(cap, firstPkt, before, pkt);
      TrackedEveryRun(cap, firstPkt, before);
      I.InvEveryRun(cap, firstPkt, before);
      hide Run, Burned;
      CountedStep(I.Boot(), Run(Init(cap, firstPkt), before), step, pkt, Burned(Init(cap, firstPkt), before, pkt));
      RunSnoc(Init(cap, firstPkt), steps, pkt);
    }
  }

  lemma RunSnoc(s: State, steps: seq<Step>, pkt: nat)
    requires Shape(s) && steps != []
    ensures var before, step := steps[..|steps| - 1], steps[|steps| - 1];
      && Run(s, steps) == Do(Run(s, before), step)
      && Burned(s, steps, pkt) == Burned(s, before, pkt) + (if Burns(Run(s, before), step, pkt) then 1 else 0)
  {
    hide Do, Burns;
  }

  lemma CountedStep(w: I.Since, s: State, step: Step, pkt: nat, n: nat)
    requires I.Inv(w, s) && Shape(s) && Tracked(s)
    requires forall i :: 0 <= i < SLOTS && s.acks[i].active && s.acks[i].pkt == pkt ==> s.acks[i].attempt == n
    requires s.nextPkt <= pkt ==> n == 0
    ensures var s', n' := Do(s, step), n + (if Burns(s, step, pkt) then 1 else 0);
      && (forall i :: 0 <= i < SLOTS && s'.acks[i].active && s'.acks[i].pkt == pkt ==> s'.acks[i].attempt == n')
      && (s'.nextPkt <= pkt ==> n' == 0)
  {
    hide I.Inv, Do;
    if step.AckTickStep? {
      TickLaw(s, step.now, step.ticks);
    } else if step.RouteErrorStep? {
      RouteErrorLaw(s, step.dest);
    } else if step.AckStep? {
      AckLaw(s, step.pkt);
    } else {
      DoGrown(w, s, step);
    }
  }

  /** Over every run, the retry tick changes a row in one way only: to FAILED,
      when the frame it records is due with all three tries burned, which three
      earlier ticks of the run did. A lost ACK is not the end of a message. */
  lemma FailedAfterThreeTries(cap: nat, firstPkt: nat, steps: seq<Step>, now: nat, ticks: seq<Tick>, k: nat)
    requires 0 < cap && 0 < firstPkt && k < |Run(Init(cap, firstPkt), steps).store|
    ensures var s := Run(Init(cap, firstPkt), steps);
      var s' := Do(s, AckTickStep(now, ticks));
      && k < |s'.store|
      && (s'.store[k] != s.store[k] ==>
          && s'.store[k] == s.store[k].(status := Failed)
          && Burned(Init(cap, firstPkt), steps, s.store[k].pkt) == 3
          && exists i :: 0 <= i < SLOTS && DueNow(s.acks[i], now) && s.acks[i].pkt == s.store[k].pkt && s.acks[i].uid == s.store[k].uid)
  {
    hide Run, Do, Burned;
    var s := Run(Init(cap, firstPkt), steps);
    var p := s.store[k].pkt;
    TickLaw(s, now, ticks);
    TrackedEveryRun(cap, firstPkt, steps);
    I.InvEveryRun(cap, firstPkt, steps);
    CountedEveryRun(cap, firstPkt, steps, p);
    if Do(s, AckTickStep(now, ticks)).store[k] != s.store[k] {
      var i :| 0 <= i < |s.acks| && OutOfTries(s.acks[i], now) && s.acks[i].pkt == p;
      RowsEntry(I.Boot(), s, k, i);
    }
  }

  lemma SamePacket(s: State, d: Event, e: Event)
    requires I.DistinctPkts(s.log) && d in s.log && e in s.log && I.IsSent(d) && I.IsSent(e) && d.pkt == e.pkt
    ensures d == e
  {
    var x :| 0 <= x < |s.log| && s.log[x] == d;
    var y :| 0 <= y < |s.log| && s.log[y] == e;
    assert x == y;
  }

  /** The pending entry of a row's packet is of that row's message, with three tries. */
  lemma RowsEntry(w: I.Since, s: State, k: nat, i: nat)
    requires I.Inv(w, s) && Tracked(s) && k < |s.store| && i < |s.acks| && s.acks[i].active && s.acks[i].pkt == s.store[k].pkt
    ensures s.acks[i].uid == s.store[k].uid && s.acks[i].limit == DM_TRIES && s.acks[i].attempt <= DM_TRIES
  {
    hide I.Conserved, I.EntryTrue, I.AckTrue, I.Ahead;
    var m, a := s.store[k], s.acks[i];
    assert m in s.store && I.RowTrue(s, m) && FrameOf(s.log, a);
    var d := Transmitted(m.uid, m.pkt, m.peer, s.book[m.uid].data);
    var z :| Transmitted(a.uid, a.pkt, a.dest, z) in s.log || (a.uid == 0 && OtherSent(a.pkt, a.dest) in s.log);
    var e := if Transmitted(a.uid, a.pkt, a.dest, z) in s.log then Transmitted(a.uid, a.pkt, a.dest, z) else OtherSent(a.pkt, a.dest);
    SamePacket(s, d, e);
  }
}
