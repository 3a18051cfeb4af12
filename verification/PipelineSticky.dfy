/**
 * What the statuses of rows mean over every run: a QUEUED row stays QUEUED
 * until its ACK arrives, the user cancels it, its window expires, or a full
 * ring drops it, although failures keep arriving for it by uid and by packet
 * id; and a row becomes DELIVERED only by an ACK for the frame it records.
 */
module PipelineSticky {
  import opened Basics
  import opened MsgStore
  import opened Pipeline

  /** Everything about a row that no update may change. */
  predicate SameRow(x: Row, y: Row) { y == x.(status := y.status, pkt := y.pkt) }

  /** `b` is `a` some time later: the oldest d rows dropped by the full ring,
      new rows at the end, the rows between still there. QUEUED ones are still
      QUEUED unless delivered (uid in `acked`) or failed (uid in `ended`), and
      DELIVERED ones were so before or are in `acked`. */
  ghost predicate Aged(a: seq<Row>, b: seq<Row>, cap: nat, d: nat, acked: set<nat>, ended: set<nat>) {
    && Slid(a, b, cap, d)
    && (forall i :: d <= i < |a| ==> Since(a[i], b[i - d], acked, ended))
    && (forall k :: |a| - d <= k < |b| ==> New(b[k], acked))
  }

  /** d rows dropped, and those only because the ring is full. */
  predicate Slid(a: seq<Row>, b: seq<Row>, cap: nat, d: nat) { d <= |a| <= |b| <= cap && (d > 0 ==> |b| == cap) }

  /** One row, before and after. */
  predicate Since(x: Row, y: Row, acked: set<nat>, ended: set<nat>) {
    && SameRow(x, y)
    && (x.status == Queued ==> StillParked(y, acked, ended))
    && (y.status == Delivered ==> y == x || y.uid in acked)
  }

  /** A row that was not there before. */
  predicate New(y: Row, acked: set<nat>) { y.status == Delivered ==> y.uid in acked }

  predicate StillParked(y: Row, acked: set<nat>, ended: set<nat>) {
    || y.status == Queued
    || y.uid in acked
    || y.uid in ended
  }

  ghost predicate Later(a: seq<Row>, b: seq<Row>, cap: nat, acked: set<nat>, ended: set<nat>) {
    exists d: nat :: Aged(a, b, cap, d, acked, ended)
  }

  lemma SinceTrans(x: Row, y: Row, z: Row, acked: set<nat>, ended: set<nat>, acked': set<nat>, ended': set<nat>)
    requires Since(x, y, acked, ended) && Since(y, z, acked', ended')
    ensures Since(x, z, acked + acked', ended + ended')
  {
  }

  lemma NewTrans(y: Row, z: Row, acked: set<nat>, acked': set<nat>, ended': set<nat>)
    requires New(y, acked) && Since(y, z, acked', ended')
    ensures New(z, acked + acked')
  {
  }

  lemma NewWider(y: Row, acked: set<nat>, acked': set<nat>)
    requires New(y, acked')
    ensures New(y, acked + acked')
  {
  }

  /** A row kept from the middle to the end was there at the start, or new in the middle. */
  lemma MiddleRow(a: seq<Row>, b: seq<Row>, c: seq<Row>, cap: nat, d: nat, e: nat, k: nat,
                  acked: set<nat>, ended: set<nat>, acked': set<nat>, ended': set<nat>)
    requires Aged(a, b, cap, d, acked, ended) && Aged(b, c, cap, e, acked', ended') && k < |c|
    ensures k + d + e < |a| ==> Since(a[k + d + e], c[k], acked + acked', ended + ended')
    ensures k + d + e >= |a| ==> New(c[k], acked + acked')
  {
    hide Since, New;
    if k + e < |b| {
      var y := b[k + e];
      assert c[k] == c[(k + e) - e] && Since(y, c[k], acked', ended');
      if k + e + d < |a| {
        assert y == b[(k + e + d) - d];
        SinceTrans(a[k + e + d], y, c[k], acked, ended, acked', ended');
      } else {
        NewTrans(y, c[k], acked, acked', ended');
      }
    } else {
      NewWider(c[k], acked, acked');
    }
  }

  lemma LaterTrans(a: seq<Row>, b: seq<Row>, c: seq<Row>, cap: nat, acked: set<nat>, ended: set<nat>, acked': set<nat>, ended': set<nat>)
    requires Later(a, b, cap, acked, ended) && Later(b, c, cap, acked', ended')
    ensures Later(a, c, cap, acked + acked', ended + ended')
  {
    hide Since, New;
    var d: nat :| Aged(a, b, cap, d, acked, ended);
    var e: nat :| Aged(b, c, cap, e, acked', ended');
    var f := if d + e <= |a| then d + e else |a|;
    forall i | f <= i < |a| ensures Since(a[i], c[i - f], acked + acked', ended + ended') {
      MiddleRow(a, b, c, cap, d, e, i - f, acked, ended, acked', ended');
    }
    forall k | |a| - f <= k < |c| ensures New(c[k], acked + acked') {
      MiddleRow(a, b, c, cap, d, e, k, acked, ended, acked', ended');
    }
    assert Aged(a, c, cap, f, acked + acked', ended + ended');
  }

  // ------------------------------------- no handler unparks anything by itself

  ghost predicate Kept(s: State, s': State) {
    s'.cap == s.cap && Later(s.store, s'.store, s.cap, {}, {})
  }

  lemma KeptTrans(s: State, t: State, u: State)
    requires Kept(s, t) && Kept(t, u)
    ensures Kept(s, u)
  {
    var none: set<nat> := {};
    LaterTrans(s.store, t.store, u.store, s.cap, none, none, none, none);
    assert none + none == none;
  }

  lemma SameStore(s: State, s': State)
    requires Shape(s) && s'.store == s.store && s'.cap == s.cap
    ensures Kept(s, s')
  {
    assert Aged(s.store, s'.store, s.cap, 0, {}, {});
  }

  /** A failure or a stamp, by uid, that is not DELIVERED. */
  lemma ByUidKept(s: State, uid: nat, pkt: nat, st: Status)
    requires Shape(s) && st != Delivered
    ensures Kept(s, s.(store := UpdateByUid(s.store, uid, pkt, st).0))
  {
    assert Aged(s.store, UpdateByUid(s.store, uid, pkt, st).0, s.cap, 0, {}, {});
  }

  /** A failure by packet id. */
  lemma ByPktKept(s: State, pkt: nat, st: Status)
    requires Shape(s) && st != Delivered
    ensures Kept(s, s.(store := UpdateByPkt(s.store, pkt, st).0))
  {
    assert Aged(s.store, UpdateByPkt(s.store, pkt, st).0, s.cap, 0, {}, {});
  }

  lemma AddRowKept(s: State, row: Row)
    requires Shape(s) && row.status != Delivered
    ensures Kept(s, AddRow(s, row))
  {
    assert Aged(s.store, AddRow(s, row).store, s.cap, if |s.store| < s.cap then 0 else 1, {}, {});
  }

  lemma FailReportKept(s: State, uid: nat)
    requires Shape(s)
    ensures Kept(s, FailReport(s, uid))
  {
    hide Later;
    SameStore(s, s);
    ByUidKept(s, uid, 0, Failed);
  }

  lemma StampSentKept(s: State, uid: nat, pkt: nat, dest: nat, data: seq<char>, nowS: nat)
    requires Shape(s)
    ensures Kept(s, StampSent(s, uid, pkt, dest, data, nowS))
  {
    hide Later;
    ByUidKept(s, uid, pkt, Sent);
    AddRowKept(s, Row(dest, uid, true, true, Sent, pkt, nowS, Clip(data)));
  }

  lemma SendActiveKept(s: State, dest: nat, data: seq<char>, uid: nat, env: Env)
    requires Shape(s)
    ensures Kept(s, SendActive(s, dest, data, uid, env).0)
  {
    hide Later, UpdateByUid;
    if !env.txOk {
      FailReportKept(s.(nextPkt := s.nextPkt + 1), uid);
    } else {
      var u := if uid != 0 then uid else s.nextUid;
      var s1 := if uid != 0 then s else Register(s, dest, data);
      StampSentKept(Transmit(s1, u, dest, data, env.now), u, s.nextPkt, dest, data, env.nowS);
    }
  }

  lemma MakeRoomKept(s: State)
    requires Shape(s)
    ensures Kept(s, MakeRoom(s).0)
  {
    hide Later, UpdateByUid;
    SameStore(s, s);
    forall uid { FailReportKept(s, uid); }
  }

  lemma QueueSessionKept(s: State, dest: nat, data: seq<char>, uid: nat, now: nat)
    requires Shape(s)
    ensures Kept(s, QueueSession(s, dest, data, uid, now).0)
  {
    hide Later, MakeRoom;
    SameStore(s, s);
    MakeRoomKept(s);
  }

  lemma QueueMessageKept(s: State, dest: nat, data: seq<char>, uid: nat, now: nat)
    requires Shape(s)
    ensures Kept(s, QueueMessage(s, dest, data, uid, now).0)
  {
    SameStore(s, QueueMessage(s, dest, data, uid, now).0);
  }

  /** What a send does to its queue it follows by a failure report or a new row at most. */
  lemma TailKept(s: State, t: State, uid: nat, row: Row)
    requires Shape(s) && Shape(t) && Kept(s, t) && row.status != Delivered
    ensures Kept(s, FailReport(t, uid)) && Kept(s, AddRow(t, row))
  {
    hide Later, UpdateByUid;
    FailReportKept(t, uid);
    AddRowKept(t, row);
    KeptTrans(s, t, FailReport(t, uid));
    KeptTrans(s, t, AddRow(t, row));
  }

  lemma SendWaitingKept(s: State, dest: nat, data: seq<char>, uid: nat, env: Env)
    requires Shape(s)
    ensures Kept(s, SendWaiting(s, dest, data, uid, env).0)
  {
    hide Later, UpdateByUid, QueueSession;
    var u := if uid != 0 then uid else s.nextUid;
    var s1 := if uid != 0 then s else Register(s, dest, data);
    QueueSessionKept(s1, dest, data, u, env.now);
    var q := QueueSession(s1, dest, data, u, env.now);
    var s2 := if env.initTx then TransmitOther(q.0, dest, KE_TRIES, (env.now + KE_DELAY_MS) % WRAP) else q.0;
    TailKept(s, q.0, uid, Row(dest, u, true, true, NoStatus, 0, env.nowS, Clip(data)));
    TailKept(s, s2, uid, Row(dest, u, true, true, NoStatus, 0, env.nowS, Clip(data)));
  }

  lemma SendUnroutedKept(s: State, dest: nat, data: seq<char>, uid: nat, env: Env)
    requires Shape(s)
    ensures Kept(s, SendUnrouted(s, dest, data, uid, env).0)
  {
    hide Later, UpdateByUid, QueueMessage;
    var u := if uid != 0 then uid else s.nextUid;
    var s1 := if uid != 0 then s else Register(s, dest, data);
    QueueMessageKept(s1, dest, data, u, env.now);
    var q := QueueMessage(s1, dest, data, u, env.now);
    TailKept(s, q.0, uid, Row(dest, u, true, true, NoStatus, 0, env.nowS, Clip(data)));
  }

  lemma SendKept(s: State, dest: nat, data: seq<char>, uid: nat, env: Env)
    requires Shape(s)
    ensures Kept(s, Send(s, dest, data, uid, env).0)
  {
    hide Later, UpdateByUid, SendActive, SendWaiting, SendUnrouted;
    FailReportKept(s, uid);
    SendActiveKept(s, dest, data, uid, env);
    SendWaitingKept(s, dest, data, uid, env);
    SendUnroutedKept(s, dest, data, uid, env);
  }

  lemma DrainSlotKept(s: State, dest: nat, i: nat, env: Env)
    requires Shape(s) && i < SLOTS
    ensures Kept(s, DrainSlot(s, dest, i, env))
  {
    hide Later, Send;
    SameStore(s, s);
    SendKept(Blank(s, i), dest, s.queue[i].data, s.queue[i].uid, env);
  }

  lemma {:induction false} DrainKept(s: State, dest: nat, i: nat, envs: seq<Env>)
    requires Shape(s) && i <= SLOTS
    ensures Kept(s, Drain(s, dest, i, envs))
    decreases SLOTS - i
  {
    hide Kept, DrainSlot;
    SameStore(s, s);
    if i < SLOTS {
      DrainSlotKept(s, dest, i, At(envs, i));
      var t := DrainSlot(s, dest, i, At(envs, i));
      DrainKept(t, dest, i + 1, envs);
      KeptTrans(s, t, Drain(t, dest, i + 1, envs));
    }
  }

  lemma SessionSlotKept(s: State, dest: nat, i: nat, env: Env)
    requires Shape(s) && i < SLOTS
    ensures Kept(s, SessionSlot(s, dest, i, env))
  {
    hide Later, UpdateByUid;
    SameStore(s, s);
    var e := s.queue[i];
    StampSentKept(Transmit(s, e.uid, dest, e.data, env.now), e.uid, s.nextPkt, dest, e.data, env.nowS);
    FailReportKept(if env.session == Active then s.(nextPkt := s.nextPkt + 1) else s, e.uid);
  }

  lemma {:induction false} SessionFlushKept(s: State, dest: nat, i: nat, envs: seq<Env>)
    requires Shape(s) && i <= SLOTS
    ensures Kept(s, SessionFlush(s, dest, i, envs))
    decreases SLOTS - i
  {
    hide Kept, SessionSlot;
    SameStore(s, s);
    if i < SLOTS {
      SessionSlotKept(s, dest, i, At(envs, i));
      var t := SessionSlot(s, dest, i, At(envs, i));
      SessionFlushKept(t, dest, i + 1, envs);
      KeptTrans(s, t, SessionFlush(t, dest, i + 1, envs));
    }
  }

  lemma DropKept(s: State, i: nat)
    requires Shape(s) && i < SLOTS
    ensures Kept(s, Drop(s, i))
  {
    hide Later, UpdateByUid;
    FailReportKept(s, s.queue[i].uid);
  }

  lemma {:induction false} ReapKept(s: State, now: nat, i: nat)
    requires Shape(s) && i <= SLOTS
    ensures Kept(s, Reap(s, now, i))
    decreases SLOTS - i
  {
    hide Kept, Drop, Overdue;
    SameStore(s, s);
    if i < SLOTS {
      DropKept(s, i);
      var t := if Overdue(s.queue[i], now) then Drop(s, i) else s;
      ReapKept(t, now, i + 1);
      KeptTrans(s, t, Reap(t, now, i + 1));
    }
  }

  lemma {:induction false} GiveUpKept(s: State, dest: nat, i: nat)
    requires Shape(s) && i <= SLOTS
    ensures Kept(s, GiveUp(s, dest, i))
    decreases SLOTS - i
  {
    hide Kept, Drop;
    SameStore(s, s);
    if i < SLOTS {
      DropKept(s, i);
      var e := s.queue[i];
      var t := if e.used && e.reason == Route && e.dest == dest then Drop(s, i) else s;
      GiveUpKept(t, dest, i + 1);
      KeptTrans(s, t, GiveUp(t, dest, i + 1));
    }
  }

  lemma GiveUpFrameKept(s: State, i: nat)
    requires Shape(s) && i < SLOTS
    ensures Kept(s, GiveUpFrame(s, i))
  {
    hide Later, UpdateByPkt;
    ByPktKept(s, s.acks[i].pkt, Failed);
  }

  lemma TickSlotKept(s: State, now: nat, i: nat, k: Tick)
    requires Shape(s) && i < SLOTS
    ensures Kept(s, TickSlot(s, now, i, k))
  {
    hide Later, GiveUpFrame;
    SameStore(s, s);
    GiveUpFrameKept(s, i);
  }

  lemma {:induction false} AckTickKept(s: State, now: nat, i: nat, ticks: seq<Tick>)
    requires Shape(s) && i <= SLOTS
    ensures Kept(s, AckTick(s, now, i, ticks))
    decreases SLOTS - i
  {
    hide Kept, TickSlot;
    SameStore(s, s);
    if i < SLOTS {
      TickSlotKept(s, now, i, TickAt(ticks, i));
      var t := TickSlot(s, now, i, TickAt(ticks, i));
      AckTickKept(t, now, i + 1, ticks);
      KeptTrans(s, t, AckTick(t, now, i + 1, ticks));
    }
  }

  lemma {:induction false} FailFastKept(s: State, dest: nat, i: nat)
    requires Shape(s) && i <= SLOTS
    ensures Kept(s, FailFast(s, dest, i))
    decreases SLOTS - i
  {
    hide Kept, GiveUpFrame;
    SameStore(s, s);
    if i < SLOTS {
      GiveUpFrameKept(s, i);
      var t := if s.acks[i].active && s.acks[i].dest == dest then GiveUpFrame(s, i) else s;
      FailFastKept(t, dest, i + 1);
      KeptTrans(s, t, FailFast(t, dest, i + 1));
    }
  }

  lemma {:induction false} FlushRowsKept(s: State, uids: seq<nat>, envs: seq<Env>)
    requires Shape(s)
    ensures Kept(s, FlushRows(s, uids, envs))
    decreases |uids|
  {
    hide Kept, Send;
    SameStore(s, s);
    if uids != [] {
      var i := FindUid(s.store, uids[0]);
      if i >= 0 { SendKept(s, s.store[i].peer, s.store[i].text, uids[0], At(envs, 0)); }
      var t := FlushRow(s, uids[0], At(envs, 0));
      var rest := if envs == [] then [] else envs[1..];
      FlushRowsKept(t, uids[1..], rest);
      KeptTrans(s, t, FlushRows(t, uids[1..], rest));
    }
  }

  lemma RetryKept(s: State, uid: nat, env: Env)
    requires Shape(s)
    ensures Kept(s, Retry(s, uid, env))
  {
    hide Kept, Send;
    SameStore(s, s);
    var i := FindUid(s.store, uid);
    if i >= 0 { SendKept(s, s.store[i].peer, s.store[i].text, uid, env); }
  }

  // -------------------------------------------------- the three ways out

  /** Rows a step may take out of QUEUED by delivering them. */
  function AckedBy(s: State, step: Step): (r: set<nat>) {
    if step.AckStep? && step.pkt != 0 then set m | m in s.store && m.pkt == step.pkt :: m.uid else {}
  }

  /** Rows a step may take out of QUEUED by the user's cancel or the end of the window. */
  function EndedBy(s: State, step: Step): (r: set<nat>) {
    match step
    case CancelStep(uid) => {uid}
    case ExpireStep(nowS) => set m | m in s.store && ParkedDm(m) && PastWindow(m, nowS) :: m.uid
    case _ => {}
  }

  lemma AckArrivesLater(s: State, pkt: nat)
    requires Shape(s)
    ensures Later(s.store, AckArrives(s, pkt).store, s.cap, AckedBy(s, AckStep(pkt)), {})
  {
    var i := FindPkt(s.store, pkt);
    assert i >= 0 ==> s.store[i] in s.store;
    assert Aged(s.store, AckArrives(s, pkt).store, s.cap, 0, AckedBy(s, AckStep(pkt)), {});
  }

  lemma CancelLater(s: State, uid: nat)
    requires Shape(s)
    ensures Later(s.store, Unpark(s.store, uid).0, s.cap, {}, {uid})
  {
    assert Aged(s.store, Unpark(s.store, uid).0, s.cap, 0, {}, {uid});
  }

  lemma ExpireLater(s: State, nowS: nat)
    requires Shape(s)
    ensures Later(s.store, Expire(s.store, nowS), s.cap, {}, EndedBy(s, ExpireStep(nowS)))
  {
    var b := Expire(s.store, nowS);
    var gone := EndedBy(s, ExpireStep(nowS));
    forall i | 0 <= i < |s.store| ensures Since(s.store[i], b[i], {}, gone) {
      assert s.store[i] in s.store;
    }
    assert Aged(s.store, b, s.cap, 0, {}, gone);
  }

  /** One step of any kind. */
  lemma DoLater(s: State, step: Step)
    requires Shape(s)
    ensures Do(s, step).cap == s.cap
    ensures Later(s.store, Do(s, step).store, s.cap, AckedBy(s, step), EndedBy(s, step))
  {
    hide Later, Send, Retry, Drain, SessionFlush, Reap, GiveUp, AckTick, FailFast, AckArrives, FlushRows, UpdateByUid, Unpark, Expire;
    SameStore(s, s);
    match step
    case SubmitStep(dest, data, env) => SendKept(s, dest, data, 0, env);
    case RetryStep(uid, env) => RetryKept(s, uid, env);
    case RouteFoundStep(dest, envs) => DrainKept(s, dest, 0, envs);
    case SessionUpStep(dest, envs) => SessionFlushKept(s, dest, 0, envs);
    case ReapStep(now) => ReapKept(s, now, 0);
    case GiveUpStep(dest) => GiveUpKept(s, dest, 0);
    case AckTickStep(now, ticks) => AckTickKept(s, now, 0, ticks);
    case RouteErrorStep(dest) => FailFastKept(s, dest, 0);
    case AckStep(pkt) => AckArrivesLater(s, pkt); AckCap(s, pkt);
    case ParkStep(uid, nowS) => ByUidKept(s, uid, 0, Queued);
    case CancelStep(uid) => CancelLater(s, uid);
    case ExpireStep(nowS) => ExpireLater(s, nowS);
    case FlushParkedStep(peer, nowS, envs) => FlushRowsKept(s, ParkedUids(s.store, peer, nowS), envs);
    case ReceiveStep(peer, text, nowS) =>
      AddRowKept(s.(nextUid := s.nextUid + 1), Row(peer, s.nextUid, false, true, NoStatus, 0, nowS, Clip(text)));
    case OtherFrameStep(dest, limit, retryAt) =>
    case FloodStep =>
    case OtherIdStep =>
  }

  lemma AckCap(s: State, pkt: nat)
    requires Shape(s)
    ensures AckArrives(s, pkt).cap == s.cap
  {
  }

  function AckedIn(s: State, steps: seq<Step>): set<nat>
    requires Shape(s)
    decreases |steps|
  {
    if steps == [] then {}
    else AckedIn(s, steps[..|steps| - 1]) + AckedBy(Run(s, steps[..|steps| - 1]), steps[|steps| - 1])
  }

  function EndedIn(s: State, steps: seq<Step>): set<nat>
    requires Shape(s)
    decreases |steps|
  {
    if steps == [] then {}
    else EndedIn(s, steps[..|steps| - 1]) + EndedBy(Run(s, steps[..|steps| - 1]), steps[|steps| - 1])
  }

  /** Over every run, from every state: the rows present at the start are still
      there in order, less the oldest a full ring dropped, and a QUEUED one is
      QUEUED still unless some step of the run acknowledged its recorded frame,
      cancelled it, or found its window over; and a row DELIVERED at the end was
      so at the start or had its recorded frame acknowledged. */
  lemma {:induction false} ParkedIsSticky(s: State, steps: seq<Step>)
    requires Shape(s)
    ensures Run(s, steps).cap == s.cap
    ensures exists d: nat :: Aged(s.store, Run(s, steps).store, s.cap, d, AckedIn(s, steps), EndedIn(s, steps))
    decreases |steps|
  {
    hide Later, Do, AckedBy, EndedBy;
    if steps == [] {
      assert Aged(s.store, Run(s, steps).store, s.cap, 0, AckedIn(s, steps), EndedIn(s, steps));
    } else {
      var before := steps[..|steps| - 1];
      var step := steps[|steps| - 1];
      var t := Run(s, before);
      ParkedIsSticky(s, before);
      DoLater(t, step);
      LaterIs(s.store, t.store, s.cap, AckedIn(s, before), EndedIn(s, before));
      LaterTrans(s.store, t.store, Do(t, step).store, s.cap, AckedIn(s, before), EndedIn(s, before), AckedBy(t, step), EndedBy(t, step));
      LaterIs(s.store, Do(t, step).store, s.cap, AckedIn(s, steps), EndedIn(s, steps));
    }
  }

  lemma LaterIs(a: seq<Row>, b: seq<Row>, cap: nat, acked: set<nat>, ended: set<nat>)
    ensures Later(a, b, cap, acked, ended) <==> exists d: nat :: Aged(a, b, cap, d, acked, ended)
  {
  }
}
