/**
 * One written message, one frame in the air.
 *
 * A message is claimed by a queue entry that will send it or by a frame whose
 * ACK is awaited. Queueing, draining, session flushes, evictions, timeouts and
 * route errors keep it at one claim by themselves. The two sends that start
 * from a stored row, Retry and the parked flush, look only at the row: the
 * flush at the row's recorded frame, neither at the queue. They keep it exactly
 * when they do not add a claim to a message already claimed.
 */
module PipelineOneFrame {
  import opened Basics
  import opened MsgStore
  import opened Pipeline
  import opened PipelineInvariant

  /** No frame of this message awaits an ACK. */
  predicate AckFree(acks: seq<Ack>, uid: nat) {
    forall i :: 0 <= i < |acks| && acks[i].active ==> acks[i].uid != uid
  }

  predicate Claimed(s: State, uid: nat) { Holds(s.queue, uid) || !AckFree(s.acks, uid) }

  /** At most one frame awaiting an ACK per message, and none for a queued one. */
  predicate OneClaim(s: State) {
    && (forall i, j :: 0 <= i < j < |s.acks| && s.acks[i].active && s.acks[j].active && s.acks[i].uid == s.acks[j].uid ==> s.acks[i].uid == 0)
    && (forall i, k :: 0 <= i < |s.acks| && 0 <= k < |s.queue| && s.acks[i].active && s.queue[k].used && s.acks[i].uid == s.queue[k].uid ==>
          s.acks[i].uid == 0)
  }

  /** The frame a row records is the one awaiting an ACK, if any is. */
  predicate Linked(s: State) {
    forall i, m :: 0 <= i < |s.acks| && s.acks[i].active && s.acks[i].uid != 0 && m in s.store && m.uid == s.acks[i].uid ==>
      m.pkt == s.acks[i].pkt
  }

  predicate Solo(s: State) { OneClaim(s) && Linked(s) }

  // ------------------------------------------------------------- the moves

  lemma RestatusSolo(s: State, rows: seq<Row>)
    requires Solo(s) && |rows| == |s.store|
    requires forall k :: 0 <= k < |rows| ==> rows[k].uid == s.store[k].uid && rows[k].pkt == s.store[k].pkt
    ensures Solo(s.(store := rows))
  {
    forall m | m in rows ensures exists m0 :: m0 in s.store && m0.uid == m.uid && m0.pkt == m.pkt {
      var k :| 0 <= k < |rows| && rows[k] == m;
      assert s.store[k] in s.store;
    }
  }

  lemma FailReportSolo(s: State, uid: nat)
    requires Solo(s)
    ensures Solo(FailReport(s, uid)) && FailReport(s, uid).acks == s.acks && FailReport(s, uid).queue == s.queue
  {
    if uid != 0 { RestatusSolo(s, UpdateByUid(s.store, uid, 0, Failed).0); }
  }

  lemma AddRowSolo(s: State, row: Row)
    requires Solo(s) && Shape(s) && AckFree(s.acks, row.uid)
    ensures Solo(AddRow(s, row))
  {
    forall m | m in AddRow(s, row).store ensures m == row || m in s.store {}
  }

  lemma EnqueueSolo(s: State, i: nat, e: Entry)
    requires Solo(s) && i < |s.queue| && AckFree(s.acks, e.uid)
    ensures Solo(Enqueue(s, i, e))
  {
  }

  lemma ReleaseSolo(s: State, i: nat)
    requires Solo(s) && i < |s.queue|
    ensures Solo(Release(s, i)) && Solo(Blank(s, i))
  {
  }

  lemma TransmitOtherSolo(s: State, dest: nat, limit: nat, retryAt: nat, uid: nat)
    requires Solo(s)
    ensures var s' := TransmitOther(s, dest, limit, retryAt);
      Solo(s') && (uid != 0 && AckFree(s.acks, uid) ==> AckFree(s'.acks, uid))
  {
  }

  /** A first frame for an unclaimed message: sent, tracked and recorded in its row. */
  lemma LaunchSolo(s: State, uid: nat, dest: nat, data: seq<char>, now: nat, nowS: nat)
    requires Solo(s) && Shape(s) && DistinctUids(s.store) && uid != 0 && !Claimed(s, uid)
    ensures Solo(StampSent(Transmit(s, uid, dest, data, now), uid, s.nextPkt, dest, data, nowS))
  {
    var t := Transmit(s, uid, dest, data, now);
    var s' := StampSent(t, uid, s.nextPkt, dest, data, nowS);
    assert OneClaim(s');
    var i := FindUid(s.store, uid);
    forall m | m in s'.store ensures (m.uid == uid && m.pkt == s.nextPkt) || (m.uid != uid && m in s.store) {
      if i >= 0 {
        var k :| 0 <= k < |s'.store| && s'.store[k] == m;
        if k != i { assert s.store[k] == m; }
      } else {
        assert m in s.store ==> m.uid != uid;
      }
    }
  }

  // ------------------------------------------------------------ the handlers

  lemma SendActiveSolo(s: State, dest: nat, data: seq<char>, uid: nat, env: Env)
    requires Shape(s) && Faithful(s) && Solo(s) && (uid != 0 ==> !Claimed(s, uid))
    ensures Solo(SendActive(s, dest, data, uid, env).0)
  {
    hide StampSent, FailReport;
    if !env.txOk {
      FailReportSolo(s.(nextPkt := s.nextPkt + 1), uid);
    } else {
      var u := if uid != 0 then uid else s.nextUid;
      var s1 := if uid != 0 then s else Register(s, dest, data);
      NewUidUnclaimed(s);
      LaunchSolo(s1, u, dest, data, env.now, env.nowS);
    }
  }

  lemma NewUidUnclaimed(s: State)
    requires Shape(s) && Faithful(s)
    ensures !Claimed(s, s.nextUid)
  {
    forall i | 0 <= i < |s.acks| && s.acks[i].active ensures s.acks[i].uid != s.nextUid { assert AckTrue(s, s.acks[i]); }
    forall i | 0 <= i < |s.queue| ensures s.queue[i].used ==> s.queue[i].uid != s.nextUid { assert EntryTrue(s, s.queue[i]); }
  }

  lemma QueueSessionSolo(s: State, dest: nat, data: seq<char>, uid: nat, now: nat)
    requires Shape(s) && Solo(s) && AckFree(s.acks, uid)
    ensures var s' := QueueSession(s, dest, data, uid, now).0; Solo(s') && s'.acks == s.acks
  {
    hide FailReport;
    var room := MakeRoom(s);
    if FirstFree(s.queue, 0) == SLOTS && OldestSession(s.queue, SLOTS) < SLOTS {
      var v := s.queue[OldestSession(s.queue, SLOTS)].uid;
      FailReportSolo(s, v);
      ReleaseSolo(FailReport(s, v), OldestSession(s.queue, SLOTS));
    }
    if room.1 < SLOTS {
      var s1 := room.0.(nextPkt := room.0.nextPkt + 1);
      EnqueueSolo(s1, room.1, Entry(true, Session, dest, data, now, room.0.nextPkt, uid));
    }
  }

  lemma SendWaitingSolo(s: State, dest: nat, data: seq<char>, uid: nat, env: Env)
    requires Shape(s) && Faithful(s) && Solo(s) && (uid != 0 ==> !Claimed(s, uid))
    ensures Solo(SendWaiting(s, dest, data, uid, env).0)
  {
    hide QueueSession, FailReport, TransmitOther, AddRow;
    var u := if uid != 0 then uid else s.nextUid;
    var s1 := if uid != 0 then s else Register(s, dest, data);
    NewUidUnclaimed(s);
    QueueSessionSolo(s1, dest, data, u, env.now);
    var q := QueueSession(s1, dest, data, u, env.now);
    FailReportSolo(q.0, uid);
    TransmitOtherSolo(q.0, dest, KE_TRIES, (env.now + KE_DELAY_MS) % WRAP, u);
    TransmitOtherShape(q.0, dest, KE_TRIES, (env.now + KE_DELAY_MS) % WRAP);
    var s2 := if env.initTx then TransmitOther(q.0, dest, KE_TRIES, (env.now + KE_DELAY_MS) % WRAP) else q.0;
    AddRowSolo(s2, Row(dest, u, true, true, NoStatus, 0, env.nowS, Clip(data)));
  }

  lemma TransmitOtherShape(s: State, dest: nat, limit: nat, retryAt: nat)
    requires Shape(s)
    ensures Shape(TransmitOther(s, dest, limit, retryAt))
  {
  }

  lemma SendUnroutedSolo(s: State, dest: nat, data: seq<char>, uid: nat, env: Env)
    requires Shape(s) && Faithful(s) && Solo(s) && (uid != 0 ==> !Claimed(s, uid))
    ensures Solo(SendUnrouted(s, dest, data, uid, env).0)
  {
    hide FailReport, AddRow;
    var u := if uid != 0 then uid else s.nextUid;
    var s1 := if uid != 0 then s else Register(s, dest, data);
    NewUidUnclaimed(s);
    var free := FirstFree(s1.queue, 0);
    if free < SLOTS { EnqueueSolo(s1, free, Entry(true, Route, dest, data, env.now, 0, u)); }
    var q := QueueMessage(s1, dest, data, u, env.now);
    FailReportSolo(q.0, uid);
    AddRowSolo(q.0, Row(dest, u, true, true, NoStatus, 0, env.nowS, Clip(data)));
  }

  lemma SendSolo(s: State, dest: nat, data: seq<char>, uid: nat, env: Env)
    requires Shape(s) && Faithful(s) && Solo(s) && (uid != 0 ==> !Claimed(s, uid))
    ensures Solo(Send(s, dest, data, uid, env).0)
  {
    hide FailReport, SendActive, SendWaiting, SendUnrouted, Solo, Claimed, Faithful;
    FailReportSolo(s, uid);
    SendActiveSolo(s, dest, data, uid, env);
    SendWaitingSolo(s, dest, data, uid, env);
    SendUnroutedSolo(s, dest, data, uid, env);
  }

  lemma DrainSlotSolo(w: Since, s: State, dest: nat, i: nat, env: Env)
    requires Inv(w, s) && Solo(s) && i < SLOTS
    ensures Solo(DrainSlot(s, dest, i, env))
  {
    hide Send;
    var e := s.queue[i];
    if e.used && e.reason == Route && e.dest == dest {
      BlankKeeps(w, s, i);
      ReleaseSolo(s, i);
      assert !Claimed(Blank(s, i), e.uid);
      SendSolo(Blank(s, i), dest, e.data, e.uid, env);
      ReleaseSolo(Send(Blank(s, i), dest, e.data, e.uid, env).0, i);
    }
  }

  lemma {:induction false} DrainSolo(w: Since, s: State, dest: nat, i: nat, envs: seq<Env>)
    requires Inv(w, s) && Solo(s) && i <= SLOTS
    ensures Solo(Drain(s, dest, i, envs))
    decreases SLOTS - i
  {
    hide DrainSlot, Inv, Solo;
    if i < SLOTS {
      ShapeOf(w, s);
      DrainSlotKeeps(w, s, dest, i, At(envs, i));
      DrainSlotSolo(w, s, dest, i, At(envs, i));
      DrainSolo(w, DrainSlot(s, dest, i, At(envs, i)), dest, i + 1, envs);
    }
  }

  /** Freeing the slot before or after the frame goes out comes to the same. */
  lemma ReleaseCommutes(s: State, i: nat, uid: nat, dest: nat, data: seq<char>, now: nat, nowS: nat)
    requires Shape(s) && i < SLOTS
    ensures Release(StampSent(Transmit(s, uid, dest, data, now), uid, s.nextPkt, dest, data, nowS), i)
         == StampSent(Transmit(Release(s, i), uid, dest, data, now), uid, s.nextPkt, dest, data, nowS)
  {
  }

  lemma SessionSlotSolo(w: Since, s: State, dest: nat, i: nat, env: Env)
    requires Inv(w, s) && Solo(s) && i < SLOTS
    ensures Solo(SessionSlot(s, dest, i, env))
  {
    hide StampSent, FailReport, Transmit;
    var e := s.queue[i];
    if e.used && e.reason == Session && e.dest == dest {
      ReleaseSolo(s, i);
      var freed := Release(s, i);
      assert freed.nextPkt == s.nextPkt;
      assert !Claimed(freed, e.uid);
      if env.session == Active && env.txOk {
        ReleaseCommutes(s, i, e.uid, dest, e.data, env.now, env.nowS);
        LaunchSolo(freed, e.uid, dest, e.data, env.now, env.nowS);
      } else {
        var s1 := if env.session == Active then s.(nextPkt := s.nextPkt + 1) else s;
        FailReportSolo(s1, e.uid);
        ReleaseSolo(FailReport(s1, e.uid), i);
      }
    }
  }

  lemma {:induction false} SessionFlushSolo(w: Since, s: State, dest: nat, i: nat, envs: seq<Env>)
    requires Inv(w, s) && Solo(s) && i <= SLOTS
    ensures Solo(SessionFlush(s, dest, i, envs))
    decreases SLOTS - i
  {
    hide SessionSlot, Inv, Solo;
    if i < SLOTS {
      ShapeOf(w, s);
      SessionSlotKeeps(w, s, dest, i, At(envs, i));
      SessionSlotSolo(w, s, dest, i, At(envs, i));
      SessionFlushSolo(w, SessionSlot(s, dest, i, At(envs, i)), dest, i + 1, envs);
    }
  }

  lemma DropSolo(s: State, i: nat)
    requires Shape(s) && Solo(s) && i < SLOTS
    ensures Solo(Drop(s, i))
  {
    hide FailReport, Solo;
    FailReportSolo(s, s.queue[i].uid);
    ReleaseSolo(FailReport(s, s.queue[i].uid), i);
  }

  lemma {:induction false} ReapSolo(s: State, now: nat, i: nat)
    requires Shape(s) && Solo(s) && i <= SLOTS
    ensures Solo(Reap(s, now, i))
    decreases SLOTS - i
  {
    hide Drop, Solo, Overdue;
    if i < SLOTS {
      DropSolo(s, i);
      ReapSolo(if Overdue(s.queue[i], now) then Drop(s, i) else s, now, i + 1);
    }
  }

  lemma {:induction false} GiveUpSolo(s: State, dest: nat, i: nat)
    requires Shape(s) && Solo(s) && i <= SLOTS
    ensures Solo(GiveUp(s, dest, i))
    decreases SLOTS - i
  {
    hide Drop, Solo;
    if i < SLOTS {
      DropSolo(s, i);
      var e := s.queue[i];
      GiveUpSolo(if e.used && e.reason == Route && e.dest == dest then Drop(s, i) else s, dest, i + 1);
    }
  }

  lemma DeactivateSolo(s: State, i: nat)
    requires Solo(s) && i < |s.acks|
    ensures Solo(Deactivate(s, i))
  {
  }

  lemma GiveUpFrameSolo(s: State, i: nat)
    requires Shape(s) && Solo(s) && i < SLOTS
    ensures Solo(GiveUpFrame(s, i))
  {
    hide Solo;
    RestatusSolo(s, UpdateByPkt(s.store, s.acks[i].pkt, Failed).0);
    DeactivateSolo(s.(store := UpdateByPkt(s.store, s.acks[i].pkt, Failed).0), i);
  }

  lemma TickSlotSolo(s: State, now: nat, i: nat, k: Tick)
    requires Shape(s) && Solo(s) && i < SLOTS
    ensures Solo(TickSlot(s, now, i, k))
  {
    hide GiveUpFrame;
    GiveUpFrameSolo(s, i);
  }

  lemma {:induction false} AckTickSolo(s: State, now: nat, i: nat, ticks: seq<Tick>)
    requires Shape(s) && Solo(s) && i <= SLOTS
    ensures Solo(AckTick(s, now, i, ticks))
    decreases SLOTS - i
  {
    hide TickSlot, Solo;
    if i < SLOTS {
      TickSlotSolo(s, now, i, TickAt(ticks, i));
      AckTickSolo(TickSlot(s, now, i, TickAt(ticks, i)), now, i + 1, ticks);
    }
  }

  lemma {:induction false} FailFastSolo(s: State, dest: nat, i: nat)
    requires Shape(s) && Solo(s) && i <= SLOTS
    ensures Solo(FailFast(s, dest, i))
    decreases SLOTS - i
  {
    hide GiveUpFrame, Solo;
    if i < SLOTS {
      GiveUpFrameSolo(s, i);
      FailFastSolo(if s.acks[i].active && s.acks[i].dest == dest then GiveUpFrame(s, i) else s, dest, i + 1);
    }
  }

  lemma AckArrivesSolo(s: State, pkt: nat)
    requires Shape(s) && Solo(s)
    ensures Solo(AckArrives(s, pkt))
  {
    hide Solo;
    var i := FindAck(s.acks, pkt, 0);
    if i < SLOTS { DeactivateSolo(s, i); }
    var s1 := if i < SLOTS then Deactivate(s, i) else s;
    RestatusSolo(s1, UpdateByPkt(s1.store, pkt, Delivered).0);
  }

  // -------------------------------------- sends that start from a stored row

  /** A row whose recorded frame is not awaiting an ACK has no frame in the air. */
  lemma NothingOutstanding(s: State, uid: nat)
    requires Faithful(s) && Linked(s) && uid != 0 && FindUid(s.store, uid) >= 0
    requires !Outstanding(s.acks, s.store[FindUid(s.store, uid)].pkt)
    ensures AckFree(s.acks, uid)
  {
    var m := s.store[FindUid(s.store, uid)];
    assert m in s.store;
    forall i | 0 <= i < |s.acks| && s.acks[i].active ensures s.acks[i].uid != uid {
      assert AckTrue(s, s.acks[i]);
    }
  }

  /** The branch of a send that gives the message a queue entry or a tracked frame. */
  predicate AddsClaim(s: State, data: seq<char>, uid: nat, env: Env)
    requires Shape(s)
  {
    && env.channels
    && if !env.reachable then !Holds(s.queue, uid) && FirstFree(s.queue, 0) < SLOTS
       else
         && |data| <= MAX_DM
         && match env.session
            case Active => env.txOk && FreeAck(s.acks, 0) < SLOTS
            case Handshaking => !Holds(s.queue, uid) && MakeRoom(s).1 < SLOTS
            case Capped => false
  }

  /** A send that puts a frame on the air at once. */
  predicate Direct(data: seq<char>, env: Env) {
    env.channels && env.reachable && |data| <= MAX_DM && env.session == Active && env.txOk
  }

  /** What a send of an existing message relies on: a message that is queued or
      in the air gets no second claim, and a frame in the air no successor. */
  predicate SendClear(s: State, data: seq<char>, uid: nat, env: Env)
    requires Shape(s)
  {
    Claimed(s, uid) ==> !AddsClaim(s, data, uid, env) && (Direct(data, env) ==> AckFree(s.acks, uid))
  }

  /** The queue refuses a second entry for a uid it holds. */
  lemma HeldUnroutedSolo(s: State, dest: nat, data: seq<char>, uid: nat, env: Env)
    requires Shape(s) && Solo(s) && uid != 0 && (Holds(s.queue, uid) || FirstFree(s.queue, 0) == SLOTS)
    ensures Solo(SendUnrouted(s, dest, data, uid, env).0)
  {
    hide FailReport;
    NotHeld(s.queue, uid);
    FailReportSolo(s, uid);
  }

  lemma HeldWaitingSolo(s: State, dest: nat, data: seq<char>, uid: nat, env: Env)
    requires Shape(s) && Solo(s) && uid != 0 && (Holds(s.queue, uid) || MakeRoom(s).1 == SLOTS)
    ensures Solo(SendWaiting(s, dest, data, uid, env).0)
  {
    hide FailReport, TransmitOther;
    NotHeld(s.queue, uid);
    FailReportSolo(s, uid);
    TransmitOtherSolo(s, dest, KE_TRIES, (env.now + KE_DELAY_MS) % WRAP, uid);
  }

  /** A frame the full table cannot track, of a message with none tracked. */
  lemma UntrackedSolo(s: State, dest: nat, data: seq<char>, uid: nat, env: Env)
    requires Shape(s) && Solo(s) && uid != 0 && env.txOk && AckFree(s.acks, uid) && FreeAck(s.acks, 0) == SLOTS
    ensures Solo(SendActive(s, dest, data, uid, env).0)
  {
    SendActiveFrame(s, dest, data, uid, env);
    var s' := SendActive(s, dest, data, uid, env).0;
    forall m | m in s'.store ensures m.uid == uid || m in s.store {
      StampSentRows(Transmit(s, uid, dest, data, env.now), uid, s.nextPkt, dest, data, env.nowS, m);
    }
  }

  lemma StampSentRows(s: State, uid: nat, pkt: nat, dest: nat, data: seq<char>, nowS: nat, m: Row)
    requires Shape(s) && m in StampSent(s, uid, pkt, dest, data, nowS).store
    ensures m.uid == uid || m in s.store
  {
    if UpdateByUid(s.store, uid, pkt, Sent).1 {
      var rows := UpdateByUid(s.store, uid, pkt, Sent).0;
      var k :| 0 <= k < |rows| && rows[k] == m;
      if k != FindUid(s.store, uid) { assert s.store[k] == m; }
    }
  }

  lemma ClaimedSendSolo(s: State, dest: nat, data: seq<char>, uid: nat, env: Env)
    requires Shape(s) && Solo(s) && uid != 0 && Claimed(s, uid) && SendClear(s, data, uid, env)
    ensures Solo(Send(s, dest, data, uid, env).0)
  {
    hide FailReport, Solo, SendUnrouted, SendWaiting, Transmit, StampSent, AckFree;
    FailReportSolo(s, uid);
    FailReportSolo(s.(nextPkt := s.nextPkt + 1), uid) by { DrawPktSolo(s); }
    if env.channels && !env.reachable {
      HeldUnroutedSolo(s, dest, data, uid, env);
    } else if env.channels && |data| <= MAX_DM {
      if env.session == Handshaking { HeldWaitingSolo(s, dest, data, uid, env); }
      if env.session == Active && env.txOk { UntrackedSolo(s, dest, data, uid, env); }
    }
  }

  lemma ClearSendSolo(s: State, dest: nat, data: seq<char>, uid: nat, env: Env)
    requires Shape(s) && Faithful(s) && Solo(s) && uid != 0 && SendClear(s, data, uid, env)
    ensures Solo(Send(s, dest, data, uid, env).0)
  {
    hide Send, Solo, Faithful, SendClear;
    if Claimed(s, uid) { ClaimedSendSolo(s, dest, data, uid, env); } else { SendSolo(s, dest, data, uid, env); }
  }

  /** What the parked flush relies on for one row: a direct send does not find
      it queued. With no route, or during a handshake, a queued row may be
      flushed freely: the queue refuses the second entry. */
  predicate RowClear(s: State, uid: nat, env: Env)
    requires Shape(s)
  {
    var i := FindUid(s.store, uid);
    i >= 0 && !Outstanding(s.acks, s.store[i].pkt) && Holds(s.queue, uid) ==>
      !(Direct(s.store[i].text, env) && FreeAck(s.acks, 0) < SLOTS)
  }

  /** Parked because it is sitting in the queue: flushing it without a route
      changes nothing, and during a handshake leaves the queue as it is. */
  lemma QueuedFlushRefused(s: State, uid: nat, env: Env)
    requires Shape(s) && uid != 0 && Holds(s.queue, uid) && env.channels
    ensures !env.reachable ==> FlushRow(s, uid, env) == s
    ensures env.reachable && env.session == Handshaking ==> FlushRow(s, uid, env).queue == s.queue
  {
    NotHeld(s.queue, uid);
    var i := FindUid(s.store, uid);
    if i >= 0 && env.reachable && env.session == Handshaking {
      FailReportQueue(s, uid);
      hide FailReport;
      var q := QueueSession(s, s.store[i].peer, s.store[i].text, uid, env.now);
      FailReportQueue(q.0, uid);
    }
  }

  lemma FailReportQueue(s: State, uid: nat)
    ensures FailReport(s, uid).queue == s.queue
  {
  }

  predicate FlushClear(s: State, uids: seq<nat>, envs: seq<Env>)
    requires Shape(s)
    decreases |uids|
  {
    uids != [] ==>
      && RowClear(s, uids[0], At(envs, 0))
      && FlushClear(FlushRow(s, uids[0], At(envs, 0)), uids[1..], if envs == [] then [] else envs[1..])
  }

  lemma FlushRowSolo(s: State, uid: nat, env: Env)
    requires Shape(s) && Faithful(s) && Solo(s) && uid != 0 && RowClear(s, uid, env)
    ensures Solo(FlushRow(s, uid, env))
  {
    hide Send;
    var i := FindUid(s.store, uid);
    if i >= 0 && !Outstanding(s.acks, s.store[i].pkt) {
      NothingOutstanding(s, uid);
      ClearSendSolo(s, s.store[i].peer, s.store[i].text, uid, env);
    }
  }

  lemma FaithfulOf(w: Since, s: State)
    requires Inv(w, s)
    ensures Shape(s) && Faithful(s)
  {
  }

  lemma {:induction false} FlushRowsSolo(w: Since, s: State, uids: seq<nat>, envs: seq<Env>)
    requires Inv(w, s) && Solo(s) && (forall u :: u in uids ==> u != 0 && u in s.book)
    requires FlushClear(s, uids, envs)
    ensures Solo(FlushRows(s, uids, envs))
    decreases |uids|
  {
    hide FlushRow, Inv, Solo, Faithful, RowClear;
    if uids != [] {
      FaithfulOf(w, s);
      FlushRowKeeps(w, s, uids[0], At(envs, 0));
      FlushRowSolo(s, uids[0], At(envs, 0));
      forall u | u in uids[1..] ensures u != 0 && u in FlushRow(s, uids[0], At(envs, 0)).book {
        assert u in uids && u in s.book.Keys;
      }
      FlushRowsSolo(w, FlushRow(s, uids[0], At(envs, 0)), uids[1..], if envs == [] then [] else envs[1..]);
    }
  }

  lemma FlushParkedSolo(w: Since, s: State, peer: nat, nowS: nat, envs: seq<Env>)
    requires Inv(w, s) && Solo(s) && FlushClear(s, ParkedUids(s.store, peer, nowS), envs)
    ensures Solo(FlushParked(s, peer, nowS, envs))
  {
    hide Solo;
    forall u | u in ParkedUids(s.store, peer, nowS) ensures u in s.book {
      var m :| m in s.store && m.uid == u && m.peer == peer && Selected(m, nowS);
      assert RowTrue(s, m);
    }
    FlushRowsSolo(w, s, ParkedUids(s.store, peer, nowS), envs);
  }

  /** What Retry relies on. */
  predicate RetryClear(s: State, uid: nat, env: Env)
    requires Shape(s)
  {
    var i := FindUid(s.store, uid);
    i >= 0 && Retryable(s.store[i]) ==> SendClear(s, s.store[i].text, uid, env)
  }

  lemma RetrySolo(s: State, uid: nat, env: Env)
    requires Shape(s) && Faithful(s) && Solo(s) && RetryClear(s, uid, env)
    ensures Solo(Retry(s, uid, env))
  {
    hide Send;
    var i := FindUid(s.store, uid);
    if i >= 0 && Retryable(s.store[i]) {
      ClearSendSolo(s, s.store[i].peer, s.store[i].text, uid, env);
    }
  }

  lemma ReceiveSolo(s: State, peer: nat, text: seq<char>, nowS: nat)
    requires Shape(s) && Faithful(s) && Solo(s)
    ensures Solo(Receive(s, peer, text, nowS))
  {
    NewUidUnclaimed(s);
    AddRowSolo(s.(nextUid := s.nextUid + 1), Row(peer, s.nextUid, false, true, NoStatus, 0, nowS, Clip(text)));
  }

  // --------------------------------------------------------- over every run

  predicate StepClear(s: State, step: Step)
    requires Shape(s)
  {
    match step
    case RetryStep(uid, env) => RetryClear(s, uid, env)
    case FlushParkedStep(peer, nowS, envs) => FlushClear(s, ParkedUids(s.store, peer, nowS), envs)
    case _ => true
  }

  lemma DoSolo(w: Since, s: State, step: Step)
    requires Inv(w, s) && Solo(s) && StepClear(s, step)
    ensures Solo(Do(s, step))
  {
    hide Inv, Solo, Faithful, Send, Retry, Drain, SessionFlush, Reap, GiveUp, AckTick, FailFast, AckArrives, FlushParked, Receive, TransmitOther, Flood, FlushClear, RetryClear, Park, Unpark, Expire;
    FaithfulOf(w, s);
    match step
    case SubmitStep(dest, data, env) => SendSolo(s, dest, data, 0, env);
    case RetryStep(uid, env) => RetrySolo(s, uid, env);
    case RouteFoundStep(dest, envs) => DrainSolo(w, s, dest, 0, envs);
    case SessionUpStep(dest, envs) => SessionFlushSolo(w, s, dest, 0, envs);
    case ReapStep(now) => ReapSolo(s, now, 0);
    case GiveUpStep(dest) => GiveUpSolo(s, dest, 0);
    case AckTickStep(now, ticks) => AckTickSolo(s, now, 0, ticks);
    case RouteErrorStep(dest) => FailFastSolo(s, dest, 0);
    case AckStep(pkt) => AckArrivesSolo(s, pkt);
    case ParkStep(uid, nowS) => ParkSolo(s, uid, nowS);
    case CancelStep(uid) => CancelSolo(s, uid);
    case ExpireStep(nowS) => ExpireSolo(s, nowS);
    case FlushParkedStep(peer, nowS, envs) => FlushParkedSolo(w, s, peer, nowS, envs);
    case ReceiveStep(peer, text, nowS) => ReceiveSolo(s, peer, text, nowS);
    case OtherFrameStep(dest, limit, retryAt) => TransmitOtherSolo(s, dest, limit, retryAt, 0);
    case FloodStep => FloodSolo(s);
    case OtherIdStep => DrawPktSolo(s);
  }

  lemma ParkSolo(s: State, uid: nat, nowS: nat)
    requires Shape(s) && Solo(s)
    ensures Solo(Park(s, uid, nowS))
  {
    hide Solo;
    RestatusSolo(s, UpdateByUid(s.store, uid, 0, Queued).0);
  }

  lemma CancelSolo(s: State, uid: nat)
    requires Solo(s)
    ensures Solo(s.(store := Unpark(s.store, uid).0))
  {
    hide Solo;
    RestatusSolo(s, Unpark(s.store, uid).0);
  }

  lemma ExpireSolo(s: State, nowS: nat)
    requires Solo(s)
    ensures Solo(s.(store := Expire(s.store, nowS)))
  {
    hide Solo;
    RestatusSolo(s, Expire(s.store, nowS));
  }

  lemma FloodSolo(s: State)
    requires Solo(s)
    ensures Solo(Flood(s))
  {
  }

  lemma DrawPktSolo(s: State)
    requires Solo(s)
    ensures Solo(s.(nextPkt := s.nextPkt + 1))
  {
  }

  /** No Retry or parked flush of the run gave a claimed message a second claim. */
  predicate RunClear(s: State, steps: seq<Step>)
    requires Shape(s)
    decreases |steps|
  {
    steps != [] ==>
      RunClear(s, steps[..|steps| - 1]) && StepClear(Run(s, steps[..|steps| - 1]), steps[|steps| - 1])
  }

  lemma {:induction false} SoloEveryRun(cap: nat, firstPkt: nat, steps: seq<Step>)
    requires 0 < cap && 0 < firstPkt && RunClear(Init(cap, firstPkt), steps)
    ensures Solo(Run(Init(cap, firstPkt), steps))
    decreases |steps|
  {
    hide Inv, Do, StepClear;
    if steps != [] {
      var before := steps[..|steps| - 1];
      SoloEveryRun(cap, firstPkt, before);
      InvEveryRun(cap, firstPkt, before);
      hide Solo;
      DoSolo(Boot(), Run(Init(cap, firstPkt), before), steps[|steps| - 1]);
    }
  }

  /** One written message, one frame in the air, over every such run. */
  lemma OneFrameEveryRun(cap: nat, firstPkt: nat, steps: seq<Step>, i: nat, j: nat)
    requires 0 < cap && 0 < firstPkt && RunClear(Init(cap, firstPkt), steps)
    requires i < SLOTS && j < SLOTS && i != j
    ensures var s := Run(Init(cap, firstPkt), steps);
      && (s.acks[i].active && s.acks[i].uid != 0 ==> !(s.acks[j].active && s.acks[j].uid == s.acks[i].uid))
      && (s.acks[i].active && s.acks[i].uid != 0 ==> !Holds(s.queue, s.acks[i].uid))
  {
    hide Run, RunClear;
    SoloEveryRun(cap, firstPkt, steps);
  }

  // ----------------------------------------------- exactly when a send keeps it

  lemma UnroutedIff(s: State, dest: nat, data: seq<char>, uid: nat, env: Env)
    requires Shape(s) && Solo(s) && uid != 0 && Claimed(s, uid) && env.channels && !env.reachable
    ensures OneClaim(SendUnrouted(s, dest, data, uid, env).0) <==> !AddsClaim(s, data, uid, env)
  {
    hide FailReport;
    NotHeld(s.queue, uid);
    var q := QueueMessage(s, dest, data, uid, env.now);
    FailReportSolo(s, uid);
    if AddsClaim(s, data, uid, env) {
      var i :| 0 <= i < |s.acks| && s.acks[i].active && s.acks[i].uid == uid;
      var k := FirstFree(s.queue, 0);
      assert q.0.acks[i].uid == q.0.queue[k].uid == uid && q.0.queue[k].used;
    }
  }

  lemma SendActiveFrame(s: State, dest: nat, data: seq<char>, uid: nat, env: Env)
    requires Shape(s) && uid != 0 && env.txOk
    ensures var s' := SendActive(s, dest, data, uid, env).0;
      && s'.queue == s.queue
      && s'.acks == AckAdd(s.acks, s.nextPkt, dest, uid, DM_TRIES, (env.now + DM_DELAY_MS) % WRAP)
  {
    hide UpdateByUid, Add;
  }

  lemma ActiveIff(s: State, dest: nat, data: seq<char>, uid: nat, env: Env)
    requires Shape(s) && Solo(s) && uid != 0 && Claimed(s, uid)
    ensures OneClaim(SendActive(s, dest, data, uid, env).0) <==> !(env.txOk && FreeAck(s.acks, 0) < SLOTS)
  {
    if !env.txOk {
      FailReportSolo(s.(nextPkt := s.nextPkt + 1), uid);
    } else {
      SendActiveFrame(s, dest, data, uid, env);
      hide SendActive;
      var s' := SendActive(s, dest, data, uid, env).0;
      var f := FreeAck(s.acks, 0);
      if f < SLOTS {
        assert s'.acks[f].active && s'.acks[f].uid == uid;
        if Holds(s.queue, uid) {
          var k :| 0 <= k < |s.queue| && s.queue[k].used && s.queue[k].uid == uid;
          assert s'.queue[k].uid == s'.acks[f].uid;
        } else {
          var i :| 0 <= i < |s.acks| && s.acks[i].active && s.acks[i].uid == uid;
          assert i != f && s'.acks[i] == s.acks[i];
        }
      }
    }
  }

  lemma WaitingIff(s: State, dest: nat, data: seq<char>, uid: nat, env: Env)
    requires Shape(s) && Solo(s) && uid != 0 && Claimed(s, uid)
    ensures OneClaim(SendWaiting(s, dest, data, uid, env).0) <==> !(!Holds(s.queue, uid) && MakeRoom(s).1 < SLOTS)
  {
    hide FailReport, TransmitOther;
    NotHeld(s.queue, uid);
    var q := QueueSession(s, dest, data, uid, env.now);
    FailReportSolo(s, uid);
    if Holds(s.queue, uid) || MakeRoom(s).1 == SLOTS {
      TransmitOtherSolo(q.0, dest, KE_TRIES, (env.now + KE_DELAY_MS) % WRAP, uid);
    } else {
      var i :| 0 <= i < |s.acks| && s.acks[i].active && s.acks[i].uid == uid;
      MakeRoomAcks(s);
      TransmitOtherFrame(q.0, dest, KE_TRIES, (env.now + KE_DELAY_MS) % WRAP, i);
      var k := MakeRoom(s).1;
      var s' := SendWaiting(s, dest, data, uid, env).0;
      assert q.0.queue[k].used && q.0.queue[k].uid == uid;
      assert s'.acks[i].active && s'.acks[i].uid == s'.queue[k].uid;
    }
  }

  lemma MakeRoomAcks(s: State)
    requires Shape(s)
    ensures MakeRoom(s).0.acks == s.acks
  {
  }

  lemma TransmitOtherFrame(s: State, dest: nat, limit: nat, retryAt: nat, i: nat)
    requires i < |s.acks| && s.acks[i].active
    ensures var s' := TransmitOther(s, dest, limit, retryAt); s'.queue == s.queue && |s'.acks| == |s.acks| && s'.acks[i] == s.acks[i]
  {
  }

  /** A send keeps the message at one claim exactly when it does not add a
      queue entry or tracked frame to a message that already has one. */
  lemma SendOneClaimIff(s: State, dest: nat, data: seq<char>, uid: nat, env: Env)
    requires Shape(s) && Faithful(s) && Solo(s) && uid != 0
    ensures OneClaim(Send(s, dest, data, uid, env).0) <==> !(Claimed(s, uid) && AddsClaim(s, data, uid, env))
  {
    hide FailReport, SendActive, SendWaiting, SendUnrouted, OneClaim, Claimed, Faithful, Linked;
    if Claimed(s, uid) {
      FailReportSolo(s, uid);
      ActiveIff(s, dest, data, uid, env);
      WaitingIff(s, dest, data, uid, env);
      if env.channels && !env.reachable { UnroutedIff(s, dest, data, uid, env); }
    } else {
      SendSolo(s, dest, data, uid, env);
    }
  }

  /** The same with the row's link to its frame: a send of a stored message
      keeps one claim and a true row exactly when it is clear. */
  lemma SendSoloIff(s: State, dest: nat, data: seq<char>, uid: nat, env: Env)
    requires Shape(s) && Faithful(s) && Solo(s) && uid != 0 && FindUid(s.store, uid) >= 0
    ensures Solo(Send(s, dest, data, uid, env).0) <==> SendClear(s, data, uid, env)
  {
    hide Send, Faithful, AddsClaim, FindUid;
    if SendClear(s, data, uid, env) {
      ClearSendSolo(s, dest, data, uid, env);
    } else {
      SendOneClaimIff(s, dest, data, uid, env);
      if !AddsClaim(s, data, uid, env) { LinkLost(s, dest, data, uid, env); }
    }
  }

  /** The row records the new frame while the table still tracks the old one. */
  lemma LinkLost(s: State, dest: nat, data: seq<char>, uid: nat, env: Env)
    requires Shape(s) && Faithful(s) && uid != 0 && FindUid(s.store, uid) >= 0
    requires Direct(data, env) && !AckFree(s.acks, uid) && !AddsClaim(s, data, uid, env)
    ensures !Linked(Send(s, dest, data, uid, env).0)
  {
    var i :| 0 <= i < |s.acks| && s.acks[i].active && s.acks[i].uid == uid;
    assert AckTrue(s, s.acks[i]);
    SendActiveFrame(s, dest, data, uid, env);
    var s' := Send(s, dest, data, uid, env).0;
    var k := FindUid(s.store, uid);
    assert s'.store[k] in s'.store && s'.store[k].uid == uid && s'.store[k].pkt == s.nextPkt;
  }

  // ------------------------------------------------- and runs that break it

  function Up(): Env { Env(true, true, Active, true, false, 10, 10) }

  function Down(): Env { Env(true, false, Active, true, false, 10, 10) }

  predicate Waiting(s: State) {
    && |s.queue| == SLOTS && s.queue[0] == Entry(true, Route, 7, "hi", 10, 0, 1)
    && (forall i :: 1 <= i < SLOTS ==> !s.queue[i].used)
  }

  /** The row of uid 1 and the frames sent for it. */
  predicate Scene(s: State, firstPkt: nat, row: Row, frames: nat) {
    && Shape(s) && s.nextPkt == firstPkt + frames && frames <= 1
    && (forall i :: frames <= i < SLOTS ==> !s.acks[i].active)
    && (frames == 1 ==> s.acks[0] == Ack(true, firstPkt, 7, 1, 0, DM_TRIES, 2010))
    && s.store == [row] && row.uid == 1 && row.peer == 7 && row.text == "hi" && row.outgoing && row.dm && row.stamp == 10
  }

  lemma SceneQueued(cap: nat, firstPkt: nat)
    requires 0 < cap && 0 < firstPkt
    ensures var s := Do(Init(cap, firstPkt), SubmitStep(7, "hi", Down()));
      Waiting(s) && Scene(s, firstPkt, Row(7, 1, true, true, NoStatus, 0, 10, "hi"), 0)
  {
    assert FirstFree(Init(cap, firstPkt).queue, 0) == 0;
  }

  lemma SceneParked(s: State, firstPkt: nat, row: Row)
    requires Scene(s, firstPkt, row, 0)
    ensures var s' := Do(s, ParkStep(1, 10)); s'.queue == s.queue && Scene(s', firstPkt, row.(status := Queued), 0)
  {
    assert FindUid(s.store, 1) == 0;
  }

  /** The first frame, sent from the row or from the entry. */
  lemma SceneSent(s: State, firstPkt: nat, row: Row, frames: nat)
    requires Scene(s, firstPkt, row, frames)
    ensures var s' := Send(s, 7, "hi", 1, Up()).0;
      && s' == s.(nextPkt := s.nextPkt + 1, acks := s.acks[frames := Ack(true, s.nextPkt, 7, 1, 0, DM_TRIES, 2010)],
                  store := [row.(pkt := s.nextPkt, status := Settle(row.status, Sent))], log := s'.log)
  {
    assert FindUid(s.store, 1) == 0;
    assert FreeAck(s.acks, 0) == frames by {
      assert frames == 1 ==> FreeAck(s.acks, 1) == 1;
    }
  }

  lemma SceneFlushed(s: State, firstPkt: nat, row: Row)
    requires Scene(s, firstPkt, row, 0) && row.status == Queued
    ensures var s' := Do(s, FlushParkedStep(7, 10, [Up()])); s'.queue == s.queue && Scene(s', firstPkt, row.(pkt := firstPkt), 1)
  {
    hide Send;
    assert s.store[..0] == [];
    assert ParkedUids(s.store, 7, 10) == [1];
    assert FindUid(s.store, 1) == 0;
    SceneSent(s, firstPkt, row, 0);
    var t := FlushRow(s, 1, Up());
    assert FlushRows(t, [1][1..], []) == t;
    assert FlushParked(s, 7, 10, [Up()]) == FlushRows(t, [1][1..], [Up()][1..]);
  }

  lemma {:induction false} IdleDrain(s: State, dest: nat, i: nat, envs: seq<Env>)
    requires Shape(s) && i <= SLOTS && forall k :: i <= k < SLOTS ==> !s.queue[k].used
    ensures Drain(s, dest, i, envs) == s
    decreases SLOTS - i
  {
    if i < SLOTS { IdleDrain(s, dest, i + 1, envs); }
  }

  lemma SceneDrained(s: State, firstPkt: nat, row: Row)
    requires Waiting(s) && Scene(s, firstPkt, row, 1)
    ensures var s' := Do(s, RouteFoundStep(7, [Up()]));
      && s'.acks[0] == s.acks[0] && s'.acks[1] == Ack(true, firstPkt + 1, 7, 1, 0, DM_TRIES, 2010)
  {
    hide Send;
    var b := Blank(s, 0);
    SceneSent(b, firstPkt, row, 1);
    var t := DrainSlot(s, 7, 0, Up());
    IdleDrain(t, 7, 1, [Up()]);
    assert Drain(s, 7, 0, [Up()]) == t;
  }

  /** Queued for a route, parked, flushed while the route is back but the queue
      not yet drained, then drained: two frames of one message in the air. */
  lemma FlushWhileQueued(cap: nat, firstPkt: nat)
    requires 0 < cap && 0 < firstPkt
    ensures var s := Run(Init(cap, firstPkt),
        [SubmitStep(7, "hi", Down()), ParkStep(1, 10), FlushParkedStep(7, 10, [Up()]), RouteFoundStep(7, [Up()])]);
      && s.acks[0] == Ack(true, firstPkt, 7, 1, 0, DM_TRIES, 2010)
      && s.acks[1] == Ack(true, firstPkt + 1, 7, 1, 0, DM_TRIES, 2010)
  {
    hide Do;
    var s0 := Init(cap, firstPkt);
    var a := [SubmitStep(7, "hi", Down())];
    var b := a + [ParkStep(1, 10)];
    var c := b + [FlushParkedStep(7, 10, [Up()])];
    var d := c + [RouteFoundStep(7, [Up()])];
    assert a[..0] == [] && b[..1] == a && c[..2] == b && d[..3] == c;
    assert d == [SubmitStep(7, "hi", Down()), ParkStep(1, 10), FlushParkedStep(7, 10, [Up()]), RouteFoundStep(7, [Up()])];
    var row := Row(7, 1, true, true, NoStatus, 0, 10, "hi");
    SceneQueued(cap, firstPkt);
    SceneParked(Run(s0, a), firstPkt, row);
    SceneFlushed(Run(s0, b), firstPkt, row.(status := Queued));
    SceneDrained(Run(s0, c), firstPkt, row.(status := Queued, pkt := firstPkt));
  }

  lemma SceneLaunched(cap: nat, firstPkt: nat)
    requires 0 < cap && 0 < firstPkt
    ensures Scene(Do(Init(cap, firstPkt), SubmitStep(7, "hi", Up())), firstPkt, Row(7, 1, true, true, Sent, firstPkt, 10, "hi"), 1)
  {
    assert FreeAck(Init(cap, firstPkt).acks, 0) == 0;
  }

  lemma {:induction false} IdleFailFast(s: State, dest: nat, i: nat)
    requires Shape(s) && i <= SLOTS && forall k :: i <= k < SLOTS ==> !s.acks[k].active
    ensures FailFast(s, dest, i) == s
    decreases SLOTS - i
  {
    if i < SLOTS { IdleFailFast(s, dest, i + 1); }
  }

  lemma SceneUnrouted(s: State, firstPkt: nat, row: Row)
    requires Scene(s, firstPkt, row, 1) && row.status == Sent && row.pkt == firstPkt > 0
    ensures Scene(Do(s, RouteErrorStep(7)), firstPkt + 1, row.(status := Failed), 0)
  {
    var t := GiveUpFrame(s, 0);
    assert FindPkt(s.store, firstPkt) == 0;
    IdleFailFast(t, 7, 1);
    assert FailFast(s, 7, 0) == t;
  }

  lemma SceneCancelled(s: State, firstPkt: nat, row: Row)
    requires Scene(s, firstPkt, row, 1) && row.status == Queued
    ensures Scene(Do(s, CancelStep(1)), firstPkt, row.(status := Failed), 1)
  {
    assert FindUid(s.store, 1) == 0;
  }

  lemma SceneRetried(s: State, firstPkt: nat, row: Row)
    requires Scene(s, firstPkt, row, 1) && row.status == Failed
    ensures var s' := Do(s, RetryStep(1, Up()));
      s'.acks[0] == s.acks[0] && s'.acks[1] == Ack(true, firstPkt + 1, 7, 1, 0, DM_TRIES, 2010)
  {
    hide Send;
    assert FindUid(s.store, 1) == 0;
    SceneSent(s, firstPkt, row, 1);
  }

  lemma RunPrefix(s: State, steps: seq<Step>, n: nat)
    requires Shape(s) && n < |steps|
    ensures Run(s, steps[..n + 1]) == Do(Run(s, steps[..n]), steps[n])
  {
    hide Do;
    assert steps[..n + 1][..n] == steps[..n];
  }

  function CancelAndRetry(): seq<Step> {
    [SubmitStep(7, "hi", Up()), RouteErrorStep(7), ParkStep(1, 10), FlushParkedStep(7, 10, [Up()]), CancelStep(1), RetryStep(1, Up())]
  }

  /** No queue entry is needed: a message failed by a route error, parked and
      flushed is cancelled while its frame awaits an ACK, which makes its row
      FAILED, and Retry does not ask the pending table. */
  lemma RetryWhileOutstanding(cap: nat, firstPkt: nat)
    requires 0 < cap && 0 < firstPkt
    ensures var s := Run(Init(cap, firstPkt), CancelAndRetry());
      && s.acks[0] == Ack(true, firstPkt + 1, 7, 1, 0, DM_TRIES, 2010)
      && s.acks[1] == Ack(true, firstPkt + 2, 7, 1, 0, DM_TRIES, 2010)
  {
    hide Do;
    var s0, steps := Init(cap, firstPkt), CancelAndRetry();
    assert steps[..6] == steps && steps[..0] == [];
    forall n | 0 <= n < 6 ensures Run(s0, steps[..n + 1]) == Do(Run(s0, steps[..n]), steps[n]) { RunPrefix(s0, steps, n); }
    assert Run(s0, steps[..1]) == Do(s0, steps[0]);
    hide Scene;
    var row := Row(7, 1, true, true, Sent, firstPkt, 10, "hi");
    SceneLaunched(cap, firstPkt);
    SceneUnrouted(Run(s0, steps[..1]), firstPkt, row);
    SceneParked(Run(s0, steps[..2]), firstPkt + 1, row.(status := Failed));
    SceneFlushed(Run(s0, steps[..3]), firstPkt + 1, row.(status := Queued));
    SceneCancelled(Run(s0, steps[..4]), firstPkt + 1, row.(status := Queued, pkt := firstPkt + 1));
    SceneRetried(Run(s0, steps[..5]), firstPkt + 1, row.(status := Failed, pkt := firstPkt + 1));
  }

  // ---------------------- a flush leaves a frame that awaits its ACK alone

  /** From s to s' nothing was sent or queued for `uid`: frames in the air stay
      so, its row records the same frame, and the log says nothing of it but failures. */
  ghost predicate Spares(s: State, s': State, uid: nat) {
    && |s.acks| == |s'.acks| && (forall i :: 0 <= i < |s.acks| && s.acks[i].active ==> s'.acks[i] == s.acks[i])
    && (forall m' :: m' in s'.store && m'.uid == uid ==> exists m :: m in s.store && m.uid == uid && m.pkt == m'.pkt)
    && s.log <= s'.log
    && (forall j :: |s.log| <= j < |s'.log| ==> !Sends(s'.log[j], uid))
  }

  predicate Sends(e: Event, uid: nat) { (e.Transmitted? || e.Enqueued?) && e.uid == uid }

  lemma SparesTrans(s: State, t: State, u: State, uid: nat)
    requires Spares(s, t, uid) && Spares(t, u, uid)
    ensures Spares(s, u, uid)
  {
    forall m' | m' in u.store && m'.uid == uid ensures exists m :: m in s.store && m.uid == uid && m.pkt == m'.pkt {
      var k :| k in t.store && k.uid == uid && k.pkt == m'.pkt;
    }
    forall j | |s.log| <= j < |u.log| ensures !Sends(u.log[j], uid) {
      if j < |t.log| { assert u.log[j] == t.log[j]; }
    }
  }

  lemma FailReportSpares(s: State, v: nat, uid: nat)
    ensures Spares(s, FailReport(s, v), uid)
  {
    hide UpdateByUid;
    FailReportRows(s, v);
    var s' := FailReport(s, v);
    forall m' | m' in s'.store && m'.uid == uid ensures exists m :: m in s.store && m.uid == uid && m.pkt == m'.pkt {
      var k :| 0 <= k < |s'.store| && s'.store[k] == m';
      var m := s.store[k];
      assert m in s.store && m.uid == uid && m.pkt == m'.pkt;
    }
  }

  lemma FailReportRows(s: State, v: nat)
    ensures var s' := FailReport(s, v);
      |s'.store| == |s.store| && forall k :: 0 <= k < |s.store| ==> s'.store[k].uid == s.store[k].uid && s'.store[k].pkt == s.store[k].pkt
  {
  }

  lemma TransmitSpares(s: State, u: nat, dest: nat, data: seq<char>, now: nat, uid: nat)
    requires u != uid
    ensures Spares(s, Transmit(s, u, dest, data, now), uid)
  {
  }

  lemma TransmitOtherSpares(s: State, dest: nat, limit: nat, retryAt: nat, uid: nat)
    ensures Spares(s, TransmitOther(s, dest, limit, retryAt), uid)
  {
  }

  lemma StampSentSpares(s: State, u: nat, pkt: nat, dest: nat, data: seq<char>, nowS: nat, uid: nat)
    requires Shape(s) && u != uid
    ensures Spares(s, StampSent(s, u, pkt, dest, data, nowS), uid)
  {
    if UpdateByUid(s.store, u, pkt, Sent).1 {
      var s' := StampSent(s, u, pkt, dest, data, nowS);
      forall m' | m' in s'.store && m'.uid == uid ensures m' in s.store {
        var k :| 0 <= k < |s'.store| && s'.store[k] == m';
        assert s.store[k] == m';
      }
    }
  }

  lemma QueueSpares(s: State, dest: nat, data: seq<char>, u: nat, now: nat, uid: nat)
    requires Shape(s) && u != uid
    ensures Spares(s, QueueMessage(s, dest, data, u, now).0, uid)
    ensures Spares(s, QueueSession(s, dest, data, u, now).0, uid)
  {
    hide FailReport;
    if FirstFree(s.queue, 0) == SLOTS && OldestSession(s.queue, SLOTS) < SLOTS {
      FailReportSpares(s, s.queue[OldestSession(s.queue, SLOTS)].uid, uid);
    }
  }

  /** Sending one message spares every other. */
  lemma SendSpares(s: State, dest: nat, data: seq<char>, u: nat, env: Env, uid: nat)
    requires Shape(s) && u != 0 && u != uid
    ensures Spares(s, Send(s, dest, data, u, env).0, uid)
  {
    hide FailReport, QueueMessage, QueueSession, Transmit, TransmitOther, StampSent, Spares;
    FailReportSpares(s, u, uid);
    FailReportSpares(s.(nextPkt := s.nextPkt + 1), u, uid);
    DrawSpares(s, FailReport(s.(nextPkt := s.nextPkt + 1), u), uid);
    QueueSpares(s, dest, data, u, env.now, uid);
    var qm := QueueMessage(s, dest, data, u, env.now).0;
    FailReportSpares(qm, u, uid);
    SparesTrans(s, qm, FailReport(qm, u), uid);
    var qs := QueueSession(s, dest, data, u, env.now).0;
    FailReportSpares(qs, u, uid);
    SparesTrans(s, qs, FailReport(qs, u), uid);
    var hs := TransmitOther(qs, dest, KE_TRIES, (env.now + KE_DELAY_MS) % WRAP);
    TransmitOtherSpares(qs, dest, KE_TRIES, (env.now + KE_DELAY_MS) % WRAP, uid);
    SparesTrans(s, qs, hs, uid);
    var tx := Transmit(s, u, dest, data, env.now);
    TransmitShape(s, u, dest, data, env.now);
    TransmitSpares(s, u, dest, data, env.now, uid);
    StampSentSpares(tx, u, s.nextPkt, dest, data, env.nowS, uid);
    SparesTrans(s, tx, StampSent(tx, u, s.nextPkt, dest, data, env.nowS), uid);
  }

  lemma TransmitShape(s: State, u: nat, dest: nat, data: seq<char>, now: nat)
    requires Shape(s)
    ensures Shape(Transmit(s, u, dest, data, now))
  {
  }

  lemma DrawSpares(s: State, s': State, uid: nat)
    requires Spares(s.(nextPkt := s.nextPkt + 1), s', uid)
    ensures Spares(s, s', uid)
  {
  }

  /** The message's recorded frame, if it still has a row, is in the air. */
  predicate InTheAir(s: State, uid: nat, pkt: nat) {
    Outstanding(s.acks, pkt) && forall m :: m in s.store && m.uid == uid ==> m.pkt == pkt
  }

  lemma FlushRowSpares(s: State, u: nat, env: Env, uid: nat, pkt: nat)
    requires Shape(s) && u != 0 && InTheAir(s, uid, pkt)
    ensures Spares(s, FlushRow(s, u, env), uid) && InTheAir(FlushRow(s, u, env), uid, pkt)
  {
    hide Send;
    var i := FindUid(s.store, u);
    assert i >= 0 ==> s.store[i] in s.store;
    assert Spares(s, s, uid);
    if u != uid && i >= 0 && !Outstanding(s.acks, s.store[i].pkt) {
      SendSpares(s, s.store[i].peer, s.store[i].text, u, env, uid);
      var s' := FlushRow(s, u, env);
      var k :| 0 <= k < |s.acks| && s.acks[k].active && s.acks[k].pkt == pkt;
      assert s'.acks[k] == s.acks[k];
    }
  }

  lemma {:induction false} FlushRowsSpares(s: State, uids: seq<nat>, envs: seq<Env>, uid: nat, pkt: nat)
    requires Shape(s) && InTheAir(s, uid, pkt) && 0 !in uids
    ensures Spares(s, FlushRows(s, uids, envs), uid)
    decreases |uids|
  {
    hide FlushRow, InTheAir;
    if uids == [] {
      assert FlushRows(s, uids, envs) == s;
    } else {
      var t := FlushRow(s, uids[0], At(envs, 0));
      var rest := if envs == [] then [] else envs[1..];
      assert uids[0] in uids && 0 !in uids[1..];
      FlushRowSpares(s, uids[0], At(envs, 0), uid, pkt);
      FlushRowsSpares(t, uids[1..], rest, uid, pkt);
      hide Spares;
      SparesTrans(s, t, FlushRows(t, uids[1..], rest), uid);
    }
  }

  /** In every reachable state, a parked flush neither sends nor queues a
      message whose recorded frame still awaits its ACK. */
  lemma FlushSparesOutstanding(cap: nat, firstPkt: nat, steps: seq<Step>, i: nat, peer: nat, nowS: nat, envs: seq<Env>, j: nat)
    requires 0 < cap && 0 < firstPkt
    requires var s := Run(Init(cap, firstPkt), steps); i < |s.store| && Outstanding(s.acks, s.store[i].pkt)
    ensures var s := Run(Init(cap, firstPkt), steps);
      var s' := FlushParked(s, peer, nowS, envs);
      |s.log| <= j < |s'.log| ==> !Sends(s'.log[j], s.store[i].uid)
  {
    hide Run, FlushRows;
    InvEveryRun(cap, firstPkt, steps);
    var s := Run(Init(cap, firstPkt), steps);
    var m := s.store[i];
    FlushRowsSpares(s, ParkedUids(s.store, peer, nowS), envs, m.uid, m.pkt);
  }
}
