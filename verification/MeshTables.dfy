/**
 * The send pipeline as the firmware runs it: the queue and the pending-ACK
 * table are fixed arrays scanned and changed in place, the message store is a
 * ring, and a drain re-enters the send path while it walks the queue
 * (main/mesh_task.c, main/mesh_dm.c, main/rerr_ack_fastfail.c).
 *
 * Every method is proved to take the abstract state to exactly the one the
 * matching function of `Pipeline` gives, so the theorems over its runs are
 * theorems about these methods.
 */
module MeshTables {
  import opened Basics
  import opened MsgStore
  import opened Pipeline

  class Mesh {
    const queue: array<Entry>
    const acks: array<Ack>
    const store: Ring
    var nextPkt: nat
    var nextUid: nat
    ghost var log: seq<Event>
    ghost var book: map<nat, Message>

    ghost predicate Valid()
      reads this, queue, acks, store, store.slots
    {
      && queue.Length == SLOTS && acks.Length == SLOTS
      && store.Valid() && 0 < nextPkt && 0 < nextUid
    }

    /** The pipeline state the tables stand for. */
    ghost function Abs(): (s: State)
      reads this, queue, acks, store, store.slots
      requires Valid()
      ensures Shape(s)
    {
      State(queue[..], acks[..], store.rows, store.slots.Length, nextPkt, nextUid, log, book)
    }

    constructor (cap: nat, firstPkt: nat)
      requires 0 < cap && 0 < firstPkt
      ensures Valid() && Abs() == Init(cap, firstPkt)
      ensures fresh(queue) && fresh(acks) && fresh(store) && fresh(store.slots)
    {
      queue := new Entry[SLOTS](i => Entry(false, Route, 0, [], 0, 0, 0));
      acks := new Ack[SLOTS](i => Ack(false, 0, 0, 0, 0, 0, 0));
      store := new Ring(cap, Row(0, 0, false, false, NoStatus, 0, 0, []));
      nextPkt, nextUid, log, book := firstPkt, 1, [], map[];
    }

    // --------------------------------------------------------------- scans

    method FindQueued(uid: nat) returns (i: nat)
      requires Valid()
      ensures i == IndexOfUid(queue[..], uid, 0)
    {
      i := 0;
      while i < SLOTS && !(queue[i].used && queue[i].uid == uid)
        invariant i <= SLOTS
        invariant IndexOfUid(queue[..], uid, 0) == IndexOfUid(queue[..], uid, i)
      {
        i := i + 1;
      }
    }

    method FindFree() returns (i: nat)
      requires Valid()
      ensures i == FirstFree(queue[..], 0)
    {
      i := 0;
      while i < SLOTS && queue[i].used
        invariant i <= SLOTS
        invariant FirstFree(queue[..], 0) == FirstFree(queue[..], i)
      {
        i := i + 1;
      }
    }

    method FindOldestSession() returns (best: nat)
      requires Valid()
      ensures best == OldestSession(queue[..], SLOTS)
    {
      best := SLOTS;
      for i := 0 to SLOTS
        invariant best == OldestSession(queue[..], i)
      {
        var e := queue[i];
        if e.used && e.reason == Session && (best == SLOTS || e.stamp < queue[best].stamp) {
          best := i;
        }
      }
    }

    method FindFreeAck() returns (i: nat)
      requires Valid()
      ensures i == FreeAck(acks[..], 0)
    {
      i := 0;
      while i < SLOTS && acks[i].active
        invariant i <= SLOTS
        invariant FreeAck(acks[..], 0) == FreeAck(acks[..], i)
      {
        i := i + 1;
      }
    }

    method FindPending(pkt: nat) returns (i: nat)
      requires Valid()
      ensures i == FindAck(acks[..], pkt, 0)
    {
      i := 0;
      while i < SLOTS && !(acks[i].active && acks[i].pkt == pkt)
        invariant i <= SLOTS
        invariant FindAck(acks[..], pkt, 0) == FindAck(acks[..], pkt, i)
      {
        i := i + 1;
      }
    }

    // --------------------------------------------------------------- moves

    method ReportFailure(uid: nat)
      requires Valid()
      modifies this`log, store, store.slots
      ensures Valid() && Abs() == FailReport(old(Abs()), uid)
    {
      if uid != 0 {
        var _ := store.Update(uid, 0, Failed);
        log := log + [FailReported(uid)];
      }
    }

    method Put(i: nat, e: Entry)
      requires Valid() && i < SLOTS
      modifies this`log, queue
      ensures Valid() && Abs() == Enqueue(old(Abs()), i, e)
    {
      queue[i] := e;
      log := log + [Enqueued(e.uid)];
    }

    method Free(i: nat)
      requires Valid() && i < SLOTS
      modifies queue
      ensures Valid() && Abs() == Release(old(Abs()), i)
    {
      queue[i] := queue[i].(used := false);
    }

    method TakeUid(i: nat)
      requires Valid() && i < SLOTS
      modifies queue
      ensures Valid() && Abs() == Blank(old(Abs()), i)
    {
      queue[i] := queue[i].(uid := 0);
    }

    method DrawPkt() returns (pkt: nat)
      requires Valid()
      modifies this`nextPkt
      ensures Valid() && pkt == old(nextPkt) && Abs() == old(Abs()).(nextPkt := pkt + 1)
    {
      pkt := nextPkt;
      nextPkt := nextPkt + 1;
    }

    /** pending_ack_add. */
    method Track(pkt: nat, dest: nat, uid: nat, limit: nat, retryAt: nat)
      requires Valid()
      modifies acks
      ensures Valid() && Abs() == old(Abs()).(acks := AckAdd(old(acks[..]), pkt, dest, uid, limit, retryAt))
    {
      var i := FindFreeAck();
      if i < SLOTS {
        acks[i] := Ack(true, pkt, dest, uid, 0, limit, retryAt);
      }
    }

    method TransmitDm(uid: nat, dest: nat, data: seq<char>, now: nat) returns (pkt: nat)
      requires Valid()
      modifies this`nextPkt, this`log, acks
      ensures Valid() && pkt == old(nextPkt) && Abs() == Transmit(old(Abs()), uid, dest, data, now)
    {
      pkt := DrawPkt();
      Track(pkt, dest, uid, DM_TRIES, (now + DM_DELAY_MS) % WRAP);
      log := log + [Transmitted(uid, pkt, dest, data)];
    }

    method TransmitKe(dest: nat, limit: nat, retryAt: nat)
      requires Valid()
      modifies this`nextPkt, this`log, acks
      ensures Valid() && Abs() == TransmitOther(old(Abs()), dest, limit, retryAt)
    {
      var pkt := DrawPkt();
      Track(pkt, dest, 0, limit, retryAt);
      log := log + [OtherSent(pkt, dest)];
    }

    method StampRow(uid: nat, pkt: nat, dest: nat, data: seq<char>, nowS: nat)
      requires Valid()
      modifies store, store.slots
      ensures Valid() && Abs() == StampSent(old(Abs()), uid, pkt, dest, data, nowS)
    {
      var found := store.Update(uid, pkt, Sent);
      if !found {
        store.AddRow(Row(dest, uid, true, true, Sent, pkt, nowS, Clip(data)));
      }
    }

    method NewMessage(dest: nat, data: seq<char>) returns (uid: nat)
      requires Valid()
      modifies this`nextUid, this`book
      ensures Valid() && uid == old(nextUid) && Abs() == Register(old(Abs()), dest, data)
    {
      uid := nextUid;
      book := book[uid := Message(dest, data)];
      nextUid := nextUid + 1;
    }

    // ------------------------------------------------------------ handlers

    /** queue_message. */
    method QueueForRoute(dest: nat, data: seq<char>, uid: nat, now: nat) returns (ok: bool)
      requires Valid()
      modifies this`log, queue
      ensures Valid() && (Abs(), ok) == QueueMessage(old(Abs()), dest, data, uid, now)
    {
      if uid != 0 {
        var at := FindQueued(uid);
        if at < SLOTS {
          return true;
        }
      }
      var free := FindFree();
      if free == SLOTS {
        return false;
      }
      Put(free, Entry(true, Route, dest, data, now, 0, uid));
      ok := true;
    }

    /** The slot search of queue_session_message, evicting the oldest waiter. */
    method ClearSlot() returns (i: nat)
      requires Valid()
      modifies this`log, queue, store, store.slots
      ensures Valid() && (Abs(), i) == MakeRoom(old(Abs()))
    {
      hide FailReport;
      i := FindFree();
      if i == SLOTS {
        i := FindOldestSession();
        if i < SLOTS {
          ReportFailure(queue[i].uid);
          Free(i);
        }
      }
    }

    /** queue_session_message. */
    method QueueForSession(dest: nat, data: seq<char>, uid: nat, now: nat) returns (pkt: nat)
      requires Valid()
      modifies this`log, this`nextPkt, queue, store, store.slots
      ensures Valid() && (Abs(), pkt) == QueueSession(old(Abs()), dest, data, uid, now)
    {
      hide MakeRoom;
      if uid != 0 {
        var at := FindQueued(uid);
        if at < SLOTS {
          return queue[at].pkt;
        }
      }
      var i := ClearSlot();
      if i == SLOTS {
        FullRoomChangesNothing(old(Abs()));
        return 0;
      }
      pkt := DrawPkt();
      Put(i, Entry(true, Session, dest, data, now, pkt, uid));
    }

    /** mesh_send_dm. */
    method SendDirect(dest: nat, data: seq<char>, uid: nat, env: Env) returns (pkt: nat)
      requires Valid()
      modifies this, queue, acks, store, store.slots
      ensures Valid() && (Abs(), pkt) == SendDm(old(Abs()), dest, data, uid, env)
    {
      hide FailReport, QueueSession, Transmit, StampSent, TransmitOther;
      if |data| > MAX_DM || env.session == Capped {
        ReportFailure(uid);
        return 0;
      }
      if env.session == Active {
        if !env.txOk {
          pkt := DrawPkt();
          ReportFailure(uid);
          return 0;
        }
        var u := uid;
        if uid == 0 {
          u := NewMessage(dest, data);
        }
        pkt := TransmitDm(u, dest, data, env.now);
        StampRow(u, pkt, dest, data, env.nowS);
      } else {
        var u := uid;
        if uid == 0 {
          u := NewMessage(dest, data);
        }
        pkt := QueueForSession(dest, data, u, env.now);
        if pkt == 0 {
          ReportFailure(uid);
          return;
        }
        if env.initTx {
          TransmitKe(dest, KE_TRIES, (env.now + KE_DELAY_MS) % WRAP);
        }
        if uid == 0 {
          store.AddRow(Row(dest, u, true, true, NoStatus, 0, env.nowS, Clip(data)));
        }
      }
    }

    /** mesh_send_message_uid. */
    method SendMessage(dest: nat, data: seq<char>, uid: nat, env: Env) returns (r: nat)
      requires Valid()
      modifies this, queue, acks, store, store.slots
      ensures Valid() && (Abs(), r) == Send(old(Abs()), dest, data, uid, env)
    {
      hide FailReport, QueueMessage, SendDm;
      if !env.channels {
        ReportFailure(uid);
        return 0;
      }
      if env.reachable {
        r := SendDirect(dest, data, uid, env);
        return;
      }
      var u := uid;
      if uid == 0 {
        u := NewMessage(dest, data);
      }
      var ok := QueueForRoute(dest, data, u, env.now);
      if !ok {
        ReportFailure(uid);
        return 0;
      }
      if uid == 0 {
        store.AddRow(Row(dest, u, true, true, NoStatus, 0, env.nowS, Clip(data)));
      }
      r := 1;
    }

    /** flush_queued_messages: walk the queue, sending each entry for `dest`
        through a path that may itself queue, evict and store. */
    method DrainQueue(dest: nat, envs: seq<Env>)
      requires Valid()
      modifies this, queue, acks, store, store.slots
      ensures Valid() && Abs() == Drain(old(Abs()), dest, 0, envs)
    {
      hide Send;
      for i := 0 to SLOTS
        invariant Valid()
        invariant Drain(Abs(), dest, i, envs) == Drain(old(Abs()), dest, 0, envs)
      {
        var e := queue[i];
        if e.used && e.reason == Route && e.dest == dest {
          TakeUid(i);
          var _ := SendMessage(dest, e.data, e.uid, At(envs, i));
          Free(i);
        }
      }
    }

    /** One slot of flush_session_queue. */
    method FlushSessionSlot(dest: nat, i: nat, env: Env)
      requires Valid() && i < SLOTS
      modifies this, queue, acks, store, store.slots
      ensures Valid() && Abs() == SessionSlot(old(Abs()), dest, i, env)
    {
      hide FailReport, Transmit, StampSent;
      var e := queue[i];
      if e.used && e.reason == Session && e.dest == dest {
        if env.session == Active && env.txOk {
          var pkt := TransmitDm(e.uid, dest, e.data, env.now);
          StampRow(e.uid, pkt, dest, e.data, env.nowS);
        } else {
          if env.session == Active {
            var _ := DrawPkt();
          }
          ReportFailure(e.uid);
        }
        Free(i);
      }
    }

    /** flush_session_queue. */
    method FlushSessionQueue(dest: nat, envs: seq<Env>)
      requires Valid()
      modifies this, queue, acks, store, store.slots
      ensures Valid() && Abs() == SessionFlush(old(Abs()), dest, 0, envs)
    {
      hide SessionSlot;
      for i := 0 to SLOTS
        invariant Valid()
        invariant SessionFlush(Abs(), dest, i, envs) == SessionFlush(old(Abs()), dest, 0, envs)
      {
        FlushSessionSlot(dest, i, At(envs, i));
      }
    }

    method FailAndFree(i: nat)
      requires Valid() && i < SLOTS
      modifies this`log, queue, store, store.slots
      ensures Valid() && Abs() == Drop(old(Abs()), i)
    {
      hide FailReport;
      ReportFailure(queue[i].uid);
      Free(i);
    }

    /** The queue reaper. */
    method ReapQueue(now: nat)
      requires Valid()
      modifies this`log, queue, store, store.slots
      ensures Valid() && Abs() == Reap(old(Abs()), now, 0)
    {
      hide Drop, Overdue;
      for i := 0 to SLOTS
        invariant Valid()
        invariant Reap(Abs(), now, i) == Reap(old(Abs()), now, 0)
      {
        if Overdue(queue[i], now) {
          FailAndFree(i);
        }
      }
    }

    /** Route discovery gave up on `dest`. */
    method GiveUpOn(dest: nat)
      requires Valid()
      modifies this`log, queue, store, store.slots
      ensures Valid() && Abs() == GiveUp(old(Abs()), dest, 0)
    {
      hide Drop;
      for i := 0 to SLOTS
        invariant Valid()
        invariant GiveUp(Abs(), dest, i) == GiveUp(old(Abs()), dest, 0)
      {
        var e := queue[i];
        if e.used && e.reason == Route && e.dest == dest {
          FailAndFree(i);
        }
      }
    }

    method FailFrame(i: nat)
      requires Valid() && i < SLOTS
      modifies acks, store, store.slots
      ensures Valid() && Abs() == GiveUpFrame(old(Abs()), i)
    {
      var _ := store.UpdateStatus(acks[i].pkt, Failed);
      acks[i] := acks[i].(active := false);
    }

    /** One entry of the ACK retry tick. */
    method RetrySlot(now: nat, i: nat, k: Tick)
      requires Valid() && i < SLOTS
      modifies this`log, acks, store, store.slots
      ensures Valid() && Abs() == TickSlot(old(Abs()), now, i, k)
    {
      hide GiveUpFrame;
      var a := acks[i];
      if a.active && now >= a.retryAt {
        if a.attempt >= a.limit {
          FailFrame(i);
        } else {
          acks[i] := a.(attempt := a.attempt + 1, retryAt := (now + Backoff(a.limit, a.attempt + 1, k.rnd)) % WRAP);
          if k.txOk {
            log := log + [Retransmitted(a.pkt)];
          }
        }
      }
    }

    /** The ACK retry tick. */
    method RetryTick(now: nat, ticks: seq<Tick>)
      requires Valid()
      modifies this`log, acks, store, store.slots
      ensures Valid() && Abs() == AckTick(old(Abs()), now, 0, ticks)
    {
      hide TickSlot;
      for i := 0 to SLOTS
        invariant Valid()
        invariant AckTick(Abs(), now, i, ticks) == AckTick(old(Abs()), now, 0, ticks)
      {
        RetrySlot(now, i, TickAt(ticks, i));
      }
    }

    /** rerr_ack_failfast_for_dest. */
    method FailFastFor(dest: nat)
      requires Valid()
      modifies acks, store, store.slots
      ensures Valid() && Abs() == FailFast(old(Abs()), dest, 0)
    {
      hide GiveUpFrame;
      for i := 0 to SLOTS
        invariant Valid()
        invariant FailFast(Abs(), dest, i) == FailFast(old(Abs()), dest, 0)
      {
        if acks[i].active && acks[i].dest == dest {
          FailFrame(i);
        }
      }
    }

    /** The effects of handle_ack for an ACK addressed to this node. */
    method TakeAck(pkt: nat)
      requires Valid()
      modifies acks, store, store.slots
      ensures Valid() && Abs() == AckArrives(old(Abs()), pkt)
    {
      var i := FindPending(pkt);
      if i < SLOTS {
        acks[i] := acks[i].(active := false);
      }
      var _ := store.UpdateStatus(pkt, Delivered);
    }

    /** mesh_park_message. */
    method ParkMessage(uid: nat, nowS: nat)
      requires Valid()
      modifies store, store.slots
      ensures Valid() && Abs() == Park(old(Abs()), uid, nowS)
    {
      if uid != 0 {
        var i := store.Newest(uid);
        if i >= 0 && !PastWindow(store.slots[store.At(i)], nowS) {
          var _ := store.Update(uid, 0, Queued);
        }
      }
    }

    /** One row of mesh_flush_parked_for. */
    method FlushParkedRow(uid: nat, env: Env)
      requires Valid()
      modifies this, queue, acks, store, store.slots
      ensures Valid() && Abs() == FlushRow(old(Abs()), uid, env)
    {
      hide Send;
      var i := store.Newest(uid);
      if i >= 0 {
        var m := store.slots[store.At(i)];
        var k := FindPending(m.pkt);
        if m.pkt == 0 || k == SLOTS {
          var _ := SendMessage(m.peer, m.text, uid, env);
        }
      }
    }

    /** mesh_flush_parked_for. */
    method FlushParkedFor(peer: nat, nowS: nat, envs: seq<Env>)
      requires Valid()
      modifies this, queue, acks, store, store.slots
      ensures Valid() && Abs() == FlushParked(old(Abs()), peer, nowS, envs)
    {
      hide FlushRow;
      var uids := store.UidsFor(peer, nowS);
      for i := 0 to |uids|
        invariant Valid()
        invariant FlushRows(Abs(), uids[i..], From(envs, i)) == FlushRows(old(Abs()), uids, envs)
      {
        FlushParkedRow(uids[i], At(envs, i));
        assert uids[i..][1..] == uids[i + 1..];
        FromStep(envs, i);
      }
    }
  }

  /** The environments left for the rows from i on. */
  function From(envs: seq<Env>, i: nat): (r: seq<Env>) { if i <= |envs| then envs[i..] else [] }

  lemma FromStep(envs: seq<Env>, i: nat)
    ensures At(From(envs, i), 0) == At(envs, i)
    ensures (if From(envs, i) == [] then [] else From(envs, i)[1..]) == From(envs, i + 1)
  {
  }

  /** A full queue with nobody waiting for a session is left alone. */
  lemma FullRoomChangesNothing(s: State)
    requires Shape(s) && MakeRoom(s).1 == SLOTS
    ensures MakeRoom(s).0 == s
  {
  }
}
