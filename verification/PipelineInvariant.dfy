/**
 * What every step of the send pipeline keeps, whatever the order of route
 * finds, session establishments, timeouts, ACKs, parks and flushes:
 *
 *  - at most one used queue entry per message, across both queue reasons,
 *    eviction and the re-entrant drain;
 *  - conservation: a message that was queued and is queued no longer has since
 *    been transmitted or had a failure reported for its row;
 *  - every frame on the air carries exactly what the user submitted under its
 *    uid, to the destination the user named;
 *  - a row's packet id names a frame transmitted for that very row.
 */
module PipelineInvariant {
  import opened Basics
  import opened MsgStore
  import opened Pipeline

  // ------------------------------------------------------------- definitions

  /** A point in the past to account from: the log as it was, the uids queued
      then, the next packet id and the book. */
  datatype Since = Since(log: seq<Event>, held: set<nat>, pkt: nat, book: map<nat, Message>)

  /** Queued at that point or since, and the last thing said about it is that. */
  predicate Owed(w: Since, log: seq<Event>, uid: nat)
    decreases |log|
  {
    if |log| <= |w.log| then uid in w.held
    else
      match log[|log| - 1]
      case Enqueued(u) => if u == uid then true else Owed(w, log[..|log| - 1], uid)
      case Transmitted(u, _, _, _) => if u == uid then false else Owed(w, log[..|log| - 1], uid)
      case FailReported(u) => if u == uid then false else Owed(w, log[..|log| - 1], uid)
      case OtherSent(_, _) => Owed(w, log[..|log| - 1], uid)
      case Retransmitted(_) => Owed(w, log[..|log| - 1], uid)
  }

  /** One used entry per uid; only the slot a drain is consuming may lack one. */
  predicate OneEntry(q: seq<Entry>, busy: int) {
    && (forall i :: 0 <= i < |q| && q[i].used && i != busy ==> q[i].uid != 0)
    && (forall i, j :: 0 <= i < j < |q| && q[i].used && q[j].used && q[i].uid == q[j].uid ==> q[i].uid == 0)
  }

  /** Nothing queued ever vanishes silently. `except` is a uid in the drain's hands. */
  ghost predicate Conserved(w: Since, s: State, except: nat) {
    && 0 !in w.held
    && forall uid :: uid != except && Owed(w, s.log, uid) ==> Holds(s.queue, uid)
  }

  /** A frame went on the air for the first time. */
  predicate IsSent(e: Event) { e.Transmitted? || e.OtherSent? }

  /** History is only added to, and new frames get new packet ids. */
  predicate Ahead(w: Since, s: State) {
    && w.log <= s.log && w.pkt <= s.nextPkt
    && (forall j :: |w.log| <= j < |s.log| && IsSent(s.log[j]) ==> w.pkt <= s.log[j].pkt)
    && (forall u :: u in w.book ==> u in s.book && s.book[u] == w.book[u])
  }

  /** The text of a row, or a queue entry refilled from it, against the submitted text. */
  predicate Carries(data: seq<char>, submitted: seq<char>) { data == submitted || data == Clip(submitted) }

  predicate EntryTrue(s: State, e: Entry) {
    e.used && e.uid != 0 ==>
      && e.uid < s.nextUid && e.uid in s.book && e.dest == s.book[e.uid].dest && Carries(e.data, s.book[e.uid].data)
      && (e.reason == Session ==> |e.data| <= MAX_DM)
  }

  predicate RowTrue(s: State, m: Row) {
    && 0 < m.uid < s.nextUid
    && (m.uid in s.book ==> m.outgoing && m.dm)
    && (m.outgoing && m.dm ==> m.uid in s.book && m.peer == s.book[m.uid].dest && m.text == Clip(s.book[m.uid].data))
    && (!(m.outgoing && m.dm) ==> m.pkt == 0)
    && (m.pkt != 0 ==> m.uid in s.book && Transmitted(m.uid, m.pkt, m.peer, s.book[m.uid].data) in s.log)
  }

  predicate EventTrue(s: State, e: Event) {
    match e
    case Enqueued(u) => 0 < u < s.nextUid
    case FailReported(u) => 0 < u < s.nextUid
    case Transmitted(u, p, d, x) => 0 < u < s.nextUid && 0 < p < s.nextPkt && u in s.book && s.book[u] == Message(d, x)
    case OtherSent(p, _) => 0 < p < s.nextPkt
    case Retransmitted(p) => p < s.nextPkt
  }

  predicate AckTrue(s: State, a: Ack) {
    a.active ==> 0 < a.pkt < s.nextPkt && a.uid < s.nextUid
  }

  /** No two frames share a packet id. */
  predicate DistinctPkts(log: seq<Event>) {
    forall i, j :: 0 <= i < j < |log| && IsSent(log[i]) && IsSent(log[j]) ==> log[i].pkt != log[j].pkt
  }

  predicate Faithful(s: State) {
    && (forall i :: 0 <= i < |s.queue| ==> EntryTrue(s, s.queue[i]))
    && (forall m :: m in s.store ==> RowTrue(s, m))
    && (forall e :: e in s.log ==> EventTrue(s, e))
    && (forall i :: 0 <= i < |s.acks| ==> AckTrue(s, s.acks[i]))
    && (forall u :: u in s.book ==> 0 < u < s.nextUid)
    && DistinctUids(s.store)
    && DistinctPkts(s.log)
  }

  /** The invariant inside a handler: `busy` is the slot being drained or -1,
      `except` the uid that slot held, until the nested send has placed it. */
  ghost predicate Holding(w: Since, s: State, busy: int, except: nat) {
    Shape(s) && Ahead(w, s) && OneEntry(s.queue, busy) && Conserved(w, s, except) && Faithful(s)
  }

  ghost predicate Inv(w: Since, s: State) { Holding(w, s, -1, 0) }

  // ------------------------------------------------------- the moves keep it

  lemma OwedAppend(w: Since, log: seq<Event>, e: Event, uid: nat)
    requires |w.log| <= |log|
    ensures Owed(w, log + [e], uid) ==
      match e
      case Enqueued(u) => u == uid || Owed(w, log, uid)
      case Transmitted(u, _, _, _) => u != uid && Owed(w, log, uid)
      case FailReported(u) => u != uid && Owed(w, log, uid)
      case OtherSent(_, _) => Owed(w, log, uid)
      case Retransmitted(_) => Owed(w, log, uid)
  {
    assert (log + [e])[..|log|] == log;
  }

  /** A status update or stamp touches one row and keeps its identity. */
  lemma StampKeepsFaithful(s: State, uid: nat, pkt: nat, st: Status)
    requires Faithful(s)
    requires pkt != 0 ==> uid in s.book && Transmitted(uid, pkt, s.book[uid].dest, s.book[uid].data) in s.log
    ensures Faithful(s.(store := UpdateByUid(s.store, uid, pkt, st).0))
  {
    var i := FindUid(s.store, uid);
    if uid != 0 && i >= 0 {
      var s' := s.(store := UpdateByUid(s.store, uid, pkt, st).0);
      assert s.store[i] in s.store;
      forall m | m in s'.store
        ensures RowTrue(s', m)
      {
        if m in s.store { assert RowTrue(s, m); }
      }
    }
  }

  lemma FailReportKeeps(w: Since, s: State, uid: nat, busy: int, except: nat)
    requires Holding(w, s, busy, except)
    requires uid < s.nextUid
    ensures Holding(w, FailReport(s, uid), busy, if except == uid then 0 else except)
    ensures FailReport(s, uid).queue == s.queue && FailReport(s, uid).acks == s.acks
    ensures uid != 0 ==> !Owed(w, FailReport(s, uid).log, uid)
  {
    if uid != 0 {
      var s' := FailReport(s, uid);
      StampKeepsFaithful(s, uid, 0, Failed);
      forall u ensures Owed(w, s'.log, u) == (u != uid && Owed(w, s.log, u)) { OwedAppend(w, s.log, FailReported(uid), u); }
      assert Faithful(s');
    }
  }

  /** Growing the log, the counters or the book leaves what was true of rows,
      entries and acks true. */
  predicate Extends(s: State, s': State) {
    && s.nextUid <= s'.nextUid && s.nextPkt <= s'.nextPkt
    && (forall u :: u in s.book ==> u in s'.book && s'.book[u] == s.book[u])
    && (forall u :: u in s'.book ==> u in s.book || s.nextUid <= u < s'.nextUid)
    && s.log <= s'.log
  }

  lemma ExtendKeepsTruth(s: State, s': State)
    requires Faithful(s) && Extends(s, s')
    ensures forall i :: 0 <= i < |s.queue| ==> EntryTrue(s', s.queue[i])
    ensures forall m :: m in s.store ==> RowTrue(s', m)
    ensures forall e :: e in s.log ==> EventTrue(s', e)
    ensures forall i :: 0 <= i < |s.acks| ==> AckTrue(s', s.acks[i])
  {
    forall m | m in s.store ensures RowTrue(s', m) {
      assert RowTrue(s, m);
    }
    forall e | e in s.log ensures EventTrue(s', e) {
      assert EventTrue(s, e);
    }
  }

  lemma EnqueueFaithful(s: State, i: nat, e: Entry)
    requires Shape(s) && Faithful(s) && i < SLOTS && e.uid != 0 && EntryTrue(s, e) && e.used
    ensures Faithful(Enqueue(s, i, e))
  {
    var s' := Enqueue(s, i, e);
    ExtendKeepsTruth(s, s');
    assert s'.queue[i] == e;
  }

  lemma EnqueueConserved(w: Since, s: State, i: nat, e: Entry, except: nat)
    requires Shape(s) && w.log <= s.log && Conserved(w, s, except) && i < SLOTS && !s.queue[i].used && e.used
    ensures Conserved(w, Enqueue(s, i, e), if except == e.uid then 0 else except)
    ensures Holds(Enqueue(s, i, e).queue, e.uid)
  {
    var s' := Enqueue(s, i, e);
    forall u ensures Owed(w, s'.log, u) == (u == e.uid || Owed(w, s.log, u)) { OwedAppend(w, s.log, Enqueued(e.uid), u); }
    assert s'.queue[i] == e;
    forall u | Holds(s.queue, u) ensures Holds(s'.queue, u) {
      var k :| 0 <= k < |s.queue| && s.queue[k].used && s.queue[k].uid == u;
      assert s'.queue[k] == s.queue[k];
    }
  }

  lemma EnqueueKeeps(w: Since, s: State, i: nat, e: Entry, busy: int, except: nat)
    requires Holding(w, s, busy, except)
    requires i < SLOTS && !s.queue[i].used && i != busy
    requires e.used && e.uid != 0 && EntryTrue(s, e) && !Holds(s.queue, e.uid)
    ensures Holding(w, Enqueue(s, i, e), busy, if except == e.uid then 0 else except)
    ensures Holds(Enqueue(s, i, e).queue, e.uid)
  {
    hide Faithful, Conserved;
    EnqueueFaithful(s, i, e);
    EnqueueConserved(w, s, i, e, except);
  }

  lemma ReleaseKeeps(w: Since, s: State, i: nat, busy: int)
    requires Holding(w, s, busy, 0)
    requires i < SLOTS && (s.queue[i].uid != 0 ==> !Owed(w, s.log, s.queue[i].uid))
    ensures Holding(w, Release(s, i), if i == busy then -1 else busy, 0)
  {
    var s' := Release(s, i);
    forall u | u != 0 && Owed(w, s'.log, u) ensures Holds(s'.queue, u) {
      var k :| 0 <= k < |s.queue| && s.queue[k].used && s.queue[k].uid == u;
      assert s'.queue[k] == s.queue[k];
    }
    assert Faithful(s');
  }

  lemma ZeroNeverOwed(w: Since, s: State)
    requires Faithful(s) && 0 !in w.held
    ensures !Owed(w, s.log, 0)
  {
    ZeroNeverOwedIn(w, s, s.log);
  }

  lemma {:induction false} ZeroNeverOwedIn(w: Since, s: State, log: seq<Event>)
    requires 0 !in w.held && forall e :: e in log ==> EventTrue(s, e)
    ensures !Owed(w, log, 0)
    decreases |log|
  {
    if log != [] {
      assert log[|log| - 1] in log;
      ZeroNeverOwedIn(w, s, log[..|log| - 1]);
    }
  }

  lemma BlankKeeps(w: Since, s: State, i: nat)
    requires Inv(w, s) && i < SLOTS && s.queue[i].used
    ensures Holding(w, Blank(s, i), i, s.queue[i].uid)
    ensures !Holds(Blank(s, i).queue, s.queue[i].uid)
  {
    var s' := Blank(s, i);
    ZeroNeverOwed(w, s);
    forall u | u != s.queue[i].uid && Owed(w, s'.log, u) ensures Holds(s'.queue, u) {
      var k :| 0 <= k < |s.queue| && s.queue[k].used && s.queue[k].uid == u;
      assert s'.queue[k] == s.queue[k];
    }
    assert Faithful(s');
  }

  lemma RegisterKeeps(w: Since, s: State, dest: nat, data: seq<char>, busy: int, except: nat)
    requires Holding(w, s, busy, except)
    ensures Holding(w, Register(s, dest, data), busy, except)
    ensures !Holds(Register(s, dest, data).queue, s.nextUid)
    ensures FindUid(s.store, s.nextUid) < 0
  {
    var s' := Register(s, dest, data);
    ExtendKeepsTruth(s, s');
    forall k | 0 <= k < |s.store| ensures s.store[k].uid < s.nextUid {
      assert s.store[k] in s.store;
    }
    forall i | 0 <= i < |s.queue| ensures s.queue[i].used ==> s.queue[i].uid != s.nextUid {
      assert EntryTrue(s, s.queue[i]);
    }
    assert Faithful(s');
  }

  lemma AckAddKeeps(s: State, dest: nat, uid: nat, limit: nat, retryAt: nat)
    requires Faithful(s) && uid < s.nextUid && 0 < s.nextPkt
    ensures var acks := AckAdd(s.acks, s.nextPkt, dest, uid, limit, retryAt);
      forall i :: 0 <= i < |acks| ==> AckTrue(s.(nextPkt := s.nextPkt + 1), acks[i])
  {
  }

  lemma TransmitOtherKeeps(w: Since, s: State, dest: nat, limit: nat, retryAt: nat, busy: int, except: nat)
    requires Holding(w, s, busy, except)
    ensures Holding(w, TransmitOther(s, dest, limit, retryAt), busy, except)
  {
    var s' := TransmitOther(s, dest, limit, retryAt);
    OtherSentOwed(w, s, dest);
    ExtendKeepsTruth(s, s');
    AckAddKeeps(s, dest, 0, limit, retryAt);
    OtherSentFresh(s, dest);
    assert Faithful(s');
  }

  lemma FloodKeeps(w: Since, s: State)
    requires Inv(w, s)
    ensures Inv(w, Flood(s))
  {
    var s' := Flood(s);
    OtherSentOwed(w, s, BROADCAST);
    ExtendKeepsTruth(s, s');
    OtherSentFresh(s, BROADCAST);
    assert Faithful(s');
  }

  lemma OtherSentOwed(w: Since, s: State, dest: nat)
    requires |w.log| <= |s.log|
    ensures forall u :: Owed(w, s.log + [OtherSent(s.nextPkt, dest)], u) == Owed(w, s.log, u)
  {
    forall u ensures Owed(w, s.log + [OtherSent(s.nextPkt, dest)], u) == Owed(w, s.log, u) {
      OwedAppend(w, s.log, OtherSent(s.nextPkt, dest), u);
    }
  }

  lemma OtherSentFresh(s: State, dest: nat)
    requires Faithful(s) && 0 < s.nextPkt
    ensures DistinctPkts(s.log + [OtherSent(s.nextPkt, dest)])
  {
    SentBefore(s);
  }

  lemma SentBefore(s: State)
    requires Faithful(s)
    ensures forall i :: 0 <= i < |s.log| && IsSent(s.log[i]) ==> s.log[i].pkt < s.nextPkt
  {
    forall i | 0 <= i < |s.log| && IsSent(s.log[i]) ensures s.log[i].pkt < s.nextPkt {
      assert EventTrue(s, s.log[i]);
    }
  }

  lemma DrawPktKeeps(w: Since, s: State, busy: int, except: nat)
    requires Holding(w, s, busy, except)
    ensures Holding(w, s.(nextPkt := s.nextPkt + 1), busy, except)
  {
    var s' := s.(nextPkt := s.nextPkt + 1);
    ExtendKeepsTruth(s, s');
    assert Faithful(s');
  }

  lemma TransmitKeeps(w: Since, s: State, uid: nat, dest: nat, data: seq<char>, now: nat, busy: int, except: nat)
    requires Holding(w, s, busy, except)
    requires 0 < uid && uid in s.book && s.book[uid] == Message(dest, data)
    ensures var s' := Transmit(s, uid, dest, data, now);
      && Holding(w, s', busy, if except == uid then 0 else except)
      && !Owed(w, s'.log, uid)
      && Transmitted(uid, s.nextPkt, dest, data) in s'.log
  {
    var s' := Transmit(s, uid, dest, data, now);
    var e := Transmitted(uid, s.nextPkt, dest, data);
    forall u ensures Owed(w, s'.log, u) == (u != uid && Owed(w, s.log, u)) { OwedAppend(w, s.log, e, u); }
    ExtendKeepsTruth(s, s');
    AckAddKeeps(s, dest, uid, DM_TRIES, (now + DM_DELAY_MS) % WRAP);
    assert s'.log[|s.log|] == e;
    SentBefore(s);
    assert Faithful(s');
  }

  lemma AddRowKeeps(w: Since, s: State, row: Row, busy: int, except: nat)
    requires Holding(w, s, busy, except)
    requires RowTrue(s, row) && FindUid(s.store, row.uid) < 0
    ensures Holding(w, AddRow(s, row), busy, except)
  {
    var s' := AddRow(s, row);
    forall m | m in s'.store ensures RowTrue(s', m) {
      assert m == row || m in s.store;
      if m != row { assert RowTrue(s, m); }
    }
    var kept := if |s.store| < s.cap then s.store else s.store[1..];
    assert DistinctUids(kept);
    assert Faithful(s');
  }

  // --------------------------------------------------- the handlers keep it

  /** What a send is handed: nothing yet (uid 0) or the message its uid names. */
  predicate Genuine(s: State, uid: nat, dest: nat, data: seq<char>) {
    uid != 0 ==> uid in s.book && s.book[uid].dest == dest && Carries(data, s.book[uid].data)
  }

  /** Text that fits a DM frame was never clipped. */
  lemma ShortIsWhole(data: seq<char>, submitted: seq<char>)
    requires Carries(data, submitted) && |data| <= MAX_DM
    ensures data == submitted
  {
  }

  /** Every used awaiting-route slot is left exactly as it was. */
  predicate RouteSlotsKept(s: State, s': State) {
    |s.queue| == |s'.queue| == SLOTS &&
    forall i :: 0 <= i < SLOTS && s.queue[i].used && s.queue[i].reason == Route ==> s'.queue[i] == s.queue[i]
  }

  predicate SameUids(a: seq<Row>, b: seq<Row>) {
    |a| == |b| && forall k :: 0 <= k < |a| ==> a[k].uid == b[k].uid
  }

  lemma SendActiveKeeps(w: Since, s: State, dest: nat, data: seq<char>, uid: nat, env: Env, busy: int, except: nat)
    requires Holding(w, s, busy, except) && Genuine(s, uid, dest, data) && |data| <= MAX_DM
    requires except == 0 || except == uid
    ensures var s' := SendActive(s, dest, data, uid, env).0; Holding(w, s', busy, 0) && s'.queue == s.queue && s.book.Keys <= s'.book.Keys
  {
    hide Holding, Faithful;
    if !env.txOk {
      DrawPktKeeps(w, s, busy, except);
      UidBelow(w, s, uid, busy, except);
      FailReportKeeps(w, s.(nextPkt := s.nextPkt + 1), uid, busy, except);
    } else {
      var u := if uid != 0 then uid else s.nextUid;
      var s1 := if uid != 0 then s else Register(s, dest, data);
      if uid == 0 { RegisterKeeps(w, s, dest, data, busy, except); } else { ShortIsWhole(data, s.book[uid].data); }
      NextUidPositive(w, s, busy, except);
      TransmitKeeps(w, s1, u, dest, data, env.now, busy, except);
      StampSentKeeps(w, Transmit(s1, u, dest, data, env.now), u, s.nextPkt, dest, data, env.nowS, busy);
    }
  }

  lemma UidBelow(w: Since, s: State, uid: nat, busy: int, except: nat)
    requires Holding(w, s, busy, except) && (uid == 0 || uid in s.book)
    ensures uid < s.nextUid
  {
  }

  lemma NextUidPositive(w: Since, s: State, busy: int, except: nat)
    requires Holding(w, s, busy, except)
    ensures 0 < s.nextUid && 0 < s.nextPkt && Shape(s)
  {
  }

  lemma StampSentKeeps(w: Since, s: State, uid: nat, pkt: nat, dest: nat, data: seq<char>, nowS: nat, busy: int)
    requires Holding(w, s, busy, 0)
    requires uid != 0 && pkt != 0 && uid in s.book && s.book[uid] == Message(dest, data) && Transmitted(uid, pkt, dest, data) in s.log
    ensures Holding(w, StampSent(s, uid, pkt, dest, data, nowS), busy, 0)
  {
    var u := UpdateByUid(s.store, uid, pkt, Sent);
    if u.1 {
      StampKeepsFaithful(s, uid, pkt, Sent);
    } else {
      AddRowKeeps(w, s, Row(dest, uid, true, true, Sent, pkt, nowS, Clip(data)), busy, 0);
    }
  }

  /** The slot a drain is consuming stays used, and is an awaiting-route one. */
  predicate BusyIsRoute(q: seq<Entry>, busy: int) {
    busy >= 0 ==> busy < |q| && q[busy].used && q[busy].reason == Route
  }

  lemma NotHeld(q: seq<Entry>, uid: nat)
    ensures IndexOfUid(q, uid, 0) == |q| <==> !Holds(q, uid)
  {
    var i := IndexOfUid(q, uid, 0);
    if i < |q| { assert q[i].used && q[i].uid == uid; }
  }

  lemma QueueMessageKeeps(w: Since, s: State, dest: nat, data: seq<char>, uid: nat, now: nat, busy: int, except: nat)
    requires Holding(w, s, busy, except) && uid != 0 && Genuine(s, uid, dest, data)
    requires except == 0 || except == uid
    requires BusyIsRoute(s.queue, busy)
    ensures var r := QueueMessage(s, dest, data, uid, now);
      && Holding(w, r.0, busy, if r.1 then 0 else except) && RouteSlotsKept(s, r.0)
      && r.0.book == s.book && r.0.store == s.store
  {
    NotHeld(s.queue, uid);
    if Holds(s.queue, uid) {
      assert Conserved(w, s, 0);
    } else {
      var free := FirstFree(s.queue, 0);
      if free < SLOTS {
        EnqueueKeeps(w, s, free, Entry(true, Route, dest, data, now, 0, uid), busy, except);
      }
    }
  }

  lemma FailReportFrame(s: State, uid: nat)
    ensures var s' := FailReport(s, uid);
      s'.queue == s.queue && s'.acks == s.acks && s'.nextUid == s.nextUid && s'.book == s.book && SameUids(s.store, s'.store)
  {
  }

  lemma EntryUid(w: Since, s: State, i: nat, busy: int, except: nat)
    requires Holding(w, s, busy, except) && i < SLOTS && s.queue[i].used && i != busy
    ensures 0 < s.queue[i].uid < s.nextUid && (forall k :: 0 <= k < SLOTS && k != i && s.queue[k].used ==> s.queue[k].uid != s.queue[i].uid)
  {
    assert EntryTrue(s, s.queue[i]);
  }

  /** Making room keeps everything but the entry it fails. */
  lemma MakeRoomKeeps(w: Since, s: State, uid: nat, busy: int, except: nat)
    requires Holding(w, s, busy, except)
    requires !Holds(s.queue, uid) && (except == 0 || except == uid)
    requires BusyIsRoute(s.queue, busy)
    ensures var r := MakeRoom(s);
      && Holding(w, r.0, busy, except) && RouteSlotsKept(s, r.0)
      && !Holds(r.0.queue, uid) && r.0.nextUid == s.nextUid && r.0.book == s.book
      && (r.1 < SLOTS ==> r.1 != busy) && SameUids(s.store, r.0.store)
  {
    hide Holding, FailReport;
    NextUidPositive(w, s, busy, except);
    var free := FirstFree(s.queue, 0);
    if free == SLOTS {
      var oldest := OldestSession(s.queue, SLOTS);
      if oldest < SLOTS {
        var v := s.queue[oldest].uid;
        EntryUid(w, s, oldest, busy, except);
        assert v != uid;
        FailReportFrame(s, v);
        FailReportKeeps(w, s, v, busy, except);
        ReleaseKeepsExcept(w, FailReport(s, v), oldest, busy, except);
        assert forall k :: 0 <= k < SLOTS && k != oldest ==> MakeRoom(s).0.queue[k] == s.queue[k];
      }
    }
  }

  lemma ReleaseKeepsExcept(w: Since, s: State, i: nat, busy: int, except: nat)
    requires Holding(w, s, busy, except)
    requires i < SLOTS && i != busy && (s.queue[i].uid != 0 ==> !Owed(w, s.log, s.queue[i].uid))
    ensures Holding(w, Release(s, i), busy, except)
  {
    var s' := Release(s, i);
    ZeroNeverOwed(w, s);
    forall u | u != except && Owed(w, s'.log, u) ensures Holds(s'.queue, u) {
      var k :| 0 <= k < |s.queue| && s.queue[k].used && s.queue[k].uid == u;
      assert s'.queue[k] == s.queue[k];
    }
    assert Faithful(s');
  }

  /** A uid found in the queue is accounted for. */
  lemma HeldNeedsNoExcept(w: Since, s: State, uid: nat, busy: int, except: nat)
    requires Holding(w, s, busy, except) && (except == 0 || except == uid) && (except != 0 ==> Holds(s.queue, uid))
    ensures Holding(w, s, busy, 0)
  {
    if except != 0 { ZeroNeverOwed(w, s); }
  }

  lemma QueueSessionKeeps(w: Since, s: State, dest: nat, data: seq<char>, uid: nat, now: nat, busy: int, except: nat)
    requires Holding(w, s, busy, except) && uid != 0 && Genuine(s, uid, dest, data)
    requires |data| <= MAX_DM
    requires except == 0 || except == uid
    requires BusyIsRoute(s.queue, busy)
    ensures var r := QueueSession(s, dest, data, uid, now);
      && Holding(w, r.0, busy, if r.1 != 0 then 0 else except) && RouteSlotsKept(s, r.0)
      && r.0.nextUid == s.nextUid && r.0.book == s.book && SameUids(s.store, r.0.store)
  {
    hide Holding, MakeRoom, Holds, Faithful;
    NextUidPositive(w, s, busy, except);
    NotHeld(s.queue, uid);
    if Holds(s.queue, uid) {
      HeldNeedsNoExcept(w, s, uid, busy, except);
    } else {
      MakeRoomKeeps(w, s, uid, busy, except);
      var room := MakeRoom(s);
      if room.1 < SLOTS {
        var s1 := room.0;
        DrawPktKeeps(w, s1, busy, except);
        UidBelow(w, s, uid, busy, except);
        EnqueueKeeps(w, s1.(nextPkt := s1.nextPkt + 1), room.1, Entry(true, Session, dest, data, now, s1.nextPkt, uid), busy, except);
      }
    }
  }

  lemma FreshRowKeeps(w: Since, s: State, dest: nat, data: seq<char>, uid: nat, nowS: nat, busy: int)
    requires Holding(w, s, busy, 0) && uid in s.book && s.book[uid] == Message(dest, data) && FindUid(s.store, uid) < 0
    ensures Holding(w, AddRow(s, Row(dest, uid, true, true, NoStatus, 0, nowS, Clip(data))), busy, 0)
  {
    AddRowKeeps(w, s, Row(dest, uid, true, true, NoStatus, 0, nowS, Clip(data)), busy, 0);
  }

  lemma SendWaitingKeeps(w: Since, s: State, dest: nat, data: seq<char>, uid: nat, env: Env, busy: int, except: nat)
    requires Holding(w, s, busy, except) && Genuine(s, uid, dest, data) && BusyIsRoute(s.queue, busy)
    requires |data| <= MAX_DM
    requires except == 0 || except == uid
    ensures var s' := SendWaiting(s, dest, data, uid, env).0; Holding(w, s', busy, 0) && RouteSlotsKept(s, s') && s.book.Keys <= s'.book.Keys
  {
    hide Holding, Faithful, QueueSession;
    var u := if uid != 0 then uid else s.nextUid;
    var s1 := if uid != 0 then s else Register(s, dest, data);
    NextUidPositive(w, s, busy, except);
    if uid == 0 { RegisterKeeps(w, s, dest, data, busy, except); }
    QueueSessionKeeps(w, s1, dest, data, u, env.now, busy, except);
    var q := QueueSession(s1, dest, data, u, env.now);
    if q.1 == 0 {
      UidBelow(w, q.0, uid, busy, except);
      FailReportKeeps(w, q.0, uid, busy, except);
    } else {
      var s2 := if env.initTx then TransmitOther(q.0, dest, KE_TRIES, (env.now + KE_DELAY_MS) % WRAP) else q.0;
      if env.initTx { TransmitOtherKeeps(w, q.0, dest, KE_TRIES, (env.now + KE_DELAY_MS) % WRAP, busy, 0); }
      if uid == 0 { FreshRowKeeps(w, s2, dest, data, u, env.nowS, busy); }
    }
  }

  lemma SendUnroutedKeeps(w: Since, s: State, dest: nat, data: seq<char>, uid: nat, env: Env, busy: int, except: nat)
    requires Holding(w, s, busy, except) && Genuine(s, uid, dest, data) && BusyIsRoute(s.queue, busy)
    requires except == 0 || except == uid
    ensures var s' := SendUnrouted(s, dest, data, uid, env).0; Holding(w, s', busy, 0) && RouteSlotsKept(s, s') && s.book.Keys <= s'.book.Keys
  {
    hide Holding, Faithful, QueueMessage;
    var u := if uid != 0 then uid else s.nextUid;
    var s1 := if uid != 0 then s else Register(s, dest, data);
    NextUidPositive(w, s, busy, except);
    if uid == 0 { RegisterKeeps(w, s, dest, data, busy, except); }
    QueueMessageKeeps(w, s1, dest, data, u, env.now, busy, except);
    var q := QueueMessage(s1, dest, data, u, env.now);
    if !q.1 {
      UidBelow(w, q.0, uid, busy, except);
      FailReportKeeps(w, q.0, uid, busy, except);
    } else if uid == 0 {
      FreshRowKeeps(w, q.0, dest, data, u, env.nowS, busy);
    }
  }

  /** A send, direct or nested in a drain, keeps the invariant, accounts for
      the uid it was given, and never touches an awaiting-route slot in use. */
  lemma SendKeeps(w: Since, s: State, dest: nat, data: seq<char>, uid: nat, env: Env, busy: int, except: nat)
    requires Holding(w, s, busy, except) && Genuine(s, uid, dest, data) && BusyIsRoute(s.queue, busy)
    requires except == 0 || except == uid
    ensures var s' := Send(s, dest, data, uid, env).0; Holding(w, s', busy, 0) && RouteSlotsKept(s, s') && s.book.Keys <= s'.book.Keys
  {
    hide Holding, Faithful, SendActive, SendWaiting, SendUnrouted;
    UidBelow(w, s, uid, busy, except);
    NextUidPositive(w, s, busy, except);
    FailReportKeeps(w, s, uid, busy, except);
    SendUnroutedKeeps(w, s, dest, data, uid, env, busy, except);
    if |data| <= MAX_DM {
      SendWaitingKeeps(w, s, dest, data, uid, env, busy, except);
      SendActiveKeeps(w, s, dest, data, uid, env, busy, except);
    }
  }

  lemma DrainSlotKeeps(w: Since, s: State, dest: nat, i: nat, env: Env)
    requires Inv(w, s) && i < SLOTS
    ensures Inv(w, DrainSlot(s, dest, i, env))
  {
    hide Send;
    var e := s.queue[i];
    if e.used && e.reason == Route && e.dest == dest {
      assert EntryTrue(s, e);
      var s1 := Blank(s, i);
      BlankKeeps(w, s, i);
      SendKeeps(w, s1, dest, e.data, e.uid, env, i, e.uid);
      ReleaseKeeps(w, Send(s1, dest, e.data, e.uid, env).0, i, i);
    }
  }

  lemma {:induction false} DrainKeeps(w: Since, s: State, dest: nat, i: nat, envs: seq<Env>)
    requires Inv(w, s) && i <= SLOTS
    ensures Inv(w, Drain(s, dest, i, envs))
    decreases SLOTS - i
  {
    hide DrainSlot, Inv;
    if i < SLOTS {
      ShapeOf(w, s);
      DrainSlotKeeps(w, s, dest, i, At(envs, i));
      DrainKeeps(w, DrainSlot(s, dest, i, At(envs, i)), dest, i + 1, envs);
    }
  }

  lemma ShapeOf(w: Since, s: State)
    requires Inv(w, s)
    ensures Shape(s)
  {
  }

  lemma SessionSlotKeeps(w: Since, s: State, dest: nat, i: nat, env: Env)
    requires Inv(w, s) && i < SLOTS
    ensures Inv(w, SessionSlot(s, dest, i, env))
  {
    hide StampSent, Transmit, FailReport;
    var e := s.queue[i];
    if e.used && e.reason == Session && e.dest == dest {
      assert EntryTrue(s, e);
      if env.session == Active && env.txOk {
        ShortIsWhole(e.data, s.book[e.uid].data);
        TransmitFrame(s, e.uid, dest, e.data, env.now);
        TransmitKeeps(w, s, e.uid, dest, e.data, env.now, -1, 0);
        var s1 := Transmit(s, e.uid, dest, e.data, env.now);
        StampSentKeeps(w, s1, e.uid, s.nextPkt, dest, e.data, env.nowS, -1);
        StampSentFrame(s1, e.uid, s.nextPkt, dest, e.data, env.nowS);
        ReleaseKeeps(w, StampSent(s1, e.uid, s.nextPkt, dest, e.data, env.nowS), i, -1);
      } else {
        DrawPktKeeps(w, s, -1, 0);
        var s1 := if env.session == Active then s.(nextPkt := s.nextPkt + 1) else s;
        FailReportKeeps(w, s1, e.uid, -1, 0);
        ReleaseKeeps(w, FailReport(s1, e.uid), i, -1);
      }
    }
  }

  lemma TransmitFrame(s: State, uid: nat, dest: nat, data: seq<char>, now: nat)
    ensures var s' := Transmit(s, uid, dest, data, now); s'.queue == s.queue && s'.book == s.book
  {
  }

  lemma StampSentFrame(s: State, uid: nat, pkt: nat, dest: nat, data: seq<char>, nowS: nat)
    requires 0 < s.cap && |s.store| <= s.cap
    ensures var s' := StampSent(s, uid, pkt, dest, data, nowS); s'.queue == s.queue && s'.log == s.log
  {
  }

  lemma {:induction false} SessionFlushKeeps(w: Since, s: State, dest: nat, i: nat, envs: seq<Env>)
    requires Inv(w, s) && i <= SLOTS
    ensures Inv(w, SessionFlush(s, dest, i, envs))
    decreases SLOTS - i
  {
    hide SessionSlot, Inv;
    if i < SLOTS {
      ShapeOf(w, s);
      SessionSlotKeeps(w, s, dest, i, At(envs, i));
      SessionFlushKeeps(w, SessionSlot(s, dest, i, At(envs, i)), dest, i + 1, envs);
    }
  }

  /** A removal that reports its failure keeps the invariant. */
  lemma DropKeeps(w: Since, s: State, i: nat)
    requires Inv(w, s) && i < SLOTS && s.queue[i].used
    ensures Inv(w, Drop(s, i))
  {
    hide FailReport;
    assert EntryTrue(s, s.queue[i]);
    FailReportKeeps(w, s, s.queue[i].uid, -1, 0);
    ReleaseKeeps(w, FailReport(s, s.queue[i].uid), i, -1);
  }

  lemma {:induction false} ReapKeeps(w: Since, s: State, now: nat, i: nat)
    requires Inv(w, s) && i <= SLOTS
    ensures Inv(w, Reap(s, now, i))
    decreases SLOTS - i
  {
    hide Drop, Inv;
    if i < SLOTS {
      ShapeOf(w, s);
      if Overdue(s.queue[i], now) { DropKeeps(w, s, i); }
      ReapKeeps(w, if Overdue(s.queue[i], now) then Drop(s, i) else s, now, i + 1);
    }
  }

  lemma {:induction false} GiveUpKeeps(w: Since, s: State, dest: nat, i: nat)
    requires Inv(w, s) && i <= SLOTS
    ensures Inv(w, GiveUp(s, dest, i))
    decreases SLOTS - i
  {
    hide Drop, Inv;
    if i < SLOTS {
      ShapeOf(w, s);
      var e := s.queue[i];
      if e.used && e.reason == Route && e.dest == dest { DropKeeps(w, s, i); }
      GiveUpKeeps(w, if e.used && e.reason == Route && e.dest == dest then Drop(s, i) else s, dest, i + 1);
    }
  }

  /** Rows whose status alone changes stay true. */
  lemma RestatusKeeps(w: Since, s: State, rows: seq<Row>)
    requires Inv(w, s) && |rows| == |s.store|
    requires forall k :: 0 <= k < |rows| ==> rows[k] == s.store[k].(status := rows[k].status)
    ensures Inv(w, s.(store := rows))
  {
    var s' := s.(store := rows);
    forall m | m in rows ensures RowTrue(s', m) {
      var k :| 0 <= k < |rows| && rows[k] == m;
      assert s.store[k] in s.store;
    }
    assert Faithful(s');
  }

  lemma GiveUpFrameKeeps(w: Since, s: State, i: nat)
    requires Inv(w, s) && i < SLOTS
    ensures Inv(w, GiveUpFrame(s, i))
  {
    var s1 := s.(store := UpdateByPkt(s.store, s.acks[i].pkt, Failed).0);
    RestatusKeeps(w, s, s1.store);
    assert AckTrue(s1, s1.acks[i]);
    assert Faithful(Deactivate(s1, i));
  }

  lemma TickSlotKeeps(w: Since, s: State, now: nat, i: nat, k: Tick)
    requires Inv(w, s) && i < SLOTS
    ensures Inv(w, TickSlot(s, now, i, k))
  {
    hide GiveUpFrame;
    var a := s.acks[i];
    GiveUpFrameKeeps(w, s, i);
    if a.active && now >= a.retryAt && a.attempt < a.limit {
      var s' := TickSlot(s, now, i, k);
      assert AckTrue(s, a);
      ExtendKeepsTruth(s, s');
      forall u ensures Owed(w, s.log + [Retransmitted(a.pkt)], u) == Owed(w, s.log, u) { OwedAppend(w, s.log, Retransmitted(a.pkt), u); }
      assert Faithful(s');
    }
  }

  lemma {:induction false} AckTickKeeps(w: Since, s: State, now: nat, i: nat, ticks: seq<Tick>)
    requires Inv(w, s) && i <= SLOTS
    ensures Inv(w, AckTick(s, now, i, ticks))
    decreases SLOTS - i
  {
    hide TickSlot, Inv;
    if i < SLOTS {
      ShapeOf(w, s);
      TickSlotKeeps(w, s, now, i, TickAt(ticks, i));
      AckTickKeeps(w, TickSlot(s, now, i, TickAt(ticks, i)), now, i + 1, ticks);
    }
  }

  lemma {:induction false} FailFastKeeps(w: Since, s: State, dest: nat, i: nat)
    requires Inv(w, s) && i <= SLOTS
    ensures Inv(w, FailFast(s, dest, i))
    decreases SLOTS - i
  {
    hide GiveUpFrame, Inv;
    if i < SLOTS {
      ShapeOf(w, s);
      GiveUpFrameKeeps(w, s, i);
      FailFastKeeps(w, if s.acks[i].active && s.acks[i].dest == dest then GiveUpFrame(s, i) else s, dest, i + 1);
    }
  }

  lemma AckArrivesKeeps(w: Since, s: State, pkt: nat)
    requires Inv(w, s)
    ensures Inv(w, AckArrives(s, pkt))
  {
    var i := FindAck(s.acks, pkt, 0);
    var s1 := if i < SLOTS then Deactivate(s, i) else s;
    if i < SLOTS { assert AckTrue(s, s.acks[i]); }
    assert Faithful(s1);
    RestatusKeeps(w, s1, UpdateByPkt(s1.store, pkt, Delivered).0);
  }

  /** A row with a booked uid is a sound thing to send again. */
  lemma RowIsGenuine(w: Since, s: State, uid: nat)
    requires Inv(w, s) && uid in s.book
    ensures var i := FindUid(s.store, uid); i >= 0 ==> Genuine(s, uid, s.store[i].peer, s.store[i].text)
  {
    var i := FindUid(s.store, uid);
    assert i >= 0 ==> s.store[i] in s.store;
  }

  lemma FlushRowKeeps(w: Since, s: State, uid: nat, env: Env)
    requires Inv(w, s) && uid in s.book
    ensures Inv(w, FlushRow(s, uid, env)) && s.book.Keys <= FlushRow(s, uid, env).book.Keys
  {
    hide Send;
    var i := FindUid(s.store, uid);
    RowIsGenuine(w, s, uid);
    if i >= 0 {
      SendKeeps(w, s, s.store[i].peer, s.store[i].text, uid, env, -1, 0);
    }
  }

  lemma {:induction false} FlushRowsKeeps(w: Since, s: State, uids: seq<nat>, envs: seq<Env>)
    requires Inv(w, s) && forall u :: u in uids ==> u in s.book
    ensures Inv(w, FlushRows(s, uids, envs))
    decreases |uids|
  {
    hide FlushRow, Inv;
    if uids != [] {
      ShapeOf(w, s);
      FlushRowKeeps(w, s, uids[0], At(envs, 0));
      FlushRowsKeeps(w, FlushRow(s, uids[0], At(envs, 0)), uids[1..], if envs == [] then [] else envs[1..]);
    }
  }

  lemma FlushParkedKeeps(w: Since, s: State, peer: nat, nowS: nat, envs: seq<Env>)
    requires Inv(w, s)
    ensures Inv(w, FlushParked(s, peer, nowS, envs))
  {
    forall u | u in ParkedUids(s.store, peer, nowS) ensures u in s.book {
      var m :| m in s.store && m.uid == u && m.peer == peer && Selected(m, nowS);
      assert RowTrue(s, m);
    }
    FlushRowsKeeps(w, s, ParkedUids(s.store, peer, nowS), envs);
  }

  lemma RetryKeeps(w: Since, s: State, uid: nat, env: Env)
    requires Inv(w, s)
    ensures Inv(w, Retry(s, uid, env))
  {
    hide Send;
    var i := FindUid(s.store, uid);
    if i >= 0 && Retryable(s.store[i]) {
      assert RowTrue(s, s.store[i]);
      SendKeeps(w, s, s.store[i].peer, s.store[i].text, uid, env, -1, 0);
    }
  }

  lemma ParkKeeps(w: Since, s: State, uid: nat, nowS: nat)
    requires Inv(w, s)
    ensures Inv(w, Park(s, uid, nowS))
  {
    StampKeepsFaithful(s, uid, 0, Queued);
  }

  lemma ReceiveKeeps(w: Since, s: State, peer: nat, text: seq<char>, nowS: nat)
    requires Inv(w, s)
    ensures Inv(w, Receive(s, peer, text, nowS))
  {
    var s1 := s.(nextUid := s.nextUid + 1);
    ExtendKeepsTruth(s, s1);
    forall k | 0 <= k < |s.store| ensures s.store[k].uid < s.nextUid {
      assert s.store[k] in s.store;
    }
    assert Faithful(s1);
    AddRowKeeps(w, s1, Row(peer, s.nextUid, false, true, NoStatus, 0, nowS, Clip(text)), -1, 0);
  }

  /** Every step of the pipeline keeps the invariant. */
  lemma DoKeeps(w: Since, s: State, step: Step)
    requires Inv(w, s)
    ensures Inv(w, Do(s, step))
  {
    hide Inv, Send, Retry, Drain, SessionFlush, Reap, GiveUp, AckTick, FailFast, AckArrives, Park, FlushParked, Receive, TransmitOther, Flood, Unpark, Expire;
    ShapeOf(w, s);
    match step
    case SubmitStep(dest, data, env) => SubmitKeeps(w, s, dest, data, env);
    case RetryStep(uid, env) => RetryKeeps(w, s, uid, env);
    case RouteFoundStep(dest, envs) => DrainKeeps(w, s, dest, 0, envs);
    case SessionUpStep(dest, envs) => SessionFlushKeeps(w, s, dest, 0, envs);
    case ReapStep(now) => ReapKeeps(w, s, now, 0);
    case GiveUpStep(dest) => GiveUpKeeps(w, s, dest, 0);
    case AckTickStep(now, ticks) => AckTickKeeps(w, s, now, 0, ticks);
    case RouteErrorStep(dest) => FailFastKeeps(w, s, dest, 0);
    case AckStep(pkt) => AckArrivesKeeps(w, s, pkt);
    case ParkStep(uid, nowS) => ParkKeeps(w, s, uid, nowS);
    case CancelStep(uid) => UnparkKeeps(w, s, uid);
    case ExpireStep(nowS) => ExpireKeeps(w, s, nowS);
    case FlushParkedStep(peer, nowS, envs) => FlushParkedKeeps(w, s, peer, nowS, envs);
    case ReceiveStep(peer, text, nowS) => ReceiveKeeps(w, s, peer, text, nowS);
    case OtherFrameStep(dest, limit, retryAt) => OtherFrameKeeps(w, s, dest, limit, retryAt);
    case FloodStep => FloodKeeps(w, s);
    case OtherIdStep => OtherIdKeeps(w, s);
  }

  lemma SubmitKeeps(w: Since, s: State, dest: nat, data: seq<char>, env: Env)
    requires Inv(w, s)
    ensures Inv(w, Send(s, dest, data, 0, env).0)
  {
    hide Send;
    SendKeeps(w, s, dest, data, 0, env, -1, 0);
  }

  lemma UnparkKeeps(w: Since, s: State, uid: nat)
    requires Inv(w, s)
    ensures Inv(w, s.(store := Unpark(s.store, uid).0))
  {
    RestatusKeeps(w, s, Unpark(s.store, uid).0);
  }

  lemma ExpireKeeps(w: Since, s: State, nowS: nat)
    requires Inv(w, s)
    ensures Inv(w, s.(store := Expire(s.store, nowS)))
  {
    RestatusKeeps(w, s, Expire(s.store, nowS));
  }

  lemma OtherFrameKeeps(w: Since, s: State, dest: nat, limit: nat, retryAt: nat)
    requires Inv(w, s)
    ensures Inv(w, TransmitOther(s, dest, limit, retryAt))
  {
    TransmitOtherKeeps(w, s, dest, limit, retryAt, -1, 0);
  }

  lemma OtherIdKeeps(w: Since, s: State)
    requires Inv(w, s)
    ensures Inv(w, s.(nextPkt := s.nextPkt + 1))
  {
    DrawPktKeeps(w, s, -1, 0);
  }

  // ------------------------------------------------------- over every run

  /** Accounting from power-on. */
  function Boot(): Since { Since([], {}, 0, map[]) }

  lemma InitInv(cap: nat, firstPkt: nat)
    requires 0 < cap && 0 < firstPkt
    ensures Inv(Boot(), Init(cap, firstPkt))
  {
  }

  /** The invariant holds in every reachable state. */
  lemma {:induction false} InvEveryRun(cap: nat, firstPkt: nat, steps: seq<Step>)
    requires 0 < cap && 0 < firstPkt
    ensures Inv(Boot(), Run(Init(cap, firstPkt), steps))
    decreases |steps|
  {
    hide Inv, Do;
    InitInv(cap, firstPkt);
    if steps != [] {
      InvEveryRun(cap, firstPkt, steps[..|steps| - 1]);
      ShapeOf(Boot(), Run(Init(cap, firstPkt), steps[..|steps| - 1]));
      DoKeeps(Boot(), Run(Init(cap, firstPkt), steps[..|steps| - 1]), steps[|steps| - 1]);
    }
  }

  /** Something in the log about the uid that is not its being queued. */
  predicate Answered(e: Event, uid: nat) {
    (e.Transmitted? && e.uid == uid) || (e.FailReported? && e.uid == uid)
  }

  /** What Owed means: either an answer came after the last time it was queued, or it is owed. */
  lemma {:induction false} OwedMeaning(w: Since, log: seq<Event>, uid: nat)
    requires |w.log| <= |log|
    ensures uid in w.held && !Owed(w, log, uid) ==> exists j :: |w.log| <= j < |log| && Answered(log[j], uid)
    ensures forall k :: |w.log| <= k < |log| && log[k] == Enqueued(uid) && !Owed(w, log, uid) ==>
      exists j :: k < j < |log| && Answered(log[j], uid)
    decreases |log|
  {
    if |w.log| < |log| {
      var shorter := log[..|log| - 1];
      OwedMeaning(w, shorter, uid);
      forall k | |w.log| <= k < |log| && log[k] == Enqueued(uid) && !Owed(w, log, uid)
        ensures exists j :: k < j < |log| && Answered(log[j], uid)
      {
        if !Answered(log[|log| - 1], uid) {
          assert shorter[k] == log[k];
          var j :| k < j < |shorter| && Answered(shorter[j], uid);
          assert log[j] == shorter[j];
        }
      }
      if uid in w.held && !Owed(w, log, uid) && !Answered(log[|log| - 1], uid) {
        var j :| |w.log| <= j < |shorter| && Answered(shorter[j], uid);
        assert log[j] == shorter[j];
      }
    }
  }

  /** In every reachable state no two used entries share a uid, and none lacks one. */
  lemma UniqueEntryEveryRun(cap: nat, firstPkt: nat, steps: seq<Step>)
    requires 0 < cap && 0 < firstPkt
    ensures var q := Run(Init(cap, firstPkt), steps).queue;
      && |q| == SLOTS
      && (forall i :: 0 <= i < SLOTS && q[i].used ==> q[i].uid != 0)
      && (forall i, j :: 0 <= i < SLOTS && 0 <= j < SLOTS && q[i].used && q[j].used && q[i].uid == q[j].uid ==> i == j)
  {
    hide Run;
    InvEveryRun(cap, firstPkt, steps);
  }

  /** In every reachable state, a message ever queued is still queued or was
      answered for after it was last queued. */
  lemma ConservationEveryRun(cap: nat, firstPkt: nat, steps: seq<Step>, k: nat, uid: nat)
    requires 0 < cap && 0 < firstPkt
    requires var s := Run(Init(cap, firstPkt), steps); k < |s.log| && s.log[k] == Enqueued(uid)
    ensures var s := Run(Init(cap, firstPkt), steps);
      Holds(s.queue, uid) || exists j :: k < j < |s.log| && Answered(s.log[j], uid)
  {
    hide Run;
    InvEveryRun(cap, firstPkt, steps);
    var s := Run(Init(cap, firstPkt), steps);
    assert s.log[k] in s.log && EventTrue(s, s.log[k]);
    OwedMeaning(Boot(), s.log, uid);
  }

  function HeldUids(q: seq<Entry>): (r: set<nat>)
    ensures forall u :: u in r <==> Holds(q, u)
  {
    set i | 0 <= i < |q| && q[i].used :: q[i].uid
  }

  /** Accounting from this very state. */
  function Now(s: State): Since { Since(s.log, HeldUids(s.queue), s.nextPkt, s.book) }

  lemma NowInv(w: Since, s: State)
    requires Inv(w, s)
    ensures Inv(Now(s), s)
  {
  }

  /** Every removal is matched in the very step that makes it: a uid queued
      before any step and not after it was transmitted or failed in that step. */
  lemma RemovalIsMatched(cap: nat, firstPkt: nat, steps: seq<Step>, step: Step, uid: nat)
    requires 0 < cap && 0 < firstPkt
    ensures var s := Run(Init(cap, firstPkt), steps);
      var s' := Do(s, step);
      && s.log <= s'.log
      && (Holds(s.queue, uid) && !Holds(s'.queue, uid) ==>
          exists j :: |s.log| <= j < |s'.log| && Answered(s'.log[j], uid))
  {
    hide Run, Do;
    InvEveryRun(cap, firstPkt, steps);
    var s := Run(Init(cap, firstPkt), steps);
    var w := Now(s);
    NowInv(Boot(), s);
    DoKeeps(w, s, step);
    OwedMeaning(w, Do(s, step).log, uid);
  }

  /** Every frame on the air carries, whole and to the right node, what the
      user submitted under its uid, and no packet id is used twice. */
  lemma FramesCarryTheMessage(cap: nat, firstPkt: nat, steps: seq<Step>, i: nat, j: nat)
    requires 0 < cap && 0 < firstPkt
    ensures var s := Run(Init(cap, firstPkt), steps);
      && (i < |s.log| && s.log[i].Transmitted? ==>
          s.log[i].uid in s.book && s.book[s.log[i].uid] == Message(s.log[i].dest, s.log[i].data))
      && (i < j < |s.log| && IsSent(s.log[i]) && IsSent(s.log[j]) ==> s.log[i].pkt != s.log[j].pkt)
  {
    hide Run;
    InvEveryRun(cap, firstPkt, steps);
    var s := Run(Init(cap, firstPkt), steps);
    assert i < |s.log| ==> s.log[i] in s.log && EventTrue(s, s.log[i]);
  }

  /** A stored row shows the message its uid was submitted for, one row per
      uid, and its packet id names a frame transmitted for that message. */
  lemma RowsTellTheTruth(cap: nat, firstPkt: nat, steps: seq<Step>, i: nat)
    requires 0 < cap && 0 < firstPkt
    requires i < |Run(Init(cap, firstPkt), steps).store|
    ensures var s := Run(Init(cap, firstPkt), steps);
      var m := s.store[i];
      && (forall j :: 0 <= j < |s.store| && s.store[j].uid == m.uid ==> i == j)
      && (m.outgoing && m.dm ==> m.uid in s.book && m.peer == s.book[m.uid].dest && m.text == Clip(s.book[m.uid].data))
      && (m.pkt != 0 ==> m.uid in s.book && Transmitted(m.uid, m.pkt, m.peer, s.book[m.uid].data) in s.log)
  {
    hide Run;
    InvEveryRun(cap, firstPkt, steps);
    var s := Run(Init(cap, firstPkt), steps);
    assert s.store[i] in s.store && RowTrue(s, s.store[i]);
  }

  /** During a drain the nested send leaves the slot being read, and every
      other awaiting-route entry, exactly as it was: the payload sent is the
      one queued, and the release frees the slot that held it. */
  lemma NestedSendKeepsRouteSlots(cap: nat, firstPkt: nat, steps: seq<Step>, i: nat, env: Env, k: nat)
    requires 0 < cap && 0 < firstPkt && i < SLOTS && k < SLOTS
    requires var s := Run(Init(cap, firstPkt), steps);
      s.queue[i].used && s.queue[i].reason == Route && s.queue[k].used && s.queue[k].reason == Route
    ensures var s := Run(Init(cap, firstPkt), steps);
      var nested := Send(Blank(s, i), s.queue[i].dest, s.queue[i].data, s.queue[i].uid, env).0;
      nested.queue[k] == Blank(s, i).queue[k]
  {
    hide Run, Send;
    InvEveryRun(cap, firstPkt, steps);
    var s := Run(Init(cap, firstPkt), steps);
    var e := s.queue[i];
    assert EntryTrue(s, e);
    BlankKeeps(Boot(), s, i);
    SendKeeps(Boot(), Blank(s, i), e.dest, e.data, e.uid, env, i, e.uid);
  }
}
